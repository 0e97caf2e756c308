/** Responses that come late to a batch: HandleResponse and the return of SendBatchRequest in
    pkg/transport/streamable_http.go.

    HandleResponse looks a handler up, runs it, and removes it, each on its own.  A batch that returns
    removes its handlers and closes the channels it still waits on, and a handler that sends on a
    closed channel panics, also in a select with a default.  Channels are numbered as they are
    made. */
module LateResponses {

  /** The handlers by id, the number of channels made, the closed ones, and the handlers that have
      been looked up and not yet run, by the number of their call. */
  datatype Wire = Wire(handlers: map<string, nat>, made: nat, closed: set<nat>, running: map<nat, nat>)

  const NewWire := Wire(map[], 0, {}, map[])

  datatype Action =
    | Install(id: string)
    | LookUp(call: nat, id: string)
    | Send(call: nat)
    | Forget(id: string)
    | Return(ids: seq<string>, waiting: set<nat>)

  /** A batch returns with channels that it made itself and installed under its own ids. */
  ghost predicate Enabled(w: Wire, a: Action) {
    match a
    case Install(_) => true
    case LookUp(call, id) => call !in w.running && id in w.handlers
    case Send(call) => call in w.running
    case Forget(_) => true
    case Return(ids, waiting) =>
      && (forall ch :: ch in waiting ==> ch < w.made)
      && (forall id :: id in w.handlers && id !in ids ==> w.handlers[id] !in waiting)
  }

  function After(w: Wire, a: Action): Wire {
    match a
    case Install(id) => w.(handlers := w.handlers[id := w.made], made := w.made + 1)
    case LookUp(call, id) => if id in w.handlers then w.(running := w.running[call := w.handlers[id]]) else w
    case Send(call) => w.(running := w.running - {call})
    case Forget(id) => w.(handlers := w.handlers - {id})
    case Return(ids, waiting) =>
      w.(handlers := map id | id in w.handlers && id !in ids :: w.handlers[id], closed := w.closed + waiting)
  }

  /** The send of a call meets a closed channel. */
  predicate Panics(w: Wire, call: nat) {
    call in w.running && w.running[call] in w.closed
  }

  /** No installed handler sends to a closed channel. */
  ghost predicate OpenHandlers(w: Wire) {
    && (forall id :: id in w.handlers ==> w.handlers[id] < w.made && w.handlers[id] !in w.closed)
    && (forall ch :: ch in w.closed ==> ch < w.made)
  }

  ghost predicate IsRun(states: seq<Wire>, actions: seq<Action>) {
    && |states| == |actions| + 1 && states[0] == NewWire
    && forall i, j :: 0 <= i < |actions| && j == i + 1 ==>
         Enabled(states[i], actions[i]) && states[j] == After(states[i], actions[i])
  }

  lemma {:induction false} HandlersStayOpen(states: seq<Wire>, actions: seq<Action>, n: nat)
    requires IsRun(states, actions) && n < |states|
    ensures OpenHandlers(states[n])
  {
    if n > 0 {
      HandlersStayOpen(states, actions, n - 1);
      assert states[n] == After(states[n - 1], actions[n - 1]);
    }
  }

  /** At step m a batch returned that still waited on the channel to which the call, looked up before,
      was about to send; and the call has not sent since. */
  ghost predicate OvertakenAt(states: seq<Wire>, actions: seq<Action>, m: nat, n: nat, call: nat) {
    && m < n < |states| && m < |actions| && actions[m].Return?
    && call in states[n].running && states[n].running[call] in actions[m].waiting
    && forall k :: m <= k < n ==> call in states[k].running && states[k].running[call] == states[n].running[call]
  }

  lemma {:induction false} PanicsMeansOvertaken(states: seq<Wire>, actions: seq<Action>, n: nat, call: nat)
    requires IsRun(states, actions) && n < |states| && Panics(states[n], call)
    ensures exists m: nat :: OvertakenAt(states, actions, m, n, call)
  {
    var ch := states[n].running[call];
    HandlersStayOpen(states, actions, n - 1);
    var before, a := states[n - 1], actions[n - 1];
    assert Enabled(before, a) && states[n] == After(before, a);
    if Panics(before, call) && before.running[call] == ch {
      PanicsMeansOvertaken(states, actions, n - 1, call);
      var m: nat :| OvertakenAt(states, actions, m, n - 1, call);
      assert OvertakenAt(states, actions, m, n, call);
    } else {
      assert OvertakenAt(states, actions, n - 1, n, call);
    }
  }

  lemma {:induction false} ClosedStaysClosed(states: seq<Wire>, actions: seq<Action>, m: nat, n: nat, ch: nat)
    requires IsRun(states, actions) && m <= n < |states| && ch in states[m].closed
    ensures ch in states[n].closed
    decreases n
  {
    if m < n {
      ClosedStaysClosed(states, actions, m, n - 1, ch);
      assert states[n] == After(states[n - 1], actions[n - 1]);
    }
  }

  /** A send meets a closed channel exactly if, between the lookup of its handler and the send, a batch
      returned that still waited on that channel. */
  lemma {:induction false} SendPanicsIff(states: seq<Wire>, actions: seq<Action>, n: nat, call: nat)
    requires IsRun(states, actions) && n < |actions| && actions[n] == Send(call)
    ensures Panics(states[n], call) <==> exists m: nat :: OvertakenAt(states, actions, m, n, call)
  {
    if Panics(states[n], call) {
      PanicsMeansOvertaken(states, actions, n, call);
    }
    if m: nat :| OvertakenAt(states, actions, m, n, call) {
      var ch := states[n].running[call];
      assert Enabled(states[n], actions[n]);
      assert states[m + 1] == After(states[m], actions[m]);
      ClosedStaysClosed(states, actions, m + 1, n, ch);
    }
  }

  /** It does happen: a handler is looked up, its batch times out, the handler runs. */
  lemma LateSendPanics()
    ensures var actions := [Install("1"), LookUp(0, "1"), Return(["1"], {0}), Send(0)];
            exists states :: IsRun(states, actions) && Panics(states[3], 0)
  {
    var actions := [Install("1"), LookUp(0, "1"), Return(["1"], {0}), Send(0)];
    var w1 := After(NewWire, actions[0]);
    assert w1 == Wire(map["1" := 0], 1, {}, map[]);
    var w2 := After(w1, actions[1]);
    assert w2 == w1.(running := map[0 := 0]);
    var w3 := After(w2, actions[2]);
    assert w3.closed == {0} && w3.running == w2.running;
    assert Enabled(w2, actions[2]);
    var states := [NewWire, w1, w2, w3, After(w3, actions[3])];
    assert Enabled(states[0], actions[0]) && Enabled(states[1], actions[1]);
    assert Enabled(states[2], actions[2]) && Enabled(states[3], actions[3]);
    forall i, j | 0 <= i < |actions| && j == i + 1
      ensures Enabled(states[i], actions[i]) && states[j] == After(states[i], actions[i])
    {
      assert i == 0 || i == 1 || i == 2 || i == 3;
    }
    assert IsRun(states, actions) && Panics(states[3], 0);
  }
}
