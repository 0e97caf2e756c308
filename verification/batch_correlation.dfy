/** Correlating the responses of a JSON-RPC batch with its requests: SendBatchRequest and
    HandleResponse of pkg/transport/streamable_http.go.

    An id is the text it is rendered as.  A channel of capacity one is a numbered slot, empty or
    holding a response.  What other goroutines do while the batch waits is a sequence of rounds:
    the responses that HandleResponse is given between one pass over the channels and the next.
    When the rounds are used up, the timer or the caller's context ends the wait. */
module BatchCorrelation {
  import opened Common

  datatype Item = Request(id: string) | Notification

  datatype Response = Response(id: string, body: string)

  datatype Error = EmptyBatch | SendFailed | TimedOut | Cancelled

  datatype Delivery = Stored | Dropped | Panicked

  /** The ids of the requests of a batch, in order; notifications have none. */
  function RequestIds(batch: seq<Item>): seq<string> {
    if batch == [] then []
    else (if batch[0].Request? then [batch[0].id] else []) + RequestIds(batch[1..])
  }

  lemma {:induction false} IdsOfRequests(batch: seq<Item>)
    ensures |RequestIds(batch)| <= |batch|
    ensures forall id :: id in RequestIds(batch) <==> Request(id) in batch
  {
    if batch != [] {
      IdsOfRequests(batch[1..]);
      assert forall item :: item in batch <==> item == batch[0] || item in batch[1..];
    }
  }

  /** The positions, in increasing order, are those of the batch's requests, and the ids are theirs. */
  ghost predicate PositionsOf(batch: seq<Item>, positions: seq<nat>, ids: seq<string>) {
    && |positions| == |ids|
    && (forall i :: 0 <= i < |ids| ==> positions[i] < |batch| && batch[positions[i]] == Request(ids[i]))
    && (forall i, j :: 0 <= i < j < |positions| ==> positions[i] < positions[j])
    && (forall k :: 0 <= k < |batch| && batch[k].Request? ==> k in positions)
  }

  lemma PositionsShift(item: Item, rest: seq<Item>, later: seq<nat>, ids: seq<string>) returns (positions: seq<nat>)
    requires PositionsOf(rest, later, ids)
    ensures PositionsOf([item] + rest, positions, (if item.Request? then [item.id] else []) + ids)
  {
    var shifted := seq(|later|, i requires 0 <= i < |later| => later[i] + 1);
    positions := (if item.Request? then [0] else []) + shifted;
    var batch := [item] + rest;
    forall k | 0 <= k < |batch| && batch[k].Request?
      ensures k in positions
    {
      if k > 0 {
        assert rest[k - 1].Request?;
        var i :| 0 <= i < |later| && later[i] == k - 1;
        assert shifted[i] == k && shifted[i] in shifted;
      }
    }
  }

  lemma {:induction false} IdPositions(batch: seq<Item>) returns (positions: seq<nat>)
    ensures PositionsOf(batch, positions, RequestIds(batch))
  {
    if batch == [] {
      positions := [];
    } else {
      var later := IdPositions(batch[1..]);
      positions := PositionsShift(batch[0], batch[1..], later, RequestIds(batch[1..]));
      assert [batch[0]] + batch[1..] == batch;
    }
  }

  // ---------------------------------------------------------------------------------------
  // The first response for an id
  // ---------------------------------------------------------------------------------------

  function FirstFor(arrived: seq<Response>, id: string): (first: Option<Response>)
    ensures first.Some? ==> first.value in arrived && first.value.id == id
    ensures first.None? ==> forall r :: r in arrived ==> r.id != id
  {
    if arrived == [] then None
    else if arrived[0].id == id then Some(arrived[0])
    else FirstFor(arrived[1..], id)
  }

  lemma {:induction false} FirstOfAppend(a: seq<Response>, b: seq<Response>, id: string)
    ensures FirstFor(a + b, id) == if FirstFor(a, id).Some? then FirstFor(a, id) else FirstFor(b, id)
  {
    if a == [] {
      assert a + b == b;
    } else {
      assert (a + b)[1..] == a[1..] + b;
      FirstOfAppend(a[1..], b, id);
    }
  }

  function Arrived(rounds: seq<seq<Response>>): seq<Response> {
    if rounds == [] then [] else Arrived(rounds[..|rounds| - 1]) + rounds[|rounds| - 1]
  }

  /** Later arrivals do not change which response came first. */
  lemma {:induction false} FirstStays(rounds: seq<seq<Response>>, k: nat, id: string)
    requires k <= |rounds| && FirstFor(Arrived(rounds[..k]), id).Some?
    ensures FirstFor(Arrived(rounds), id) == FirstFor(Arrived(rounds[..k]), id)
    decreases |rounds|
  {
    if k == |rounds| {
      assert rounds[..k] == rounds;
    } else {
      var n := |rounds| - 1;
      assert rounds[..n][..k] == rounds[..k];
      FirstStays(rounds[..n], k, id);
      FirstOfAppend(Arrived(rounds[..n]), rounds[n], id);
    }
  }

  // ---------------------------------------------------------------------------------------
  // What a batch is answered with
  // ---------------------------------------------------------------------------------------

  ghost predicate AllAnswered(ids: seq<string>, arrived: seq<Response>) {
    forall i :: 0 <= i < |ids| ==> FirstFor(arrived, ids[i]).Some?
  }

  function Answers(ids: seq<string>, arrived: seq<Response>): (answers: seq<Response>)
    requires AllAnswered(ids, arrived)
    ensures |answers| == |ids|
    ensures forall i :: 0 <= i < |ids| ==> Some(answers[i]) == FirstFor(arrived, ids[i])
  {
    if ids == [] then []
    else
      assert FirstFor(arrived, ids[0]).Some?;
      assert forall i :: 0 <= i < |ids[1..]| ==> ids[1..][i] == ids[1 + i];
      [FirstFor(arrived, ids[0]).value] + Answers(ids[1..], arrived)
  }

  /** A batch succeeds exactly when no two of its requests have the same id text and each has been
      answered before the wait ends. */
  ghost function Outcome(ids: seq<string>, arrived: seq<Response>, end: Error): Result<seq<Response>, Error> {
    if NoDuplicates(ids) && AllAnswered(ids, arrived) then Success(Answers(ids, arrived)) else Failure(end)
  }

  ghost predicate OneResponsePerId(arrived: seq<Response>) {
    forall r, q :: r in arrived && q in arrived && r.id == q.id ==> r == q
  }

  ghost predicate NoRequestTwice(batch: seq<Item>) {
    forall i, j :: 0 <= i < j < |batch| && batch[i].Request? ==> batch[i] != batch[j]
  }

  /** The answers are those of the requests at these positions: all requests, in the batch's order. */
  ghost predicate AnswersInOrder(batch: seq<Item>, positions: seq<nat>, answers: seq<Response>) {
    && |positions| == |answers|
    && (forall i :: 0 <= i < |answers| ==> positions[i] < |batch| && batch[positions[i]] == Request(answers[i].id))
    && (forall i, j :: 0 <= i < j < |positions| ==> positions[i] < positions[j])
    && (forall k :: 0 <= k < |batch| && batch[k].Request? ==> k in positions)
  }

  /** The response has arrived, and none with its id before it. */
  ghost predicate IsFirst(arrived: seq<Response>, r: Response) {
    exists j :: 0 <= j < |arrived| && arrived[j] == r && forall k :: 0 <= k < j ==> arrived[k].id != r.id
  }

  lemma {:induction false} FirstIsFirst(arrived: seq<Response>, id: string)
    ensures FirstFor(arrived, id).Some? ==> IsFirst(arrived, FirstFor(arrived, id).value)
  {
    if arrived != [] && arrived[0].id != id && FirstFor(arrived, id).Some? {
      var rest := arrived[1..];
      FirstIsFirst(rest, id);
      var j :| 0 <= j < |rest| && rest[j] == FirstFor(rest, id).value && forall k :: 0 <= k < j ==> rest[k].id != id;
      assert arrived[j + 1] == rest[j];
      assert forall k :: 0 <= k < j + 1 ==> arrived[k].id != id by {
        assert forall k :: 0 < k < j + 1 ==> arrived[k] == rest[k - 1];
      }
    } else if arrived != [] && arrived[0].id == id {
      assert arrived[0] == FirstFor(arrived, id).value;
    }
  }

  lemma DistinctRequests(batch: seq<Item>)
    ensures NoDuplicates(RequestIds(batch)) <==> NoRequestTwice(batch)
  {
    var ids := RequestIds(batch);
    var f := IdPositions(batch);
    if NoDuplicates(ids) {
      forall i, j | 0 <= i < j < |batch| && batch[i].Request?
        ensures batch[i] != batch[j]
      {
        if batch[j].Request? {
          var a :| 0 <= a < |f| && f[a] == i;
          var b :| 0 <= b < |f| && f[b] == j;
          assert a < b;
          assert ids[a] != ids[b];
        }
      }
    }
  }

  lemma AnsweredRequests(batch: seq<Item>, arrived: seq<Response>)
    ensures AllAnswered(RequestIds(batch), arrived)
            <==> forall id :: Request(id) in batch ==> exists r :: r in arrived && r.id == id
  {
    var ids := RequestIds(batch);
    IdsOfRequests(batch);
    if AllAnswered(ids, arrived) {
      forall id | Request(id) in batch
        ensures exists r :: r in arrived && r.id == id
      {
        var i :| 0 <= i < |ids| && ids[i] == id;
        assert FirstFor(arrived, ids[i]).Some?;
      }
    } else {
      var i :| 0 <= i < |ids| && FirstFor(arrived, ids[i]).None?;
      assert Request(ids[i]) in batch;
    }
  }

  lemma AnswersFollowBatch(batch: seq<Item>, arrived: seq<Response>)
    requires AllAnswered(RequestIds(batch), arrived)
    ensures exists positions :: AnswersInOrder(batch, positions, Answers(RequestIds(batch), arrived))
    ensures forall r :: r in Answers(RequestIds(batch), arrived) ==> IsFirst(arrived, r)
  {
    var ids, answers := RequestIds(batch), Answers(RequestIds(batch), arrived);
    var f := IdPositions(batch);
    forall i | 0 <= i < |ids|
      ensures answers[i].id == ids[i] && IsFirst(arrived, answers[i])
    {
      FirstIsFirst(arrived, ids[i]);
      assert Some(answers[i]) == FirstFor(arrived, ids[i]);
    }
    assert AnswersInOrder(batch, f, answers);
  }

  /** A batch succeeds exactly when no request occurs twice in it and each has been answered before
      the wait ends.  There is then one response for each request, with its id, in the order in
      which the requests stand in the batch, and none for a notification; each is the first to
      have arrived for its id. */
  lemma SuccessIsCorrelated(batch: seq<Item>, arrived: seq<Response>, end: Error)
    ensures var outcome := Outcome(RequestIds(batch), arrived, end);
            && (outcome.Success? <==> NoRequestTwice(batch) && forall id :: Request(id) in batch ==>
                  exists r :: r in arrived && r.id == id)
            && (outcome.Success? ==>
                  && (exists positions :: AnswersInOrder(batch, positions, outcome.value))
                  && (forall r :: r in outcome.value ==> IsFirst(arrived, r)))
            && (outcome.Failure? ==> outcome.error == end)
  {
    DistinctRequests(batch);
    AnsweredRequests(batch, arrived);
    if AllAnswered(RequestIds(batch), arrived) {
      AnswersFollowBatch(batch, arrived);
    }
  }

  /** Responses may come in any order. */
  lemma ArrivalOrderIsIrrelevant(ids: seq<string>, a: seq<Response>, b: seq<Response>, end: Error)
    requires multiset(a) == multiset(b) && OneResponsePerId(a)
    ensures Outcome(ids, a, end) == Outcome(ids, b, end)
  {
    forall id
      ensures FirstFor(a, id) == FirstFor(b, id)
    {
      assert forall r :: r in a <==> r in multiset(a);
      assert forall r :: r in b <==> r in multiset(b);
    }
    if AllAnswered(ids, a) {
      assert Answers(ids, a) == Answers(ids, b);
    }
  }

  // ---------------------------------------------------------------------------------------
  // Delivery by the handlers
  // ---------------------------------------------------------------------------------------

  /** From handlers h0 and channels c0, the given arrivals lead to h and c: the first response for
      an id is put in the channel of its handler, and the handler is gone. */
  ghost predicate Delivered(
      h0: map<string, nat>, c0: seq<Option<Response>>,
      h: map<string, nat>, c: seq<Option<Response>>, arrived: seq<Response>)
    requires forall id :: id in h0 ==> h0[id] < |c0|
  {
    && |c| == |c0|
    && (forall id :: id in h <==> id in h0 && FirstFor(arrived, id).None?)
    && (forall id :: id in h ==> h[id] == h0[id])
    && (forall id :: id in h0 ==>
          c[h0[id]] == if c0[h0[id]].None? then FirstFor(arrived, id) else c0[h0[id]])
    && SameElsewhere(c0, c, h0)
  }

  /** Only channels of the given map differ. */
  ghost predicate SameElsewhere(c0: seq<Option<Response>>, c: seq<Option<Response>>, m: map<string, nat>) {
    |c| == |c0| && forall ch :: 0 <= ch < |c0| && (forall id :: id in m ==> m[id] != ch) ==> c[ch] == c0[ch]
  }

  lemma FirstOfOneMore(arrived: seq<Response>, resp: Response, id: string)
    ensures FirstFor(arrived + [resp], id) ==
            if FirstFor(arrived, id).None? && resp.id == id then Some(resp) else FirstFor(arrived, id)
  {
    FirstOfAppend(arrived, [resp], id);
    assert [resp][1..] == [];
  }

  lemma DeliverOneMore(
      h0: map<string, nat>, c0: seq<Option<Response>>, h: map<string, nat>, c: seq<Option<Response>>,
      h': map<string, nat>, c': seq<Option<Response>>, arrived: seq<Response>, resp: Response)
    requires Injective(h0) && forall id :: id in h0 ==> h0[id] < |c0|
    requires Delivered(h0, c0, h, c, arrived)
    requires h' == h - {resp.id}
    requires resp.id !in h ==> c' == c
    requires resp.id in h ==>
      c' == if c[h[resp.id]].None? then c[h[resp.id] := Some(resp)] else c
    ensures Delivered(h0, c0, h', c', arrived + [resp])
  {
    forall id
      ensures FirstFor(arrived + [resp], id) ==
              if FirstFor(arrived, id).None? && resp.id == id then Some(resp) else FirstFor(arrived, id)
    {
      FirstOfOneMore(arrived, resp, id);
    }
  }

  // ---------------------------------------------------------------------------------------
  // The pass over the channels
  // ---------------------------------------------------------------------------------------

  /** The ids still waited for have a slot each, holding the first response that has arrived. */
  ghost predicate Awaiting(
      channels: seq<Option<Response>>, waiting: map<string, nat>, ids: seq<string>, arrived: seq<Response>) {
    && (forall id :: id in waiting ==> id in ids)
    && (forall id :: id in waiting ==>
          waiting[id] < |channels| && channels[waiting[id]] == FirstFor(arrived, id))
    && Injective(waiting)
  }

  ghost predicate Injective(m: map<string, nat>) {
    forall x, y :: x in m && y in m && m[x] == m[y] ==> x == y
  }

  /** The responses collected are the first ones for exactly the ids no longer waited for. */
  ghost predicate Collected(
      responses: seq<Response>, waiting: map<string, nat>, ids: seq<string>, arrived: seq<Response>) {
    && (forall r :: r in responses ==> r.id in ids && r.id !in waiting && FirstFor(arrived, r.id) == Some(r))
    && (forall id :: id in ids && id !in waiting ==>
          FirstFor(arrived, id).Some? && FirstFor(arrived, id).value in responses)
  }

  lemma RemoveKey(m: map<string, nat>, key: string)
    requires key in m
    ensures |m - {key}| == |m| - 1
  {
    assert (m - {key}).Keys == m.Keys - {key};
  }

  function IdSet(ids: seq<string>): set<string> { set id | id in ids }

  lemma {:induction false} DistinctByCount(ids: seq<string>)
    ensures |IdSet(ids)| <= |ids|
    ensures |IdSet(ids)| == |ids| <==> NoDuplicates(ids)
  {
    if ids != [] {
      var rest := ids[1..];
      DistinctByCount(rest);
      assert IdSet(ids) == IdSet(rest) + {ids[0]};
      if NoDuplicates(rest) && ids[0] !in rest {
        assert NoDuplicates(ids);
      }
    }
  }

  /** While a batch waits: an id's handler is in place until its response arrives, and sends to the
      channel that is waited on; no other handler sends to that channel. */
  ghost predicate Tracking(
      handlers: map<string, nat>, channels: seq<Option<Response>>,
      waiting: map<string, nat>, ids: seq<string>, arrived: seq<Response>)
  {
    && Awaiting(channels, waiting, ids, arrived)
    && (forall id :: id in waiting ==> (id in handlers <==> FirstFor(arrived, id).None?))
    && (forall id, w :: id in handlers && w in waiting ==> (handlers[id] == waiting[w] <==> id == w))
    && (forall id :: id in ids && id in handlers ==> id in waiting)
  }

  lemma DeliveryKeepsTracking(
      h0: map<string, nat>, c0: seq<Option<Response>>, h: map<string, nat>, c: seq<Option<Response>>,
      waiting: map<string, nat>, ids: seq<string>, seen: seq<Response>, arrived: seq<Response>)
    requires forall id :: id in h0 ==> h0[id] < |c0|
    requires Tracking(h0, c0, waiting, ids, seen) && Delivered(h0, c0, h, c, arrived)
    ensures Tracking(h, c, waiting, ids, seen + arrived)
  {
    forall id
      ensures FirstFor(seen + arrived, id) ==
              if FirstFor(seen, id).Some? then FirstFor(seen, id) else FirstFor(arrived, id)
    {
      FirstOfAppend(seen, arrived, id);
    }
    forall id | id in waiting
      ensures c[waiting[id]] == FirstFor(seen + arrived, id)
    {
      if id in h0 {
        assert h0[id] == waiting[id];
      } else {
        assert forall x :: x in h0 ==> h0[x] != waiting[id];
      }
    }
  }

  lemma DeliveryKeepsCollected(
      responses: seq<Response>, waiting: map<string, nat>, ids: seq<string>,
      seen: seq<Response>, arrived: seq<Response>)
    requires Collected(responses, waiting, ids, seen)
    ensures Collected(responses, waiting, ids, seen + arrived)
  {
    forall id
      ensures FirstFor(seen, id).Some? ==> FirstFor(seen + arrived, id) == FirstFor(seen, id)
    {
      FirstOfAppend(seen, arrived, id);
    }
  }

  /** A batch in the middle of collecting its responses. */
  ghost predicate Gathering(
    handlers: map<string, nat>, channels: seq<Option<Response>>, waiting: map<string, nat>,
    responses: seq<Response>, ids: seq<string>, arrived: seq<Response>)
  {
    Tracking(handlers, channels, waiting, ids, arrived) && Collected(responses, waiting, ids, arrived)
  }

  lemma CollectOne(
    handlers: map<string, nat>, channels: seq<Option<Response>>, waiting: map<string, nat>,
    responses: seq<Response>, ids: seq<string>, arrived: seq<Response>, id: string)
    requires Gathering(handlers, channels, waiting, responses, ids, arrived)
    requires id in waiting && waiting[id] < |channels| && channels[waiting[id]].Some?
    ensures var ch := waiting[id];
            Gathering(handlers, channels[ch := None], waiting - {id}, responses + [channels[ch].value], ids, arrived)
  {
    var ch := waiting[id];
    assert Tracking(handlers, channels[ch := None], waiting - {id}, ids, arrived);
    assert Collected(responses + [channels[ch].value], waiting - {id}, ids, arrived);
  }

  lemma GatheringAt(
    handlers: map<string, nat>, channels: seq<Option<Response>>, waiting: map<string, nat>,
    responses: seq<Response>, ids: seq<string>, arrived: seq<Response>, id: string)
    requires Gathering(handlers, channels, waiting, responses, ids, arrived) && id in waiting
    ensures waiting[id] < |channels| && channels[waiting[id]] == FirstFor(arrived, id)
  {
  }

  /** A pass has dealt with the ids that are not left to do. */
  ghost predicate Swept(
    c0: seq<Option<Response>>, c: seq<Option<Response>>, waiting: map<string, nat>,
    rest: map<string, nat>, todo: set<string>, arrived: seq<Response>)
  {
    && (forall id :: id in todo ==> id in waiting)
    && (forall id :: id in rest <==> id in waiting && (id in todo || FirstFor(arrived, id).None?))
    && (forall id :: id in rest ==> rest[id] == waiting[id])
    && SameElsewhere(c0, c, waiting)
  }

  lemma SweptOneMore(
    c0: seq<Option<Response>>, c: seq<Option<Response>>, c': seq<Option<Response>>, waiting: map<string, nat>,
    rest: map<string, nat>, rest': map<string, nat>, todo: set<string>, id: string, arrived: seq<Response>)
    requires Swept(c0, c, waiting, rest, todo, arrived) && id in todo && |c'| == |c|
    requires rest' == if FirstFor(arrived, id).Some? then rest - {id} else rest
    requires forall ch :: 0 <= ch < |c| && ch != waiting[id] ==> c'[ch] == c[ch]
    ensures Swept(c0, c', waiting, rest', todo - {id}, arrived)
  {
  }

  /** How the handlers and channels of other requests fare: as if the batch were not there. */
  ghost predicate OthersServed(
      h0: map<string, nat>, c0: seq<Option<Response>>, h: map<string, nat>, c: seq<Option<Response>>,
      ids: seq<string>, arrived: seq<Response>)
    requires forall id :: id in h0 ==> h0[id] < |c0|
  {
    && |c| >= |c0|
    && (forall id :: id !in ids ==> (id in h <==> id in h0 && FirstFor(arrived, id).None?))
    && (forall id :: id in h && id !in ids ==> h[id] == h0[id])
    && (forall id :: id in h0 && id !in ids ==>
          c[h0[id]] == if c0[h0[id]].None? then FirstFor(arrived, id) else c0[h0[id]])
  }

  lemma OthersStayServed(
      h0: map<string, nat>, c0: seq<Option<Response>>, h1: map<string, nat>, c1: seq<Option<Response>>,
      h2: map<string, nat>, c2: seq<Option<Response>>,
      waiting: map<string, nat>, ids: seq<string>, seen: seq<Response>, arrived: seq<Response>)
    requires Injective(h0) && forall id :: id in h0 ==> h0[id] < |c0|
    requires forall id :: id in h1 ==> h1[id] < |c1|
    requires OthersServed(h0, c0, h1, c1, ids, seen)
    requires Tracking(h1, c1, waiting, ids, seen) && forall id :: id in waiting ==> waiting[id] >= |c0|
    requires Delivered(h1, c1, h2, c2, arrived)
    ensures OthersServed(h0, c0, h2, c2, ids, seen + arrived)
  {
    forall id
      ensures FirstFor(seen + arrived, id) ==
              if FirstFor(seen, id).Some? then FirstFor(seen, id) else FirstFor(arrived, id)
    {
      FirstOfAppend(seen, arrived, id);
    }
    forall id | id in h0 && id !in ids
      ensures c2[h0[id]] == if c0[h0[id]].None? then FirstFor(seen + arrived, id) else c0[h0[id]]
    {
      if id !in h1 {
        forall x | x in h1
          ensures h1[x] != h0[id]
        {
          if x in ids {
            assert x in waiting && h1[x] == waiting[x];
          }
        }
      }
    }
  }

  lemma CollectionLeavesOthers(
      h0: map<string, nat>, c0: seq<Option<Response>>, h: map<string, nat>, c1: seq<Option<Response>>,
      c2: seq<Option<Response>>, waiting: map<string, nat>, ids: seq<string>, arrived: seq<Response>)
    requires forall id :: id in h0 ==> h0[id] < |c0|
    requires OthersServed(h0, c0, h, c1, ids, arrived)
    requires SameElsewhere(c1, c2, waiting) && forall id :: id in waiting ==> waiting[id] >= |c0|
    ensures OthersServed(h0, c0, h, c2, ids, arrived)
  {
  }

  /** When the wait ends too early, some request has not been answered or two share an id. */
  lemma WaitingMeansFailure(
      ids: seq<string>, waiting: map<string, nat>, responses: seq<Response>, arrived: seq<Response>, end: Error)
    requires forall id :: id in waiting ==> id in ids && FirstFor(arrived, id).None?
    requires |responses| + |waiting| == |IdSet(ids)| && |responses| < |ids|
    ensures Outcome(ids, arrived, end) == Failure(end)
  {
    DistinctByCount(ids);
    if NoDuplicates(ids) {
      assert waiting.Keys != {};
      var id :| id in waiting;
      var i :| 0 <= i < |ids| && ids[i] == id;
      assert FirstFor(arrived, ids[i]).None?;
    }
  }

  /** A batch being waited for: what was there before it, its ids, and what has arrived since. */
  datatype Batch = Batch(h0: map<string, nat>, c0: seq<Option<Response>>, ids: seq<string>, seen: seq<Response>)

  ghost predicate InFlight(
      b: Batch, handlers: map<string, nat>, channels: seq<Option<Response>>,
      waiting: map<string, nat>, responses: seq<Response>)
  {
    && Injective(b.h0) && (forall id :: id in b.h0 ==> b.h0[id] < |b.c0|)
    && Tracking(handlers, channels, waiting, b.ids, b.seen)
    && Collected(responses, waiting, b.ids, b.seen)
    && (forall id :: id in waiting ==> waiting[id] >= |b.c0| && FirstFor(b.seen, id).None?)
    && |responses| + |waiting| == |IdSet(b.ids)|
    && OthersServed(b.h0, b.c0, handlers, channels, b.ids, b.seen)
  }

  ghost predicate Registered(
      h0: map<string, nat>, c0: seq<Option<Response>>, h: map<string, nat>, c: seq<Option<Response>>,
      waiting: map<string, nat>)
  {
    && (forall id :: id in h <==> id in h0 || id in waiting)
    && (forall id :: id in h ==> h[id] == if id in waiting then waiting[id] else h0[id])
    && |c| >= |c0| && (forall ch :: 0 <= ch < |c0| ==> c[ch] == c0[ch])
    && forall id :: id in waiting ==> |c0| <= waiting[id] < |c| && c[waiting[id]] == None
  }

  lemma RegisteredIsInFlight(
      b: Batch, handlers: map<string, nat>, channels: seq<Option<Response>>, waiting: map<string, nat>)
    requires Injective(b.h0) && forall id :: id in b.h0 ==> b.h0[id] < |b.c0|
    requires Injective(handlers) && forall id :: id in waiting <==> id in b.ids
    requires Registered(b.h0, b.c0, handlers, channels, waiting) && b.seen == []
    ensures InFlight(b, handlers, channels, waiting, [])
  {
    assert forall id :: id in waiting ==> handlers[id] == waiting[id];
    assert waiting.Keys == IdSet(b.ids);
  }

  /** The channels still waited on were made for the batch, and no handler of others sends to them. */
  ghost predicate OwnChannels(
    handlers: map<string, nat>, channels: seq<Option<Response>>, waiting: map<string, nat>,
    ids: seq<string>, first: nat)
  {
    forall w :: w in waiting ==>
      first <= waiting[w] < |channels| && forall id :: id in handlers && id !in ids ==> handlers[id] != waiting[w]
  }

  lemma NothingLeft(ids: seq<string>, waiting: map<string, nat>, responses: seq<Response>)
    requires |responses| + |waiting| == |IdSet(ids)| && |responses| >= |ids|
    ensures waiting == map[] && NoDuplicates(ids)
  {
    DistinctByCount(ids);
  }

  lemma EarlyAnswersStay(ids: seq<string>, rounds: seq<seq<Response>>, k: nat)
    requires k <= |rounds| && AllAnswered(ids, Arrived(rounds[..k]))
    ensures AllAnswered(ids, Arrived(rounds))
    ensures Answers(ids, Arrived(rounds)) == Answers(ids, Arrived(rounds[..k]))
  {
    forall i | 0 <= i < |ids|
      ensures FirstFor(Arrived(rounds), ids[i]) == FirstFor(Arrived(rounds[..k]), ids[i])
    {
      FirstStays(rounds, k, ids[i]);
    }
  }

  /** The requests of a batch. */
  method GetRequests(batch: seq<Item>) returns (ids: seq<string>)
    ensures ids == RequestIds(batch) && exists positions :: PositionsOf(batch, positions, ids)
  {
    ids := [];
    for i := 0 to |batch|
      invariant ids + RequestIds(batch[i..]) == RequestIds(batch)
    {
      assert batch[i..][1..] == batch[i + 1..];
      if batch[i].Request? {
        ids := ids + [batch[i].id];
      }
    }
    ghost var positions := IdPositions(batch);
  }

  /** Puts the collected responses in the order of the requests. */
  method Order(ids: seq<string>, responses: seq<Response>, ghost arrived: seq<Response>)
      returns (ordered: seq<Response>)
    requires Collected(responses, map[], ids, arrived)
    ensures AllAnswered(ids, arrived) && ordered == Answers(ids, arrived)
  {
    ordered := [];
    for i := 0 to |ids|
      invariant |ordered| == i
      invariant forall k :: 0 <= k < i ==> Some(ordered[k]) == FirstFor(arrived, ids[k])
    {
      assert FirstFor(arrived, ids[i]).value in responses;
      var j := 0;
      while j < |responses| && responses[j].id != ids[i]
        invariant j <= |responses|
        invariant forall k :: 0 <= k < j ==> responses[k].id != ids[i]
      {
        j := j + 1;
      }
      if j < |responses| {
        ordered := ordered + [responses[j]];
      } else {
        assert false;
      }
    }
  }

  class StreamableHTTPTransport {
    var responseHandlers: map<string, nat>    // the channel of the handler of an id
    var channels: seq<Option<Response>>
    var closed: set<nat>

    /** Each handler sends to a channel of its own, which is open. */
    ghost predicate Valid()
      reads this
    {
      && Injective(responseHandlers) && (forall ch :: ch in closed ==> ch < |channels|)
      && forall id :: id in responseHandlers ==> responseHandlers[id] < |channels| && responseHandlers[id] !in closed
    }

    constructor ()
      ensures Valid() && responseHandlers == map[] && closed == {}
    {
      responseHandlers, channels, closed := map[], [], {};
    }

    /** What a handler does: a full channel drops the response, and a closed one panics. */
    method Deliver(ch: nat, resp: Response) returns (delivery: Delivery)
      requires ch < |channels|
      modifies this`channels
      ensures delivery == if ch in closed then Panicked else if old(channels)[ch].None? then Stored else Dropped
      ensures channels == if delivery == Stored then old(channels)[ch := Some(resp)] else old(channels)
    {
      if ch in closed {
        return Panicked;
      }
      if channels[ch].Some? {
        return Dropped;
      }
      channels := channels[ch := Some(resp)];
      return Stored;
    }

    /** Hands a response to the handler of its id, which is then removed.  With nothing in between,
        the handler's channel is open. */
    method HandleResponse(resp: Response) returns (delivery: Option<Delivery>)
      requires Valid()
      modifies this`responseHandlers, this`channels
      ensures Valid()
      ensures delivery.Some? <==> resp.id in old(responseHandlers)
      ensures delivery != Some(Panicked)
      ensures responseHandlers == old(responseHandlers) - {resp.id}
      ensures delivery.None? ==> channels == old(channels)
      ensures delivery.Some? ==>
        var ch := old(responseHandlers)[resp.id];
        channels == if old(channels)[ch].None? then old(channels)[ch := Some(resp)] else old(channels)
    {
      if resp.id !in responseHandlers {
        assert responseHandlers == responseHandlers - {resp.id};
        return None;
      }
      var sent := Deliver(responseHandlers[resp.id], resp);
      responseHandlers := responseHandlers - {resp.id};
      return Some(sent);
    }

    /** The responses of one round are handed over one by one. */
    method HandleAll(arrived: seq<Response>)
      requires Valid()
      modifies this`responseHandlers, this`channels
      ensures Valid()
      ensures Delivered(old(responseHandlers), old(channels), responseHandlers, channels, arrived)
    {
      ghost var seen: seq<Response> := [];
      for i := 0 to |arrived|
        invariant Valid()
        invariant seen == arrived[..i]
        invariant Delivered(old(responseHandlers), old(channels), responseHandlers, channels, seen)
      {
        HandleOneMore(arrived[i], old(responseHandlers), old(channels), seen);
        seen := seen + [arrived[i]];
      }
      assert seen == arrived;
    }

    method HandleOneMore(
      resp: Response, ghost h0: map<string, nat>, ghost c0: seq<Option<Response>>, ghost seen: seq<Response>)
      requires Valid() && Injective(h0) && forall id :: id in h0 ==> h0[id] < |c0|
      requires Delivered(h0, c0, responseHandlers, channels, seen)
      modifies this`responseHandlers, this`channels
      ensures Valid()
      ensures Delivered(h0, c0, responseHandlers, channels, seen + [resp])
    {
      ghost var h, c := responseHandlers, channels;
      var _ := HandleResponse(resp);
      DeliverOneMore(h0, c0, h, c, responseHandlers, channels, seen, resp);
    }

    /** Installs a handler that sends to a new, empty channel; it replaces an earlier one. */
    method AddHandler(id: string) returns (ch: nat)
      requires Valid()
      modifies this`responseHandlers, this`channels
      ensures Valid()
      ensures ch == |old(channels)| && channels == old(channels) + [None]
      ensures responseHandlers == old(responseHandlers)[id := ch]
    {
      ch := |channels|;
      channels := channels + [None];
      responseHandlers := responseHandlers[id := ch];
    }

    /** A handler for each id of a batch. */
    method Register(ids: seq<string>) returns (waiting: map<string, nat>)
      requires Valid()
      modifies this`responseHandlers, this`channels
      ensures Valid()
      ensures InFlight(Batch(old(responseHandlers), old(channels), ids, []), responseHandlers, channels, waiting, [])
    {
      waiting := map[];
      ghost var h0, c0 := responseHandlers, channels;
      for i := 0 to |ids|
        invariant Valid()
        invariant forall id :: id in waiting ==> id in ids
        invariant forall k :: 0 <= k < i ==> ids[k] in waiting
        invariant Registered(h0, c0, responseHandlers, channels, waiting)
      {
        var ch := AddHandler(ids[i]);
        waiting := waiting[ids[i] := ch];
      }
      RegisteredIsInFlight(Batch(h0, c0, ids, []), responseHandlers, channels, waiting);
    }

    /** A receive that does not block, from the channel of an id. */
    method TryReceive(waiting: map<string, nat>, responses: seq<Response>, id: string,
                      ghost ids: seq<string>, ghost arrived: seq<Response>)
      returns (rest: map<string, nat>, more: seq<Response>)
      requires Valid() && Gathering(responseHandlers, channels, waiting, responses, ids, arrived) && id in waiting
      modifies this`channels
      ensures Valid() && Gathering(responseHandlers, channels, rest, more, ids, arrived)
      ensures rest == if FirstFor(arrived, id).Some? then waiting - {id} else waiting
      ensures |more| + |rest| == |responses| + |waiting|
      ensures |channels| == |old(channels)|
      ensures forall ch :: 0 <= ch < |channels| && ch != waiting[id] ==> channels[ch] == old(channels)[ch]
    {
      rest, more := waiting, responses;
      var ch := waiting[id];
      GatheringAt(responseHandlers, channels, waiting, responses, ids, arrived, id);
      if channels[ch].Some? {
        RemoveKey(waiting, id);
        CollectOne(responseHandlers, channels, waiting, responses, ids, arrived, id);
        more := responses + [channels[ch].value];
        channels := channels[ch := None];
        rest := waiting - {id};
      }
    }

    /** One pass over the channels, in any order: what has arrived is collected. */
    method Collect(waiting: map<string, nat>, responses: seq<Response>,
                   ghost ids: seq<string>, ghost arrived: seq<Response>)
      returns (rest: map<string, nat>, more: seq<Response>)
      requires Valid() && Gathering(responseHandlers, channels, waiting, responses, ids, arrived)
      modifies this`channels
      ensures Valid() && Gathering(responseHandlers, channels, rest, more, ids, arrived)
      ensures Swept(old(channels), channels, waiting, rest, {}, arrived)
      ensures |more| + |rest| == |responses| + |waiting|
    {
      rest, more := waiting, responses;
      var todo := waiting.Keys;
      while todo != {}
        invariant Valid() && Gathering(responseHandlers, channels, rest, more, ids, arrived)
        invariant Swept(old(channels), channels, waiting, rest, todo, arrived)
        invariant |more| + |rest| == |responses| + |waiting|
        decreases todo
      {
        var id :| id in todo;
        ghost var c, before := channels, rest;
        rest, more := TryReceive(rest, more, id, ids, arrived);
        SweptOneMore(old(channels), c, channels, waiting, before, rest, todo, id, arrived);
        todo := todo - {id};
      }
    }

    /** Removes the handlers of the batch. */
    method RemoveHandlers(ids: seq<string>)
      requires Valid()
      modifies this`responseHandlers
      ensures Valid()
      ensures forall id :: id in responseHandlers <==> id in old(responseHandlers) && id !in ids
      ensures forall id :: id in responseHandlers ==> responseHandlers[id] == old(responseHandlers)[id]
    {
      for i := 0 to |ids|
        invariant Valid()
        invariant forall k :: 0 <= k < i ==> ids[k] !in responseHandlers
        invariant forall id :: id in old(responseHandlers) && id !in ids ==> id in responseHandlers
        invariant forall id :: id in responseHandlers ==>
          id in old(responseHandlers) && responseHandlers[id] == old(responseHandlers)[id]
      {
        responseHandlers := responseHandlers - {ids[i]};
      }
    }

    /** Removes the handlers of the batch, and closes the channels it still waits on. */
    method Cleanup(ids: seq<string>, waiting: map<string, nat>)
      requires Valid() && forall id :: id in waiting ==> waiting[id] < |channels|
      requires forall id, w :: id in responseHandlers && id !in ids && w in waiting ==>
                 responseHandlers[id] != waiting[w]
      modifies this`responseHandlers, this`closed
      ensures Valid() && closed == old(closed) + waiting.Values
      ensures forall id :: id in responseHandlers <==> id in old(responseHandlers) && id !in ids
      ensures forall id :: id in responseHandlers ==> responseHandlers[id] == old(responseHandlers)[id]
    {
      RemoveHandlers(ids);
      closed := closed + waiting.Values;
    }

    /** What happens between one look at the clock and the next. */
    method Round(arrived: seq<Response>, waiting: map<string, nat>, responses: seq<Response>, ghost b: Batch)
        returns (rest: map<string, nat>, more: seq<Response>)
      requires Valid() && InFlight(b, responseHandlers, channels, waiting, responses)
      modifies this`responseHandlers, this`channels
      ensures Valid()
      ensures InFlight(b.(seen := b.seen + arrived), responseHandlers, channels, rest, more)
    {
      ghost var h1, c1 := responseHandlers, channels;
      HandleAll(arrived);
      DeliveryKeepsTracking(h1, c1, responseHandlers, channels, waiting, b.ids, b.seen, arrived);
      DeliveryKeepsCollected(responses, waiting, b.ids, b.seen, arrived);
      OthersStayServed(b.h0, b.c0, h1, c1, responseHandlers, channels, waiting, b.ids, b.seen, arrived);
      ghost var c2 := channels;
      rest, more := Collect(waiting, responses, b.ids, b.seen + arrived);
      CollectionLeavesOthers(b.h0, b.c0, responseHandlers, c2, channels, waiting, b.ids, b.seen + arrived);
    }

    /** Collects the responses and puts them in order, unless the wait ends before. */
    method AwaitResponses(
      ids: seq<string>, first: map<string, nat>, rounds: seq<seq<Response>>, end: Error, ghost b: Batch)
      returns (result: Result<seq<Response>, Error>, waiting: map<string, nat>, ghost used: nat)
      requires Valid() && InFlight(b, responseHandlers, channels, first, []) && b.ids == ids && b.seen == []
      modifies this`responseHandlers, this`channels
      ensures Valid()
      ensures result == Outcome(ids, Arrived(rounds), end)
      ensures used <= |rounds|
      ensures OthersServed(b.h0, b.c0, responseHandlers, channels, ids, Arrived(rounds[..used]))
      ensures OwnChannels(responseHandlers, channels, waiting, ids, |b.c0|)
      ensures result.Success? ==> waiting == map[]
    {
      var responses, k := [], 0;
      waiting := first;
      while |responses| < |ids|
        invariant k <= |rounds|
        invariant Valid()
        invariant InFlight(b.(seen := Arrived(rounds[..k])), responseHandlers, channels, waiting, responses)
        decreases |rounds| - k
      {
        if k == |rounds| {
          assert rounds[..k] == rounds;
          WaitingMeansFailure(ids, waiting, responses, Arrived(rounds), end);
          return Failure(end), waiting, k;
        }
        assert rounds[..k + 1][..k] == rounds[..k];
        waiting, responses := Round(rounds[k], waiting, responses, b.(seen := Arrived(rounds[..k])));
        k := k + 1;
      }
      NothingLeft(ids, waiting, responses);
      var ordered := Order(ids, responses, Arrived(rounds[..k]));
      EarlyAnswersStay(ids, rounds, k);
      return Success(ordered), waiting, k;
    }

    /** The part of a batch between setting up its handlers and removing them. */
    method Exchange(
      ids: seq<string>, first: map<string, nat>, sent: bool, rounds: seq<seq<Response>>, end: Error, ghost b: Batch)
      returns (result: Result<seq<Response>, Error>, waiting: map<string, nat>, ghost used: nat)
      requires Valid() && InFlight(b, responseHandlers, channels, first, []) && b.ids == ids && b.seen == []
      modifies this`responseHandlers, this`channels
      ensures Valid()
      ensures result == if sent then Outcome(ids, Arrived(rounds), end) else Failure(SendFailed)
      ensures used <= |rounds|
      ensures OthersServed(b.h0, b.c0, responseHandlers, channels, ids, Arrived(rounds[..used]))
      ensures OwnChannels(responseHandlers, channels, waiting, ids, |b.c0|)
      ensures result.Success? ==> waiting == map[]
    {
      assert rounds[..0] == [];
      if !sent {
        return Failure(SendFailed), first, 0;
      }
      if ids == [] {
        assert Answers(ids, Arrived(rounds)) == [];
        return Success([]), map[], 0;
      }
      result, waiting, used := AwaitResponses(ids, first, rounds, end, b);
    }

    /** Sends a batch and waits for its responses, at most for the given rounds.  The requests of
        others are served as if the batch were not there, unless it took over their ids. */
    method SendBatchRequest(batch: seq<Item>, sent: bool, rounds: seq<seq<Response>>, end: Error)
        returns (result: Result<seq<Response>, Error>, ghost used: nat)
      requires Valid()
      modifies this
      ensures Valid()
      ensures batch == [] ==> result == Failure(EmptyBatch)
      ensures batch != [] && !sent ==> result == Failure(SendFailed)
      ensures batch != [] && sent ==> result == Outcome(RequestIds(batch), Arrived(rounds), end)
      ensures result.Success? ==> exists positions :: AnswersInOrder(batch, positions, result.value)
      ensures used <= |rounds|
      ensures OthersServed(old(responseHandlers), old(channels), responseHandlers, channels,
                RequestIds(batch), Arrived(rounds[..used]))
      ensures forall id :: id in RequestIds(batch) ==> id !in responseHandlers
      ensures closed >= old(closed) && forall ch :: ch in closed && ch !in old(closed) ==> |old(channels)| <= ch
      ensures result.Success? ==> closed == old(closed)
    {
      if batch == [] {
        assert rounds[..0] == [];
        return Failure(EmptyBatch), 0;
      }
      ghost var h0, c0 := responseHandlers, channels;
      var ids := GetRequests(batch);
      var waiting := Register(ids);
      result, waiting, used := Exchange(ids, waiting, sent, rounds, end, Batch(h0, c0, ids, []));
      Cleanup(ids, waiting);
      SuccessIsCorrelated(batch, Arrived(rounds), end);
    }
  }
}
