/** Batched resource-change notifications: pkg/server/subscriptions.go.

    Changes are collected per URI and, at each tick, grouped by subscription and sent.  Go maps are
    enumerated in an arbitrary order, which the loops below leave open as well. */
module Subscriptions {
  import opened Common

  datatype Resource = Resource(uri: string, name: string)

  datatype ChangeType = Added | Modified | Removed | Updated

  /** "uri" decides who is notified; a resource or contents may be missing. */
  datatype Change = Change(kind: ChangeType, resource: Option<Resource>, contents: Option<string>, uri: string)

  /** Subscriptions by URI; the value tells whether child resources are included. */
  type Table = map<string, bool>

  datatype Group = Group(added: seq<Resource>, modified: seq<Resource>, removed: seq<string>)

  const EmptyGroup := Group([], [], [])

  // ---------------------------------------------------------------------------------------
  // Matching
  // ---------------------------------------------------------------------------------------

  predicate IsChildResource(childURI: string, parentURI: string) {
    |childURI| > |parentURI| && childURI[..|parentURI|] == parentURI && childURI[|parentURI|] == '/'
  }

  lemma ChildIsBelow(childURI: string, parentURI: string)
    ensures IsChildResource(childURI, parentURI) <==> exists rest: string :: childURI == parentURI + "/" + rest
  {
    if IsChildResource(childURI, parentURI) {
      assert childURI == parentURI + "/" + childURI[|parentURI| + 1..];
    }
    if rest: string :| childURI == parentURI + "/" + rest {
      assert childURI[..|parentURI|] == parentURI && childURI[|parentURI|] == '/';
    }
  }

  predicate Matches(subs: Table, sub: string, uri: string) {
    sub in subs && (uri == sub || (subs[sub] && IsChildResource(uri, sub)))
  }

  ghost predicate Wanted(subs: Table, uri: string) {
    exists sub :: Matches(subs, sub, uri)
  }

  // ---------------------------------------------------------------------------------------
  // Sequences of changes
  // ---------------------------------------------------------------------------------------

  /** The entries that changes give rise to, in order. */
  function Render<T>(changes: seq<Change>, entries: Change -> seq<T>): seq<T> {
    if changes == [] then [] else Render(changes[..|changes| - 1], entries) + entries(changes[|changes| - 1])
  }

  function AddedIn(c: Change): seq<Resource> {
    if c.kind == Added && c.resource.Some? then [c.resource.value] else []
  }

  function ModifiedIn(c: Change): seq<Resource> {
    if c.kind == Modified && c.resource.Some? then [c.resource.value] else []
  }

  function RemovedIn(c: Change): seq<string> { if c.kind == Removed then [c.uri] else [] }

  /** A content update, with its URI. */
  function UpdatesIn(c: Change): seq<(string, string)> {
    if c.kind == Updated && c.contents.Some? then [(c.uri, c.contents.value)] else []
  }

  function AddedOf(changes: seq<Change>): seq<Resource> { Render(changes, AddedIn) }

  function ModifiedOf(changes: seq<Change>): seq<Resource> { Render(changes, ModifiedIn) }

  function RemovedOf(changes: seq<Change>): seq<string> { Render(changes, RemovedIn) }

  function UpdatesOf(changes: seq<Change>): seq<(string, string)> { Render(changes, UpdatesIn) }

  function GroupOf(changes: seq<Change>): Group {
    Group(AddedOf(changes), ModifiedOf(changes), RemovedOf(changes))
  }

  lemma {:induction false} RenderJoins<T>(xs: seq<Change>, ys: seq<Change>, entries: Change -> seq<T>)
    ensures Render(xs + ys, entries) == Render(xs, entries) + Render(ys, entries)
  {
    if ys == [] {
      assert xs + ys == xs;
    } else {
      assert (xs + ys)[..|xs + ys| - 1] == xs + ys[..|ys| - 1];
      RenderJoins(xs, ys[..|ys| - 1], entries);
    }
  }

  lemma RenderOne<T>(before: seq<Change>, c: Change, entries: Change -> seq<T>)
    ensures Render(before + [c], entries) == Render(before, entries) + entries(c)
    ensures Render([c], entries) == entries(c)
  {
    assert (before + [c])[..|before|] == before && [c][..0] == [];
  }

  lemma MoveLast<T>(a: seq<T>, b: seq<T>, c: seq<T>)
    ensures multiset(a + b + c) == multiset(a + c) + multiset(b)
  {
  }

  lemma RenderWithout<T>(a: seq<Change>, c: Change, b: seq<Change>, entries: Change -> seq<T>)
    ensures multiset(Render(a + [c] + b, entries)) == multiset(Render(a + b, entries)) + multiset(entries(c))
  {
    RenderJoins(a, b, entries);
    RenderOne(a, c, entries);
    RenderJoins(a + [c], b, entries);
    MoveLast(Render(a, entries), entries(c), Render(b, entries));
  }

  lemma TakeOut(xs: seq<Change>, a: seq<Change>, c: Change, b: seq<Change>)
    requires multiset(xs + [c]) == multiset(a + [c] + b)
    ensures multiset(xs) == multiset(a + b)
  {
    MoveLast(a, [c], b);
    var m, n := multiset(xs), multiset(a + b);
    forall x
      ensures m[x] == n[x]
    {
      assert (m + multiset{c})[x] == (n + multiset{c})[x];
    }
  }

  lemma SplitAt(xs: seq<Change>, c: Change) returns (a: seq<Change>, b: seq<Change>)
    requires c in multiset(xs)
    ensures xs == a + [c] + b
  {
    var i :| 0 <= i < |xs| && xs[i] == c;
    a, b := xs[..i], xs[i + 1..];
  }

  lemma RenderOneMore<T>(xs: seq<Change>, a: seq<Change>, c: Change, b: seq<Change>, entries: Change -> seq<T>)
    requires multiset(Render(xs, entries)) == multiset(Render(a + b, entries))
    ensures multiset(Render(xs + [c], entries)) == multiset(Render(a + [c] + b, entries))
  {
    RenderOne(xs, c, entries);
    RenderWithout(a, c, b, entries);
  }

  lemma LastIsIn(xs: seq<Change>)
    requires xs != []
    ensures xs == xs[..|xs| - 1] + [xs[|xs| - 1]] && xs[|xs| - 1] in multiset(xs)
  {
  }

  /** Permuting changes permutes their entries. */
  lemma {:induction false} RenderPermuted<T>(xs: seq<Change>, ys: seq<Change>, entries: Change -> seq<T>)
    requires multiset(xs) == multiset(ys)
    ensures multiset(Render(xs, entries)) == multiset(Render(ys, entries))
    decreases |xs|
  {
    if xs == [] {
      assert |multiset(ys)| == 0;
    } else {
      LastIsIn(xs);
      var rest, c := xs[..|xs| - 1], xs[|xs| - 1];
      var a, b := SplitAt(ys, c);
      TakeOut(rest, a, c, b);
      RenderPermuted(rest, a + b, entries);
      RenderOneMore(rest, a, c, b, entries);
    }
  }

  /** The changes of one URI, in order. */
  function OnUri(changes: seq<Change>, uri: string): seq<Change> {
    if changes == [] then []
    else
      var c := changes[|changes| - 1];
      OnUri(changes[..|changes| - 1], uri) + (if c.uri == uri then [c] else [])
  }

  lemma {:induction false} OnUriJoins(xs: seq<Change>, ys: seq<Change>, uri: string)
    ensures OnUri(xs + ys, uri) == OnUri(xs, uri) + OnUri(ys, uri)
  {
    if ys == [] {
      assert xs + ys == xs;
    } else {
      assert (xs + ys)[..|xs + ys| - 1] == xs + ys[..|ys| - 1];
      OnUriJoins(xs, ys[..|ys| - 1], uri);
    }
  }

  lemma {:induction false} OnUriAgain(changes: seq<Change>, uri: string, other: string)
    ensures OnUri(OnUri(changes, uri), other) == if other == uri then OnUri(changes, uri) else []
  {
    if changes != [] {
      var c := changes[|changes| - 1];
      OnUriAgain(changes[..|changes| - 1], uri, other);
      var head := OnUri(changes[..|changes| - 1], uri);
      if c.uri == uri {
        assert (head + [c])[..|head|] == head;
      } else {
        assert head + [] == head;
      }
    }
  }

  lemma {:induction false} OnUriCount(changes: seq<Change>, c: Change)
    ensures multiset(changes)[c] == multiset(OnUri(changes, c.uri))[c]
  {
    if changes != [] {
      var last := changes[|changes| - 1];
      assert changes == changes[..|changes| - 1] + [last];
      OnUriCount(changes[..|changes| - 1], c);
    }
  }

  /** Agreement URI by URI makes two sequences permutations of each other. */
  lemma SameOnUriSamePermutation(xs: seq<Change>, ys: seq<Change>)
    requires forall uri :: OnUri(xs, uri) == OnUri(ys, uri)
    ensures multiset(xs) == multiset(ys)
  {
    forall c
      ensures multiset(xs)[c] == multiset(ys)[c]
    {
      OnUriCount(xs, c);
      OnUriCount(ys, c);
    }
  }

  // ---------------------------------------------------------------------------------------
  // Batches
  // ---------------------------------------------------------------------------------------

  type Batch = map<string, seq<Change>>

  function Batched(batch: Batch, uri: string): seq<Change> {
    if uri in batch then batch[uri] else []
  }

  /** The batch holds exactly the admitted changes, in order for each URI. */
  ghost predicate Holds(batch: Batch, admitted: seq<Change>) {
    forall uri :: Batched(batch, uri) == OnUri(admitted, uri) && (uri in batch ==> batch[uri] != [])
  }

  lemma AdmitKeepsHolds(batch: Batch, admitted: seq<Change>, c: Change)
    requires Holds(batch, admitted)
    ensures Holds(batch[c.uri := Batched(batch, c.uri) + [c]], admitted + [c])
  {
  }

  /** The changes a subscription gets when the batch's URIs come up in the given order. */
  function Collect(subs: Table, sub: string, batch: Batch, order: seq<string>): seq<Change> {
    if order == [] then []
    else
      var uri := order[|order| - 1];
      Collect(subs, sub, batch, order[..|order| - 1]) + (if Matches(subs, sub, uri) then Batched(batch, uri) else [])
  }

  ghost predicate Enumerates(order: seq<string>, uris: set<string>) {
    NoDuplicates(order) && forall uri :: uri in order <==> uri in uris
  }

  lemma CollectLast(subs: Table, sub: string, batch: Batch, admitted: seq<Change>, order: seq<string>, uri: string)
    requires Holds(batch, admitted) && order != []
    ensures var prefix, last := order[..|order| - 1], order[|order| - 1];
            OnUri(Collect(subs, sub, batch, order), uri)
            == OnUri(Collect(subs, sub, batch, prefix), uri)
               + (if uri == last && Matches(subs, sub, uri) then OnUri(admitted, uri) else [])
  {
    var prefix, last := order[..|order| - 1], order[|order| - 1];
    OnUriJoins(Collect(subs, sub, batch, prefix), if Matches(subs, sub, last) then Batched(batch, last) else [], uri);
    assert Batched(batch, last) == OnUri(admitted, last);
    OnUriAgain(admitted, last, uri);
  }

  /** Whatever the order, a subscription gets of each URI it matches exactly the admitted changes,
      in the order they were admitted, and nothing of any other URI. */
  lemma {:induction false} CollectedPerUri(
    subs: Table, sub: string, batch: Batch, admitted: seq<Change>, order: seq<string>, uri: string)
    requires Holds(batch, admitted) && NoDuplicates(order)
    ensures OnUri(Collect(subs, sub, batch, order), uri)
            == if uri in order && Matches(subs, sub, uri) then OnUri(admitted, uri) else []
  {
    if order != [] {
      var prefix, last := order[..|order| - 1], order[|order| - 1];
      CollectedPerUri(subs, sub, batch, admitted, prefix, uri);
      CollectLast(subs, sub, batch, admitted, order, uri);
      assert uri in order <==> uri in prefix || uri == last;
      assert last !in prefix;
    }
  }

  function MatchingOnly(subs: Table, sub: string, changes: seq<Change>): seq<Change> {
    if changes == [] then []
    else
      var c := changes[|changes| - 1];
      MatchingOnly(subs, sub, changes[..|changes| - 1]) + (if Matches(subs, sub, c.uri) then [c] else [])
  }

  lemma {:induction false} MatchingOnUri(subs: Table, sub: string, changes: seq<Change>, uri: string)
    ensures OnUri(MatchingOnly(subs, sub, changes), uri) == if Matches(subs, sub, uri) then OnUri(changes, uri) else []
  {
    if changes != [] {
      var c := changes[|changes| - 1];
      MatchingOnUri(subs, sub, changes[..|changes| - 1], uri);
      var head := MatchingOnly(subs, sub, changes[..|changes| - 1]);
      if Matches(subs, sub, c.uri) {
        assert (head + [c])[..|head|] == head;
      } else {
        assert head + [] == head;
      }
    }
  }

  /** What a subscription collects at a flush are exactly the admitted changes that match it, each as
      often as admitted, with the order of each URI kept. */
  lemma CollectedExactly(subs: Table, sub: string, batch: Batch, admitted: seq<Change>, order: seq<string>)
    requires Holds(batch, admitted) && Enumerates(order, batch.Keys)
    ensures var got, wanted := Collect(subs, sub, batch, order), MatchingOnly(subs, sub, admitted);
            multiset(got) == multiset(wanted) && forall uri :: OnUri(got, uri) == OnUri(wanted, uri)
  {
    forall uri
      ensures OnUri(Collect(subs, sub, batch, order), uri) == OnUri(MatchingOnly(subs, sub, admitted), uri)
    {
      CollectedPerUri(subs, sub, batch, admitted, order, uri);
      MatchingOnUri(subs, sub, admitted, uri);
      assert Batched(batch, uri) == OnUri(admitted, uri);
    }
    SameOnUriSamePermutation(Collect(subs, sub, batch, order), MatchingOnly(subs, sub, admitted));
  }

  // ---------------------------------------------------------------------------------------
  // What a flush sends
  // ---------------------------------------------------------------------------------------

  function Times<T>(xs: seq<T>, n: nat): seq<T> {
    if n == 0 then [] else Times(xs, n - 1) + xs
  }

  function Matching(subs: Table, uri: string): set<string> {
    set sub | sub in subs && Matches(subs, sub, uri)
  }

  /** Content updates go out at once, and once for every subscription that matches. */
  function UpdatesSent(subs: Table, batch: Batch, order: seq<string>): seq<(string, string)> {
    if order == [] then []
    else
      var uri := order[|order| - 1];
      UpdatesSent(subs, batch, order[..|order| - 1]) + Times(UpdatesOf(Batched(batch, uri)), |Matching(subs, uri)|)
  }

  /** The single group a flush sends to a subscription, if it has anything for it. */
  function SentByFlush(subs: Table, sub: string, batch: Batch, order: seq<string>): seq<Group> {
    var group := GroupOf(Collect(subs, sub, batch, order));
    if sub in subs && group != EmptyGroup then [group] else []
  }

  function AllAdded(groups: seq<Group>): seq<Resource> {
    if groups == [] then [] else AllAdded(groups[..|groups| - 1]) + groups[|groups| - 1].added
  }

  function AllModified(groups: seq<Group>): seq<Resource> {
    if groups == [] then [] else AllModified(groups[..|groups| - 1]) + groups[|groups| - 1].modified
  }

  function AllRemoved(groups: seq<Group>): seq<string> {
    if groups == [] then [] else AllRemoved(groups[..|groups| - 1]) + groups[|groups| - 1].removed
  }

  /** The entries of the groups, taken together, are those of these changes, in order. */
  ghost predicate Renders(groups: seq<Group>, changes: seq<Change>) {
    && AllAdded(groups) == AddedOf(changes)
    && AllModified(groups) == ModifiedOf(changes)
    && AllRemoved(groups) == RemovedOf(changes)
  }

  /** The entries of the groups are those of these changes, each as often, in whatever order. */
  ghost predicate RendersSome(groups: seq<Group>, changes: seq<Change>) {
    && multiset(AllAdded(groups)) == multiset(AddedOf(changes))
    && multiset(AllModified(groups)) == multiset(ModifiedOf(changes))
    && multiset(AllRemoved(groups)) == multiset(RemovedOf(changes))
  }

  lemma AllOfLast(groups: seq<Group>, g: Group)
    ensures AllAdded(groups + [g]) == AllAdded(groups) + g.added
    ensures AllModified(groups + [g]) == AllModified(groups) + g.modified
    ensures AllRemoved(groups + [g]) == AllRemoved(groups) + g.removed
  {
    assert (groups + [g])[..|groups|] == groups;
  }

  lemma FlushRenders(subs: Table, sub: string, batch: Batch, order: seq<string>)
    requires sub in subs
    ensures Renders(SentByFlush(subs, sub, batch, order), Collect(subs, sub, batch, order))
  {
    var group := GroupOf(Collect(subs, sub, batch, order));
    assert [group][..0] == [];
  }

  lemma RendersPermuted(groups: seq<Group>, xs: seq<Change>, ys: seq<Change>)
    requires Renders(groups, xs) && multiset(xs) == multiset(ys)
    ensures RendersSome(groups, ys)
  {
    RenderPermuted(xs, ys, AddedIn);
    RenderPermuted(xs, ys, ModifiedIn);
    RenderPermuted(xs, ys, RemovedIn);
  }

  // The changes that give rise to an entry, by their own fields

  /** How often something is in the list. */
  function Occurrences<T(==)>(xs: seq<T>, x: T): nat { multiset(xs)[x] }

  /** The subscription is for this URI, or for everything below a parent of it. */
  ghost predicate Concerns(subs: Table, sub: string, uri: string) {
    sub in subs && (uri == sub || (subs[sub] && exists rest: string :: uri == sub + "/" + rest))
  }

  ghost function Adds(subs: Table, sub: string, x: Resource): Change -> bool {
    (c: Change) => c.kind == Added && c.resource == Some(x) && Concerns(subs, sub, c.uri)
  }

  ghost function Modifies(subs: Table, sub: string, x: Resource): Change -> bool {
    (c: Change) => c.kind == Modified && c.resource == Some(x) && Concerns(subs, sub, c.uri)
  }

  ghost function Removes(subs: Table, sub: string, uri: string): Change -> bool {
    (c: Change) => c.kind == Removed && c.uri == uri && Concerns(subs, sub, uri)
  }

  ghost function Updates(update: (string, string)): Change -> bool {
    (c: Change) => c.kind == Updated && c.uri == update.0 && c.contents == Some(update.1)
  }

  /** Where such changes stand. */
  ghost function Positions(changes: seq<Change>, such: Change -> bool): set<int> {
    set i | 0 <= i < |changes| && such(changes[i])
  }

  lemma MatchesIsConcerns(subs: Table, sub: string, uri: string)
    ensures Matches(subs, sub, uri) <==> Concerns(subs, sub, uri)
  {
    ChildIsBelow(uri, sub);
  }

  lemma PositionsOfLast(changes: seq<Change>, such: Change -> bool)
    requires changes != []
    ensures |Positions(changes, such)|
            == |Positions(changes[..|changes| - 1], such)| + if such(changes[|changes| - 1]) then 1 else 0
  {
    var n := |changes| - 1;
    var before := Positions(changes[..n], such);
    assert Positions(changes, such) == if such(changes[n]) then before + {n} else before;
  }

  /** An entry occurs as often as there are changes that give rise to it. */
  lemma {:induction false} EntriesCount<T>(changes: seq<Change>, entries: Change -> seq<T>, x: T, such: Change -> bool)
    requires forall c :: Occurrences(entries(c), x) == if such(c) then 1 else 0
    ensures Occurrences(Render(changes, entries), x) == |Positions(changes, such)|
    decreases |changes|
  {
    if changes == [] {
      assert Positions(changes, such) == {};
    } else {
      EntriesCount(changes[..|changes| - 1], entries, x, such);
      PositionsOfLast(changes, such);
    }
  }

  lemma {:induction false} MatchingEntriesCount<T>(
    subs: Table, sub: string, changes: seq<Change>, entries: Change -> seq<T>, x: T, such: Change -> bool)
    requires forall c :: such(c) <==> Occurrences(entries(c), x) > 0 && Matches(subs, sub, c.uri)
    requires forall c :: Occurrences(entries(c), x) <= 1
    ensures Occurrences(Render(MatchingOnly(subs, sub, changes), entries), x) == |Positions(changes, such)|
    decreases |changes|
  {
    if changes == [] {
      assert Positions(changes, such) == {};
    } else {
      var before, c := changes[..|changes| - 1], changes[|changes| - 1];
      MatchingEntriesCount(subs, sub, before, entries, x, such);
      PositionsOfLast(changes, such);
      if Matches(subs, sub, c.uri) {
        RenderOne(MatchingOnly(subs, sub, before), c, entries);
      } else {
        assert MatchingOnly(subs, sub, before) + [] == MatchingOnly(subs, sub, before);
      }
    }
  }

  lemma AddedCount(subs: Table, sub: string, changes: seq<Change>, x: Resource)
    ensures Occurrences(AddedOf(MatchingOnly(subs, sub, changes)), x) == |Positions(changes, Adds(subs, sub, x))|
  {
    forall c: Change
      ensures Matches(subs, sub, c.uri) <==> Concerns(subs, sub, c.uri)
    {
      MatchesIsConcerns(subs, sub, c.uri);
    }
    MatchingEntriesCount(subs, sub, changes, AddedIn, x, Adds(subs, sub, x));
  }

  lemma ModifiedCount(subs: Table, sub: string, changes: seq<Change>, x: Resource)
    ensures Occurrences(ModifiedOf(MatchingOnly(subs, sub, changes)), x)
            == |Positions(changes, Modifies(subs, sub, x))|
  {
    forall c: Change
      ensures Matches(subs, sub, c.uri) <==> Concerns(subs, sub, c.uri)
    {
      MatchesIsConcerns(subs, sub, c.uri);
    }
    MatchingEntriesCount(subs, sub, changes, ModifiedIn, x, Modifies(subs, sub, x));
  }

  lemma RemovedCount(subs: Table, sub: string, changes: seq<Change>, uri: string)
    ensures Occurrences(RemovedOf(MatchingOnly(subs, sub, changes)), uri)
            == |Positions(changes, Removes(subs, sub, uri))|
  {
    MatchesIsConcerns(subs, sub, uri);
    MatchingEntriesCount(subs, sub, changes, RemovedIn, uri, Removes(subs, sub, uri));
  }

  lemma UpdatesCount(changes: seq<Change>, update: (string, string))
    ensures Occurrences(UpdatesOf(changes), update) == |Positions(changes, Updates(update))|
  {
    EntriesCount(changes, UpdatesIn, update, Updates(update));
  }

  /** The group lists each resource and URI as often as there are such changes. */
  ghost predicate GroupCounts(g: Group, subs: Table, sub: string, changes: seq<Change>) {
    && (forall x :: multiset(g.added)[x] == |Positions(changes, Adds(subs, sub, x))|)
    && (forall x :: multiset(g.modified)[x] == |Positions(changes, Modifies(subs, sub, x))|)
    && (forall uri :: multiset(g.removed)[uri] == |Positions(changes, Removes(subs, sub, uri))|)
  }

  lemma RenderedCounts(g: Group, subs: Table, sub: string, changes: seq<Change>)
    requires RendersSome([g], MatchingOnly(subs, sub, changes))
    ensures GroupCounts(g, subs, sub, changes)
  {
    AllOfLast([], g);
    assert [] + [g] == [g];
    forall x
      ensures multiset(g.added)[x] == |Positions(changes, Adds(subs, sub, x))|
      ensures multiset(g.modified)[x] == |Positions(changes, Modifies(subs, sub, x))|
    {
      AddedCount(subs, sub, changes, x);
      ModifiedCount(subs, sub, changes, x);
    }
    forall uri
      ensures multiset(g.removed)[uri] == |Positions(changes, Removes(subs, sub, uri))|
    {
      RemovedCount(subs, sub, changes, uri);
    }
  }

  /** At a flush a subscription is sent at most one group.  It lists as added each resource as often
      as changes admitted for a URI of the subscription say so, and likewise for the modified resources
      and the removed URIs; if there is none of all these, nothing is sent. */
  lemma FlushSendsExactly(subs: Table, sub: string, batch: Batch, admitted: seq<Change>, order: seq<string>)
    requires sub in subs && Holds(batch, admitted) && Enumerates(order, batch.Keys)
    ensures var sent := SentByFlush(subs, sub, batch, order);
            || (sent == [] && GroupCounts(EmptyGroup, subs, sub, admitted))
            || (|sent| == 1 && sent[0] != EmptyGroup && GroupCounts(sent[0], subs, sub, admitted))
  {
    var got, wanted := Collect(subs, sub, batch, order), MatchingOnly(subs, sub, admitted);
    CollectedExactly(subs, sub, batch, admitted, order);
    FlushRenders(subs, sub, batch, order);
    var group := GroupOf(got);
    AllOfLast([], group);
    assert [] + [group] == [group];
    RendersPermuted([group], got, wanted);
    RenderedCounts(group, subs, sub, admitted);
  }

  // Content updates

  function Product(n: nat, k: nat): nat { n * k }

  /** How often an update is to be sent for these changes, if each of them is sent n times. */
  function Copies(n: nat, changes: seq<Change>, update: (string, string)): nat {
    Product(n, Occurrences(UpdatesOf(changes), update))
  }

  lemma {:induction false} TimesCount<T>(xs: seq<T>, n: nat, x: T)
    ensures Occurrences(Times(xs, n), x) == Product(n, Occurrences(xs, x))
  {
    if n > 0 {
      TimesCount(xs, n - 1, x);
      ProductStep(n, Occurrences(xs, x));
    }
  }

  lemma ProductStep(n: nat, k: nat)
    requires n > 0
    ensures Product(n, k) == Product(n - 1, k) + k
  {
  }

  lemma ProductSum(n: nat, j: nat, k: nat)
    ensures Product(n, j + k) == Product(n, j) + Product(n, k)
    ensures Product(n, 0) == 0 == Product(0, k)
  {
  }

  lemma {:induction false} UpdatesOnUri(changes: seq<Change>, uri: string, update: (string, string))
    ensures Occurrences(UpdatesOf(OnUri(changes, uri)), update)
            == if uri == update.0 then Occurrences(UpdatesOf(changes), update) else 0
  {
    if changes != [] {
      var before, c := changes[..|changes| - 1], changes[|changes| - 1];
      UpdatesOnUri(before, uri, update);
      if c.uri == uri {
        RenderJoins(OnUri(before, uri), [c], UpdatesIn);
        RenderOne([], c, UpdatesIn);
      } else {
        assert OnUri(before, uri) + [] == OnUri(before, uri);
      }
    }
  }

  lemma {:induction false} UpdatesSentCount(
    subs: Table, batch: Batch, admitted: seq<Change>, order: seq<string>, update: (string, string))
    requires Holds(batch, admitted) && NoDuplicates(order)
    ensures Occurrences(UpdatesSent(subs, batch, order), update)
            == if update.0 in order then Copies(|Matching(subs, update.0)|, admitted, update) else 0
  {
    if order != [] {
      var prefix, last := order[..|order| - 1], order[|order| - 1];
      UpdatesSentCount(subs, batch, admitted, prefix, update);
      TimesCount(UpdatesOf(Batched(batch, last)), |Matching(subs, last)|, update);
      assert Batched(batch, last) == OnUri(admitted, last);
      UpdatesOnUri(admitted, last, update);
      ProductSum(|Matching(subs, last)|, 0, 0);
      assert update.0 in order <==> update.0 in prefix || update.0 == last;
      assert last !in prefix;
    }
  }

  /** At a flush every admitted content update goes out once for each subscription that matches it. */
  lemma FlushSendsUpdates(
    subs: Table, batch: Batch, admitted: seq<Change>, order: seq<string>, update: (string, string))
    requires Holds(batch, admitted) && Enumerates(order, batch.Keys)
    ensures multiset(UpdatesSent(subs, batch, order))[update]
            == |Subscribers(subs, update.0)| * |Positions(admitted, Updates(update))|
  {
    FlushCopies(subs, batch, admitted, order, update);
    SubscribersMatch(subs, update.0);
    UpdatesCount(admitted, update);
  }

  ghost function Subscribers(subs: Table, uri: string): set<string> {
    set sub | sub in subs && Concerns(subs, sub, uri)
  }

  lemma SubscribersMatch(subs: Table, uri: string)
    ensures Subscribers(subs, uri) == Matching(subs, uri)
  {
    forall sub
      ensures Matches(subs, sub, uri) <==> Concerns(subs, sub, uri)
    {
      MatchesIsConcerns(subs, sub, uri);
    }
  }

  lemma FlushCopies(
    subs: Table, batch: Batch, admitted: seq<Change>, order: seq<string>, update: (string, string))
    requires Holds(batch, admitted) && Enumerates(order, batch.Keys)
    ensures Occurrences(UpdatesSent(subs, batch, order), update)
            == Copies(|Matching(subs, update.0)|, admitted, update)
  {
    UpdatesSentCount(subs, batch, admitted, order, update);
    if update.0 !in order {
      assert Batched(batch, update.0) == OnUri(admitted, update.0);
      UpdatesOnUri(admitted, update.0, update);
      ProductSum(|Matching(subs, update.0)|, 0, 0);
    }
  }

  // ---------------------------------------------------------------------------------------
  // Runs of the manager
  // ---------------------------------------------------------------------------------------

  /** A change arrives; the ticker fires and the batch is flushed in some order; or the
      subscriptions change. */
  datatype Op =
    | Arrive(change: Change)
    | Tick(order: seq<string>)
    | SubscribeTo(uri: string, recursive: bool)
    | UnsubscribeFrom(uri: string)

  /** The subscriptions, the batch, and all that has been sent. */
  datatype Loop = Loop(subs: Table, batch: Batch, sent: map<string, seq<Group>>, updates: seq<(string, string)>)

  function SentBy(l: Loop, sub: string): seq<Group> {
    if sub in l.sent then l.sent[sub] else []
  }

  ghost function Step(l: Loop, op: Op): Loop {
    match op
    case Arrive(c) =>
      if Wanted(l.subs, c.uri) then l.(batch := l.batch[c.uri := Batched(l.batch, c.uri) + [c]]) else l
    case Tick(order) =>
      Loop(l.subs, map[],
           map sub | sub in l.sent.Keys + l.subs.Keys :: SentBy(l, sub) + SentByFlush(l.subs, sub, l.batch, order),
           l.updates + UpdatesSent(l.subs, l.batch, order))
    case SubscribeTo(uri, recursive) => if uri in l.subs then l else l.(subs := l.subs[uri := recursive])
    case UnsubscribeFrom(uri) => l.(subs := l.subs - {uri})
  }

  ghost function Run(subs: Table, ops: seq<Op>): Loop {
    if ops == [] then Loop(subs, map[], map[], []) else Step(Run(subs, ops[..|ops| - 1]), ops[|ops| - 1])
  }

  /** Every tick enumerates the batch it finds. */
  ghost predicate Orderly(subs: Table, ops: seq<Op>) {
    ops != [] ==>
      && Orderly(subs, ops[..|ops| - 1])
      && (ops[|ops| - 1].Tick? ==> Enumerates(ops[|ops| - 1].order, Run(subs, ops[..|ops| - 1]).batch.Keys))
  }

  function Arrived(ops: seq<Op>): seq<Change> {
    if ops == [] then []
    else
      var op := ops[|ops| - 1];
      Arrived(ops[..|ops| - 1]) + (if op.Arrive? then [op.change] else [])
  }

  /** The batch of a run is what was admitted since the last tick. */
  ghost function Pending(subs: Table, ops: seq<Op>): seq<Change> {
    if ops == [] then []
    else
      var before := ops[..|ops| - 1];
      match ops[|ops| - 1]
      case Arrive(c) => Pending(subs, before) + (if Wanted(Run(subs, before).subs, c.uri) then [c] else [])
      case Tick(_) => []
      case _ => Pending(subs, before)
  }

  lemma {:induction false} PendingIsHeld(subs: Table, ops: seq<Op>)
    ensures Holds(Run(subs, ops).batch, Pending(subs, ops))
  {
    if ops != [] {
      var before := ops[..|ops| - 1];
      PendingIsHeld(subs, before);
      if ops[|ops| - 1].Arrive? {
        var c := ops[|ops| - 1].change;
        if Wanted(Run(subs, before).subs, c.uri) {
          AdmitKeepsHolds(Run(subs, before).batch, Pending(subs, before), c);
        } else {
          assert Pending(subs, before) + [] == Pending(subs, before);
        }
      }
    }
  }

  /** The changes that a subscription's groups have been made of, flush by flush. */
  ghost function Got(subs: Table, sub: string, ops: seq<Op>): seq<Change> {
    if ops == [] then []
    else
      var before := ops[..|ops| - 1];
      var l := Run(subs, before);
      Got(subs, sub, before)
      + (if ops[|ops| - 1].Tick? then Collect(l.subs, sub, l.batch, ops[|ops| - 1].order) else [])
  }

  lemma RendersOneMore(groups: seq<Group>, xs: seq<Change>, ys: seq<Change>)
    requires Renders(groups, xs)
    ensures Renders(groups + [GroupOf(ys)], xs + ys)
  {
    AllOfLast(groups, GroupOf(ys));
    RenderJoins(xs, ys, AddedIn);
    RenderJoins(xs, ys, ModifiedIn);
    RenderJoins(xs, ys, RemovedIn);
  }

  lemma RendersNoMore(groups: seq<Group>, xs: seq<Change>, ys: seq<Change>)
    requires Renders(groups, xs) && GroupOf(ys) == EmptyGroup
    ensures Renders(groups + [], xs + ys)
  {
    assert groups + [] == groups;
    RenderJoins(xs, ys, AddedIn);
    RenderJoins(xs, ys, ModifiedIn);
    RenderJoins(xs, ys, RemovedIn);
  }

  lemma {:induction false} NobodyCollects(subs: Table, sub: string, batch: Batch, order: seq<string>)
    requires sub !in subs
    ensures Collect(subs, sub, batch, order) == []
  {
    if order != [] {
      NobodyCollects(subs, sub, batch, order[..|order| - 1]);
    }
  }

  predicate IsAdded(c: Change, x: Resource) { c.kind == Added && c.resource == Some(x) }

  predicate IsModified(c: Change, x: Resource) { c.kind == Modified && c.resource == Some(x) }

  predicate IsRemoved(c: Change, uri: string) { c.kind == Removed && c.uri == uri }

  /** The entries are what the changes at these ascending places say, and no other change says any. */
  ghost predicate Lists<T(!new)>(entries: seq<T>, changes: seq<Change>, says: (Change, T) -> bool, places: seq<int>) {
    && |places| == |entries|
    && (forall k :: 0 <= k < |places| ==>
          0 <= places[k] < |changes| && says(changes[places[k]], entries[k]))
    && (forall k, l :: 0 <= k < l < |places| ==> places[k] < places[l])
    && (forall i, x :: 0 <= i < |changes| && says(changes[i], x) ==> i in places)
  }

  lemma ListsOneMore<T(!new)>(
    entries: seq<T>, changes: seq<Change>, says: (Change, T) -> bool, places: seq<int>, c: Change, x: T)
    requires Lists(entries, changes, says, places) && says(c, x)
    ensures Lists(entries + [x], changes + [c], says, places + [|changes|])
  {
    var more := places + [|changes|];
    forall i, y | 0 <= i < |changes + [c]| && says((changes + [c])[i], y)
      ensures i in more
    {
      if i < |changes| {
        assert i in places;
      } else {
        assert more[|places|] == i;
      }
    }
  }

  lemma ListsNoMore<T(!new)>(
    entries: seq<T>, changes: seq<Change>, says: (Change, T) -> bool, places: seq<int>, c: Change)
    requires Lists(entries, changes, says, places) && forall x :: !says(c, x)
    ensures Lists(entries, changes + [c], says, places)
  {
  }

  ghost predicate ListedIn<T(!new)>(entries: seq<T>, changes: seq<Change>, says: (Change, T) -> bool) {
    exists places :: Lists(entries, changes, says, places)
  }

  lemma ListedWithNext<T(!new)>(
    listed: seq<T>, before: seq<Change>, says: (Change, T) -> bool, c: Change, more: seq<T>)
    requires ListedIn(listed, before, says) && |more| <= 1
    requires forall x :: says(c, x) <==> more == [x]
    ensures ListedIn(listed + more, before + [c], says)
  {
    var places :| Lists(listed, before, says, places);
    if more == [] {
      ListsNoMore(listed, before, says, places, c);
      assert listed + more == listed;
    } else {
      assert more == [more[0]];
      ListsOneMore(listed, before, says, places, c, more[0]);
    }
  }

  lemma {:induction false} RenderLists<T(!new)>(
    changes: seq<Change>, entries: Change -> seq<T>, says: (Change, T) -> bool)
    requires forall c :: |entries(c)| <= 1
    requires forall c, x :: says(c, x) <==> entries(c) == [x]
    ensures ListedIn(Render(changes, entries), changes, says)
    decreases |changes|
  {
    if changes == [] {
      assert Lists(Render(changes, entries), changes, says, []);
    } else {
      var before, c := changes[..|changes| - 1], changes[|changes| - 1];
      RenderLists(before, entries, says);
      ListedWithNext(Render(before, entries), before, says, c, entries(c));
      assert before + [c] == changes;
    }
  }

  /** The entries of the groups, taken together, are what these changes say, in the same order. */
  ghost predicate ListedInOrder(groups: seq<Group>, changes: seq<Change>) {
    && ListedIn(AllAdded(groups), changes, IsAdded)
    && ListedIn(AllModified(groups), changes, IsModified)
    && ListedIn(AllRemoved(groups), changes, IsRemoved)
  }

  /** Over any run, also while subscriptions come and go, the groups sent to a subscription list the
      added, modified and removed entries of the changes it got, in that order. */
  lemma SentListsGot(subs: Table, sub: string, ops: seq<Op>)
    ensures ListedInOrder(SentBy(Run(subs, ops), sub), Got(subs, sub, ops))
  {
    SentRendersGot(subs, sub, ops);
    RenderLists(Got(subs, sub, ops), AddedIn, IsAdded);
    RenderLists(Got(subs, sub, ops), ModifiedIn, IsModified);
    RenderLists(Got(subs, sub, ops), RemovedIn, IsRemoved);
  }

  lemma {:induction false} SentRendersGot(subs: Table, sub: string, ops: seq<Op>)
    ensures Renders(SentBy(Run(subs, ops), sub), Got(subs, sub, ops))
  {
    if ops != [] {
      var before, op := ops[..|ops| - 1], ops[|ops| - 1];
      var l := Run(subs, before);
      SentRendersGot(subs, sub, before);
      if op.Tick? {
        var flush, got := SentByFlush(l.subs, sub, l.batch, op.order), Collect(l.subs, sub, l.batch, op.order);
        if sub !in l.subs {
          NobodyCollects(l.subs, sub, l.batch, op.order);
        }
        if flush == [] {
          RendersNoMore(SentBy(l, sub), Got(subs, sub, before), got);
        } else {
          RendersOneMore(SentBy(l, sub), Got(subs, sub, before), got);
        }
        assert SentBy(Run(subs, ops), sub) == SentBy(l, sub) + flush;
      } else {
        assert Got(subs, sub, before) + [] == Got(subs, sub, before);
      }
    }
  }

  // ---------------------------------------------------------------------------------------
  // Runs with unchanged subscriptions
  // ---------------------------------------------------------------------------------------

  predicate Stable(ops: seq<Op>) {
    forall i :: 0 <= i < |ops| ==> ops[i].Arrive? || ops[i].Tick?
  }

  lemma {:induction false} StableKeepsSubs(subs: Table, ops: seq<Op>)
    requires Stable(ops)
    ensures Run(subs, ops).subs == subs
  {
    if ops != [] {
      StableKeepsSubs(subs, ops[..|ops| - 1]);
    }
  }

  ghost predicate OnceInOrder(subs: Table, sub: string, ops: seq<Op>, uri: string) {
    if Matches(subs, sub, uri)
    then OnUri(Got(subs, sub, ops), uri) + Batched(Run(subs, ops).batch, uri) == OnUri(Arrived(ops), uri)
    else OnUri(Got(subs, sub, ops), uri) == []
  }

  lemma ArriveKeepsOnceInOrder(subs: Table, sub: string, ops: seq<Op>, uri: string)
    requires ops != [] && ops[|ops| - 1].Arrive? && OnceInOrder(subs, sub, ops[..|ops| - 1], uri)
    requires Run(subs, ops[..|ops| - 1]).subs == subs
    ensures OnceInOrder(subs, sub, ops, uri)
  {
    var before, c := ops[..|ops| - 1], ops[|ops| - 1].change;
    var got, batch := Got(subs, sub, before), Run(subs, before).batch;
    assert Got(subs, sub, ops) == got + [] == got;
    assert Arrived(ops) == Arrived(before) + [c];
    assert Arrived(ops)[..|Arrived(before)|] == Arrived(before);
    if Matches(subs, sub, uri) && c.uri == uri {
      assert OnUri(got, uri) + (Batched(batch, uri) + [c]) == OnUri(got, uri) + Batched(batch, uri) + [c];
    } else {
      assert OnUri(Arrived(before), uri) + [] == OnUri(Arrived(before), uri);
    }
  }

  lemma TickKeepsOnceInOrder(subs: Table, sub: string, ops: seq<Op>, uri: string)
    requires ops != [] && ops[|ops| - 1].Tick? && OnceInOrder(subs, sub, ops[..|ops| - 1], uri)
    requires Run(subs, ops[..|ops| - 1]).subs == subs && Orderly(subs, ops)
    ensures OnceInOrder(subs, sub, ops, uri)
  {
    var before, order := ops[..|ops| - 1], ops[|ops| - 1].order;
    var l := Run(subs, before);
    PendingIsHeld(subs, before);
    assert Batched(l.batch, uri) == OnUri(Pending(subs, before), uri);
    OnUriJoins(Got(subs, sub, before), Collect(subs, sub, l.batch, order), uri);
    CollectedPerUri(subs, sub, l.batch, Pending(subs, before), order, uri);
    assert Arrived(ops) == Arrived(before);
    assert uri !in order ==> Batched(l.batch, uri) == [];
  }

  /** Over any run, a subscription gets of each URI it matches exactly the changes that arrived, once
      each and in order, up to those still waiting for the next tick; and nothing of any URI it
      does not match. */
  lemma {:induction false} GotOnceInOrder(subs: Table, sub: string, ops: seq<Op>, uri: string)
    requires Stable(ops) && Orderly(subs, ops)
    ensures OnceInOrder(subs, sub, ops, uri)
  {
    if ops != [] {
      var before := ops[..|ops| - 1];
      GotOnceInOrder(subs, sub, before, uri);
      StableKeepsSubs(subs, before);
      if ops[|ops| - 1].Arrive? {
        ArriveKeepsOnceInOrder(subs, sub, ops, uri);
      } else {
        TickKeepsOnceInOrder(subs, sub, ops, uri);
      }
    }
  }

  lemma GotAndPending(subs: Table, sub: string, ops: seq<Op>)
    requires Stable(ops) && Orderly(subs, ops)
    ensures multiset(Got(subs, sub, ops) + MatchingOnly(subs, sub, Pending(subs, ops)))
            == multiset(MatchingOnly(subs, sub, Arrived(ops)))
  {
    var got, pending, arrived := Got(subs, sub, ops), Pending(subs, ops), Arrived(ops);
    forall uri
      ensures OnUri(got + MatchingOnly(subs, sub, pending), uri) == OnUri(MatchingOnly(subs, sub, arrived), uri)
    {
      GotOnceInOrder(subs, sub, ops, uri);
      PendingIsHeld(subs, ops);
      OnUriJoins(got, MatchingOnly(subs, sub, pending), uri);
      MatchingOnUri(subs, sub, pending, uri);
      MatchingOnUri(subs, sub, arrived, uri);
      assert Batched(Run(subs, ops).batch, uri) == OnUri(pending, uri);
    }
    SameOnUriSamePermutation(got + MatchingOnly(subs, sub, pending), MatchingOnly(subs, sub, arrived));
  }

  /** What has been sent and what is still waiting make up all there is, each as often. */
  ghost predicate SentUpTo<T(!new)>(sent: seq<T>, waiting: seq<T>, all: seq<T>) {
    multiset(sent) + multiset(waiting) == multiset(all)
  }

  lemma EntriesUpTo<T(!new)>(got: seq<Change>, waiting: seq<Change>, all: seq<Change>, entries: Change -> seq<T>)
    requires multiset(got + waiting) == multiset(all)
    ensures SentUpTo(Render(got, entries), Render(waiting, entries), Render(all, entries))
  {
    RenderPermuted(got + waiting, all, entries);
    RenderJoins(got, waiting, entries);
  }

  /** Where such changes arrive in a run. */
  ghost function Arrivals(ops: seq<Op>, such: Change -> bool): set<int> {
    set i | 0 <= i < |ops| && ops[i].Arrive? && such(ops[i].change)
  }

  /** Where they arrive with a tick to follow. */
  ghost function Delivered(ops: seq<Op>, such: Change -> bool): set<int> {
    set i | i in Arrivals(ops, such) && exists j :: i < j < |ops| && ops[j].Tick?
  }

  lemma ArrivalsOfLast(ops: seq<Op>, such: Change -> bool)
    requires ops != []
    ensures var before, op := ops[..|ops| - 1], ops[|ops| - 1];
            && (op.Tick? ==> Delivered(ops, such) == Arrivals(ops, such) == Arrivals(before, such))
            && (!op.Tick? ==> Delivered(ops, such) == Delivered(before, such))
            && |Arrivals(ops, such)|
               == |Arrivals(before, such)| + if op.Arrive? && such(op.change) then 1 else 0
  {
    var n := |ops| - 1;
    var before := Arrivals(ops[..n], such);
    assert Arrivals(ops, such) == if ops[n].Arrive? && such(ops[n].change) then before + {n} else before;
    assert forall i :: 0 <= i < n ==> ops[..n][i] == ops[i];
  }

  lemma {:induction false} ArrivedCount(ops: seq<Op>, such: Change -> bool)
    ensures |Positions(Arrived(ops), such)| == |Arrivals(ops, such)|
    decreases |ops|
  {
    if ops == [] {
      assert Positions([], such) == {} == Arrivals(ops, such);
    } else {
      var before, op := ops[..|ops| - 1], ops[|ops| - 1];
      ArrivedCount(before, such);
      ArrivalsOfLast(ops, such);
      if op.Arrive? {
        PositionsOfLast(Arrived(ops), such);
        assert Arrived(ops)[..|Arrived(before)|] == Arrived(before);
      } else {
        assert Arrived(before) + [] == Arrived(before);
      }
    }
  }

  /** What a run has not delivered is pending. */
  lemma {:induction false} DeliveredAndPending(subs: Table, ops: seq<Op>, such: Change -> bool)
    requires Stable(ops) && forall c :: such(c) ==> Wanted(subs, c.uri)
    ensures |Delivered(ops, such)| + |Positions(Pending(subs, ops), such)| == |Arrivals(ops, such)|
    decreases |ops|
  {
    if ops == [] {
      assert Positions([], such) == {} == Arrivals(ops, such) == Delivered(ops, such);
    } else {
      var before, op := ops[..|ops| - 1], ops[|ops| - 1];
      DeliveredAndPending(subs, before, such);
      ArrivalsOfLast(ops, such);
      StableKeepsSubs(subs, before);
      if op.Tick? {
        assert Positions([], such) == {};
      } else if Wanted(subs, op.change.uri) {
        PositionsOfLast(Pending(subs, ops), such);
        assert Pending(subs, ops)[..|Pending(subs, before)|] == Pending(subs, before);
      } else {
        assert Pending(subs, before) + [] == Pending(subs, before);
      }
    }
  }

  lemma DeliveredCount(subs: Table, ops: seq<Op>, such: Change -> bool, sent: nat)
    requires Stable(ops) && forall c :: such(c) ==> Wanted(subs, c.uri)
    requires sent + |Positions(Pending(subs, ops), such)| == |Positions(Arrived(ops), such)|
    ensures sent == |Delivered(ops, such)|
  {
    ArrivedCount(ops, such);
    DeliveredAndPending(subs, ops, such);
  }

  lemma ConcernsIsWanted(subs: Table, sub: string)
    ensures forall uri :: Concerns(subs, sub, uri) ==> Wanted(subs, uri)
  {
    forall uri | Concerns(subs, sub, uri)
      ensures Wanted(subs, uri)
    {
      MatchesIsConcerns(subs, sub, uri);
    }
  }

  lemma SentUpToCount<T(!new)>(sent: seq<T>, waiting: seq<T>, all: seq<T>, x: T)
    requires SentUpTo(sent, waiting, all)
    ensures Occurrences(sent, x) + Occurrences(waiting, x) == Occurrences(all, x)
  {
    assert (multiset(sent) + multiset(waiting))[x] == multiset(all)[x];
  }

  lemma SentUpToPending(subs: Table, sub: string, ops: seq<Op>)
    requires Stable(ops) && Orderly(subs, ops)
    ensures var sent := SentBy(Run(subs, ops), sub);
            var waiting, all := MatchingOnly(subs, sub, Pending(subs, ops)), MatchingOnly(subs, sub, Arrived(ops));
            && SentUpTo(AllAdded(sent), AddedOf(waiting), AddedOf(all))
            && SentUpTo(AllModified(sent), ModifiedOf(waiting), ModifiedOf(all))
            && SentUpTo(AllRemoved(sent), RemovedOf(waiting), RemovedOf(all))
  {
    var got := Got(subs, sub, ops);
    var waiting, all := MatchingOnly(subs, sub, Pending(subs, ops)), MatchingOnly(subs, sub, Arrived(ops));
    SentRendersGot(subs, sub, ops);
    GotAndPending(subs, sub, ops);
    EntriesUpTo(got, waiting, all, AddedIn);
    EntriesUpTo(got, waiting, all, ModifiedIn);
    EntriesUpTo(got, waiting, all, RemovedIn);
  }

  /** Over any run with unchanged subscriptions, a subscription is sent each resource as added exactly
      as often as changes arrived that add it under a URI of the subscription and were followed by a
      tick.  The same holds of the modified resources and of the removed URIs. */
  lemma SentExactlyOnce(subs: Table, sub: string, ops: seq<Op>, x: Resource, uri: string)
    requires Stable(ops) && Orderly(subs, ops)
    ensures var sent := SentBy(Run(subs, ops), sub);
            && multiset(AllAdded(sent))[x] == |Delivered(ops, Adds(subs, sub, x))|
            && multiset(AllModified(sent))[x] == |Delivered(ops, Modifies(subs, sub, x))|
            && multiset(AllRemoved(sent))[uri] == |Delivered(ops, Removes(subs, sub, uri))|
  {
    var sent, pending, arrived := SentBy(Run(subs, ops), sub), Pending(subs, ops), Arrived(ops);
    var waiting, all := MatchingOnly(subs, sub, pending), MatchingOnly(subs, sub, arrived);
    ConcernsIsWanted(subs, sub);
    SentUpToPending(subs, sub, ops);
    AddedCount(subs, sub, pending, x);
    AddedCount(subs, sub, arrived, x);
    SentUpToCount(AllAdded(sent), AddedOf(waiting), AddedOf(all), x);
    DeliveredCount(subs, ops, Adds(subs, sub, x), Occurrences(AllAdded(sent), x));
    ModifiedCount(subs, sub, pending, x);
    ModifiedCount(subs, sub, arrived, x);
    SentUpToCount(AllModified(sent), ModifiedOf(waiting), ModifiedOf(all), x);
    DeliveredCount(subs, ops, Modifies(subs, sub, x), Occurrences(AllModified(sent), x));
    RemovedCount(subs, sub, pending, uri);
    RemovedCount(subs, sub, arrived, uri);
    SentUpToCount(AllRemoved(sent), RemovedOf(waiting), RemovedOf(all), uri);
    DeliveredCount(subs, ops, Removes(subs, sub, uri), Occurrences(AllRemoved(sent), uri));
  }

  lemma NobodyWants(subs: Table, uri: string)
    requires !Wanted(subs, uri)
    ensures |Matching(subs, uri)| == 0
  {
    assert Matching(subs, uri) == {};
  }

  lemma DifferenceOfProducts(n: nat, sent: nat, delivered: nat, pending: nat, arrived: nat)
    requires sent + Product(n, pending) == Product(n, arrived)
    requires n == 0 || delivered + pending == arrived
    ensures sent == Product(n, delivered)
  {
    ProductSum(n, delivered, pending);
    ProductSum(n, 0, delivered);
    ProductSum(n, 0, arrived);
  }

  lemma UpdateArrivals(subs: Table, ops: seq<Op>, update: (string, string), sub: string)
    requires Stable(ops) && Orderly(subs, ops) && Matches(subs, sub, update.0)
    ensures |Delivered(ops, Updates(update))| + Occurrences(UpdatesOf(Pending(subs, ops)), update)
            == Occurrences(UpdatesOf(Arrived(ops)), update)
  {
    assert Wanted(subs, update.0);
    UpdatesCount(Pending(subs, ops), update);
    UpdatesCount(Arrived(ops), update);
    ArrivedCount(ops, Updates(update));
    DeliveredAndPending(subs, ops, Updates(update));
  }

  /** Over such a run every content update that arrived with a tick to follow goes out once for each
      subscription to its URI. */
  lemma UpdatesSentExactlyOnce(subs: Table, ops: seq<Op>, update: (string, string))
    requires Stable(ops) && Orderly(subs, ops)
    ensures multiset(Run(subs, ops).updates)[update]
            == |Subscribers(subs, update.0)| * |Delivered(ops, Updates(update))|
  {
    var copies := |Matching(subs, update.0)|;
    UpdatesUpToPending(subs, ops, update);
    SubscribersMatch(subs, update.0);
    if copies > 0 {
      var sub :| sub in Matching(subs, update.0);
      UpdateArrivals(subs, ops, update, sub);
    }
    DifferenceOfProducts(copies, Occurrences(Run(subs, ops).updates, update), |Delivered(ops, Updates(update))|,
                         Occurrences(UpdatesOf(Pending(subs, ops)), update),
                         Occurrences(UpdatesOf(Arrived(ops)), update));
  }

  lemma {:induction false} UpdatesUpToPending(subs: Table, ops: seq<Op>, update: (string, string))
    requires Stable(ops) && Orderly(subs, ops)
    ensures var copies := |Matching(subs, update.0)|;
            Occurrences(Run(subs, ops).updates, update) + Copies(copies, Pending(subs, ops), update)
            == Copies(copies, Arrived(ops), update)
  {
    var copies := |Matching(subs, update.0)|;
    if ops == [] {
      ProductSum(copies, 0, 0);
    } else {
      var before, op := ops[..|ops| - 1], ops[|ops| - 1];
      UpdatesUpToPending(subs, before, update);
      StableKeepsSubs(subs, before);
      if op.Arrive? {
        UpdateArrives(subs, Pending(subs, before), Arrived(before), op.change, update);
      } else {
        PendingIsHeld(subs, before);
        FlushCopies(subs, Run(subs, before).batch, Pending(subs, before), op.order, update);
        ProductSum(copies, 0, 0);
        assert Arrived(ops) == Arrived(before);
      }
    }
  }

  lemma OneMoreUpdate(changes: seq<Change>, c: Change, update: (string, string))
    ensures Occurrences(UpdatesOf(changes + [c]), update)
            == Occurrences(UpdatesOf(changes), update) + Occurrences(UpdatesIn(c), update)
  {
    RenderOne(changes, c, UpdatesIn);
  }

  lemma CopiesOfOneMore(n: nat, changes: seq<Change>, c: Change, update: (string, string))
    ensures Copies(n, changes + [c], update)
            == Copies(n, changes, update) + Product(n, Occurrences(UpdatesIn(c), update))
  {
    OneMoreUpdate(changes, c, update);
    ProductSum(n, Occurrences(UpdatesOf(changes), update), Occurrences(UpdatesIn(c), update));
  }

  lemma UnwantedHasNoCopies(subs: Table, c: Change, update: (string, string))
    requires !Wanted(subs, c.uri)
    ensures Product(|Matching(subs, update.0)|, Occurrences(UpdatesIn(c), update)) == 0
  {
    if update.0 == c.uri {
      NobodyWants(subs, c.uri);
      ProductSum(0, 0, Occurrences(UpdatesIn(c), update));
    } else {
      assert Occurrences(UpdatesIn(c), update) == 0;
      ProductSum(|Matching(subs, update.0)|, 0, 0);
    }
  }

  lemma UpdateArrives(subs: Table, pending: seq<Change>, arrived: seq<Change>, c: Change, update: (string, string))
    ensures var copies, admitted := |Matching(subs, update.0)|, if Wanted(subs, c.uri) then [c] else [];
            Copies(copies, arrived + [c], update) - Copies(copies, arrived, update)
            == Copies(copies, pending + admitted, update) - Copies(copies, pending, update)
  {
    var copies := |Matching(subs, update.0)|;
    CopiesOfOneMore(copies, arrived, c, update);
    if Wanted(subs, c.uri) {
      CopiesOfOneMore(copies, pending, c, update);
    } else {
      UnwantedHasNoCopies(subs, c, update);
      assert pending + [] == pending;
    }
  }

  // ---------------------------------------------------------------------------------------
  // The subscription manager
  // ---------------------------------------------------------------------------------------

  const ChannelCapacity := 100

  /** The groups sent to one subscription. */
  function SentTo(log: seq<(string, Group)>, sub: string): seq<Group> {
    if log == [] then []
    else SentTo(log[..|log| - 1], sub) + (if log[|log| - 1].0 == sub then [log[|log| - 1].1] else [])
  }

  lemma SentToAppended(log: seq<(string, Group)>, to: string, group: Group, sub: string)
    ensures SentTo(log + [(to, group)], sub) == SentTo(log, sub) + (if to == sub then [group] else [])
  {
    assert (log + [(to, group)])[..|log|] == log;
  }

  function GroupAt(groups: map<string, Group>, sub: string): Group {
    if sub in groups then groups[sub] else EmptyGroup
  }

  ghost predicate Grouped(subs: Table, batch: Batch, order: seq<string>, groups: map<string, Group>) {
    groups.Keys <= subs.Keys
    && forall sub :: sub in subs ==> GroupAt(groups, sub) == GroupOf(Collect(subs, sub, batch, order))
  }

  lemma CollectAppend(subs: Table, sub: string, batch: Batch, order: seq<string>, uri: string)
    ensures Collect(subs, sub, batch, order + [uri])
            == if Matches(subs, sub, uri) then Collect(subs, sub, batch, order) + Batched(batch, uri)
               else Collect(subs, sub, batch, order)
  {
    assert (order + [uri])[..|order|] == order;
  }

  /** A group with further changes at its end. */
  function Extend(g: Group, changes: seq<Change>): Group {
    Group(g.added + AddedOf(changes), g.modified + ModifiedOf(changes), g.removed + RemovedOf(changes))
  }

  lemma ExtendIsGroupOf(xs: seq<Change>, ys: seq<Change>)
    ensures Extend(GroupOf(xs), ys) == GroupOf(xs + ys)
  {
    RenderJoins(xs, ys, AddedIn);
    RenderJoins(xs, ys, ModifiedIn);
    RenderJoins(xs, ys, RemovedIn);
  }

  /** Every subscription that matches the URI has its group extended, except those still pending,
      and no other group changes. */
  ghost predicate ExtendedBy(subs: Table, uri: string, changes: seq<Change>, groups: map<string, Group>,
                             extended: map<string, Group>, pending: set<string>)
  {
    extended.Keys <= subs.Keys + groups.Keys
    && forall sub :: GroupAt(extended, sub)
         == if sub !in pending && Matches(subs, sub, uri) then Extend(GroupAt(groups, sub), changes)
            else GroupAt(groups, sub)
  }

  lemma ExtendedOneMore(subs: Table, uri: string, changes: seq<Change>, groups: map<string, Group>,
                        extended: map<string, Group>, pending: set<string>, sub: string, group: Group)
    requires ExtendedBy(subs, uri, changes, groups, extended, pending) && sub in subs && sub in pending
    requires Matches(subs, sub, uri) && group == Extend(GroupAt(extended, sub), changes)
    ensures ExtendedBy(subs, uri, changes, groups, extended[sub := group], pending - {sub})
  {
    assert GroupAt(extended, sub) == GroupAt(groups, sub);
  }

  lemma NotExtended(subs: Table, uri: string, changes: seq<Change>, groups: map<string, Group>,
                    extended: map<string, Group>, pending: set<string>, sub: string)
    requires ExtendedBy(subs, uri, changes, groups, extended, pending) && !Matches(subs, sub, uri)
    ensures ExtendedBy(subs, uri, changes, groups, extended, pending - {sub})
  {
  }

  lemma {:induction false} ExtendedStaysGrouped(subs: Table, batch: Batch, order: seq<string>, uri: string,
                                                groups: map<string, Group>, extended: map<string, Group>)
    requires Grouped(subs, batch, order, groups) && uri in batch
    requires ExtendedBy(subs, uri, batch[uri], groups, extended, {})
    ensures Grouped(subs, batch, order + [uri], extended)
  {
    forall sub | sub in subs
      ensures GroupAt(extended, sub) == GroupOf(Collect(subs, sub, batch, order + [uri]))
    {
      CollectAppend(subs, sub, batch, order, uri);
      ExtendIsGroupOf(Collect(subs, sub, batch, order), batch[uri]);
    }
  }

  lemma UpdatesSentAppend(subs: Table, batch: Batch, order: seq<string>, uri: string, log: seq<(string, string)>)
    ensures log + UpdatesSent(subs, batch, order + [uri])
            == log + UpdatesSent(subs, batch, order) + Times(UpdatesOf(Batched(batch, uri)), |Matching(subs, uri)|)
  {
    assert (order + [uri])[..|order|] == order;
  }

  lemma OneMoreTime<T>(log: seq<T>, xs: seq<T>, met: set<string>, x: string)
    requires x !in met
    ensures log + Times(xs, |met + {x}|) == log + Times(xs, |met|) + xs
  {
  }

  /** The groups that are not pending have been sent, unless empty. */
  ghost predicate GroupsSent(
    start: seq<(string, Group)>, log: seq<(string, Group)>, groups: map<string, Group>, pending: set<string>)
  {
    forall sub :: SentTo(log, sub)
      == SentTo(start, sub) + (if sub !in pending && GroupAt(groups, sub) != EmptyGroup then [groups[sub]] else [])
  }

  lemma OneMoreGroup(
    start: seq<(string, Group)>, log: seq<(string, Group)>, log': seq<(string, Group)>,
    groups: map<string, Group>, pending: set<string>, sub: string)
    requires GroupsSent(start, log, groups, pending) && sub in pending && sub in groups
    requires forall other :: SentTo(log', other)
               == SentTo(log, other) + (if other == sub && groups[sub] != EmptyGroup then [groups[sub]] else [])
    ensures GroupsSent(start, log', groups, pending - {sub})
  {
    assert SentTo(start, sub) + [] == SentTo(start, sub);
  }

  lemma EnumeratesAppend(order: seq<string>, uris: set<string>, pending: set<string>, uri: string)
    requires Enumerates(order, uris - pending) && uri in pending && pending <= uris
    ensures Enumerates(order + [uri], uris - (pending - {uri}))
  {
    assert forall i :: 0 <= i < |order| ==> order[i] in order;
  }

  /** Receives what the manager sends; the sends do not fail. */
  class Notifier {
    var changed: seq<(string, Group)>
    var updated: seq<(string, string)>

    constructor ()
      ensures changed == [] && updated == []
    {
      changed, updated := [], [];
    }

    method NotifyResourcesChanged(uri: string, group: Group)
      modifies this`changed
      ensures changed == old(changed) + [(uri, group)]
    {
      changed := changed + [(uri, group)];
    }

    method NotifyResourceUpdated(uri: string, contents: string)
      modifies this`updated
      ensures updated == old(updated) + [(uri, contents)]
    {
      updated := updated + [(uri, contents)];
    }
  }

  class ResourceSubscriptionManager {
    var subscriptions: Table
    var changes: seq<Change>
    var batchedChanges: Batch
    const notifier: Notifier

    /** What the batch stands for: the changes admitted since the last flush. */
    ghost var admitted: seq<Change>

    ghost predicate Valid()
      reads this
    {
      Holds(batchedChanges, admitted) && |changes| <= ChannelCapacity
    }

    /** The manager and its notifier show this state of the loop. */
    ghost predicate Shows(l: Loop)
      reads this, notifier
    {
      && subscriptions == l.subs && batchedChanges == l.batch && notifier.updated == l.updates
      && forall sub :: SentTo(notifier.changed, sub) == SentBy(l, sub)
    }

    constructor (notifier: Notifier)
      ensures Valid() && subscriptions == map[] && changes == [] && admitted == [] && this.notifier == notifier
      ensures notifier.changed == [] && notifier.updated == [] ==> Shows(Run(map[], []))
    {
      subscriptions, changes, batchedChanges, admitted := map[], [], map[], [];
      this.notifier := notifier;
    }

    /** A second subscription to the same URI changes nothing, also not its recursiveness. */
    method Subscribe(uri: string, recursive: bool)
      modifies this`subscriptions
      ensures subscriptions
              == if uri in old(subscriptions) then old(subscriptions) else old(subscriptions)[uri := recursive]
      ensures forall l :: old(Shows(l)) ==> Shows(Step(l, SubscribeTo(uri, recursive)))
    {
      if uri in subscriptions {
        return;
      }
      subscriptions := subscriptions[uri := recursive];
    }

    method Unsubscribe(uri: string) returns (found: bool)
      modifies this`subscriptions
      ensures found == (uri in old(subscriptions)) && subscriptions == old(subscriptions) - {uri}
      ensures forall l :: old(Shows(l)) ==> Shows(Step(l, UnsubscribeFrom(uri)))
    {
      if uri !in subscriptions {
        return false;
      }
      subscriptions := subscriptions - {uri};
      return true;
    }

    method ShouldNotify(uri: string) returns (wanted: bool)
      ensures wanted <==> Wanted(subscriptions, uri)
    {
      if uri in subscriptions {
        assert Matches(subscriptions, uri, uri);
        return true;
      }
      var pending := subscriptions.Keys;
      while pending != {}
        invariant pending <= subscriptions.Keys
        invariant forall sub :: sub in subscriptions && sub !in pending ==> !Matches(subscriptions, sub, uri)
      {
        var sub :| sub in pending;
        if subscriptions[sub] && (uri == sub || IsChildResource(uri, sub)) {
          assert Matches(subscriptions, sub, uri);
          return true;
        }
        pending := pending - {sub};
      }
      return false;
    }

    /** A change that finds the channel full is dropped. */
    method NotifyResourceChange(change: Change)
      requires Valid()
      modifies this`changes
      ensures Valid()
      ensures changes == if |old(changes)| < 100 then old(changes) + [change] else old(changes)
    {
      if |changes| < ChannelCapacity {
        changes := changes + [change];
      }
    }

    /** One change taken from the channel. */
    method ReceiveChange()
      requires Valid() && changes != []
      modifies this`changes, this`batchedChanges, this`admitted
      ensures Valid() && changes == old(changes)[1..]
      ensures admitted == old(admitted) + (if Wanted(subscriptions, old(changes)[0].uri) then [old(changes)[0]] else [])
      ensures forall l :: old(Shows(l)) ==> Shows(Step(l, Arrive(old(changes)[0])))
    {
      var change := changes[0];
      changes := changes[1..];
      var wanted := ShouldNotify(change.uri);
      if wanted {
        AdmitKeepsHolds(batchedChanges, admitted, change);
        batchedChanges := batchedChanges[change.uri := Batched(batchedChanges, change.uri) + [change]];
        admitted := admitted + [change];
      } else {
        assert admitted + [] == admitted;
      }
    }

    /** One tick: flush the batch, and start a new one. */
    method Tick() returns (ghost order: seq<string>)
      requires Valid()
      modifies this`batchedChanges, this`admitted, notifier
      ensures Valid() && admitted == []
      ensures Enumerates(order, old(batchedChanges).Keys)
      ensures notifier.updated == old(notifier.updated) + UpdatesSent(subscriptions, old(batchedChanges), order)
      ensures forall sub :: SentTo(notifier.changed, sub)
                == old(SentTo(notifier.changed, sub)) + SentByFlush(subscriptions, sub, old(batchedChanges), order)
      ensures forall l :: old(Shows(l)) ==> Shows(Step(l, Op.Tick(order)))
    {
      order := [];
      if |batchedChanges| > 0 {
        order := SendBatchedNotifications(batchedChanges);
        batchedChanges := map[];
      } else {
        assert batchedChanges == map[];
        assert forall sub :: Collect(subscriptions, sub, batchedChanges, []) == [];
      }
      admitted := [];
    }

    method AddChanges(group: Group, changes: seq<Change>) returns (extended: Group)
      modifies notifier`updated
      ensures extended == Extend(group, changes)
      ensures notifier.updated == old(notifier.updated) + UpdatesOf(changes)
    {
      extended := group;
      for i := 0 to |changes|
        invariant extended == Extend(group, changes[..i])
        invariant notifier.updated == old(notifier.updated) + UpdatesOf(changes[..i])
      {
        var change := changes[i];
        assert changes[..i + 1][..i] == changes[..i];
        match change.kind
        case Added =>
          if change.resource.Some? {
            extended := extended.(added := extended.added + [change.resource.value]);
          }
        case Modified =>
          if change.resource.Some? {
            extended := extended.(modified := extended.modified + [change.resource.value]);
          }
        case Removed =>
          extended := extended.(removed := extended.removed + [change.uri]);
        case Updated =>
          if change.contents.Some? {
            notifier.NotifyResourceUpdated(change.uri, change.contents.value);
          }
      }
      assert changes[..|changes|] == changes;
    }

    method ExtendIfMatching(sub: string, uri: string, changes: seq<Change>, ghost groups: map<string, Group>,
                            partly: map<string, Group>, ghost pending: set<string>)
      returns (extended: map<string, Group>)
      requires sub in subscriptions && sub in pending
      requires ExtendedBy(subscriptions, uri, changes, groups, partly, pending)
      modifies notifier`updated
      ensures ExtendedBy(subscriptions, uri, changes, groups, extended, pending - {sub})
      ensures notifier.updated
              == old(notifier.updated) + if Matches(subscriptions, sub, uri) then UpdatesOf(changes) else []
    {
      if uri == sub || (subscriptions[sub] && IsChildResource(uri, sub)) {
        var group := AddChanges(GroupAt(partly, sub), changes);
        extended := partly[sub := group];
        ExtendedOneMore(subscriptions, uri, changes, groups, partly, pending, sub, group);
      } else {
        extended := partly;
        NotExtended(subscriptions, uri, changes, groups, partly, pending, sub);
      }
    }

    /** Hand the changes of one URI to every subscription that matches it. */
    method GroupChanges(uri: string, changes: seq<Change>, groups: map<string, Group>)
      returns (extended: map<string, Group>)
      modifies notifier`updated
      ensures ExtendedBy(subscriptions, uri, changes, groups, extended, {})
      ensures notifier.updated == old(notifier.updated) + Times(UpdatesOf(changes), |Matching(subscriptions, uri)|)
    {
      extended := groups;
      var pending := subscriptions.Keys;
      ghost var met: set<string> := {};
      while pending != {}
        invariant pending <= subscriptions.Keys
        invariant forall sub :: sub in met <==> sub !in pending && Matches(subscriptions, sub, uri)
        invariant ExtendedBy(subscriptions, uri, changes, groups, extended, pending)
        invariant notifier.updated == old(notifier.updated) + Times(UpdatesOf(changes), |met|)
      {
        var sub :| sub in pending;
        extended := ExtendIfMatching(sub, uri, changes, groups, extended, pending);
        if Matches(subscriptions, sub, uri) {
          OneMoreTime(old(notifier.updated), UpdatesOf(changes), met, sub);
          met := met + {sub};
        }
        pending := pending - {sub};
      }
      assert met == Matching(subscriptions, uri);
    }

    method SendBatchedNotifications(batch: Batch) returns (ghost order: seq<string>)
      modifies notifier
      ensures Enumerates(order, batch.Keys)
      ensures notifier.updated == old(notifier.updated) + UpdatesSent(subscriptions, batch, order)
      ensures forall sub :: SentTo(notifier.changed, sub)
                == old(SentTo(notifier.changed, sub)) + SentByFlush(subscriptions, sub, batch, order)
    {
      order := [];
      var groups: map<string, Group> := map[];
      var pending := batch.Keys;
      while pending != {}
        invariant pending <= batch.Keys && Enumerates(order, batch.Keys - pending)
        invariant Grouped(subscriptions, batch, order, groups)
        invariant notifier.updated == old(notifier.updated) + UpdatesSent(subscriptions, batch, order)
        invariant notifier.changed == old(notifier.changed)
      {
        var uri :| uri in pending;
        ghost var before := groups;
        groups := GroupChanges(uri, batch[uri], groups);
        ExtendedStaysGrouped(subscriptions, batch, order, uri, before, groups);
        UpdatesSentAppend(subscriptions, batch, order, uri, old(notifier.updated));
        EnumeratesAppend(order, batch.Keys, pending, uri);
        order := order + [uri];
        pending := pending - {uri};
      }
      SendGroups(groups);
      forall sub
        ensures (if GroupAt(groups, sub) != EmptyGroup then [groups[sub]] else [])
                == SentByFlush(subscriptions, sub, batch, order)
      {
      }
    }

    method SendIfAny(sub: string, group: Group)
      modifies notifier`changed
      ensures forall other :: SentTo(notifier.changed, other)
                == old(SentTo(notifier.changed, other)) + (if other == sub && group != EmptyGroup then [group] else [])
    {
      ghost var before := notifier.changed;
      if |group.added| > 0 || |group.modified| > 0 || |group.removed| > 0 {
        notifier.NotifyResourcesChanged(sub, group);
        forall other
          ensures SentTo(notifier.changed, other) == SentTo(before, other) + (if sub == other then [group] else [])
        {
          SentToAppended(before, sub, group, other);
        }
      }
    }

    method SendGroups(groups: map<string, Group>)
      modifies notifier`changed
      ensures forall sub :: SentTo(notifier.changed, sub)
                == old(SentTo(notifier.changed, sub))
                   + (if GroupAt(groups, sub) != EmptyGroup then [groups[sub]] else [])
    {
      var pending := groups.Keys;
      while pending != {}
        invariant pending <= groups.Keys
        invariant GroupsSent(old(notifier.changed), notifier.changed, groups, pending)
      {
        var sub :| sub in pending;
        ghost var before := notifier.changed;
        SendIfAny(sub, groups[sub]);
        OneMoreGroup(old(notifier.changed), before, notifier.changed, groups, pending, sub);
        pending := pending - {sub};
      }
    }
  }
}
