/** Cursor pagination: the parameter rules and the collector of pkg/pagination/pagination.go, the
    page arithmetic of pkg/server/providers.go, and the client loop of pkg/client/pagination.go.

    A cursor is a value: the base64 and JSON text around its offset is not modelled.  Lists are
    the enumeration of the provider's table, the same one for every page of a listing. */
module Pagination {
  import opened Common

  const DefaultLimit := 50
  const MaxLimit := 200

  datatype Cursor = NoCursor | At(offset: int) | Malformed

  datatype Params = Params(limit: int, cursor: Cursor)

  datatype Error = InvalidLimit(limit: int) | InvalidCursor

  /** The pagination part of a result; "itemCount" is the length of its generic item list, which
      the typed listings leave empty. */
  datatype PageInfo = PageInfo(nextCursor: Cursor, hasMore: bool, itemCount: nat)

  datatype Page<T, U> = Page(items: seq<T>, extras: seq<U>, info: Option<PageInfo>)

  // ---------------------------------------------------------------------------------------
  // Parameters and collector
  // ---------------------------------------------------------------------------------------

  function ValidateParams(params: Option<Params>): Option<Error> {
    if params.Some? && (params.value.limit < 0 || params.value.limit > MaxLimit)
    then Some(InvalidLimit(params.value.limit)) else None
  }

  /** The result always carries a legal limit: the caller's own if that is legal and positive, and
      otherwise the default of 50 or the cap of 200. */
  function ApplyDefaults(params: Option<Params>): (result: Params)
    ensures params.Some? && 1 <= params.value.limit <= 200 ==> result == params.value
    ensures params.None? || params.value.limit <= 0 ==> result.limit == 50
    ensures params.Some? && params.value.limit > 200 ==> result.limit == 200
    ensures result.cursor == if params.Some? then params.value.cursor else NoCursor
  {
    if params.None? then Params(DefaultLimit, NoCursor)
    else
      var limit := if params.value.limit <= 0 then DefaultLimit else params.value.limit;
      Params(if limit > MaxLimit then MaxLimit else limit, params.value.cursor)
  }

  predicate HasNextPage(info: Option<PageInfo>) {
    info.Some? && info.value.hasMore && info.value.nextCursor != NoCursor
  }

  class Collector {
    var nextCursor: Cursor
    var hasMore: bool
    var totalItems: nat

    constructor ()
      ensures nextCursor == NoCursor && hasMore && totalItems == 0
    {
      nextCursor, hasMore, totalItems := NoCursor, true, 0;
    }

    method Update(info: Option<PageInfo>)
      modifies this
      ensures hasMore <==> info.Some? && info.value.hasMore && info.value.nextCursor != NoCursor
      ensures info.None? ==> nextCursor == old(nextCursor) && totalItems == old(totalItems)
      ensures info.Some? ==> nextCursor == info.value.nextCursor && totalItems == old(totalItems) + info.value.itemCount
    {
      if info.None? {
        hasMore := false;
        return;
      }
      nextCursor := info.value.nextCursor;
      hasMore := info.value.hasMore && info.value.nextCursor != NoCursor;
      if info.value.itemCount > 0 {
        totalItems := totalItems + info.value.itemCount;
      }
    }

    function NextParams(base: Params): Params
      reads this
    {
      ApplyDefaults(Some(base)).(cursor := nextCursor)
    }
  }

  // ---------------------------------------------------------------------------------------
  // Server: one page of one list, and of two lists one after the other
  // ---------------------------------------------------------------------------------------

  function Min(a: int, b: int): int { if a < b then a else b }

  function Max(a: int, b: int): int { if a > b then a else b }

  function DecodeCursor(cursor: Cursor): Result<nat, Error> {
    match cursor
    case NoCursor => Success(0)
    case Malformed => Failure(InvalidCursor)
    case At(offset) => if offset < 0 then Failure(InvalidCursor) else Success(offset)
  }

  function LimitOf(params: Option<Params>): (limit: int)
    ensures limit > 0
  {
    if params.Some? && params.value.limit > 0 then params.value.limit else DefaultLimit
  }

  function CursorOf(params: Option<Params>): Cursor {
    if params.Some? then params.value.cursor else NoCursor
  }

  function MorePages(more: bool, next: int): Option<PageInfo> {
    Some(PageInfo(if more then At(next) else NoCursor, more, 0))
  }

  /** ListTools, ListPrompts and ListRoots. */
  function ListPage<T, U>(list: seq<T>, params: Option<Params>): Result<Page<T, U>, Error> {
    var start := DecodeCursor(CursorOf(params));
    if start.Failure? then Failure(start.error)
    else
      var total := |list|;
      var end := if start.value + LimitOf(params) > total then total else start.value + LimitOf(params);
      if start.value < total
      then Success(Page(list[start.value..end], [], MorePages(end < total, end)))
      else Success(Page([], [], MorePages(false, end)))
  }

  /** ListResources. */
  function ListResources<T, U>(resources: seq<T>, templates: seq<U>, params: Option<Params>)
    : Result<Page<T, U>, Error>
  {
    var decoded := DecodeCursor(CursorOf(params));
    if decoded.Failure? then Failure(decoded.error)
    else
      var start, limit := decoded.value, LimitOf(params);
      var resEnd := Min(|resources|, start + limit);
      var templStart := Max(0, start - |resources|);
      var templEnd := Min(|templates|, templStart + limit - (resEnd - start));
      var actualEnd := if resEnd == |resources| && templEnd > 0 then |resources| + templEnd else resEnd + templEnd;
      Success(Page(
        if start < |resources| then resources[start..resEnd] else [],
        if templStart < |templates| then templates[templStart..templEnd] else [],
        MorePages(actualEnd < |resources| + |templates|, actualEnd)))
  }

  /** The pages of the typed listings carry no generic items, so a collector's total stays as it is. */
  lemma TypedPagesCountNothing<T, U>(resources: seq<T>, templates: seq<U>, params: Option<Params>)
    ensures var one, two := ListPage<T, U>(resources, params), ListResources(resources, templates, params);
            && (one.Success? ==> one.value.info.Some? && one.value.info.value.itemCount == 0)
            && (two.Success? ==> two.value.info.Some? && two.value.info.value.itemCount == 0)
  {
  }

  // ---------------------------------------------------------------------------------------
  // Client: follow the cursors
  // ---------------------------------------------------------------------------------------

  type Fetch<!T, !U> = Params -> Result<Page<T, U>, Error>

  /** The parameters that ask for the page after this one. */
  function Following<T, U>(p: Params, page: Page<T, U>): Params {
    ApplyDefaults(Some(p)).(cursor := if page.info.Some? then page.info.value.nextCursor else NoCursor)
  }

  function AllItems<T, U>(pages: seq<Page<T, U>>): seq<T> {
    if pages == [] then [] else pages[0].items + AllItems(pages[1..])
  }

  function AllExtras<T, U>(pages: seq<Page<T, U>>): seq<U> {
    if pages == [] then [] else pages[0].extras + AllExtras(pages[1..])
  }

  lemma {:induction false} AllOfAppended<T, U>(pages: seq<Page<T, U>>, last: Page<T, U>)
    ensures AllItems(pages + [last]) == AllItems(pages) + last.items
    ensures AllExtras(pages + [last]) == AllExtras(pages) + last.extras
  {
    if pages == [] {
      assert pages + [last] == [last] && [last][1..] == [];
    } else {
      var first, rest := pages[0], pages[1..];
      assert (pages + [last])[1..] == rest + [last] && (pages + [last])[0] == first;
      AllOfAppended(rest, last);
      assert first.items + (AllItems(rest) + last.items) == first.items + AllItems(rest) + last.items;
      assert first.extras + (AllExtras(rest) + last.extras) == first.extras + AllExtras(rest) + last.extras;
    }
  }

  /** The server makes progress: every next cursor is closer to the end, as measured by "rank". */
  ghost predicate Progresses<T, U>(fetch: Fetch<T, U>, rank: Params -> nat, p: Params) {
    var r := fetch(p);
    r.Success? && HasNextPage(r.value.info) ==> rank(Following(p, r.value)) < rank(p)
  }

  ghost predicate ProgressesAlways<T, U>(fetch: Fetch<T, U>, rank: Params -> nat) {
    forall p :: Progresses(fetch, rank, p)
  }

  /** All the pages that following the cursors yields, or the first error. */
  ghost function PagesFrom<T, U>(fetch: Fetch<T, U>, rank: Params -> nat, p: Params): Result<seq<Page<T, U>>, Error>
    requires ProgressesAlways(fetch, rank)
    decreases rank(p)
  {
    assert Progresses(fetch, rank, p);
    match fetch(p)
    case Failure(e) => Failure(e)
    case Success(page) =>
      if HasNextPage(page.info) then Prepend([page], PagesFrom(fetch, rank, Following(p, page))) else Success([page])
  }

  ghost function Prepend<T, U>(pages: seq<Page<T, U>>, rest: Result<seq<Page<T, U>>, Error>)
    : Result<seq<Page<T, U>>, Error>
  {
    if rest.Failure? then rest else Success(pages + rest.value)
  }

  lemma PrependTwice<T, U>(pages: seq<Page<T, U>>, page: Page<T, U>, rest: Result<seq<Page<T, U>>, Error>)
    ensures Prepend(pages, Prepend([page], rest)) == Prepend(pages + [page], rest)
    ensures Prepend([], rest) == rest
  {
    if rest.Success? {
      assert pages + ([page] + rest.value) == pages + [page] + rest.value;
      assert [] + rest.value == rest.value;
    }
  }

  ghost function Collected<T, U>(pages: Result<seq<Page<T, U>>, Error>): Result<(seq<T>, seq<U>), Error> {
    match pages
    case Failure(e) => Failure(e)
    case Success(all) => Success((AllItems(all), AllExtras(all)))
  }

  /** Against any server that makes progress the loop ends; it returns the contents of all pages
      in order, or the first error.  The extras stand for what a fetch function keeps aside. */
  method FetchAllPages<T, U>(initial: Option<Params>, fetch: Fetch<T, U>, ghost rank: Params -> nat)
    returns (r: Result<(seq<T>, seq<U>), Error>)
    requires ProgressesAlways(fetch, rank)
    ensures r == if initial.Some? && !(0 <= initial.value.limit <= 200)
                 then Failure(InvalidLimit(initial.value.limit))
                 else Collected(PagesFrom(fetch, rank, ApplyDefaults(initial)))
  {
    var invalid := ValidateParams(initial);
    if invalid.Some? {
      return Failure(invalid.value);
    }
    var params := ApplyDefaults(initial);
    var collector := new Collector();
    var allResults: seq<T>, allExtras: seq<U> := [], [];
    ghost var pages: seq<Page<T, U>>, whole := [], PagesFrom(fetch, rank, params);
    assert whole.Success? ==> [] + whole.value == whole.value;
    while collector.hasMore
      invariant collector.hasMore
      invariant whole == Prepend(pages, PagesFrom(fetch, rank, params))
      invariant allResults == AllItems(pages) && allExtras == AllExtras(pages)
      decreases rank(params)
    {
      var fetched := fetch(params);
      if fetched.Failure? {
        return Failure(fetched.error);
      }
      var page := fetched.value;
      assert Progresses(fetch, rank, params);
      collector.Update(page.info);
      AllOfAppended(pages, page);
      allResults, allExtras := allResults + page.items, allExtras + page.extras;
      if !collector.hasMore {
        break;
      }
      params := collector.NextParams(params);
      PrependTwice(pages, page, PagesFrom(fetch, rank, params));
      pages := pages + [page];
    }
    r := Success((allResults, allExtras));
  }

  // ---------------------------------------------------------------------------------------
  // Servers whose pages cover two lists laid end to end (the second may be empty)
  // ---------------------------------------------------------------------------------------

  /** The position a page reaches in the two lists laid end to end. */
  function Reached<T, U>(resources: seq<T>, templates: seq<U>, page: Page<T, U>): int {
    if HasNextPage(page.info) && page.info.value.nextCursor.At? then page.info.value.nextCursor.offset
    else |resources| + |templates|
  }

  /** The part of a list between two positions, which may lie outside it. */
  function Between<T>(list: seq<T>, from: int, to: int): seq<T> {
    var lo := Max(0, Min(from, |list|));
    list[lo..Max(lo, Min(to, |list|))]
  }

  lemma RestBetween<T>(list: seq<T>, start: int)
    requires 0 <= start
    ensures Between(list, start, Max(start, |list|)) == if start < |list| then list[start..] else []
  {
  }

  lemma WholeBetween<T>(list: seq<T>, from: int, to: int)
    requires from <= 0 && |list| <= to
    ensures Between(list, from, to) == list
  {
  }

  lemma BetweenJoins<T>(list: seq<T>, from: int, mid: int, to: int)
    requires from <= mid <= to
    ensures Between(list, from, mid) + Between(list, mid, to) == Between(list, from, to)
  {
  }

  /** A page that starts at the cursor's position holds what lies between it and the next one. */
  ghost predicate PageCovers<T, U>(fetch: Fetch<T, U>, resources: seq<T>, templates: seq<U>, p: Params) {
    DecodeCursor(p.cursor).Success? ==>
      var start := DecodeCursor(p.cursor).value;
      fetch(p).Success? &&
      var page := fetch(p).value;
      var end := Reached(resources, templates, page);
      && page.items == Between(resources, start, end)
      && page.extras == Between(templates, start - |resources|, end - |resources|)
      && (HasNextPage(page.info) ==>
            start < end < |resources| + |templates| && page.info.value.nextCursor == At(end))
  }

  lemma {:induction false} CoveringPagesReturnTheRest<T, U>(
    fetch: Fetch<T, U>, rank: Params -> nat, resources: seq<T>, templates: seq<U>, p: Params, start: nat)
    requires ProgressesAlways(fetch, rank) && DecodeCursor(p.cursor) == Success(start)
    requires forall q :: PageCovers(fetch, resources, templates, q)
    ensures var total := |resources| + |templates|;
            var pages := PagesFrom(fetch, rank, p);
            && pages.Success?
            && AllItems(pages.value) == Between(resources, start, Max(start, total))
            && AllExtras(pages.value) == Between(templates, start - |resources|, Max(start, total) - |resources|)
    decreases rank(p)
  {
    var R, total := |resources|, |resources| + |templates|;
    assert PageCovers(fetch, resources, templates, p) && Progresses(fetch, rank, p);
    var page := fetch(p).value;
    var end := Reached(resources, templates, page);
    if HasNextPage(page.info) {
      CoveringPagesReturnTheRest(fetch, rank, resources, templates, Following(p, page), end);
      var rest := PagesFrom(fetch, rank, Following(p, page)).value;
      assert ([page] + rest)[1..] == rest;
      BetweenJoins(resources, start, end, total);
      BetweenJoins(templates, start - R, end - R, total - R);
    } else {
      assert [page][1..] == [];
      assert AllItems([page]) == page.items + AllItems([page][1..]) == page.items;
      assert AllExtras([page]) == page.extras + AllExtras([page][1..]) == page.extras;
    }
  }

  // ---------------------------------------------------------------------------------------
  // One list
  // ---------------------------------------------------------------------------------------

  function Listing<T, U>(list: seq<T>): Fetch<T, U> {
    p => ListPage(list, Some(p))
  }

  /** How much of a list of the given length lies beyond the cursor. */
  function Left(total: nat): Params -> nat {
    (p: Params) => if DecodeCursor(p.cursor).Success? && DecodeCursor(p.cursor).value < total
                   then total - DecodeCursor(p.cursor).value else 0
  }

  lemma ListingProgresses<T, U>(list: seq<T>)
    ensures ProgressesAlways<T, U>(Listing<T, U>(list), Left(|list|))
  {
  }

  /** k pages are the fewest that can hold n items, but at least one. */
  ghost predicate FewestPages(n: nat, limit: nat, k: nat) {
    if n == 0 then k == 1 else k > 0 && (k - 1) * limit < n <= k * limit
  }

  lemma OnePageMore(n: nat, limit: nat, k: nat)
    requires limit < n && FewestPages(n - limit, limit, k)
    ensures FewestPages(n, limit, k + 1)
  {
    assert (k + 1) * limit == k * limit + limit;
    assert k * limit == (k - 1) * limit + limit;
  }

  /** Pages of a steady server begin one limit apart. */
  ghost predicate Steady<T, U>(fetch: Fetch<T, U>, total: nat, p: Params) {
    DecodeCursor(p.cursor).Success? && 1 <= p.limit <= MaxLimit ==>
      var next := DecodeCursor(p.cursor).value + p.limit;
      && fetch(p).Success?
      && (HasNextPage(fetch(p).value.info) <==> next < total)
      && (next < total ==> fetch(p).value.info.value.nextCursor == At(next))
  }

  lemma {:induction false} SteadyPageCount<T, U>(
    fetch: Fetch<T, U>, rank: Params -> nat, total: nat, p: Params, start: nat)
    requires ProgressesAlways(fetch, rank) && forall q :: Steady(fetch, total, q)
    requires 1 <= p.limit <= MaxLimit && DecodeCursor(p.cursor) == Success(start)
    ensures PagesFrom(fetch, rank, p).Success?
    ensures FewestPages(Max(0, total - start), p.limit, |PagesFrom(fetch, rank, p).value|)
    decreases rank(p)
  {
    assert Steady(fetch, total, p) && Progresses(fetch, rank, p);
    if start + p.limit < total {
      var next := Following(p, fetch(p).value);
      SteadyPageCount(fetch, rank, total, next, start + p.limit);
      OnePageMore(total - start, p.limit, |PagesFrom(fetch, rank, next).value|);
    } else {
      assert 1 * p.limit == p.limit;
    }
  }

  lemma ListingCoversSteadily<T, U>(list: seq<T>)
    ensures forall q :: PageCovers<T, U>(Listing<T, U>(list), list, [], q)
    ensures forall q :: Steady<T, U>(Listing<T, U>(list), |list|, q)
  {
  }

  /** Following the cursors of one list from any offset returns exactly the rest of the list, in
      as few pages as the limit allows (but at least one). */
  lemma {:induction false} ListingReturnsTheRest<T, U>(list: seq<T>, p: Params, start: nat)
    requires ProgressesAlways<T, U>(Listing<T, U>(list), Left(|list|))
    requires 1 <= p.limit <= MaxLimit && DecodeCursor(p.cursor) == Success(start)
    ensures var pages := PagesFrom<T, U>(Listing<T, U>(list), Left(|list|), p);
            && Collected(pages) == Success((if start < |list| then list[start..] else [], []))
            && FewestPages(Max(0, |list| - start), p.limit, |pages.value|)
  {
    var fetch: Fetch<T, U>, rank := Listing<T, U>(list), Left(|list|);
    ListingCoversSteadily<T, U>(list);
    CoveringPagesReturnTheRest(fetch, rank, list, [], p, start);
    RestBetween(list, start);
    SteadyPageCount(fetch, rank, |list|, p, start);
  }

  /** Fails on a limit outside 0 to 200, then on a cursor that is malformed or points before the list;
      otherwise returns all from the cursor on. */
  method ListAll<T>(list: seq<T>, initial: Option<Params>) returns (r: Result<seq<T>, Error>)
    ensures initial.None? ==> r == Success(list)
    ensures initial.Some? ==>
              var limit, cursor := initial.value.limit, initial.value.cursor;
              && (limit < 0 || limit > 200 ==> r == Failure(InvalidLimit(limit)))
              && (0 <= limit <= 200 ==>
                    && (cursor.NoCursor? ==> r == Success(list))
                    && (cursor.Malformed? ==> r == Failure(InvalidCursor))
                    && (cursor.At? && cursor.offset < 0 ==> r == Failure(InvalidCursor))
                    && (cursor.At? && 0 <= cursor.offset < |list| ==> r == Success(list[cursor.offset..]))
                    && (cursor.At? && cursor.offset >= |list| ==> r == Success([])))
  {
    assert list[0..] == list;
    ListingProgresses<T, ()>(list);
    var fetched := FetchAllPages<T, ()>(initial, Listing<T, ()>(list), Left(|list|));
    if DecodeCursor(CursorOf(initial)).Success? {
      ListingReturnsTheRest<T, ()>(list, ApplyDefaults(initial), DecodeCursor(CursorOf(initial)).value);
    }
    if fetched.Failure? {
      return Failure(fetched.error);
    }
    r := Success(fetched.value.0);
  }

  // ---------------------------------------------------------------------------------------
  // Two lists, one after the other
  // ---------------------------------------------------------------------------------------

  function TwoListings<T, U>(resources: seq<T>, templates: seq<U>): Fetch<T, U> {
    p => ListResources(resources, templates, Some(p))
  }

  /** A page holds exactly what lies between its start and the position it reaches, and reaches
      further than it starts whenever there is more. */
  lemma TwoListPage<T, U>(resources: seq<T>, templates: seq<U>, p: Params, start: nat)
    requires DecodeCursor(p.cursor) == Success(start)
    ensures var r := ListResources(resources, templates, Some(p));
            && r.Success?
            && var end := Reached(resources, templates, r.value);
            && r.value.items == Between(resources, start, end)
            && r.value.extras == Between(templates, start - |resources|, end - |resources|)
            && (HasNextPage(r.value.info) ==>
                  start < end < |resources| + |templates| && r.value.info.value.nextCursor == At(end))
  {
  }

  /** A page of the two lists that starts at or before the first template holds as many items as the
      limit and the rest allow.  One that starts later may hold more, by as many as there are templates
      before it.  Without a positive limit 50 is the limit. */
  lemma PageSize<T, U>(resources: seq<T>, templates: seq<U>, params: Option<Params>, start: nat)
    requires DecodeCursor(CursorOf(params)) == Success(start)
    ensures var limit := if params.Some? && params.value.limit > 0 then params.value.limit else 50;
            var page := ListResources(resources, templates, params).value;
            var rest, late := Max(0, |resources| + |templates| - start), Max(0, start - |resources|);
            && |page.items| == Max(0, Min(limit, |resources| - start))
            && |page.items| + |page.extras| == Min(limit + late, rest)
            && |ListPage<T, U>(resources, params).value.items| == Max(0, Min(limit, |resources| - start))
  {
  }

  /** A page exceeds the limit exactly when it starts past the first template and more
      templates than the limit are left. */
  lemma PageSizeIff<T, U>(resources: seq<T>, templates: seq<U>, p: Params, start: nat)
    requires DecodeCursor(p.cursor) == Success(start) && p.limit > 0
    ensures var page := ListResources(resources, templates, Some(p)).value;
            |page.items| + |page.extras| > p.limit
            <==> start > |resources| && |resources| + |templates| - start > p.limit
  {
  }

  /** Such pages do occur in an ordinary listing: with no resources and seven templates, pages
      of limit two hold two, four and one. */
  lemma OverlongPage<U>(templates: seq<U>)
    requires |templates| == 7
    ensures var first := ListResources<int, U>([], templates, Some(Params(2, NoCursor))).value;
            var second := ListResources<int, U>([], templates, Some(Params(2, first.info.value.nextCursor))).value;
            |first.extras| == 2 && |second.extras| == 4
  {
  }

  lemma TwoListingsProgress<T, U>(resources: seq<T>, templates: seq<U>)
    ensures ProgressesAlways(TwoListings(resources, templates), Left(|resources| + |templates|))
  {
  }

  /** From any position, following the cursors returns the rest of both lists, each item once and
      in order, although single pages may be longer than the limit. */
  lemma {:induction false} TwoListingsReturnTheRest<T, U>(resources: seq<T>, templates: seq<U>, p: Params, start: nat)
    requires ProgressesAlways(TwoListings(resources, templates), Left(|resources| + |templates|))
    requires DecodeCursor(p.cursor) == Success(start)
    ensures var total := |resources| + |templates|;
            Collected(PagesFrom(TwoListings(resources, templates), Left(total), p))
            == Success((Between(resources, start, Max(start, total)),
                        Between(templates, start - |resources|, Max(start, total) - |resources|)))
  {
    var fetch := TwoListings(resources, templates);
    forall q
      ensures PageCovers(fetch, resources, templates, q)
    {
      if DecodeCursor(q.cursor).Success? {
        TwoListPage(resources, templates, q, DecodeCursor(q.cursor).value);
      }
    }
    CoveringPagesReturnTheRest(fetch, Left(|resources| + |templates|), resources, templates, p, start);
  }

  lemma BothListsComplete<T, U>(resources: seq<T>, templates: seq<U>)
    requires ProgressesAlways(TwoListings(resources, templates), Left(|resources| + |templates|))
    ensures var total := |resources| + |templates|;
            Collected(PagesFrom(TwoListings(resources, templates), Left(total), ApplyDefaults(None)))
            == Success((resources, templates))
  {
    var total := |resources| + |templates|;
    TwoListingsReturnTheRest(resources, templates, ApplyDefaults(None), 0);
    WholeBetween(resources, 0, total);
    WholeBetween(templates, 0 - |resources|, total - |resources|);
  }

  /** Every resource and every template exactly once, in order, for all lengths. */
  method ListAllResources<T, U>(resources: seq<T>, templates: seq<U>)
    returns (r: Result<(seq<T>, seq<U>), Error>)
    ensures r == Success((resources, templates))
  {
    var fetch := TwoListings(resources, templates);
    TwoListingsProgress(resources, templates);
    BothListsComplete(resources, templates);
    r := FetchAllPages(None, fetch, Left(|resources| + |templates|));
  }
}
