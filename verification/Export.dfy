/**
 `eachEventPage`: the export that follows `nextCursor` from page to page. Read forward on a
 fixed table it yields exactly the first rows of the listing, as many as asked for. It passes
 the caller's `direction` on to every query, so read backward it yields the rows before the cursor
 only under the condition of `BackwardExportExactIff`.
 */
module Export {
  import opened Results
  import opened Settings
  import opened Keyset

  const PAGE_SIZE: int := Min(500, MAX_QUERY_LIMIT)

  /** Rows still wanted; `None` is no limit. */
  type Remaining = Option<int>

  predicate Wants(remaining: Remaining) {
    remaining.None? || remaining.value > 0
  }

  function PageLimit(remaining: Remaining): Limit
    requires Wants(remaining)
  {
    if remaining.None? then PAGE_SIZE else Min(remaining.value, PAGE_SIZE)
  }

  function Less(remaining: Remaining, n: nat): Remaining {
    if remaining.None? then None else Some(remaining.value - n)
  }

  /** Ids the next query may still return. */
  ghost function Ahead(ids: set<Id>, order: Order, direction: Direction, cursor: Option<Id>): set<Id> {
    if cursor.None? then ids else After(if direction == Forward then order else Flip(order), ids, cursor.value)
  }

  ghost function PageAt(ids: set<Id>, order: Order, direction: Direction, cursor: Option<Id>, remaining: Remaining)
    : Page
    requires Wants(remaining)
  {
    QueryEvents(ids, Query(order, direction, cursor, Some(PageLimit(remaining))))
  }

  lemma PageIdsAhead(ids: set<Id>, order: Order, direction: Direction, cursor: Option<Id>, remaining: Remaining)
    requires Wants(remaining)
    ensures forall x | x in PageAt(ids, order, direction, cursor, remaining).ids :: x in Ahead(ids, order, direction, cursor)
  {
    hide QueryEvents;
    PageIdsBeyondCursor(ids, Query(order, direction, cursor, Some(PageLimit(remaining))));
  }

  lemma NextIsAhead(ids: set<Id>, order: Order, direction: Direction, cursor: Option<Id>, remaining: Remaining)
    requires Wants(remaining) && PageAt(ids, order, direction, cursor, remaining).next.Some?
    ensures Steps(ids, order, direction, PageAt(ids, order, direction, cursor, remaining).next) <
            Steps(ids, order, direction, cursor)
  {
    var next := PageAt(ids, order, direction, cursor, remaining).next.value;
    PageIdsAhead(ids, order, direction, cursor, remaining);
    var here, there := Ahead(ids, order, direction, cursor), Ahead(ids, order, direction, Some(next));
    assert next in here && next !in there && there <= here;
    FewerThan(there, here, next);
    if cursor.Some? { FewerOrEqual(here, ids); }
  }

  lemma FewerOrEqual<T>(small: set<T>, big: set<T>)
    requires small <= big
    ensures |small| <= |big|
  {
    assert big == small + (big - small);
  }

  lemma FewerThan<T>(small: set<T>, big: set<T>, extra: T)
    requires small <= big && extra in big && extra !in small
    ensures |small| < |big|
  {
    FewerOrEqual(small + {extra}, big);
  }

  /** A bound on the queries still to come. */
  ghost function Steps(ids: set<Id>, order: Order, direction: Direction, cursor: Option<Id>): nat {
    if cursor.None? then |ids| + 1 else |Ahead(ids, order, direction, cursor)|
  }

  /** Everything the export yields from here on. */
  ghost function Exported(ids: set<Id>, order: Order, direction: Direction, cursor: Option<Id>, remaining: Remaining)
    : seq<Id>
    decreases Steps(ids, order, direction, cursor)
  {
    if !Wants(remaining) then []
    else
      var page := PageAt(ids, order, direction, cursor, remaining);
      if page.next.None? then page.ids
      else
        NextIsAhead(ids, order, direction, cursor, remaining);
        page.ids + Exported(ids, order, direction, page.next, Less(remaining, |page.ids|))
  }

  function Flatten(pages: seq<seq<Id>>): seq<Id> {
    if pages == [] then [] else Flatten(pages[..|pages| - 1]) + pages[|pages| - 1]
  }

  lemma ExportedStep(ids: set<Id>, order: Order, direction: Direction, cursor: Option<Id>, remaining: Remaining)
    ensures Exported(ids, order, direction, cursor, remaining) ==
            if !Wants(remaining) then []
            else
              var page := PageAt(ids, order, direction, cursor, remaining);
              if page.next.None? then page.ids
              else page.ids + Exported(ids, order, direction, page.next, Less(remaining, |page.ids|))
  {
  }

  lemma NoPages()
    ensures forall ids :: Flatten([]) + ids == ids
  {
  }

  lemma FlattenMore(pages: seq<seq<Id>>, ids: seq<Id>)
    ensures Flatten(pages + [ids]) == Flatten(pages) + ids
  {
    assert (pages + [ids])[..|pages|] == pages;
  }

  function Kept(pages: seq<seq<Id>>, ids: seq<Id>): seq<seq<Id>> {
    if |ids| > 0 then pages + [ids] else pages
  }

  /** One round of the export: what was yielded and what is to come stay the same whole. */
  lemma ExportRound(ids: set<Id>, order: Order, direction: Direction, cursor: Option<Id>, remaining: Remaining,
                    pages: seq<seq<Id>>)
    requires Wants(remaining)
    ensures var page := PageAt(ids, order, direction, cursor, remaining);
            && |page.ids| <= PAGE_SIZE
            && Flatten(pages) + Exported(ids, order, direction, cursor, remaining) ==
               Flatten(Kept(pages, page.ids)) +
               (if page.next.None? then []
                else Exported(ids, order, direction, page.next, Less(remaining, |page.ids|)))
  {
    var page := PageAt(ids, order, direction, cursor, remaining);
    ExportedStep(ids, order, direction, cursor, remaining);
    PageAtMost(ids, order, direction, cursor, remaining);
    FlattenMore(pages, page.ids);
    Regroup(Flatten(pages), page.ids,
            if page.next.None? then [] else Exported(ids, order, direction, page.next, Less(remaining, |page.ids|)));
  }

  lemma Regroup(a: seq<Id>, b: seq<Id>, c: seq<Id>)
    ensures a + (b + c) == (a + b) + c
    ensures a + [] == a
  {
  }

  method FetchPage(rows: seq<Id>, ghost ids: set<Id>, order: Order, direction: Direction, cursor: Option<Id>,
                   remaining: Remaining) returns (page: Page)
    requires Lists(Ascending, ids, rows) && Wants(remaining)
    ensures page == PageAt(ids, order, direction, cursor, remaining)
    ensures page.next.Some? ==> Steps(ids, order, direction, page.next) < Steps(ids, order, direction, cursor)
  {
    page := RunQuery(rows, ids, Query(order, direction, cursor, Some(PageLimit(remaining))));
    if page.next.Some? { NextIsAhead(ids, order, direction, cursor, remaining); }
  }

  /** `eachEventPage` over a table that does not change meanwhile. */
  method EachEventPage(rows: seq<Id>, ghost ids: set<Id>, order: Order, direction: Direction, start: Option<Id>,
                       limit: Remaining) returns (pages: seq<seq<Id>>)
    requires Lists(Ascending, ids, rows)
    ensures Flatten(pages) == Exported(ids, order, direction, start, limit)
    ensures forall i | 0 <= i < |pages| :: 0 < |pages[i]| <= PAGE_SIZE
  {
    hide Exported, PageAt, QueryEvents, Lists, Steps, Flatten;
    pages := [];
    NoPages();
    var remaining, cursor := limit, start;
    while Wants(remaining)
      invariant forall i | 0 <= i < |pages| :: 0 < |pages[i]| <= PAGE_SIZE
      invariant Flatten(pages) + Exported(ids, order, direction, cursor, remaining) ==
                Exported(ids, order, direction, start, limit)
      decreases Steps(ids, order, direction, cursor)
    {
      ExportRound(ids, order, direction, cursor, remaining, pages);
      var page := FetchPage(rows, ids, order, direction, cursor, remaining);
      pages := Kept(pages, page.ids);
      remaining := Less(remaining, |page.ids|);
      if page.next.None? { return; }
      cursor := page.next;
    }
    ExportedStep(ids, order, direction, cursor, remaining);
  }

  lemma PageAtMost(ids: set<Id>, order: Order, direction: Direction, cursor: Option<Id>, remaining: Remaining)
    requires Wants(remaining)
    ensures |PageAt(ids, order, direction, cursor, remaining).ids| <= PAGE_SIZE
  {
  }

  // ---------------------------------------------------------------- forward: exact

  /** The first rows of `all` from index `from`, as many as are wanted. */
  function FirstRows(all: seq<Id>, from: nat, remaining: Remaining): seq<Id>
    requires from <= |all|
  {
    if remaining.None? then all[from..]
    else if remaining.value <= 0 then []
    else all[from..Min(from + remaining.value, |all|)]
  }

  /** Read forward, the export is exactly the first rows after the cursor. */
  lemma {:induction false} ForwardExportExact(ids: set<Id>, order: Order, cursor: Option<Id>, remaining: Remaining,
                                              all: seq<Id>, from: nat)
    requires Lists(order, ids, all) && from <= |all| && StartsAt(all, order, cursor, from)
    ensures Exported(ids, order, Forward, cursor, remaining) == FirstRows(all, from, remaining)
    decreases |all| - from
  {
    hide Exported, QueryEvents, FirstRows;
    ExportedStep(ids, order, Forward, cursor, remaining);
    NothingWanted(all, from, remaining);
    if Wants(remaining) {
      var limit := PageLimit(remaining);
      var to := Min(from + limit, |all|);
      var page := PageAt(ids, order, Forward, cursor, remaining);
      ForwardPageIsSlice(ids, Query(order, Forward, cursor, Some(limit)), all, from);
      FirstRowsSplit(all, from, remaining);
      if page.next.Some? {
        SliceCursors(all, from, to);
        ElementSplits(order, all, to - 1);
        ForwardExportExact(ids, order, page.next, Less(remaining, |page.ids|), all, to);
      }
    }
  }

  lemma NothingWanted(all: seq<Id>, from: nat, remaining: Remaining)
    requires from <= |all|
    ensures !Wants(remaining) ==> FirstRows(all, from, remaining) == []
  {
  }

  lemma FirstRowsSplit(all: seq<Id>, from: nat, remaining: Remaining)
    requires from <= |all| && Wants(remaining)
    ensures var to := Min(from + PageLimit(remaining), |all|);
            && FirstRows(all, from, remaining) == all[from..to] + FirstRows(all, to, Less(remaining, to - from))
            && (to == |all| ==> FirstRows(all, from, remaining) == all[from..to])
  {
  }

  // ---------------------------------------------------------------- backward: when

  /** The rows immediately before index `to`, as many as are wanted. */
  function LastRows(all: seq<Id>, to: nat, remaining: Remaining): seq<Id>
    requires to <= |all|
  {
    if remaining.None? then all[..to]
    else if remaining.value <= 0 then []
    else all[Max(to - remaining.value, 0)..to]
  }

  predicate FitsOnePage(remaining: Remaining) {
    remaining.Some? && remaining.value <= PAGE_SIZE
  }

  /**
   When an export read backward is right, from the number of matching rows before the cursor (all
   of them without a cursor), the number of matching rows, and the limit.
   */
  predicate BackwardRight(before: nat, matching: nat, remaining: Remaining) {
    || !Wants(remaining)
    || before <= 1
    || (if before == matching then before <= PAGE_SIZE || FitsOnePage(remaining)
        else FitsOnePage(remaining) && remaining.value <= before)
  }

  /** One page read backward: its rows, and whether there is a page to follow. */
  lemma BackwardPage(ids: set<Id>, order: Order, cursor: Option<Id>, remaining: Remaining, all: seq<Id>, to: nat)
    requires Lists(order, ids, all) && EndsAt(all, order, cursor, to) && Wants(remaining)
    ensures var page := PageAt(ids, order, Backward, cursor, remaining);
            && page.ids == all[Max(to - PageLimit(remaining), 0)..to]
            && page.next == (if 0 < to < |all| then Some(all[to - 1]) else None)
  {
    BackwardPageIsSlice(ids, Query(order, Backward, cursor, Some(PageLimit(remaining))), all, to);
  }

  /** The page after it ends one row earlier: its cursor is a row the caller already has. */
  lemma EndsBeforeElement(order: Order, all: seq<Id>, i: nat)
    requires Sorted(order, all) && i < |all|
    ensures EndsAt(all, order, Some(all[i]), i)
  {
    var back := Reverse(all);
    forall k | 0 <= k < |all| - i ensures !Before(Flip(order), all[i], back[k]) { assert back[k] == all[|all| - 1 - k]; }
    forall k | |all| - i <= k < |all| ensures Before(Flip(order), all[i], back[k]) { assert back[k] == all[|all| - 1 - k]; }
  }

  lemma LastRowsSplit(all: seq<Id>, to: nat, remaining: Remaining)
    requires to <= |all| && Wants(remaining)
    ensures LastRows(all, to, remaining) == all[Max(to - PageLimit(remaining), 0)..to] <==>
            to <= PAGE_SIZE || FitsOnePage(remaining)
  {
    var wanted, page := LastRows(all, to, remaining), all[Max(to - PageLimit(remaining), 0)..to];
    if !FitsOnePage(remaining) && to > PAGE_SIZE { assert |wanted| > |page|; }
  }

  lemma Trails(all: seq<Id>, from: nat, to: nat, more: seq<Id>, start: nat, order: Order)
    requires Sorted(order, all) && from < to <= |all| && more != [] && start <= to
    ensures all[from..to] + more != all[start..to]
  {
    var yielded, wanted := all[from..to] + more, all[start..to];
    if |yielded| == |wanted| {
      var k := to - from - 1;
      assert yielded[k] == all[to - 1] && wanted[k] == all[start + k];
      assert Before(order, all[start + k], all[to - 1]);
    }
  }

  /**
   Read backward, the export yields the rows immediately before the cursor (without one, the last
   rows) if and only if nothing is wanted, at most one row lies before the cursor, nothing matches
   at or after it and one page holds what is wanted, or the first page meets the limit.
   */
  lemma BackwardExportExactIff(ids: set<Id>, order: Order, cursor: Option<Id>, remaining: Remaining, all: seq<Id>,
                               to: nat)
    requires Lists(order, ids, all) && EndsAt(all, order, cursor, to)
    ensures Exported(ids, order, Backward, cursor, remaining) == LastRows(all, to, remaining) <==>
            BackwardRight(to, |all|, remaining)
  {
    hide Exported, QueryEvents, PageAt, Lists;
    ExportedStep(ids, order, Backward, cursor, remaining);
    if Wants(remaining) {
      BackwardPage(ids, order, cursor, remaining, all, to);
      LastRowsSplit(all, to, remaining);
      if 0 < to < |all| { BackwardGoesOn(ids, order, cursor, remaining, all, to); }
    }
  }

  /** The pages after the first bring rows again, unless the limit is met or there is no row to bring. */
  lemma SecondPage(ids: set<Id>, order: Order, rest: Remaining, all: seq<Id>, to: nat)
    requires Lists(order, ids, all) && 0 < to < |all|
    ensures Exported(ids, order, Backward, Some(all[to - 1]), rest) == [] <==> !Wants(rest) || to == 1
  {
    hide Exported, QueryEvents, PageAt, EndsAt;
    ExportedStep(ids, order, Backward, Some(all[to - 1]), rest);
    if Wants(rest) {
      EndsBeforeElement(order, all, to - 1);
      BackwardPage(ids, order, Some(all[to - 1]), rest, all, to - 1);
    }
  }

  lemma FirstPageIsAll(all: seq<Id>, to: nat, remaining: Remaining, more: seq<Id>, order: Order)
    requires Sorted(order, all) && 0 < to <= |all| && Wants(remaining)
    requires more == [] <==> to == 1 || !Wants(Less(remaining, to - Max(to - PageLimit(remaining), 0)))
    ensures all[Max(to - PageLimit(remaining), 0)..to] + more == LastRows(all, to, remaining) <==>
            to == 1 || (FitsOnePage(remaining) && remaining.value <= to)
  {
    var from := Max(to - PageLimit(remaining), 0);
    LastRowsSplit(all, to, remaining);
    assert all[from..to] + [] == all[from..to];
    if more != [] { Trails(all, from, to, more, if remaining.None? then 0 else Max(to - remaining.value, 0), order); }
  }

  lemma BackwardGoesOn(ids: set<Id>, order: Order, cursor: Option<Id>, remaining: Remaining, all: seq<Id>, to: nat)
    requires Lists(order, ids, all) && EndsAt(all, order, cursor, to) && Wants(remaining) && 0 < to < |all|
    ensures Exported(ids, order, Backward, cursor, remaining) == LastRows(all, to, remaining) <==>
            to == 1 || (FitsOnePage(remaining) && remaining.value <= to)
  {
    hide Exported, QueryEvents, PageAt, EndsAt, LastRows, Wants;
    var from := Max(to - PageLimit(remaining), 0);
    var rest := Less(remaining, to - from);
    ExportedStep(ids, order, Backward, cursor, remaining);
    BackwardPage(ids, order, cursor, remaining, all, to);
    SecondPage(ids, order, rest, all, to);
    FirstPageIsAll(all, to, remaining, Exported(ids, order, Backward, Some(all[to - 1]), rest), order);
  }

  /** A page of the rows up to `to`, then one ending a row earlier, down to the first row alone. */
  function Staircase(all: seq<Id>, to: nat): seq<Id>
    requires to <= |all|
  {
    if to == 0 then [] else all[Max(to - PAGE_SIZE, 0)..to] + Staircase(all, to - 1)
  }

  /** What the export without a limit yields instead, when a row matches at or after the cursor. */
  lemma {:induction false} BackwardRepeats(ids: set<Id>, order: Order, cursor: Option<Id>, all: seq<Id>, end: nat)
    requires Lists(order, ids, all) && EndsAt(all, order, cursor, end) && end < |all|
    ensures Exported(ids, order, Backward, cursor, None) == Staircase(all, end)
    decreases end
  {
    hide Exported, QueryEvents, PageAt, EndsAt;
    ExportedStep(ids, order, Backward, cursor, None);
    BackwardPage(ids, order, cursor, None, all, end);
    if end > 0 {
      EndsBeforeElement(order, all, end - 1);
      BackwardRepeats(ids, order, Some(all[end - 1]), all, end - 1);
    }
  }

  /** Three rows, read backward from the last: the two before it, then the first again; one by one, in the wrong order. */
  lemma BackwardFailsAt()
    ensures var exported := Exported({1, 2, 3}, Ascending, Backward, Some(3), None);
            && LastRows([1, 2, 3], 2, None) == [1, 2]
            && exported == if MAX_QUERY_LIMIT == 1 then [2, 1] else [1, 2, 1]
  {
    hide Exported, EndsAt;
    var all: seq<Id> := [1, 2, 3];
    assert Lists(Ascending, {1, 2, 3}, all);
    EndsBeforeElement(Ascending, all, 2);
    BackwardRepeats({1, 2, 3}, Ascending, Some(3), all, 2);
    assert Staircase(all, 1) == all[0..1] + [] == [1];
    assert Staircase(all, 2) == (if MAX_QUERY_LIMIT == 1 then all[1..2] else all[0..2]) + [1];
    assert all[..2] == all[0..2] == [1, 2] && all[1..2] == [2];
  }

  /** Without a cursor nothing follows the first page, however many rows are wanted. */
  lemma BackwardStopsAfterOnePage(ids: set<Id>, order: Order, remaining: Remaining, all: seq<Id>)
    requires Lists(order, ids, all) && Wants(remaining)
    ensures Exported(ids, order, Backward, None, remaining) == all[Max(|all| - PageLimit(remaining), 0)..]
  {
    hide Exported, QueryEvents, PageAt;
    ExportedStep(ids, order, Backward, None, remaining);
    BackwardPage(ids, order, None, remaining, all, |all|);
  }
}
