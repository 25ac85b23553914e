/**
 Keyset pagination over the event table: `queryEvents` of both stores against its
 specification, a slice of the matching rows in order.

 An event id is a number here: real ids are fixed-width text that sorts chronologically, and
 only their order matters. An absent cursor is `None`.
 */
module Keyset {
  import opened Results
  import opened Settings

  type Id = nat

  datatype Order = Ascending | Descending
  datatype Direction = Forward | Backward

  type Limit = n: int | n >= 1 witness 1

  function NormaliseLimit(limit: Option<int>): Limit {
    if limit.None? then DEFAULT_QUERY_LIMIT
    else if limit.value < 1 then 1
    else if limit.value > MAX_QUERY_LIMIT then MAX_QUERY_LIMIT
    else limit.value
  }

  function Min(a: int, b: int): int { if a < b then a else b }
  function Max(a: int, b: int): int { if a < b then b else a }

  // ---------------------------------------------------------------- sorted ids

  /** `a` comes before `b` in pages of this order. */
  predicate Before(order: Order, a: Id, b: Id) {
    if order == Ascending then a < b else b < a
  }

  function Flip(order: Order): Order {
    if order == Ascending then Descending else Ascending
  }

  ghost predicate Sorted(order: Order, ids: seq<Id>) {
    forall i, j | 0 <= i < j < |ids| :: Before(order, ids[i], ids[j])
  }

  /** `all` lists the ids of a set, each once, in order. */
  ghost predicate Lists(order: Order, ids: set<Id>, all: seq<Id>) {
    Sorted(order, all) && forall x :: x in all <==> x in ids
  }

  lemma {:induction false} ListingExists(order: Order, ids: set<Id>)
    ensures exists all :: Lists(order, ids, all)
    decreases ids
  {
    if ids == {} {
      assert Lists(order, ids, []);
    } else {
      LastExists(order, ids);
      var last :| IsLast(order, ids, last);
      ListingExists(order, ids - {last});
      var rest :| Lists(order, ids - {last}, rest);
      assert forall i | 0 <= i < |rest| :: rest[i] in rest;
      assert Lists(order, ids, rest + [last]);
    }
  }

  ghost predicate IsLast(order: Order, ids: set<Id>, last: Id) {
    last in ids && forall x | x in ids && x != last :: Before(order, x, last)
  }

  lemma {:induction false} LastExists(order: Order, ids: set<Id>)
    requires ids != {}
    ensures exists last :: IsLast(order, ids, last)
    decreases ids
  {
    var x :| x in ids;
    var others := ids - {x};
    if others == {} {
      assert ids == {x};
      assert IsLast(order, ids, x);
    } else {
      LastExists(order, others);
      var y :| IsLast(order, others, y);
      assert forall z | z in ids :: z == x || z in others;
      assert IsLast(order, ids, if Before(order, x, y) then y else x);
    }
  }

  /** `ORDER BY id`. */
  ghost function InOrder(order: Order, ids: set<Id>): seq<Id> {
    ListingExists(order, ids);
    var all :| Lists(order, ids, all);
    all
  }

  lemma InOrderMembers(order: Order, ids: set<Id>)
    ensures forall x | x in InOrder(order, ids) :: x in ids
  {
  }

  /** The listing of a set is unique. */
  lemma {:induction false} ListingUnique(order: Order, ids: set<Id>, a: seq<Id>, b: seq<Id>)
    requires Lists(order, ids, a) && Lists(order, ids, b)
    ensures a == b
    decreases |a|
  {
    if b != [] { assert b[0] in ids && b[0] in a; }
    if a != [] {
      assert a[0] in a && a[0] in b && b[0] in a;
      assert a[0] == b[0];
      ListsRest(order, ids, a);
      ListsRest(order, ids, b);
      ListingUnique(order, ids - {a[0]}, a[1..], b[1..]);
    }
  }

  lemma ListsRest(order: Order, ids: set<Id>, all: seq<Id>)
    requires Lists(order, ids, all) && all != []
    ensures Lists(order, ids - {all[0]}, all[1..])
  {
    forall x ensures x in all[1..] <==> x in ids - {all[0]} {
      if x in all && x != all[0] {
        var i :| 0 <= i < |all| && all[i] == x;
        assert all[1..][i - 1] == x;
      }
    }
  }

  lemma IsInOrder(order: Order, ids: set<Id>, all: seq<Id>)
    requires Lists(order, ids, all)
    ensures InOrder(order, ids) == all
  {
    ListingUnique(order, ids, all, InOrder(order, ids));
  }

  function Reverse(ids: seq<Id>): (r: seq<Id>)
    ensures |r| == |ids|
    ensures forall i | 0 <= i < |ids| :: r[i] == ids[|ids| - 1 - i]
  {
    seq(|ids|, i requires 0 <= i < |ids| => ids[|ids| - 1 - i])
  }

  lemma ReverseLists(order: Order, ids: set<Id>, all: seq<Id>)
    requires Lists(order, ids, all)
    ensures Lists(Flip(order), ids, Reverse(all))
  {
    var back := Reverse(all);
    forall x ensures x in back <==> x in all {
      if x in all {
        var i :| 0 <= i < |all| && all[i] == x;
        assert back[|all| - 1 - i] == x;
      }
    }
  }

  // ---------------------------------------------------------------- queryEvents

  datatype Page = Page(ids: seq<Id>, next: Option<Id>, prev: Option<Id>)

  /** A query against the matching ids of a table: everything but the filter. */
  datatype Query = Query(order: Order, direction: Direction, cursor: Option<Id>, limit: Option<int>)

  /** Ids that come after a bound in `order`. */
  ghost function After(order: Order, ids: set<Id>, bound: Id): set<Id> {
    set x | x in ids && Before(order, bound, x)
  }

  function Take(ids: seq<Id>, n: nat): seq<Id> {
    if |ids| <= n then ids else ids[..n]
  }

  /** SELECT ... WHERE filter AND id beyond the cursor ORDER BY id LIMIT n, reading towards `scan`. */
  ghost function Select(ids: set<Id>, scan: Order, cursor: Option<Id>, n: nat): seq<Id> {
    Take(InOrder(scan, if cursor.Some? then After(scan, ids, cursor.value) else ids), n)
  }

  ghost predicate ExistsBeyond(ids: set<Id>, order: Order, bound: Id) {
    After(order, ids, bound) != {}
  }

  function Trim(rows: seq<Id>, limit: Limit, backward: bool): seq<Id> {
    var scanned := if |rows| > limit then rows[..limit] else rows;
    if backward then Reverse(scanned) else scanned
  }

  /** A page of ids with the cursors on the sides that have more; an empty page has none. */
  function Bounded(ids: seq<Id>, next: bool, prev: bool): Page {
    if ids == [] then Page([], None, None)
    else Page(ids, if next then Some(ids[|ids| - 1]) else None, if prev then Some(ids[0]) else None)
  }

  /** The side the scan headed for is known from the extra row; the other takes a probe. */
  ghost function PageOfRows(ids: set<Id>, order: Order, backward: bool, rows: seq<Id>, limit: Limit): Page {
    var hasMore, page := |rows| > limit, Trim(rows, limit, backward);
    if page == [] then Page([], None, None)
    else if backward then Bounded(page, ExistsBeyond(ids, order, page[|page| - 1]), hasMore)
    else Bounded(page, hasMore, ExistsBeyond(ids, Flip(order), page[0]))
  }

  /** `queryEvents` of the SQLite and Postgres stores, on the ids of the rows the filter matches. */
  ghost function QueryEvents(ids: set<Id>, q: Query): Page {
    var limit := NormaliseLimit(q.limit);
    var backward := q.direction == Backward;
    var scan := if backward then Flip(q.order) else q.order;
    PageOfRows(ids, q.order, backward, Select(ids, scan, q.cursor, limit + 1), limit)
  }

  lemma TakeMembers(ids: seq<Id>, n: nat)
    ensures forall x | x in Take(ids, n) :: x in ids
  {
  }

  lemma TrimMembers(rows: seq<Id>, limit: Limit, backward: bool)
    ensures forall x | x in Trim(rows, limit, backward) :: x in rows
  {
  }

  lemma PageIdsAreRows(ids: set<Id>, order: Order, backward: bool, rows: seq<Id>, limit: Limit)
    ensures PageOfRows(ids, order, backward, rows, limit).ids == Trim(rows, limit, backward)
  {
  }

  /** A page only holds ids beyond the cursor in the direction it was read. */
  lemma PageIdsBeyondCursor(ids: set<Id>, q: Query)
    ensures var scan := if q.direction == Backward then Flip(q.order) else q.order;
            forall x | x in QueryEvents(ids, q).ids ::
              x in ids && (q.cursor.Some? ==> Before(scan, q.cursor.value, x))
  {
    hide InOrder, Take, Trim, PageOfRows;
    var scan, limit := if q.direction == Backward then Flip(q.order) else q.order, NormaliseLimit(q.limit);
    var candidates := if q.cursor.Some? then After(scan, ids, q.cursor.value) else ids;
    var rows := Select(ids, scan, q.cursor, limit + 1);
    InOrderMembers(scan, candidates);
    TakeMembers(InOrder(scan, candidates), limit + 1);
    TrimMembers(rows, limit, q.direction == Backward);
    PageIdsAreRows(ids, q.order, q.direction == Backward, rows, limit);
  }

  // ---------------------------------------------------------------- slices

  /** `all[from..to]` as a page, with a cursor on each side that has more. */
  function Slice(all: seq<Id>, from: nat, to: nat): Page
    requires from <= to <= |all|
  {
    Bounded(all[from..to], to < |all|, from > 0)
  }

  /** Exactly the ids from index `k` on come after `bound`. */
  ghost predicate SplitsAt(order: Order, all: seq<Id>, bound: Id, k: nat) {
    && k <= |all|
    && (forall i | 0 <= i < k :: !Before(order, bound, all[i]))
    && (forall i | k <= i < |all| :: Before(order, bound, all[i]))
  }

  /** Index `from` is where pages after the cursor start. */
  ghost predicate StartsAt(all: seq<Id>, order: Order, cursor: Option<Id>, from: nat) {
    if cursor.None? then from == 0 else SplitsAt(order, all, cursor.value, from)
  }

  /** Index `to` is where pages before the cursor end. */
  ghost predicate EndsAt(all: seq<Id>, order: Order, cursor: Option<Id>, to: nat) {
    && to <= |all|
    && StartsAt(Reverse(all), Flip(order), cursor, |all| - to)
  }

  lemma {:induction false} SplitExists(order: Order, all: seq<Id>, bound: Id) returns (k: nat)
    requires Sorted(order, all)
    ensures SplitsAt(order, all, bound, k)
    decreases |all|
  {
    k := |all|;
    if all != [] && Before(order, bound, all[|all| - 1]) {
      k := SplitExists(order, all[..|all| - 1], bound);
    }
  }

  /** Every cursor has a place in the listing. */
  lemma StartExists(order: Order, all: seq<Id>, cursor: Option<Id>) returns (from: nat)
    requires Sorted(order, all)
    ensures from <= |all| && StartsAt(all, order, cursor, from)
  {
    from := 0;
    if cursor.Some? { from := SplitExists(order, all, cursor.value); }
  }

  lemma EndExists(order: Order, all: seq<Id>, cursor: Option<Id>) returns (to: nat)
    requires Sorted(order, all)
    ensures EndsAt(all, order, cursor, to)
  {
    var back := Reverse(all);
    assert Sorted(Flip(order), back);
    var k := StartExists(Flip(order), back, cursor);
    to := |all| - k;
  }

  /** The ids after a bound are a suffix of the listing. */
  lemma SuffixListsAfter(order: Order, ids: set<Id>, all: seq<Id>, bound: Id, k: nat)
    requires Lists(order, ids, all) && SplitsAt(order, all, bound, k)
    ensures Lists(order, After(order, ids, bound), all[k..])
  {
    forall x ensures x in all[k..] <==> x in After(order, ids, bound) {
      if x in all && Before(order, bound, x) {
        var i :| 0 <= i < |all| && all[i] == x;
        assert all[k..][i - k] == x;
      }
      if x in all[k..] {
        var i :| 0 <= i < |all[k..]| && all[k..][i] == x;
        assert all[k + i] == x;
      }
    }
  }

  lemma SelectIsSlice(ids: set<Id>, scan: Order, all: seq<Id>, cursor: Option<Id>, from: nat, n: nat)
    requires Lists(scan, ids, all) && from <= |all| && StartsAt(all, scan, cursor, from)
    ensures Select(ids, scan, cursor, n) == all[from..Min(from + n, |all|)]
  {
    if cursor.Some? {
      SuffixListsAfter(scan, ids, all, cursor.value, from);
      IsInOrder(scan, After(scan, ids, cursor.value), all[from..]);
    } else {
      IsInOrder(scan, ids, all);
    }
  }

  lemma BeyondByIndex(order: Order, ids: set<Id>, all: seq<Id>, i: nat)
    requires Lists(order, ids, all) && i < |all|
    ensures ExistsBeyond(ids, order, all[i]) <==> i < |all| - 1
    ensures ExistsBeyond(ids, Flip(order), all[i]) <==> i > 0
  {
    forall x | x in ids
      ensures Before(order, all[i], x) ==> i < |all| - 1
      ensures Before(Flip(order), all[i], x) ==> i > 0
    {
      var j :| 0 <= j < |all| && all[j] == x;
    }
    if i < |all| - 1 { assert all[i + 1] in After(order, ids, all[i]); }
    if i > 0 { assert all[i - 1] in After(Flip(order), ids, all[i]); }
  }

  lemma ForwardRows(ids: set<Id>, order: Order, all: seq<Id>, from: nat, limit: Limit)
    requires Lists(order, ids, all) && from <= |all|
    ensures PageOfRows(ids, order, false, all[from..Min(from + (limit + 1), |all|)], limit) ==
            Slice(all, from, Min(from + limit, |all|))
  {
    var rows, to := all[from..Min(from + (limit + 1), |all|)], Min(from + limit, |all|);
    assert Trim(rows, limit, false) == all[from..to];
    if from < to { BeyondByIndex(order, ids, all, from); }
  }

  lemma BackwardRows(ids: set<Id>, order: Order, all: seq<Id>, to: nat, limit: Limit)
    requires Lists(order, ids, all) && to <= |all|
    ensures PageOfRows(ids, order, true, Reverse(all[Max(to - (limit + 1), 0)..to]), limit) ==
            Slice(all, Max(to - limit, 0), to)
  {
    TrimBackward(all, to, limit);
    if to > 0 { BeyondLast(ids, order, all, Max(to - limit, 0), to); }
  }

  lemma BeyondLast(ids: set<Id>, order: Order, all: seq<Id>, from: nat, to: nat)
    requires Lists(order, ids, all) && from < to <= |all|
    ensures all[from..to][to - from - 1] == all[to - 1]
    ensures ExistsBeyond(ids, order, all[to - 1]) <==> to < |all|
  {
    BeyondByIndex(order, ids, all, to - 1);
  }

  lemma TrimBackward(all: seq<Id>, to: nat, limit: Limit)
    requires to <= |all|
    ensures var rows := Reverse(all[Max(to - (limit + 1), 0)..to]);
            && (|rows| > limit <==> to - limit > 0)
            && Trim(rows, limit, true) == all[Max(to - limit, 0)..to]
  {
  }

  lemma ReversedSlice(all: seq<Id>, to: nat, n: nat)
    requires to <= |all|
    ensures Reverse(all)[|all| - to..Min(|all| - to + n, |all|)] == Reverse(all[Max(to - n, 0)..to])
  {
  }

  /** A forward page is the slice of the listing that starts after the cursor. */
  lemma ForwardPageIsSlice(ids: set<Id>, q: Query, all: seq<Id>, from: nat)
    requires q.direction == Forward && Lists(q.order, ids, all)
    requires from <= |all| && StartsAt(all, q.order, q.cursor, from)
    ensures QueryEvents(ids, q) == Slice(all, from, Min(from + NormaliseLimit(q.limit), |all|))
  {
    var limit := NormaliseLimit(q.limit);
    SelectIsSlice(ids, q.order, all, q.cursor, from, limit + 1);
    ForwardRows(ids, q.order, all, from, limit);
  }

  lemma SelectBackward(ids: set<Id>, order: Order, cursor: Option<Id>, all: seq<Id>, to: nat, n: nat)
    requires Lists(order, ids, all) && EndsAt(all, order, cursor, to)
    ensures Select(ids, Flip(order), cursor, n) == Reverse(all[Max(to - n, 0)..to])
  {
    ReverseLists(order, ids, all);
    SelectIsSlice(ids, Flip(order), Reverse(all), cursor, |all| - to, n);
    ReversedSlice(all, to, n);
  }

  /** A backward page is the slice that ends before the cursor, still in the order of the query. */
  lemma BackwardPageIsSlice(ids: set<Id>, q: Query, all: seq<Id>, to: nat)
    requires q.direction == Backward && Lists(q.order, ids, all)
    requires EndsAt(all, q.order, q.cursor, to)
    ensures QueryEvents(ids, q) == Slice(all, Max(to - NormaliseLimit(q.limit), 0), to)
  {
    var limit := NormaliseLimit(q.limit);
    SelectBackward(ids, q.order, q.cursor, all, to, limit + 1);
    BackwardRows(ids, q.order, all, to, limit);
  }

  lemma SliceCursorsExact(ids: set<Id>, order: Order, all: seq<Id>, from: nat, to: nat)
    requires Lists(order, ids, all) && from < to <= |all|
    ensures var Page(page, next, prev) := Slice(all, from, to);
            && next == (if After(order, ids, page[|page| - 1]) != {} then Some(page[|page| - 1]) else None)
            && prev == (if After(Flip(order), ids, page[0]) != {} then Some(page[0]) else None)
  {
    BeyondByIndex(order, ids, all, from);
    BeyondByIndex(order, ids, all, to - 1);
  }

  /** On a non-empty page each cursor is present exactly when a matching row lies beyond that side. */
  lemma CursorsExact(ids: set<Id>, q: Query)
    requires QueryEvents(ids, q).ids != []
    ensures var Page(page, next, prev) := QueryEvents(ids, q);
            && next == (if After(q.order, ids, page[|page| - 1]) != {} then Some(page[|page| - 1]) else None)
            && prev == (if After(Flip(q.order), ids, page[0]) != {} then Some(page[0]) else None)
  {
    hide QueryEvents, After;
    var limit := NormaliseLimit(q.limit);
    ListingExists(q.order, ids);
    var all :| Lists(q.order, ids, all);
    if q.direction == Forward {
      var from := StartExists(q.order, all, q.cursor);
      ForwardPageIsSlice(ids, q, all, from);
      SliceCursorsExact(ids, q.order, all, from, Min(from + limit, |all|));
    } else {
      var to := EndExists(q.order, all, q.cursor);
      BackwardPageIsSlice(ids, q, all, to);
      SliceCursorsExact(ids, q.order, all, Max(to - limit, 0), to);
    }
  }

  // ---------------------------------------------------------------- forward, then back

  lemma ElementSplits(order: Order, all: seq<Id>, i: nat)
    requires Sorted(order, all) && i < |all|
    ensures SplitsAt(order, all, all[i], i + 1)
  {
  }

  lemma PageAfter(ids: set<Id>, order: Order, limit: Option<int>, all: seq<Id>, i: nat)
    requires Lists(order, ids, all) && i < |all|
    ensures QueryEvents(ids, Query(order, Forward, Some(all[i]), limit)) ==
            Slice(all, i + 1, Min(i + 1 + NormaliseLimit(limit), |all|))
  {
    ElementSplits(order, all, i);
    ForwardPageIsSlice(ids, Query(order, Forward, Some(all[i]), limit), all, i + 1);
  }

  lemma PageBefore(ids: set<Id>, order: Order, limit: Option<int>, all: seq<Id>, i: nat)
    requires Lists(order, ids, all) && i < |all|
    ensures QueryEvents(ids, Query(order, Backward, Some(all[i]), limit)) ==
            Slice(all, Max(i - NormaliseLimit(limit), 0), i)
  {
    ReverseLists(order, ids, all);
    ElementSplits(Flip(order), Reverse(all), |all| - 1 - i);
    BackwardPageIsSlice(ids, Query(order, Backward, Some(all[i]), limit), all, i);
  }

  lemma SliceCursors(all: seq<Id>, from: nat, to: nat)
    requires from < to <= |all|
    ensures Slice(all, from, to).prev == if from > 0 then Some(all[from]) else None
    ensures Slice(all, from, to).next == if to < |all| then Some(all[to - 1]) else None
  {
  }

  lemma PrevOfFollowing(ids: set<Id>, order: Order, limit: Option<int>, all: seq<Id>, to: nat)
    requires Lists(order, ids, all) && 0 < to < |all|
    ensures QueryEvents(ids, Query(order, Forward, Some(all[to - 1]), limit)).prev == Some(all[to])
  {
    PageAfter(ids, order, limit, all, to - 1);
    SliceCursors(all, to, Min(to + NormaliseLimit(limit), |all|));
  }

  /** Paging forward once and then backward from the new page's `prevCursor` is the identity. */
  lemma ForwardThenBack(ids: set<Id>, order: Order, cursor: Option<Id>, limit: Option<int>)
    ensures var page := QueryEvents(ids, Query(order, Forward, cursor, limit));
            page.next.Some? ==>
              var following := QueryEvents(ids, Query(order, Forward, page.next, limit));
              && following.prev.Some?
              && QueryEvents(ids, Query(order, Backward, following.prev, limit)) == page
  {
    ListingExists(order, ids);
    var all :| Lists(order, ids, all);
    var from := StartExists(order, all, cursor);
    ForwardThenBackIn(ids, order, cursor, limit, all, from);
  }

  lemma ForwardThenBackIn(ids: set<Id>, order: Order, cursor: Option<Id>, limit: Option<int>, all: seq<Id>, from: nat)
    requires Lists(order, ids, all) && from <= |all| && StartsAt(all, order, cursor, from)
    ensures var page := QueryEvents(ids, Query(order, Forward, cursor, limit));
            page.next.Some? ==>
              var following := QueryEvents(ids, Query(order, Forward, page.next, limit));
              && following.prev.Some?
              && QueryEvents(ids, Query(order, Backward, following.prev, limit)) == page
  {
    hide QueryEvents, Lists;
    var limited := NormaliseLimit(limit);
    var to := Min(from + limited, |all|);
    var page := QueryEvents(ids, Query(order, Forward, cursor, limit));
    assert page == Slice(all, from, to) by { ForwardPageIsSlice(ids, Query(order, Forward, cursor, limit), all, from); }
    if page.next.Some? {
      assert from < to;
      SliceCursors(all, from, to);
      assert page.next == Some(all[to - 1]) && to == from + limited;
      PrevOfFollowing(ids, order, limit, all, to);
      PageBefore(ids, order, limit, all, to);
    }
  }

  // ---------------------------------------------------------------- the query, run

  /** Read the primary-key index in scan order from the cursor on. */
  method SelectRows(scan: seq<Id>, order: Order, cursor: Option<Id>, n: nat) returns (rows: seq<Id>, ghost from: nat)
    requires Sorted(order, scan)
    ensures from <= |scan| && StartsAt(scan, order, cursor, from)
    ensures rows == scan[from..Min(from + n, |scan|)]
  {
    var i := 0;
    if cursor.Some? {
      while i < |scan| && !Before(order, cursor.value, scan[i])
        invariant i <= |scan|
        invariant forall j | 0 <= j < i :: !Before(order, cursor.value, scan[j])
      {
        i := i + 1;
      }
    }
    from := i;
    rows := scan[i..Min(i + n, |scan|)];
  }

  /** The `SELECT 1 ... LIMIT 1` probe for a matching row beyond `bound`. */
  method Probe(rows: seq<Id>, ghost ids: set<Id>, order: Order, bound: Id) returns (found: bool)
    requires Lists(Ascending, ids, rows)
    ensures found <==> ExistsBeyond(ids, order, bound)
  {
    found := false;
    for i := 0 to |rows|
      invariant found <==> exists j | 0 <= j < i :: Before(order, bound, rows[j])
    {
      if Before(order, bound, rows[i]) { found := true; }
    }
    if found {
      var j :| 0 <= j < |rows| && Before(order, bound, rows[j]);
      assert rows[j] in After(order, ids, bound);
    } else {
      forall x | x in ids ensures !Before(order, bound, x) {
        var j :| 0 <= j < |rows| && rows[j] == x;
      }
    }
  }

  method ReadRows(rows: seq<Id>, ghost ids: set<Id>, scan: Order, cursor: Option<Id>, n: nat) returns (read: seq<Id>)
    requires Lists(Ascending, ids, rows)
    ensures read == Select(ids, scan, cursor, n)
  {
    ReverseLists(Ascending, ids, rows);
    var index := if scan == Ascending then rows else Reverse(rows);
    var found, from := SelectRows(index, scan, cursor, n);
    SelectIsSlice(ids, scan, index, cursor, from, n);
    read := found;
  }

  /** `queryEvents` step by step, on the ascending index of the matching rows. */
  method RunQuery(rows: seq<Id>, ghost ids: set<Id>, q: Query) returns (page: Page)
    requires Lists(Ascending, ids, rows)
    ensures page == QueryEvents(ids, q)
  {
    var limit, backward := NormaliseLimit(q.limit), q.direction == Backward;
    var read := ReadRows(rows, ids, if backward then Flip(q.order) else q.order, q.cursor, limit + 1);
    var hasMore, shown := |read| > limit, Trim(read, limit, backward);
    if shown == [] { return Page([], None, None); }
    var beyond;
    if backward {
      beyond := Probe(rows, ids, q.order, shown[|shown| - 1]);
      page := Bounded(shown, beyond, hasMore);
    } else {
      beyond := Probe(rows, ids, Flip(q.order), shown[0]);
      page := Bounded(shown, hasMore, beyond);
    }
  }
}
