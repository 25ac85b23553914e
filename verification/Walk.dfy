/**
 Following `nextCursor` while the table changes between pages: rows may be inserted, pruned
 or rewritten, so page `i` is read from a table of its own.
 */
module Walk {
  import opened Results
  import opened Keyset

  /** The matching ids at the time of each query. */
  type History = nat -> set<Id>

  ghost function AheadOf(ids: set<Id>, order: Order, cursor: Option<Id>): set<Id> {
    if cursor.None? then ids else After(order, ids, cursor.value)
  }

  ghost function NextPage(ids: set<Id>, order: Order, cursor: Option<Id>, limit: Option<int>): Page {
    QueryEvents(ids, Query(order, Forward, cursor, limit))
  }

  /** What a walk has returned so far, and whether it reached a page without `nextCursor`. */
  datatype Trail = Trail(ids: seq<Id>, done: bool)

  /** At most `n` pages, the first read from `tables(i)`. */
  ghost function Walked(tables: History, order: Order, cursor: Option<Id>, limit: Option<int>, i: nat, n: nat): Trail
    decreases n
  {
    if n == 0 then Trail([], false)
    else
      var page := NextPage(tables(i), order, cursor, limit);
      if page.next.None? then Trail(page.ids, true)
      else
        var rest := Walked(tables, order, page.next, limit, i + 1, n - 1);
        Trail(page.ids + rest.ids, rest.done)
  }

  /** A page holds the nearest ids ahead of the cursor; `next` says whether more are ahead. */
  lemma PageFacts(ids: set<Id>, order: Order, cursor: Option<Id>, limit: Option<int>)
    ensures var Page(page, next, _) := NextPage(ids, order, cursor, limit);
            && Sorted(order, page)
            && (forall x | x in page :: x in AheadOf(ids, order, cursor))
            && (next.None? ==> forall x | x in AheadOf(ids, order, cursor) :: x in page)
            && (next.Some? ==> page != [] && next.value == page[|page| - 1]
                               && forall x | x in AheadOf(ids, order, cursor) :: x in page || Before(order, next.value, x))
  {
    hide NormaliseLimit, StartsAt, QueryEvents;
    ListingExists(order, ids);
    var all :| Lists(order, ids, all);
    var from := StartExists(order, all, cursor);
    var to := Min(from + NormaliseLimit(limit), |all|);
    ForwardPageIsSlice(ids, Query(order, Forward, cursor, limit), all, from);
    if from < to { SliceCursors(all, from, to); }
    SliceFacts(ids, order, cursor, all, from, to);
  }

  lemma SliceFacts(ids: set<Id>, order: Order, cursor: Option<Id>, all: seq<Id>, from: nat, to: nat)
    requires Lists(order, ids, all) && from <= to <= |all| && StartsAt(all, order, cursor, from)
    ensures Sorted(order, all[from..to])
    ensures forall x | x in all[from..to] :: x in AheadOf(ids, order, cursor)
    ensures forall x | x in AheadOf(ids, order, cursor) ::
              x in all[from..to] || (to < |all| && (from < to ==> Before(order, all[to - 1], x)))
  {
    forall x | x in all[from..to] ensures x in AheadOf(ids, order, cursor) {
      var j :| 0 <= j < to - from && all[from..to][j] == x;
      assert all[from + j] == x;
    }
    forall x | x in AheadOf(ids, order, cursor)
      ensures x in all[from..to] || (to < |all| && (from < to ==> Before(order, all[to - 1], x)))
    {
      var j :| 0 <= j < |all| && all[j] == x;
      assert j >= from;
      if j < to { assert all[from..to][j - from] == x; }
    }
  }

  /** Ids come in strict order, none twice, and all after the starting cursor. */
  lemma {:induction false} WalkIsOrdered(tables: History, order: Order, cursor: Option<Id>, limit: Option<int>,
                                         i: nat, n: nat)
    ensures var ids := Walked(tables, order, cursor, limit, i, n).ids;
            && Sorted(order, ids)
            && (cursor.Some? ==> forall x | x in ids :: Before(order, cursor.value, x))
    decreases n
  {
    hide QueryEvents;
    if n > 0 {
      var page := NextPage(tables(i), order, cursor, limit);
      PageFacts(tables(i), order, cursor, limit);
      if page.next.Some? {
        assert page.next.value in page.ids;
        WalkIsOrdered(tables, order, page.next, limit, i + 1, n - 1);
        OrderedConcat(order, page.ids, Walked(tables, order, page.next, limit, i + 1, n - 1).ids);
      }
    }
  }

  lemma OrderedConcat(order: Order, a: seq<Id>, b: seq<Id>)
    requires Sorted(order, a) && Sorted(order, b) && a != []
    requires forall x | x in b :: Before(order, a[|a| - 1], x)
    ensures Sorted(order, a + b)
    ensures forall x | x in b :: Before(order, a[0], x)
  {
    forall i, j | 0 <= i < |a| && 0 <= j < |b| ensures Before(order, a[i], b[j]) {
      assert b[j] in b;
    }
  }

  /** A walk that ended returned every matching row that was there throughout. */
  lemma {:induction false} WalkIsComplete(tables: History, order: Order, cursor: Option<Id>, limit: Option<int>,
                                          i: nat, n: nat, x: Id)
    requires Walked(tables, order, cursor, limit, i, n).done
    requires forall j | i <= j < i + n :: x in tables(j)
    requires cursor.Some? ==> Before(order, cursor.value, x)
    ensures x in Walked(tables, order, cursor, limit, i, n).ids
    decreases n
  {
    hide QueryEvents;
    var page := NextPage(tables(i), order, cursor, limit);
    PageFacts(tables(i), order, cursor, limit);
    assert x in AheadOf(tables(i), order, cursor);
    if page.next.Some? && x !in page.ids {
      WalkIsComplete(tables, order, page.next, limit, i + 1, n - 1, x);
    }
  }

  /** Nothing is returned that was not there when its page was read. */
  lemma {:induction false} WalkIsSound(tables: History, order: Order, cursor: Option<Id>, limit: Option<int>,
                                       i: nat, n: nat, x: Id)
    requires x in Walked(tables, order, cursor, limit, i, n).ids
    ensures exists j :: i <= j < i + n && x in tables(j)
    decreases n
  {
    hide QueryEvents;
    var page := NextPage(tables(i), order, cursor, limit);
    PageFacts(tables(i), order, cursor, limit);
    if page.next.Some? && x !in page.ids {
      WalkIsSound(tables, order, page.next, limit, i + 1, n - 1, x);
    } else {
      assert x in tables(i);
    }
  }

  /** Once nothing outside `bound` appears ahead of the cursor, the walk ends within |bound| + 1 pages. */
  lemma {:induction false} WalkEnds(tables: History, order: Order, cursor: Option<Id>, limit: Option<int>,
                                    i: nat, n: nat, bound: set<Id>)
    requires forall j | j >= i :: AheadOf(tables(j), order, cursor) <= bound
    requires n > |bound|
    ensures Walked(tables, order, cursor, limit, i, n).done
    decreases n
  {
    hide QueryEvents;
    var page := NextPage(tables(i), order, cursor, limit);
    PageFacts(tables(i), order, cursor, limit);
    if page.next.Some? {
      var last := page.next.value;
      assert AheadOf(tables(i), order, cursor) <= bound;
      assert last in page.ids && last in bound;
      forall j | j >= i + 1 ensures AheadOf(tables(j), order, page.next) <= bound - {last} {
        assert AheadOf(tables(j), order, cursor) <= bound;
        forall x | x in AheadOf(tables(j), order, page.next) ensures x in bound - {last} {
          assert cursor.Some? ==> Before(order, cursor.value, last);
          assert x in AheadOf(tables(j), order, cursor);
        }
      }
      WalkEnds(tables, order, page.next, limit, i + 1, n - 1, bound - {last});
    }
  }
}
