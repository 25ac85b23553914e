/**
 Server-sent event streams. One subscriber is followed through every interleaving of polls,
 drains, slow sockets, failures and changes of the table; code between two awaits is one step.
 */
module Stream {
  import opened Results
  import opened Keyset
  import opened Positions
  import Walk

  /** What never changes for a subscriber: its filter, the `cursor` of its query, the batch size. */
  datatype Config = Config(matches: Id -> bool, queryCursor: Option<Id>, batchSize: int, start: Option<Id>)

  /** Where a drain is: not running, waiting for a page, or about to write one. */
  datatype Drain = Idle | Querying(latest: Id) | Writing(latest: Id, page: Page)

  /** A subscriber: the last id it has passed (`None` is the empty string) and what was written. */
  datatype Subscription = Subscription(lastId: Option<Id>, drain: Drain, written: seq<Id>)

  /**
   `kept` and `ever` are history variables: the rows that have stayed in the table since they lay
   beyond the position and the page at hand, and the rows that were ever in it.
   */
  datatype State = State(store: set<Id>, sub: Subscription, kept: set<Id>, ever: set<Id>)

  // ---------------------------------------------------------------- steps of the subscriber

  /** The start of `#drain`: nothing happens while another drain runs or the socket is not ready. */
  function Begin(sub: Subscription, latest: Id, ready: bool): Subscription {
    if sub.drain.Idle? && ready then sub.(drain := Querying(latest)) else sub
  }

  /** The cursor of the next query; an empty position leaves the query's own cursor in place. */
  function CursorOf(c: Config, sub: Subscription): Option<Id> {
    if sub.lastId.Some? then sub.lastId else c.queryCursor
  }

  ghost function Fetch(c: Config, store: set<Id>, sub: Subscription): Page {
    QueryEvents(Matching(c.matches, store), Query(Ascending, Forward, CursorOf(c, sub), Some(c.batchSize)))
  }

  /** Write a page, then jump to `latest` if nothing more matched, or go on if the socket is ready. */
  function Deliver(sub: Subscription, latest: Id, page: Page, ready: bool): Subscription {
    var passed := if page.ids == [] then sub.lastId else Some(page.ids[|page.ids| - 1]);
    var written := sub.written + page.ids;
    if page.next.None? then Subscription(if Above(latest, passed) then Some(latest) else passed, Idle, written)
    else Subscription(passed, if ready then Querying(latest) else Idle, written)
  }

  /** The subscriber as the hub keeps it: fields changed by the drain. */
  class Subscriber {
    var lastId: Option<Id>
    var drain: Drain
    var written: seq<Id>

    ghost function View(): Subscription
      reads this
    {
      Subscription(lastId, drain, written)
    }

    constructor (start: Option<Id>)
      ensures View() == Subscription(start, Idle, [])
    {
      lastId, drain, written := start, Idle, [];
    }

    method BeginDrain(latest: Id, ready: bool)
      modifies this
      ensures View() == Begin(old(View()), latest, ready)
    {
      if !drain.Idle? || !ready { return; }
      drain := Querying(latest);
    }

    method ReceivePage(page: Page)
      requires drain.Querying?
      modifies this
      ensures View() == old(View()).(drain := Writing(old(drain).latest, page))
    {
      drain := Writing(drain.latest, page);
    }

    method WritePage(ready: bool)
      requires drain.Writing?
      modifies this
      ensures View() == Deliver(old(View()), old(drain).latest, old(drain).page, ready)
    {
      var latest, page := drain.latest, drain.page;
      var i := 0;
      while i < |page.ids|
        invariant i <= |page.ids|
        invariant drain == old(drain)
        invariant written == old(written) + page.ids[..i]
        invariant lastId == if i == 0 then old(lastId) else Some(page.ids[i - 1])
      {
        written := written + [page.ids[i]];
        lastId := Some(page.ids[i]);
        i := i + 1;
      }
      assert page.ids[..i] == page.ids;
      if page.next.None? {
        if Above(latest, lastId) { lastId := Some(latest); }
        drain := Idle;
      } else if ready {
        drain := Querying(latest);
      } else {
        drain := Idle;
      }
    }

    method FailDrain()
      modifies this
      ensures View() == old(View()).(drain := Idle)
    {
      drain := Idle;
    }
  }

  // ---------------------------------------------------------------- the transition system

  ghost predicate Init(c: Config, s: State) {
    s.sub == Subscription(c.start, Idle, []) && s.kept == s.ever == s.store
  }

  /** Neither the position nor where the page at hand will move it reaches `id`. */
  predicate Beyond(sub: Subscription, id: Id) {
    Above(id, sub.lastId) &&
    match sub.drain
    case Writing(latest, page) => if page.next.Some? then page.next.value < id else latest < id && forall y | y in page.ids :: y < id
    case _ => true
  }

  /** The table changes: rows are inserted anywhere, pruned or rewritten. */
  ghost predicate Change(s: State, t: State) {
    && t.sub == s.sub && t.ever == s.ever + t.store
    && t.kept == set x | x in t.store && (x in s.kept || Beyond(s.sub, x))
  }

  ghost predicate Move(c: Config, s: State, t: State) {
    && t == s.(sub := t.sub)
    && match s.sub.drain
       case Idle => exists latest, ready :: latest in s.store && t.sub == Begin(s.sub, latest, ready)
       case Querying(latest) => t.sub == s.sub.(drain := Writing(latest, Fetch(c, s.store, s.sub))) || t.sub == s.sub.(drain := Idle)
       case Writing(latest, page) => t.sub == s.sub.(drain := Idle) || exists ready :: t.sub == Deliver(s.sub, latest, page, ready)
  }

  ghost predicate Next(c: Config, s: State, t: State) {
    s == t || Change(s, t) || Move(c, s, t)
  }

  ghost predicate IsRun(c: Config, run: seq<State>) {
    run != [] && Init(c, run[0]) && forall i | 0 <= i < |run| - 1 :: Next(c, run[i], run[i + 1])
  }

  // ---------------------------------------------------------------- the invariant

  /** The query's own cursor hides nothing: it is never used, or nothing matches up to it. */
  ghost predicate CursorHarmless(c: Config) {
    c.start.Some? || c.queryCursor.None? || forall x: Id | c.matches(x) :: x > c.queryCursor.value
  }

  /** A fetched page holds ids beyond the position, and every one kept there up to where it will move. */
  ghost predicate PageCurrent(c: Config, kept: set<Id>, ever: set<Id>, lastId: Option<Id>, latest: Id, page: Page) {
    && Sorted(Ascending, page.ids)
    && (forall x | x in page.ids :: x in ever && c.matches(x) && Above(x, lastId))
    && (page.next.Some? ==> page.ids != [] && page.next.value == page.ids[|page.ids| - 1])
    && (forall x | x in kept && c.matches(x) && Above(x, lastId) ::
          || x in page.ids
          || (page.next.Some? && x > page.next.value)
          || (page.next.None? && x > latest && forall y | y in page.ids :: y < x))
  }

  ghost predicate Inv(c: Config, s: State) {
    && s.kept <= s.store <= s.ever
    && Exact(c, s)
    && (s.sub.lastId == c.start || (s.sub.lastId.Some? && s.sub.lastId.value in s.ever))
    && (c.start.Some? ==> s.sub.lastId.Some? && c.start.value <= s.sub.lastId.value)
    && (!s.sub.drain.Idle? ==> s.sub.drain.latest in s.ever)
    && (s.sub.drain.Writing? ==> PageCurrent(c, s.kept, s.ever, s.sub.lastId, s.sub.drain.latest, s.sub.drain.page))
  }

  /**
   What was written is in ascending order and once each: matching rows the table held between the
   start and the position, and every one of them that stayed since it lay beyond.
   */
  ghost predicate Exact(c: Config, s: State) {
    && Sorted(Ascending, s.sub.written)
    && (forall x | x in s.sub.written :: x in Owed(c.matches, c.start, s.ever, s.sub.lastId))
    && (forall x | x in Owed(c.matches, c.start, s.kept, s.sub.lastId) :: x in s.sub.written)
  }

  lemma InitInv(c: Config, s: State)
    requires Init(c, s)
    ensures Inv(c, s)
  {
  }

  /** A row that joins those kept lies beyond the position and the page: neither owes it yet. */
  lemma ChangeInv(c: Config, s: State, t: State)
    requires Inv(c, s) && Change(s, t)
    ensures Inv(c, t)
  {
  }

  /** The page just queried holds everything that matches beyond the position. */
  lemma FetchCurrent(c: Config, s: State)
    requires CursorHarmless(c) && s.sub.drain.Querying?
    requires c.start.Some? ==> s.sub.lastId.Some?
    ensures PageCurrent(c, s.store, s.store, s.sub.lastId, s.sub.drain.latest, Fetch(c, s.store, s.sub))
  {
    hide QueryEvents;
    var ids, cursor := Matching(c.matches, s.store), CursorOf(c, s.sub);
    Walk.PageFacts(ids, Ascending, cursor, Some(c.batchSize));
    forall x | x in s.store && c.matches(x)
      ensures x in Walk.AheadOf(ids, Ascending, cursor) <==> Above(x, s.sub.lastId)
    {
    }
  }

  /** Writing a page keeps what was written right for the new position. */
  lemma DeliverInv(c: Config, s: State, t: State, ready: bool)
    requires Inv(c, s) && s.sub.drain.Writing?
    requires t == s.(sub := Deliver(s.sub, s.sub.drain.latest, s.sub.drain.page, ready))
    ensures Inv(c, t)
  {
    var page := s.sub.drain.page;
    var before, after, written := s.sub.lastId, t.sub.lastId, s.sub.written + page.ids;
    assert forall i | 0 <= i < |page.ids| :: page.ids[i] in page.ids;
    assert forall i | 0 <= i < |s.sub.written| :: s.sub.written[i] in s.sub.written;
    assert Sorted(Ascending, written) by {
      forall i, j | 0 <= i < j < |written| ensures written[i] < written[j] {
        if i < |s.sub.written| <= j {
          assert written[i] in s.sub.written && written[j] in page.ids;
        }
      }
    }
    forall x | x in Owed(c.matches, c.start, s.kept, after) ensures x in written {
      if !Above(x, before) { assert x in Owed(c.matches, c.start, s.kept, before); }
    }
    forall x | x in written ensures x in Owed(c.matches, c.start, s.ever, after) {
      if x in s.sub.written { assert x in Owed(c.matches, c.start, s.ever, before); }
    }
  }

  lemma MoveInv(c: Config, s: State, t: State)
    requires Inv(c, s) && CursorHarmless(c) && Move(c, s, t)
    ensures Inv(c, t)
  {
    match s.sub.drain
    case Idle =>
    case Querying(latest) => FetchCurrent(c, s); CurrentForKept(c, s, Fetch(c, s.store, s.sub));
    case Writing(latest, page) =>
      if t.sub != s.sub.(drain := Idle) {
        var ready :| t.sub == Deliver(s.sub, latest, page, ready);
        DeliverInv(c, s, t, ready);
      }
  }

  lemma CurrentForKept(c: Config, s: State, page: Page)
    requires s.kept <= s.store <= s.ever && s.sub.drain.Querying?
    requires PageCurrent(c, s.store, s.store, s.sub.lastId, s.sub.drain.latest, page)
    ensures PageCurrent(c, s.kept, s.ever, s.sub.lastId, s.sub.drain.latest, page)
  {
  }

  /** In every reachable state the ids written are those owed, in order, once each, however the table changes. */
  lemma {:induction false} StreamExact(c: Config, run: seq<State>)
    requires CursorHarmless(c) && IsRun(c, run)
    ensures Inv(c, run[|run| - 1])
  {
    var n := |run| - 1;
    if n == 0 {
      InitInv(c, run[0]);
    } else {
      StreamExact(c, run[..n]);
      assert Next(c, run[n - 1], run[n]);
      if Change(run[n - 1], run[n]) {
        ChangeInv(c, run[n - 1], run[n]);
      } else if Move(c, run[n - 1], run[n]) {
        MoveInv(c, run[n - 1], run[n]);
      }
    }
  }

  // ---------------------------------------------------------------- beside an indexer that follows the chain

  /** The table only gains ids above its greatest. */
  ghost predicate OnlyGains(run: seq<State>) {
    forall i | 0 <= i < |run| - 1 :: Follows(run[i].store, run[i + 1].store)
  }

  /** Exactly the matching rows between the start and the position were written, in order. */
  ghost predicate WrittenIsOwed(c: Config, s: State) {
    Lists(Ascending, Owed(c.matches, c.start, s.store, s.sub.lastId), s.sub.written)
  }

  lemma GainKept(c: Config, s: State, t: State)
    requires Inv(c, s) && Next(c, s, t) && Follows(s.store, t.store)
    requires s.ever == s.store && forall x | x in s.store && Above(x, c.start) :: x in s.kept
    ensures t.ever == t.store && forall x | x in t.store && Above(x, c.start) :: x in t.kept
  {
    if Change(s, t) && t.store != s.store {
      var id :| id !in s.store && t.store == s.store + {id} && forall x | x in s.store :: x < id;
      if Above(id, c.start) {
        if s.sub.drain.Writing? && s.sub.drain.page.next.Some? { assert s.sub.drain.page.next.value in s.sub.drain.page.ids; }
        assert Beyond(s.sub, id);
      }
    }
  }

  lemma {:induction false} GainsAreKept(c: Config, run: seq<State>)
    requires CursorHarmless(c) && IsRun(c, run) && OnlyGains(run)
    ensures var s := run[|run| - 1]; s.ever == s.store && forall x | x in s.store && Above(x, c.start) :: x in s.kept
  {
    var n := |run| - 1;
    if n > 0 {
      var before := run[..n];
      assert forall i | 0 <= i < n :: before[i] == run[i];
      GainsAreKept(c, before);
      StreamExact(c, before);
      assert Next(c, run[n - 1], run[n]) && Follows(run[n - 1].store, run[n].store);
      GainKept(c, run[n - 1], run[n]);
    }
  }

  lemma GrowingExact(c: Config, run: seq<State>)
    requires CursorHarmless(c) && IsRun(c, run) && OnlyGains(run)
    ensures WrittenIsOwed(c, run[|run| - 1])
  {
    StreamExact(c, run);
    GainsAreKept(c, run);
  }

  // ---------------------------------------------------------------- the query's own cursor

  /** The run in which `x` is indexed first and skipped: an empty page, then the jump past it. */
  ghost function SkippingRun(c: Config, x: Id): seq<State> {
    var s0 := State({}, Subscription(c.start, Idle, []), {}, {});
    var s1 := State({x}, s0.sub, {x}, {x});
    var s2 := s1.(sub := Begin(s1.sub, x, true));
    var s3 := s2.(sub := s2.sub.(drain := Writing(x, Fetch(c, {x}, s2.sub))));
    var s4 := s3.(sub := Deliver(s3.sub, x, Fetch(c, {x}, s2.sub), true));
    [s0, s1, s2, s3, s4]
  }

  lemma SomeId(ids: seq<Id>)
    ensures ids == [] || exists id :: id in ids
  {
    if ids != [] { assert ids[0] in ids; }
  }

  lemma SkippingRunSkips(c: Config, x: Id)
    requires c.start.None? && c.queryCursor.Some? && c.matches(x) && x <= c.queryCursor.value
    ensures var run := SkippingRun(c, x);
            && IsRun(c, run) && OnlyGains(run)
            && x in run[4].kept && x in Owed(c.matches, c.start, run[4].store, run[4].sub.lastId) && run[4].sub.written == []
  {
    var run := SkippingRun(c, x);
    var page := Fetch(c, {x}, run[2].sub);
    Walk.PageFacts(Matching(c.matches, {x}), Ascending, c.queryCursor, Some(c.batchSize));
    SomeId(page.ids);
    assert Change(run[0], run[1]);
    assert Gains(run[0].store, run[1].store) by { assert x !in run[0].store && run[1].store == run[0].store + {x}; }
    assert Move(c, run[1], run[2]) by { assert x in run[1].store && run[2].sub == Begin(run[1].sub, x, true); }
    assert Move(c, run[2], run[3]);
    assert Move(c, run[3], run[4]) by { assert run[4].sub == Deliver(run[3].sub, x, page, true); }
  }

  /**
   Every run is exact if and only if the query's own cursor cannot hide a matching id; so are the
   runs beside an indexer that only adds above the greatest id.
   */
  lemma StreamExactIff(c: Config)
    ensures (forall run: seq<State> | IsRun(c, run) :: Exact(c, run[|run| - 1])) <==> CursorHarmless(c)
    ensures (forall run: seq<State> | IsRun(c, run) && OnlyGains(run) :: WrittenIsOwed(c, run[|run| - 1])) <==> CursorHarmless(c)
  {
    if CursorHarmless(c) {
      forall run: seq<State> | IsRun(c, run) ensures Exact(c, run[|run| - 1]) {
        StreamExact(c, run);
      }
      forall run: seq<State> | IsRun(c, run) && OnlyGains(run) ensures WrittenIsOwed(c, run[|run| - 1]) {
        GrowingExact(c, run);
      }
    } else {
      var x: Id :| c.matches(x) && x <= c.queryCursor.value;
      SkippingRunSkips(c, x);
      var run, end := SkippingRun(c, x), SkippingRun(c, x)[4];
      assert x in Owed(c.matches, c.start, end.kept, end.sub.lastId) && x !in end.sub.written;
      assert IsRun(c, run) && OnlyGains(run) && run[|run| - 1] == end;
    }
  }
}
