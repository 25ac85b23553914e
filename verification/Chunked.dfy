/**
 Fetching several filters at once: a pool of workers that claim filter indices from a shared
 counter, and the merge of their pages into one ordered list.
 */
module Chunked {
  import opened Results

  datatype RawEvent = RawEvent(id: string, ledger: int, transactionIndex: int, operationIndex: int, body: string)

  datatype Batch = Batch(events: seq<RawEvent>, cursor: string, latestLedger: int, oldestLedger: int)

  // ---------------------------------------------------------------- the order of merged events

  /** `a < b` on strings: by code unit, a proper prefix first. */
  predicate Below(a: string, b: string) {
    if b == [] then false
    else if a == [] then true
    else a[0] < b[0] || (a[0] == b[0] && Below(a[1..], b[1..]))
  }

  function CompareRawEvents(a: RawEvent, b: RawEvent): int {
    if a.ledger != b.ledger then a.ledger - b.ledger
    else if a.transactionIndex != b.transactionIndex then a.transactionIndex - b.transactionIndex
    else if a.operationIndex != b.operationIndex then a.operationIndex - b.operationIndex
    else if Below(a.id, b.id) then -1
    else if Below(b.id, a.id) then 1
    else 0
  }

  lemma {:induction false} BelowTotal(a: string, b: string)
    ensures !(Below(a, b) && Below(b, a))
    ensures !Below(a, b) && !Below(b, a) <==> a == b
  {
    if a != [] && b != [] {
      BelowTotal(a[1..], b[1..]);
      assert a == [a[0]] + a[1..] && b == [b[0]] + b[1..];
    }
  }

  lemma {:induction false} BelowTransitive(a: string, b: string, c: string)
    ensures Below(a, b) && Below(b, c) ==> Below(a, c)
  {
    if a != [] && b != [] && c != [] { BelowTransitive(a[1..], b[1..], c[1..]); }
  }

  /** `compareRawEvents` is a total order; it ties exactly the events with the same place and id. */
  lemma CompareIsTotalOrder(a: RawEvent, b: RawEvent, c: RawEvent)
    ensures CompareRawEvents(a, b) < 0 <==> CompareRawEvents(b, a) > 0
    ensures CompareRawEvents(a, b) == 0 <==>
            a.ledger == b.ledger && a.transactionIndex == b.transactionIndex && a.operationIndex == b.operationIndex && a.id == b.id
    ensures CompareRawEvents(a, b) <= 0 && CompareRawEvents(b, c) <= 0 ==> CompareRawEvents(a, c) <= 0
  {
    BelowTotal(a.id, b.id);
    BelowTotal(b.id, c.id);
    BelowTotal(a.id, c.id);
    BelowTransitive(a.id, b.id, c.id);
  }

  ghost predicate Ordered(events: seq<RawEvent>) {
    forall i, j | 0 <= i < j < |events| :: CompareRawEvents(events[i], events[j]) <= 0
  }

  function Insert(e: RawEvent, sorted: seq<RawEvent>): seq<RawEvent> {
    if sorted == [] || CompareRawEvents(e, sorted[0]) <= 0 then [e] + sorted
    else [sorted[0]] + Insert(e, sorted[1..])
  }

  /** `events.sort(compareRawEvents)` */
  function Sort(events: seq<RawEvent>): seq<RawEvent> {
    if events == [] then [] else Insert(events[0], Sort(events[1..]))
  }

  lemma Uncons<T>(s: seq<T>)
    requires s != []
    ensures s == [s[0]] + s[1..] && multiset(s[1..]) == multiset(s) - multiset{s[0]}
    ensures forall x | x in s[1..] :: x in s
  {
    assert s == [s[0]] + s[1..];
  }

  lemma OrderedCons(x: RawEvent, rest: seq<RawEvent>)
    requires Ordered(rest) && forall e | e in rest :: CompareRawEvents(x, e) <= 0
    ensures Ordered([x] + rest)
  {
    hide CompareRawEvents;
    var all := [x] + rest;
    forall i, j | 0 <= i < j < |all| ensures CompareRawEvents(all[i], all[j]) <= 0 {
      assert all[j] == rest[j - 1];
      if i > 0 { assert all[i] == rest[i - 1]; } else { assert all[j] in rest; }
    }
  }

  lemma OrderedRest(sorted: seq<RawEvent>, x: RawEvent)
    requires Ordered(sorted) && x in sorted
    ensures Ordered(sorted[1..]) && CompareRawEvents(sorted[0], x) <= 0
  {
    CompareIsTotalOrder(sorted[0], sorted[0], sorted[0]);
  }

  lemma {:induction false} InsertKeeps(e: RawEvent, sorted: seq<RawEvent>)
    ensures multiset(Insert(e, sorted)) == multiset{e} + multiset(sorted)
  {
    hide CompareRawEvents;
    if sorted != [] {
      Uncons(sorted);
      InsertKeeps(e, sorted[1..]);
    }
  }

  lemma {:induction false} InsertOrders(e: RawEvent, sorted: seq<RawEvent>)
    requires Ordered(sorted)
    ensures Ordered(Insert(e, sorted))
  {
    hide CompareRawEvents;
    if sorted == [] {
    } else if CompareRawEvents(e, sorted[0]) <= 0 {
      forall x | x in sorted ensures CompareRawEvents(e, x) <= 0 {
        OrderedRest(sorted, x);
        CompareIsTotalOrder(e, sorted[0], x);
      }
      OrderedCons(e, sorted);
    } else {
      OrderedRest(sorted, sorted[0]);
      InsertOrders(e, sorted[1..]);
      InsertKeeps(e, sorted[1..]);
      var rest := Insert(e, sorted[1..]);
      CompareIsTotalOrder(sorted[0], e, e);
      forall x | x in rest ensures CompareRawEvents(sorted[0], x) <= 0 {
        assert x in multiset(rest);
        if x != e { OrderedRest(sorted, x); }
      }
      OrderedCons(sorted[0], rest);
    }
  }

  lemma {:induction false} SortFacts(events: seq<RawEvent>)
    ensures Ordered(Sort(events)) && multiset(Sort(events)) == multiset(events)
  {
    if events != [] {
      SortFacts(events[1..]);
      InsertKeeps(events[0], Sort(events[1..]));
      InsertOrders(events[0], Sort(events[1..]));
      assert events == [events[0]] + events[1..];
    }
  }

  /** Events of one place and id are one event. */
  ghost predicate Identified(events: seq<RawEvent>) {
    forall a, b | a in events && b in events && CompareRawEvents(a, b) == 0 :: a == b
  }

  /** Two ordered lists of the same identified events are one list, whatever sorted them. */
  lemma {:induction false} OrderedUnique(a: seq<RawEvent>, b: seq<RawEvent>)
    requires Ordered(a) && Ordered(b) && multiset(a) == multiset(b) && Identified(a)
    ensures a == b
  {
    assert |a| == |multiset(a)| == |multiset(b)| == |b|;
    if a != [] {
      assert a[0] in multiset(b) && b[0] in multiset(a);
      HeadsTie(a, b);
      Uncons(a);
      Uncons(b);
      OrderedUnique(a[1..], b[1..]);
    }
  }

  lemma HeadsTie(a: seq<RawEvent>, b: seq<RawEvent>)
    requires Ordered(a) && Ordered(b) && a != [] && b != [] && a[0] in b && b[0] in a && Identified(a)
    ensures a[0] == b[0]
  {
    var i :| 0 <= i < |b| && b[i] == a[0];
    var j :| 0 <= j < |a| && a[j] == b[0];
    CompareIsTotalOrder(a[0], b[0], a[0]);
    CompareIsTotalOrder(a[0], a[0], a[0]);
    hide CompareRawEvents;
    assert i > 0 ==> CompareRawEvents(b[0], b[i]) <= 0;
    assert j > 0 ==> CompareRawEvents(a[0], a[j]) <= 0;
  }

  // ---------------------------------------------------------------- the merge

  function Events(batches: seq<Batch>): seq<RawEvent> {
    if batches == [] then [] else batches[0].events + Events(batches[1..])
  }

  datatype Merged = Merged(events: seq<RawEvent>, cursors: seq<string>, latestLedger: int, oldestLedger: int)

  lemma {:induction false} EventsSnoc(batches: seq<Batch>, last: Batch)
    ensures Events(batches + [last]) == Events(batches) + last.events
  {
    if batches != [] {
      EventsSnoc(batches[1..], last);
      assert (batches + [last])[1..] == batches[1..] + [last];
    } else {
      assert [last][1..] == [];
    }
  }

  /** The loop over the settled pages: everything they hold, ordered, with one cursor a filter. */
  method Merge(batches: seq<Batch>) returns (m: Merged)
    requires batches != []
    ensures m.events == Sort(Events(batches))
    ensures Ordered(m.events) && multiset(m.events) == multiset(Events(batches))
    ensures m.cursors == seq(|batches|, i requires 0 <= i < |batches| => batches[i].cursor)
    ensures forall b | b in batches :: 0 <= m.latestLedger && b.latestLedger <= m.latestLedger
    ensures m.latestLedger == 0 || exists b | b in batches :: b.latestLedger == m.latestLedger
    ensures forall b | b in batches :: m.oldestLedger <= b.oldestLedger
    ensures exists b | b in batches :: b.oldestLedger == m.oldestLedger
  {
    var events: seq<RawEvent>, cursors: seq<string> := [], [];
    var latest, oldest := 0, None;
    for i := 0 to |batches|
      invariant events == Events(batches[..i])
      invariant cursors == seq(i, j requires 0 <= j < i => batches[j].cursor)
      invariant 0 <= latest && forall j | 0 <= j < i :: batches[j].latestLedger <= latest
      invariant latest == 0 || exists j | 0 <= j < i :: batches[j].latestLedger == latest
      invariant oldest.None? <==> i == 0
      invariant forall j | 0 <= j < i :: oldest.value <= batches[j].oldestLedger
      invariant i > 0 ==> exists j | 0 <= j < i :: batches[j].oldestLedger == oldest.value
    {
      EventsSnoc(batches[..i], batches[i]);
      assert batches[..i + 1] == batches[..i] + [batches[i]];
      events := events + batches[i].events;
      cursors := cursors + [batches[i].cursor];
      latest := if latest < batches[i].latestLedger then batches[i].latestLedger else latest;
      oldest := if oldest.None? || batches[i].oldestLedger < oldest.value then Some(batches[i].oldestLedger) else oldest;
    }
    assert batches[..|batches|] == batches;
    SortFacts(events);
    m := Merged(Sort(events), cursors, latest, oldest.value);
  }

  lemma {:induction false} EventsAppend(a: seq<Batch>, b: seq<Batch>)
    ensures Events(a + b) == Events(a) + Events(b)
  {
    if a != [] {
      EventsAppend(a[1..], b);
      assert (a + b)[1..] == a[1..] + b;
    } else {
      assert a + b == b;
    }
  }

  lemma Without<T>(s: seq<T>, k: nat)
    requires k < |s|
    ensures multiset(s[..k] + s[k + 1..]) == multiset(s) - multiset{s[k]}
    ensures s == s[..k] + s[k..] && s[k..] != [] && s[k..][0] == s[k] && s[k..][1..] == s[k + 1..]
  {
    assert s == s[..k] + ([s[k]] + s[k + 1..]);
  }

  lemma {:induction false} EventsMultiset(a: seq<Batch>, b: seq<Batch>)
    requires multiset(a) == multiset(b)
    ensures multiset(Events(a)) == multiset(Events(b))
  {
    assert |a| == |multiset(a)| == |multiset(b)| == |b|;
    if a != [] {
      assert a[0] in multiset(b);
      var k :| 0 <= k < |b| && b[k] == a[0];
      Without(b, k);
      Uncons(a);
      EventsMultiset(a[1..], b[..k] + b[k + 1..]);
      EventsAppend(b[..k], b[k..]);
      EventsAppend(b[..k], b[k + 1..]);
    }
  }

  /**
   The merged order does not depend on how the filters were ordered or which sort ran: any
   ordered arrangement of the same pages' events is the one returned. An event that two filters
   match is there twice.
   */
  lemma MergeIndependent(a: seq<Batch>, b: seq<Batch>, other: seq<RawEvent>)
    requires multiset(a) == multiset(b) && Identified(Events(a))
    requires Ordered(other) && multiset(other) == multiset(Events(b))
    ensures Sort(Events(a)) == other
  {
    EventsMultiset(a, b);
    SortFacts(Events(a));
    var sorted := Sort(Events(a));
    forall x, y | x in sorted && y in sorted && CompareRawEvents(x, y) == 0 ensures x == y {
      assert x in multiset(sorted) && y in multiset(sorted);
      assert x in Events(a) && y in Events(a);
    }
    OrderedUnique(sorted, other);
  }

  // ---------------------------------------------------------------- the pool

  datatype Worker = Fetching(index: nat) | Finished | Failed(index: nat)

  datatype Pool = Pool(next: nat, workers: seq<Worker>, results: seq<Option<Batch>>)

  /** As many workers as the filters and the concurrency allow, and at least one. */
  function PoolSize(concurrency: Option<int>, filters: nat): (size: nat)
    ensures 1 <= size && (filters > 0 ==> size <= filters)
    ensures concurrency.Some? ==> size <= 1 || size <= concurrency.value
    ensures size >= filters || (concurrency.Some? && size >= concurrency.value)
  {
    var wanted := match concurrency { case Some(c) => c case None => filters };
    var capped := if wanted < filters then wanted else filters;
    if capped > 1 then capped else 1
  }

  /** The state after every worker ran up to its first request. */
  function Start(filters: nat, size: nat): Pool {
    Pool(size, seq(size, w requires 0 <= w < size => Fetching(w)), seq(filters, i => None))
  }

  /** A worker between two requests: it takes the counter's value, or stops past the last filter. */
  function Claim(next: nat, filters: nat): Worker {
    if next < filters then Fetching(next) else Finished
  }

  /** The request of worker `w` is answered, or fails: it stores the page and claims again, or dies. */
  function Settle(p: Pool, w: nat, reply: Option<Batch>): Pool
    requires w < |p.workers| && p.workers[w].Fetching? && p.workers[w].index < |p.results|
  {
    var i := p.workers[w].index;
    match reply
    case None => p.(workers := p.workers[w := Failed(i)])
    case Some(_) =>
      Pool(p.next + 1, p.workers[w := Claim(p.next, |p.results|)], p.results[i := reply])
  }

  class FilterPool {
    const filters: nat
    var next: nat
    var workers: seq<Worker>
    const results: array<Option<Batch>>

    ghost function State(): Pool
      reads this, results
    {
      Pool(next, workers, results[..])
    }

    constructor (filters: nat, concurrency: Option<int>)
      requires filters > 0
      ensures this.filters == filters && fresh(results) && results.Length == filters
      ensures State() == Start(filters, PoolSize(concurrency, filters))
    {
      var size := PoolSize(concurrency, filters);
      var counter, started: seq<Worker> := 0, [];
      for w := 0 to size
        invariant counter == w && started == seq(w, k requires 0 <= k < w => Fetching(k))
      {
        started := started + [Claim(counter, filters)];
        counter := counter + 1;
      }
      this.filters := filters;
      next := counter;
      workers := started;
      results := new Option<Batch>[filters](_ => None);
      new;
      assert results[..] == seq(filters, i => None);
    }

    method Answer(w: nat, batch: Batch)
      requires w < |workers| && workers[w].Fetching? && workers[w].index < results.Length == filters
      modifies this, results
      ensures State() == Settle(old(State()), w, Some(batch))
    {
      results[workers[w].index] := Some(batch);
      workers := workers[w := Claim(next, filters)];
      next := next + 1;
    }

    method Reject(w: nat)
      requires w < |workers| && workers[w].Fetching? && workers[w].index < results.Length
      modifies this
      ensures State() == Settle(old(State()), w, None)
    {
      workers := workers[w := Failed(workers[w].index)];
    }
  }

  // ---------------------------------------------------------------- every schedule

  /** What each request comes back with, by filter index; None is a request that fails for good. */
  type Answers = seq<Option<Batch>>

  /** Some worker asked for filter `i` and is waiting for it, or died of it. */
  ghost predicate Held(workers: seq<Worker>, i: nat) {
    exists w | 0 <= w < |workers| :: workers[w] == Fetching(i) || workers[w] == Failed(i)
  }

  ghost predicate Bounded(p: Pool) {
    forall w | 0 <= w < |p.workers| && !p.workers[w].Finished? ::
      p.workers[w].index < p.next && p.workers[w].index < |p.results| && p.results[p.workers[w].index] == None
  }

  ghost predicate Apart(workers: seq<Worker>) {
    forall v, w | 0 <= v < w < |workers| && !workers[v].Finished? && !workers[w].Finished? ::
      workers[v].index != workers[w].index
  }

  /** What has been stored is the answer, what failed had none, and a worker only stops past the last filter. */
  ghost predicate Faithful(p: Pool, answers: Answers)
    requires |p.results| == |answers| && Bounded(p)
  {
    && (forall w | 0 <= w < |p.workers| && p.workers[w].Failed? :: answers[p.workers[w].index] == None)
    && (forall w | 0 <= w < |p.workers| && p.workers[w].Finished? :: p.next >= |answers|)
    && (forall i | 0 <= i < |answers| && p.results[i].Some? :: i < p.next && p.results[i] == answers[i])
  }

  ghost predicate Covered(p: Pool) {
    forall i | 0 <= i < |p.results| && i < p.next && p.results[i] == None :: Held(p.workers, i)
  }

  ghost predicate Inv(p: Pool, answers: Answers) {
    && |p.results| == |answers| && 1 <= |p.workers| <= |answers| && |p.workers| <= p.next
    && Bounded(p) && Apart(p.workers) && Faithful(p, answers) && Covered(p)
  }

  lemma StartInv(filters: nat, size: nat, answers: Answers)
    requires 1 <= size <= filters == |answers|
    ensures Inv(Start(filters, size), answers)
  {
    var p := Start(filters, size);
    forall i: nat | i < size ensures Held(p.workers, i) { assert p.workers[i] == Fetching(i); }
  }

  /** Worker `w` waits for the page of one of the filters. */
  predicate Enabled(p: Pool, w: nat) {
    w < |p.workers| && p.workers[w].Fetching? && p.workers[w].index < |p.results|
  }

  /** One step of the schedule: worker `w`'s request settles with the answer of its filter. */
  function Step(p: Pool, w: nat, answers: Answers): (q: Pool)
    requires Enabled(p, w) && |p.results| == |answers|
    ensures |q.results| == |p.results|
  {
    Settle(p, w, answers[p.workers[w].index])
  }

  lemma StepCovered(p: Pool, w: nat, answers: Answers)
    requires Inv(p, answers) && Enabled(p, w)
    ensures Covered(Step(p, w, answers))
  {
    var q, k := Step(p, w, answers), p.workers[w].index;
    hide Bounded, Apart, Faithful;
    forall i: nat | i < |q.results| && i < q.next && q.results[i] == None ensures Held(q.workers, i) {
      if i == p.next || i == k {
        assert q.workers[w] == Fetching(i) || q.workers[w] == Failed(i);
      } else {
        assert Held(p.workers, i);
        var v :| 0 <= v < |p.workers| && (p.workers[v] == Fetching(i) || p.workers[v] == Failed(i));
        assert q.workers[v] == p.workers[v];
      }
    }
  }

  lemma StepInv(p: Pool, w: nat, answers: Answers)
    requires Inv(p, answers) && Enabled(p, w)
    ensures Inv(Step(p, w, answers), answers)
  {
    var q := Step(p, w, answers);
    assert Bounded(q) by { hide Covered, Faithful; }
    assert Apart(q.workers) by { hide Covered, Faithful; }
    assert Faithful(q, answers) by { hide Covered; }
    StepCovered(p, w, answers);
    hide Bounded, Apart, Faithful, Covered;
  }

  /** A schedule names, step by step, the worker whose request settles next. */
  ghost predicate Runs(p: Pool, schedule: seq<nat>, answers: Answers, end: Pool)
    requires |p.results| == |answers|
    decreases |schedule|
  {
    if schedule == [] then p == end
    else Enabled(p, schedule[0]) && Runs(Step(p, schedule[0], answers), schedule[1..], answers, end)
  }

  /** The filter indices requested during a run, in order, after those of its first state. */
  ghost function Requested(p: Pool, schedule: seq<nat>, answers: Answers, end: Pool): seq<nat>
    requires |p.results| == |answers| && Runs(p, schedule, answers, end)
    decreases |schedule|
  {
    if schedule == [] then []
    else
      var q := Step(p, schedule[0], answers);
      (if q.workers[schedule[0]].Fetching? then [q.workers[schedule[0]].index] else [])
      + Requested(q, schedule[1..], answers, end)
  }

  function Claimed(p: Pool): nat { if p.next < |p.results| then p.next else |p.results| }

  function FetchingCount(workers: seq<Worker>): nat {
    if workers == [] then 0 else (if workers[0].Fetching? then 1 else 0) + FetchingCount(workers[1..])
  }

  lemma {:induction false} CountUpdate(workers: seq<Worker>, w: nat, worker: Worker)
    requires w < |workers| && workers[w].Fetching?
    ensures FetchingCount(workers[w := worker]) == FetchingCount(workers) - (if worker.Fetching? then 0 else 1)
  {
    if w > 0 {
      CountUpdate(workers[1..], w - 1, worker);
      assert workers[w := worker][1..] == workers[1..][w - 1 := worker];
    } else {
      assert workers[w := worker][1..] == workers[1..];
    }
  }

  lemma {:induction false} CountAtMost(workers: seq<Worker>)
    ensures FetchingCount(workers) <= |workers|
    ensures (forall w | 0 <= w < |workers| :: workers[w].Fetching?) ==> FetchingCount(workers) == |workers|
  {
    if workers != [] {
      CountAtMost(workers[1..]);
      if forall w | 0 <= w < |workers| :: workers[w].Fetching? {
        assert forall w | 0 <= w < |workers[1..]| :: workers[1..][w] == workers[w + 1];
      }
    }
  }

  function UpTo(from: nat, to: nat): seq<nat>
    requires from <= to
  {
    seq(to - from, k requires 0 <= k < to - from => from + k)
  }

  /** Requests still to settle: those in flight and those not yet made. */
  function Outstanding(p: Pool): nat {
    FetchingCount(p.workers) + (|p.results| - Claimed(p))
  }

  lemma StepFacts(p: Pool, w: nat, answers: Answers)
    requires Inv(p, answers) && Enabled(p, w)
    ensures var q := Step(p, w, answers);
      && Inv(q, answers) && |q.workers| == |p.workers|
      && Outstanding(q) == Outstanding(p) - 1
      && (if q.workers[w].Fetching? then q.workers[w].index == Claimed(p) && Claimed(q) == Claimed(p) + 1
          else Claimed(q) == Claimed(p))
  {
    StepInv(p, w, answers);
    CountUpdate(p.workers, w, Step(p, w, answers).workers[w]);
    hide Covered, Faithful, Apart;
  }

  lemma {:induction false} RunFacts(p: Pool, schedule: seq<nat>, answers: Answers, end: Pool)
    requires Inv(p, answers) && |p.results| == |answers| && Runs(p, schedule, answers, end)
    ensures Inv(end, answers) && |end.workers| == |p.workers|
    ensures Claimed(p) <= Claimed(end)
    ensures Requested(p, schedule, answers, end) == UpTo(Claimed(p), Claimed(end))
    ensures |schedule| == Outstanding(p) - Outstanding(end)
    decreases |schedule|
  {
    hide Inv, Step, Claimed, Outstanding;
    if schedule != [] {
      StepFacts(p, schedule[0], answers);
      RunFacts(Step(p, schedule[0], answers), schedule[1..], answers, end);
    }
  }

  predicate Done(p: Pool) { forall w | 0 <= w < |p.workers| :: !p.workers[w].Fetching? }

  datatype Outcome = Rejected | Pages(batches: seq<Batch>)

  ghost function OutcomeOf(p: Pool): Outcome {
    if exists w | 0 <= w < |p.workers| :: p.workers[w].Failed? then Rejected
    else Pages(seq(|p.results|, i requires 0 <= i < |p.results| => p.results[i].GetOr(Batch([], "", 0, 0))))
  }

  lemma AskedInTurn(size: nat, to: nat)
    requires size <= to
    ensures seq(size, w requires 0 <= w < size => w) + UpTo(size, to) == UpTo(0, to)
  {
  }

  /**
   Whatever order the requests settle in: every index is requested in turn and once, never more
   than `size` at a time, the run ends within one step a filter, and what comes out depends on the
   answers alone: their pages in filter order, or a rejection exactly when some request failed.
   */
  lemma ScheduleIndependent(size: nat, answers: Answers, schedule: seq<nat>, end: Pool)
    requires 1 <= size <= |answers|
    requires Runs(Start(|answers|, size), schedule, answers, end)
    ensures |schedule| <= |answers| && FetchingCount(end.workers) <= size
    ensures var asked := seq(size, w requires 0 <= w < size => w) + Requested(Start(|answers|, size), schedule, answers, end);
            asked == UpTo(0, Claimed(end)) && |asked| <= |answers|
    ensures forall w | 0 <= w < |end.workers| && end.workers[w].Fetching? :: Enabled(end, w)
    ensures Done(end) ==>
      if forall i | 0 <= i < |answers| :: answers[i].Some? then
        && OutcomeOf(end) == Pages(seq(|answers|, i requires 0 <= i < |answers| => answers[i].value))
        && |schedule| == |answers|
      else OutcomeOf(end) == Rejected
  {
    var p := Start(|answers|, size);
    StartInv(|answers|, size, answers);
    RunFacts(p, schedule, answers, end);
    CountAtMost(p.workers);
    CountAtMost(end.workers);
    AskedInTurn(size, Claimed(end));
    hide Inv, Runs, Requested, FetchingCount, OutcomeOf, UpTo;
    assert forall w | 0 <= w < |end.workers| && end.workers[w].Fetching? :: Enabled(end, w) by { InFlightEnabled(end, answers); }
    if Done(end) { DoneOutcome(end, answers); }
  }

  /** Every request in flight is for one of the filters. */
  lemma InFlightEnabled(p: Pool, answers: Answers)
    requires Inv(p, answers)
    ensures forall w | 0 <= w < |p.workers| && p.workers[w].Fetching? :: Enabled(p, w)
  {
  }

  lemma DoneOutcome(end: Pool, answers: Answers)
    requires Inv(end, answers) && Done(end)
    ensures if forall i | 0 <= i < |answers| :: answers[i].Some? then
              && OutcomeOf(end) == Pages(seq(|answers|, i requires 0 <= i < |answers| => answers[i].value))
              && Outstanding(end) == 0
            else OutcomeOf(end) == Rejected
  {
    CountNone(end.workers);
    if !(exists w | 0 <= w < |end.workers| :: end.workers[w].Failed?) {
      assert end.workers[0].Finished?;
      forall i | 0 <= i < |answers| ensures end.results[i] == answers[i] && answers[i].Some? {
        assert end.results[i] == None ==> Held(end.workers, i);
      }
    }
  }

  lemma {:induction false} CountNone(workers: seq<Worker>)
    requires forall w | 0 <= w < |workers| :: !workers[w].Fetching?
    ensures FetchingCount(workers) == 0
  {
    if workers != [] {
      assert forall w | 0 <= w < |workers[1..]| :: workers[1..][w] == workers[w + 1];
      CountNone(workers[1..]);
    }
  }

  // ---------------------------------------------------------------- filters

  const MAX_CONTRACT_IDS_PER_FILTER := 5

  datatype Filter = Filter(contractIds: Option<seq<string>>)

  function Named(filters: seq<Filter>): seq<string> {
    if filters == [] then [] else filters[0].contractIds.GetOr([]) + Named(filters[1..])
  }

  lemma {:induction false} NamedSnoc(filters: seq<Filter>, last: Filter)
    ensures Named(filters + [last]) == Named(filters) + last.contractIds.GetOr([])
  {
    if filters != [] {
      NamedSnoc(filters[1..], last);
      assert (filters + [last])[1..] == filters[1..] + [last];
    } else {
      assert [last][1..] == [];
    }
  }

  /** `buildFilters`: every id in one filter, in order, at most five a filter and as few filters as that allows. */
  method BuildFilters(contractIds: seq<string>) returns (filters: seq<Filter>)
    ensures contractIds == [] ==> filters == [Filter(None)]
    ensures Named(filters) == contractIds
    ensures contractIds != [] ==> |filters| == (|contractIds| + MAX_CONTRACT_IDS_PER_FILTER - 1) / MAX_CONTRACT_IDS_PER_FILTER
    ensures contractIds != [] ==> forall f | f in filters :: f.contractIds.Some? && 1 <= |f.contractIds.value| <= MAX_CONTRACT_IDS_PER_FILTER
  {
    if contractIds == [] { return [Filter(None)]; }
    filters := [];
    var i := 0;
    while i < |contractIds|
      invariant 0 <= i == MAX_CONTRACT_IDS_PER_FILTER * |filters| < |contractIds| + MAX_CONTRACT_IDS_PER_FILTER
      invariant Named(filters) == contractIds[..if i < |contractIds| then i else |contractIds|]
      invariant forall f | f in filters :: f.contractIds.Some? && 1 <= |f.contractIds.value| <= MAX_CONTRACT_IDS_PER_FILTER
    {
      var end := if i + MAX_CONTRACT_IDS_PER_FILTER < |contractIds| then i + MAX_CONTRACT_IDS_PER_FILTER else |contractIds|;
      NamedSnoc(filters, Filter(Some(contractIds[i..end])));
      filters := filters + [Filter(Some(contractIds[i..end]))];
      i := i + MAX_CONTRACT_IDS_PER_FILTER;
    }
  }
}
