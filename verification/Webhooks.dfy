/**
 Webhook dispatch for one subscription: pages of events are fetched after the cursor, each
 event is attempted until it is delivered or given up on, and the cursor follows. The code
 between two awaits is one step; between any two of them the table may change in any way, and the
 subscription may be removed or the manager stopped.
 */
module Webhooks {
  import opened Results
  import opened Keyset
  import opened Positions
  import Walk

  datatype Config = Config(matches: Id -> bool, batchSize: int, maxAttempts: nat, deadLetterLimit: nat, start: Option<Id>)

  /** How the handling of an event ended, with the attempts made. */
  datatype Fate = Delivered(attempts: nat) | DeadLettered(attempts: nat) | Abandoned

  datatype Passed = Passed(id: Id, fate: Fate)

  datatype DeadLetter = DeadLetter(eventId: Id, attempts: nat)

  /** What the current attempt waits for. */
  datatype Wait = Budget | Response | Backoff

  /** The pump: not running, waiting for a page, or handling the first of `ids`. */
  datatype Pump = Resting | Querying | Handling(ids: seq<Id>, more: bool, attempt: nat, wait: Wait)

  /** A subscription; `passed` is a history variable, the events the cursor has moved over. */
  datatype Sub = Sub(cursor: Option<Id>, pump: Pump, active: bool, delivered: nat, deadLettered: nat,
                     deadLetters: seq<DeadLetter>, passed: seq<Passed>)

  datatype Status = Success | Retryable | Refused

  // ---------------------------------------------------------------- steps

  function Begin(s: Sub): Sub {
    if s.pump.Resting? && s.active then s.(pump := Querying) else s
  }

  ghost function Fetch(c: Config, store: set<Id>, s: Sub): Page {
    QueryEvents(Matching(c.matches, store), Query(Ascending, Forward, s.cursor, Some(c.batchSize)))
  }

  /** Keep the newest dead letters: the oldest go until the limit is met. */
  function Trimmed(letters: seq<DeadLetter>, limit: nat): seq<DeadLetter> {
    if |letters| > limit then letters[|letters| - limit..] else letters
  }

  /** The event is done with, one way or another: the cursor moves over it. */
  function Pass(c: Config, s: Sub, id: Id, fate: Fate): Sub {
    var moved := s.(cursor := Some(id), passed := s.passed + [Passed(id, fate)]);
    match fate
    case Delivered(_) => moved.(delivered := s.delivered + 1)
    case DeadLettered(attempts) =>
      moved.(deadLettered := s.deadLettered + 1,
             deadLetters := Trimmed(s.deadLetters + [DeadLetter(id, attempts)], c.deadLetterLimit))
    case Abandoned => moved
  }

  /** Turn to the next event of the page, or to the next page, or stop. */
  function Proceed(c: Config, s: Sub, ids: seq<Id>, more: bool): Sub
    decreases |ids|
  {
    if ids == [] then s.(pump := if more then Querying else Resting)
    else if !s.active then s.(pump := Resting)
    else if c.maxAttempts == 0 then Proceed(c, Pass(c, s, ids[0], DeadLettered(0)), ids[1..], more)
    else s.(pump := Handling(ids, more, 1, Budget))
  }

  function Finish(c: Config, s: Sub, fate: Fate): Sub
    requires s.pump.Handling? && s.pump.ids != []
  {
    Proceed(c, Pass(c, s, s.pump.ids[0], fate), s.pump.ids[1..], s.pump.more)
  }

  /** The page arrived; an empty one ends the pass whatever its cursor. */
  function GotPage(c: Config, s: Sub, page: Page): Sub
    requires s.pump.Querying?
  {
    Proceed(c, s, page.ids, page.next.Some? && page.ids != [])
  }

  /** Both budgets had a token, or the wait was cut short. */
  function Throttled(c: Config, s: Sub): Sub
    requires s.pump.Handling? && s.pump.ids != []
  {
    if s.active then s.(pump := s.pump.(wait := Response)) else Finish(c, s, Abandoned)
  }

  /** The receiver answered, or the request failed (`Retryable`). */
  function Answered(c: Config, s: Sub, status: Status): Sub
    requires s.pump.Handling? && s.pump.ids != []
  {
    match status
    case Success => Finish(c, s, Delivered(s.pump.attempt))
    case Refused => Finish(c, s, DeadLettered(s.pump.attempt))
    case Retryable =>
      if s.pump.attempt < c.maxAttempts then s.(pump := s.pump.(wait := Backoff))
      else Finish(c, s, DeadLettered(s.pump.attempt))
  }

  function Rested(c: Config, s: Sub): Sub
    requires s.pump.Handling? && s.pump.ids != []
  {
    if s.active then s.(pump := s.pump.(attempt := s.pump.attempt + 1, wait := Budget)) else Finish(c, s, Abandoned)
  }

  // ---------------------------------------------------------------- the subscription, run

  /** A subscription as the manager keeps it. */
  class Subscription {
    const cfg: Config
    var cursor: Option<Id>
    var pump: Pump
    var removed: bool
    var delivered: nat
    var deadLettered: nat
    var deadLetters: seq<DeadLetter>
    ghost var passed: seq<Passed>

    ghost function View(): Sub
      reads this
    {
      Sub(cursor, pump, !removed, delivered, deadLettered, deadLetters, passed)
    }

    constructor (cfg: Config)
      ensures this.cfg == cfg && View() == Sub(cfg.start, Resting, true, 0, 0, [], [])
    {
      this.cfg := cfg;
      cursor, pump, removed, delivered, deadLettered, deadLetters := cfg.start, Resting, false, 0, 0, [];
      passed := [];
    }

    /** A timer tick: a running pump, a removed subscription or a stopped manager ignores it. */
    method Tick()
      modifies this
      ensures View() == Begin(old(View()))
    {
      if !pump.Resting? || removed { return; }
      pump := Querying;
    }

    method ShiftOldest()
      modifies this`deadLetters
      ensures deadLetters == Trimmed(old(deadLetters), cfg.deadLetterLimit)
    {
      ghost var all := deadLetters;
      while |deadLetters| > cfg.deadLetterLimit
        invariant |deadLetters| <= |all| && deadLetters == all[|all| - |deadLetters|..]
        invariant |deadLetters| >= cfg.deadLetterLimit || deadLetters == all
        decreases |deadLetters|
      {
        deadLetters := deadLetters[1..];
      }
    }

    method PassEvent(id: Id, fate: Fate)
      modifies this
      ensures View() == Pass(cfg, old(View()), id, fate)
    {
      match fate {
        case Delivered(_) => delivered := delivered + 1;
        case DeadLettered(attempts) =>
          deadLettered := deadLettered + 1;
          deadLetters := deadLetters + [DeadLetter(id, attempts)];
          ShiftOldest();
        case Abandoned =>
      }
      cursor := Some(id);
      passed := passed + [Passed(id, fate)];
    }

    method ProceedTo(ids: seq<Id>, more: bool)
      modifies this
      ensures View() == Proceed(cfg, old(View()), ids, more)
    {
      var i := 0;
      assert ids[0..] == ids;
      while i < |ids| && !removed && cfg.maxAttempts == 0
        invariant i <= |ids|
        invariant Proceed(cfg, View(), ids[i..], more) == Proceed(cfg, old(View()), ids, more)
      {
        assert ids[i..][1..] == ids[i + 1..];
        PassEvent(ids[i], DeadLettered(0));
        i := i + 1;
      }
      if i == |ids| { pump := if more then Querying else Resting; }
      else if removed { pump := Resting; }
      else { pump := Handling(ids[i..], more, 1, Budget); }
    }

    method FinishEvent(fate: Fate)
      requires pump.Handling? && pump.ids != []
      modifies this
      ensures View() == Finish(cfg, old(View()), fate)
    {
      var ids, more := pump.ids, pump.more;
      PassEvent(ids[0], fate);
      ProceedTo(ids[1..], more);
    }

    method ReceivePage(page: Page)
      requires pump.Querying?
      modifies this
      ensures View() == GotPage(cfg, old(View()), page)
    {
      ProceedTo(page.ids, page.next.Some? && page.ids != []);
    }

    method BudgetReady()
      requires pump.Handling? && pump.ids != []
      modifies this
      ensures View() == Throttled(cfg, old(View()))
    {
      if removed { FinishEvent(Abandoned); } else { pump := pump.(wait := Response); }
    }

    method ReceiveAnswer(status: Status)
      requires pump.Handling? && pump.ids != []
      modifies this
      ensures View() == Answered(cfg, old(View()), status)
    {
      match status {
        case Success => FinishEvent(Delivered(pump.attempt));
        case Refused => FinishEvent(DeadLettered(pump.attempt));
        case Retryable =>
          if pump.attempt < cfg.maxAttempts { pump := pump.(wait := Backoff); }
          else { FinishEvent(DeadLettered(pump.attempt)); }
      }
    }

    method BackoffOver()
      requires pump.Handling? && pump.ids != []
      modifies this
      ensures View() == Rested(cfg, old(View()))
    {
      if removed { FinishEvent(Abandoned); } else { pump := pump.(attempt := pump.attempt + 1, wait := Budget); }
    }

    method Remove()
      modifies this
      ensures View() == old(View()).(active := false)
    {
      removed := true;
    }
  }

  // ---------------------------------------------------------------- the transition system

  /**
   `page` is the answer of a query on its way to the pump. `kept` and `ever` are history variables:
   the rows that have stayed in the table since they lay beyond everything passed or fetched, and
   the rows that were ever in it.
   */
  datatype State = State(store: set<Id>, sub: Sub, page: Option<Page>, kept: set<Id>, ever: set<Id>)

  ghost predicate Init(c: Config, s: State) {
    s.sub == Sub(c.start, Resting, true, 0, 0, [], []) && s.page.None? && s.kept == s.ever == s.store
  }

  /** The ids fetched and not yet passed. */
  function AtHand(s: State): seq<Id> {
    if s.sub.pump.Handling? then s.sub.pump.ids else if s.page.Some? then s.page.value.ids else []
  }

  /** The cursor and the ids at hand lie before `id`. */
  predicate Beyond(s: State, id: Id) {
    Above(id, s.sub.cursor) && (AtHand(s) != [] ==> AtHand(s)[|AtHand(s)| - 1] < id)
  }

  /** The table changes: rows are inserted anywhere, pruned or rewritten. */
  ghost predicate Change(s: State, t: State) {
    && t.sub == s.sub && t.page == s.page && t.ever == s.ever + t.store
    && t.kept == set x | x in t.store && (x in s.kept || Beyond(s, x))
  }

  /** The store answers a query; what changes before the answer reaches the pump is not in it. */
  ghost predicate Answer(c: Config, s: State, t: State) {
    s.sub.pump.Querying? && s.page.None? && t == s.(page := Some(Fetch(c, s.store, s.sub)))
  }

  ghost predicate Dispatch(c: Config, s: State, t: State) {
    && t == s.(sub := t.sub, page := None)
    && match s.sub.pump
       case Resting => t.sub == Begin(s.sub)
       case Querying => t.sub == s.sub.(pump := Resting) || (s.page.Some? && t.sub == GotPage(c, s.sub, s.page.value))
       case Handling(ids, _, _, wait) =>
         ids != [] && match wait
                      case Budget => t.sub == Throttled(c, s.sub)
                      case Response => exists status :: t.sub == Answered(c, s.sub, status)
                      case Backoff => t.sub == Rested(c, s.sub)
  }

  /** Another timer tick finds the pump running: nothing happens. Removal and stop are final. */
  ghost predicate Interrupt(s: State, t: State) {
    t == s.(sub := s.sub.(active := false)) || (!s.sub.pump.Resting? && t == s.(sub := Begin(s.sub)))
  }

  ghost predicate Next(c: Config, s: State, t: State) {
    Change(s, t) || Answer(c, s, t) || Dispatch(c, s, t) || Interrupt(s, t)
  }

  ghost predicate IsRun(c: Config, run: seq<State>) {
    run != [] && Init(c, run[0]) && forall i | 0 <= i < |run| - 1 :: Next(c, run[i], run[i + 1])
  }

  // ---------------------------------------------------------------- what the books say

  function Count(passed: seq<Passed>, p: Fate -> bool): nat {
    if passed == [] then 0 else Count(passed[..|passed| - 1], p) + (if p(passed[|passed| - 1].fate) then 1 else 0)
  }

  function IdsOf(passed: seq<Passed>): seq<Id> {
    seq(|passed|, i requires 0 <= i < |passed| => passed[i].id)
  }

  /** Every dead letter there ever was, oldest first. */
  function AllDead(passed: seq<Passed>): seq<DeadLetter> {
    if passed == [] then []
    else
      var last := passed[|passed| - 1];
      AllDead(passed[..|passed| - 1]) +
      (if last.fate.DeadLettered? then [DeadLetter(last.id, last.fate.attempts)] else [])
  }

  predicate IsDelivered(f: Fate) { f.Delivered? }
  predicate IsDead(f: Fate) { f.DeadLettered? }
  predicate IsAbandoned(f: Fate) { f.Abandoned? }

  /** The counters, the dead letters and the attempts agree with what was passed. */
  ghost predicate Books(c: Config, s: Sub) {
    && s.delivered == Count(s.passed, IsDelivered)
    && s.deadLettered == Count(s.passed, IsDead)
    && s.deadLetters == Trimmed(AllDead(s.passed), c.deadLetterLimit)
    && (forall p | p in s.passed && !p.fate.Abandoned? :: p.fate.attempts <= c.maxAttempts && (c.maxAttempts > 0 ==> p.fate.attempts >= 1))
    && Count(s.passed, IsAbandoned) <= (if s.active then 0 else 1)
    && (Count(s.passed, IsAbandoned) == 1 ==> !s.pump.Handling?)
  }

  /** What is left of the page: rows seen beyond the cursor, and every row kept there up to its last id. */
  ghost predicate Ahead(c: Config, kept: set<Id>, ever: set<Id>, cursor: Option<Id>, ids: seq<Id>) {
    && Sorted(Ascending, ids)
    && (forall x | x in ids :: x in ever && c.matches(x) && Above(x, cursor))
    && (ids != [] ==> forall x | x in kept && c.matches(x) && Above(x, cursor) :: x in ids || ids[|ids| - 1] < x)
  }

  /** What was passed, in ascending order: rows seen between the start and the cursor, and all that were kept there. */
  ghost predicate Order(c: Config, kept: set<Id>, ever: set<Id>, s: Sub) {
    && Sorted(Ascending, IdsOf(s.passed))
    && (forall x | x in IdsOf(s.passed) :: x in Owed(c.matches, c.start, ever, s.cursor))
    && (forall x | x in Owed(c.matches, c.start, kept, s.cursor) :: x in IdsOf(s.passed))
    && (s.cursor == c.start || (s.cursor.Some? && s.cursor.value in ever && Above(s.cursor.value, c.start)))
  }

  ghost predicate PumpInv(c: Config, kept: set<Id>, ever: set<Id>, s: Sub) {
    s.pump.Handling? ==>
      s.pump.ids != [] && 1 <= s.pump.attempt <= c.maxAttempts && Ahead(c, kept, ever, s.cursor, s.pump.ids)
      && (s.pump.wait.Backoff? ==> s.pump.attempt < c.maxAttempts)
  }

  ghost predicate Inv(c: Config, s: State) {
    && s.kept <= s.store <= s.ever
    && Books(c, s.sub) && Order(c, s.kept, s.ever, s.sub) && PumpInv(c, s.kept, s.ever, s.sub)
    && (s.page.Some? ==> s.sub.pump.Querying? && Ahead(c, s.kept, s.ever, s.sub.cursor, s.page.value.ids))
  }

  // ---------------------------------------------------------------- passing one event

  lemma CountMore(passed: seq<Passed>, p: Passed, which: Fate -> bool)
    ensures Count(passed + [p], which) == Count(passed, which) + (if which(p.fate) then 1 else 0)
  {
    assert (passed + [p])[..|passed|] == passed;
  }

  lemma AllDeadMore(passed: seq<Passed>, p: Passed)
    ensures AllDead(passed + [p]) ==
            AllDead(passed) + (if p.fate.DeadLettered? then [DeadLetter(p.id, p.fate.attempts)] else [])
  {
    assert (passed + [p])[..|passed|] == passed;
  }

  /** Trimming as letters come in keeps the same ones as trimming all of them at the end. */
  lemma TrimmedMore(letters: seq<DeadLetter>, more: DeadLetter, limit: nat)
    ensures Trimmed(Trimmed(letters, limit) + [more], limit) == Trimmed(letters + [more], limit)
    ensures Trimmed(letters + [], limit) == Trimmed(letters, limit)
  {
    assert letters + [] == letters;
  }

  lemma PassBooks(c: Config, s: Sub, id: Id, fate: Fate)
    requires Books(c, s) && Count(s.passed, IsAbandoned) == 0
    requires !fate.Abandoned? ==> fate.attempts <= c.maxAttempts && (c.maxAttempts > 0 ==> fate.attempts >= 1)
    requires fate.Abandoned? ==> !s.active
    ensures Books(c, Pass(c, s, id, fate).(pump := Resting))
    ensures Count(Pass(c, s, id, fate).passed, IsAbandoned) == if fate.Abandoned? then 1 else 0
  {
    hide Count, AllDead, Trimmed;
    var p := Passed(id, fate);
    CountMore(s.passed, p, IsDelivered);
    CountMore(s.passed, p, IsDead);
    CountMore(s.passed, p, IsAbandoned);
    AllDeadMore(s.passed, p);
    TrimmedMore(AllDead(s.passed), DeadLetter(id, if fate.Abandoned? then 0 else fate.attempts), c.deadLetterLimit);
    assert forall q | q in s.passed + [p] :: q in s.passed || q == p;
  }

  lemma PassAhead(c: Config, kept: set<Id>, ever: set<Id>, cursor: Option<Id>, ids: seq<Id>)
    requires ids != [] && Ahead(c, kept, ever, cursor, ids)
    ensures Ahead(c, kept, ever, Some(ids[0]), ids[1..])
    ensures ids[0] in ever && c.matches(ids[0]) && Above(ids[0], cursor)
    ensures forall x | x in kept && c.matches(x) && Above(x, cursor) :: x >= ids[0]
  {
    assert ids[0] in ids;
    assert forall x | x in ids :: x == ids[0] || x in ids[1..];
    assert forall x | x in ids[1..] :: x in ids;
    assert ids[0] <= ids[|ids| - 1];
  }

  lemma PassOrder(c: Config, kept: set<Id>, ever: set<Id>, s: Sub, ids: seq<Id>, fate: Fate)
    requires Order(c, kept, ever, s) && ids != [] && Ahead(c, kept, ever, s.cursor, ids)
    ensures Order(c, kept, ever, Pass(c, s, ids[0], fate))
    ensures Ahead(c, kept, ever, Some(ids[0]), ids[1..])
  {
    PassAhead(c, kept, ever, s.cursor, ids);
    hide Ahead;
    var passed := IdsOf(s.passed);
    assert IdsOf(Pass(c, s, ids[0], fate).passed) == passed + [ids[0]];
    assert forall i | 0 <= i < |passed| :: passed[i] in passed;
  }

  // ---------------------------------------------------------------- every step keeps the books

  lemma {:induction false} ProceedInv(c: Config, s: State, sub: Sub, ids: seq<Id>, more: bool)
    requires s.kept <= s.store <= s.ever && s.page.None?
    requires Books(c, sub.(pump := Resting)) && Order(c, s.kept, s.ever, sub) && Ahead(c, s.kept, s.ever, sub.cursor, ids)
    ensures Inv(c, s.(sub := Proceed(c, sub, ids, more)))
    decreases |ids|
  {
    hide Count, AllDead, Trimmed, Sorted, Owed, Pass;
    if ids != [] && sub.active && c.maxAttempts == 0 {
      PassBooks(c, sub.(pump := Resting), ids[0], DeadLettered(0));
      PassOrder(c, s.kept, s.ever, sub, ids, DeadLettered(0));
      PassFields(c, sub, ids[0], DeadLettered(0));
      ProceedInv(c, s, Pass(c, sub, ids[0], DeadLettered(0)), ids[1..], more);
    }
  }

  lemma PassFields(c: Config, s: Sub, id: Id, fate: Fate)
    ensures Pass(c, s, id, fate).cursor == Some(id) && Pass(c, s, id, fate).active == s.active
    ensures Pass(c, s, id, fate).pump == s.pump
    ensures Pass(c, s.(pump := Resting), id, fate) == Pass(c, s, id, fate).(pump := Resting)
  {
  }

  lemma FinishInv(c: Config, s: State, fate: Fate)
    requires Inv(c, s) && s.sub.pump.Handling?
    requires !fate.Abandoned? ==> 1 <= fate.attempts <= c.maxAttempts
    requires fate.Abandoned? ==> !s.sub.active
    ensures Inv(c, s.(sub := Finish(c, s.sub, fate)))
  {
    hide Count, AllDead, Trimmed, Sorted, Owed, Pass, Proceed, Ahead;
    var ids := s.sub.pump.ids;
    PassBooks(c, s.sub, ids[0], fate);
    PassOrder(c, s.kept, s.ever, s.sub, ids, fate);
    PassFields(c, s.sub, ids[0], fate);
    ProceedInv(c, s, Pass(c, s.sub, ids[0], fate), ids[1..], s.sub.pump.more);
  }

  /** The page just fetched is everything that matches beyond the cursor, as far as it goes. */
  lemma FetchAhead(c: Config, store: set<Id>, s: Sub)
    ensures Ahead(c, store, store, s.cursor, Fetch(c, store, s).ids)
  {
    hide QueryEvents;
    var ids := Matching(c.matches, store);
    Walk.PageFacts(ids, Ascending, s.cursor, Some(c.batchSize));
    assert forall x | x in store && c.matches(x) && Above(x, s.cursor) :: x in Walk.AheadOf(ids, Ascending, s.cursor);
  }

  /** A row that joins those kept lies beyond the cursor and the page: neither owes it yet. */
  lemma ChangeInv(c: Config, s: State, t: State)
    requires Inv(c, s) && Change(s, t)
    ensures Inv(c, t)
  {
    hide Count, AllDead, Trimmed;
  }

  lemma DispatchInv(c: Config, s: State, t: State)
    requires Inv(c, s) && Dispatch(c, s, t)
    ensures Inv(c, t)
  {
    hide Count, AllDead, Trimmed, Sorted, Owed, Pass, Proceed, Ahead;
    match s.sub.pump
    case Resting =>
    case Querying =>
      if t.sub != s.sub.(pump := Resting) {
        var page := s.page.value;
        ProceedInv(c, s.(page := None), s.sub, page.ids, page.next.Some? && page.ids != []);
      }
    case Handling(ids, more, attempt, wait) =>
      if (wait.Budget? || wait.Backoff?) && !s.sub.active { FinishInv(c, s, Abandoned); }
      if wait.Response? {
        var status :| t.sub == Answered(c, s.sub, status);
        if status == Success { FinishInv(c, s, Delivered(attempt)); }
        else { FinishInv(c, s, DeadLettered(attempt)); }
      }
  }

  lemma AnswerInv(c: Config, s: State, t: State)
    requires Inv(c, s) && Answer(c, s, t)
    ensures Inv(c, t)
  {
    hide Books, Order, Sorted, Fetch;
    FetchAhead(c, s.store, s.sub);
  }

  lemma {:induction false} ReachableInv(c: Config, run: seq<State>)
    requires IsRun(c, run)
    ensures Inv(c, run[|run| - 1])
  {
    hide Change, Answer, Dispatch, Interrupt, Inv;
    var n := |run| - 1;
    if n == 0 {
      InitInv(c, run[0]);
    } else {
      ReachableInv(c, run[..n]);
      var s, t := run[n - 1], run[n];
      assert Next(c, s, t);
      if Change(s, t) { ChangeInv(c, s, t); }
      else if Answer(c, s, t) { AnswerInv(c, s, t); }
      else if Dispatch(c, s, t) { DispatchInv(c, s, t); }
      else { InterruptInv(c, s, t); }
    }
  }

  lemma InitInv(c: Config, s: State)
    requires Init(c, s)
    ensures Inv(c, s)
  {
    assert AllDead([]) == [];
  }

  lemma InterruptInv(c: Config, s: State, t: State)
    requires Inv(c, s) && Interrupt(s, t)
    ensures Inv(c, t)
  {
    hide Count, AllDead, Trimmed, Lists;
  }

  // ---------------------------------------------------------------- the theorems

  lemma {:induction false} CountsAddUp(passed: seq<Passed>)
    ensures Count(passed, IsDelivered) + Count(passed, IsDead) + Count(passed, IsAbandoned) == |passed|
  {
    if passed != [] { CountsAddUp(passed[..|passed| - 1]); }
  }

  /**
   However the table changes: in every reachable state the events passed are in strictly ascending
   order, each a matching row the table held between the start and the cursor, and every row that
   stayed since it lay beyond is among them. While the subscription is active each of them was
   delivered or dead-lettered; after removal or stop at most one was not.
   */
  lemma DispatchExact(c: Config, run: seq<State>)
    requires IsRun(c, run)
    ensures var s := run[|run| - 1];
            && Sorted(Ascending, IdsOf(s.sub.passed))
            && (forall x | x in IdsOf(s.sub.passed) :: x in Owed(c.matches, c.start, s.ever, s.sub.cursor))
            && (forall x | x in Owed(c.matches, c.start, s.kept, s.sub.cursor) :: x in IdsOf(s.sub.passed))
            && (s.sub.active ==> s.sub.delivered + s.sub.deadLettered == |s.sub.passed|)
            && |s.sub.passed| <= s.sub.delivered + s.sub.deadLettered + 1
  {
    ReachableInv(c, run);
    CountsAddUp(run[|run| - 1].sub.passed);
  }

  /** A row once kept is kept for as long as it stays in the table. */
  lemma {:induction false} StaysKept(c: Config, run: seq<State>, j: nat, x: Id)
    requires IsRun(c, run) && j < |run| && x in run[j].kept
    requires forall k | j <= k < |run| :: x in run[k].store
    ensures x in run[|run| - 1].kept
    decreases |run|
  {
    var n := |run| - 1;
    if j < n {
      StaysKept(c, run[..n], j, x);
      assert Next(c, run[n - 1], run[n]);
    }
  }

  /** So a matching row that is in the table throughout is passed once the cursor reaches it. */
  lemma StayingRowPassed(c: Config, run: seq<State>, x: Id)
    requires IsRun(c, run) && forall k | 0 <= k < |run| :: x in run[k].store
    requires c.matches(x) && Above(x, c.start) && !Above(x, run[|run| - 1].sub.cursor)
    ensures x in IdsOf(run[|run| - 1].sub.passed)
  {
    StaysKept(c, run, 0, x);
    DispatchExact(c, run);
  }

  /** The table changes only as an indexer that follows the chain changes it. */
  ghost predicate OnlyGains(run: seq<State>) {
    forall i | 0 <= i < |run| - 1 :: Follows(run[i].store, run[i + 1].store)
  }

  lemma {:induction false} GainsAreKept(c: Config, run: seq<State>)
    requires IsRun(c, run) && OnlyGains(run)
    ensures var s := run[|run| - 1]; s.ever == s.store && forall x | x in s.store && Above(x, c.start) :: x in s.kept
  {
    var n := |run| - 1;
    if n > 0 {
      var before := run[..n];
      assert forall i | 0 <= i < n :: before[i] == run[i];
      GainsAreKept(c, before);
      ReachableInv(c, before);
      var s, t := run[n - 1], run[n];
      assert Next(c, s, t) && Follows(s.store, t.store);
      GainKept(c, s, t);
    }
  }

  lemma GainKept(c: Config, s: State, t: State)
    requires Inv(c, s) && Next(c, s, t) && Follows(s.store, t.store)
    requires s.ever == s.store && forall x | x in s.store && Above(x, c.start) :: x in s.kept
    ensures t.ever == t.store && forall x | x in t.store && Above(x, c.start) :: x in t.kept
  {
    hide Books;
    if Change(s, t) && t.store != s.store {
      var id :| id !in s.store && t.store == s.store + {id} && forall x | x in s.store :: x < id;
      if Above(id, c.start) {
        var ids := AtHand(s);
        if ids != [] { assert ids[|ids| - 1] in ids; }
        assert Beyond(s, id);
      }
    }
  }

  /** Beside an indexer that follows the chain, exactly the matching rows between start and cursor are passed. */
  lemma GrowingExact(c: Config, run: seq<State>)
    requires IsRun(c, run) && OnlyGains(run)
    ensures var s := run[|run| - 1];
            Lists(Ascending, Owed(c.matches, c.start, s.store, s.sub.cursor), IdsOf(s.sub.passed))
  {
    DispatchExact(c, run);
    GainsAreKept(c, run);
  }

  /** Attempts stay between one and the maximum, and the dead letters kept are the newest. */
  lemma AttemptsAndDeadLetters(c: Config, run: seq<State>)
    requires IsRun(c, run) && c.maxAttempts >= 1
    ensures var s := run[|run| - 1].sub;
            && (forall p | p in s.passed && !p.fate.Abandoned? :: 1 <= p.fate.attempts <= c.maxAttempts)
            && s.deadLetters == Trimmed(AllDead(s.passed), c.deadLetterLimit)
            && |AllDead(s.passed)| == s.deadLettered
  {
    ReachableInv(c, run);
    DeadCounted(run[|run| - 1].sub.passed);
  }

  lemma {:induction false} DeadCounted(passed: seq<Passed>)
    ensures |AllDead(passed)| == Count(passed, IsDead)
  {
    if passed != [] { DeadCounted(passed[..|passed| - 1]); }
  }

  /**
   The one event the cursor may pass uncounted: dispatch moves over an event without
   delivering or dead-lettering it exactly when the subscription was removed, or the manager
   stopped, while the event waited for its budget or its backoff.
   */
  lemma UncountedIff(c: Config, s: State, t: State)
    requires Inv(c, s) && s.sub.pump.Handling? && c.maxAttempts >= 1
    requires Dispatch(c, s, t) && t.sub.cursor != s.sub.cursor
    ensures t.sub.delivered + t.sub.deadLettered == s.sub.delivered + s.sub.deadLettered <==>
            !s.sub.active && !s.sub.pump.wait.Response?
  {
    hide Count, AllDead, Trimmed, Lists;
    var ids := s.sub.pump.ids;
    assert Above(ids[0], s.sub.cursor) by { assert ids[0] in ids; }
  }

  /** The run in which `x` is indexed, fetched, and given up on as the subscription is removed before its first attempt. */
  ghost function AbandoningRun(c: Config, x: Id): seq<State> {
    var s0 := State({}, Sub(c.start, Resting, true, 0, 0, [], []), None, {}, {});
    var s1 := State({x}, s0.sub, None, {x}, {x});
    var s2 := s1.(sub := Begin(s1.sub));
    var s3 := s2.(page := Some(Page([x], None, None)));
    var s4 := s2.(sub := s2.sub.(pump := Handling([x], false, 1, Budget)));
    var s5 := s4.(sub := s4.sub.(active := false));
    var s6 := s5.(sub := Sub(Some(x), Resting, false, 0, 0, [], [Passed(x, Abandoned)]));
    [s0, s1, s2, s3, s4, s5, s6]
  }

  lemma OneRowPage(c: Config, x: Id)
    requires c.matches(x) && Above(x, c.start)
    ensures var q := Query(Ascending, Forward, c.start, Some(c.batchSize)); QueryEvents(Matching(c.matches, {x}), q) == Page([x], None, None)
  {
    var all: seq<Id> := [x];
    assert Matching(c.matches, {x}) == {x};
    assert Lists(Ascending, {x}, all);
    hide QueryEvents, NormaliseLimit;
    ForwardPageIsSlice({x}, Query(Ascending, Forward, c.start, Some(c.batchSize)), all, 0);
    assert all[0..1] == all;
  }

  /** The cursor can pass an event that was neither delivered nor dead-lettered: every event can be so passed. */
  lemma AbandoningRunAbandons(c: Config, x: Id)
    requires c.maxAttempts >= 1 && c.matches(x) && Above(x, c.start)
    ensures var run := AbandoningRun(c, x); var end := run[6].sub;
      && IsRun(c, run) && end.cursor == Some(x)
      && end.passed == [Passed(x, Abandoned)] && end.delivered == end.deadLettered == 0 && end.deadLetters == []
  {
    hide QueryEvents;
    var run := AbandoningRun(c, x);
    OneRowPage(c, x);
    assert Change(run[0], run[1]);
    assert Dispatch(c, run[1], run[2]);
    assert Answer(c, run[2], run[3]);
    assert run[4].sub == GotPage(c, run[3].sub, run[3].page.value);
    assert Dispatch(c, run[3], run[4]);
    assert Interrupt(run[4], run[5]);
    assert [x][1..] == [] && [] + [Passed(x, Abandoned)] == [Passed(x, Abandoned)];
    assert run[6].sub == Throttled(c, run[5].sub);
    assert Dispatch(c, run[5], run[6]);
  }
}
