/** The .NET action processor: one attempt per due action and round, bounded retry, and what whole runs add up to. */
module NetQueue {
  import opened Util
  import opened NetStore
  import Scheduler

  datatype Kind = Success | TransientFailure | PermanentFailure

  datatype Execution = Execution(kind: Kind, message: string)

  /** SyntheticActionExecutor.Execute */
  function Execute(mode: string, attempt: nat): Execution {
    if mode == "permanent_failure" then Execution(PermanentFailure, "Synthetic permanent failure.")
    else if mode == "transient_then_success" && attempt == 1 then
      Execution(TransientFailure, "Synthetic transient failure.")
    else Execution(Success, "ok")
  }

  /** The row after its next attempt, which ends at `at`. */
  function Attempt(a: QueuedAction, at: Ticks, retryDelay: Ticks): QueuedAction {
    var attempt := a.attempts + 1;
    var outcome := Execute(a.executorMode, attempt);
    if outcome.kind == Success then
      a.(status := Succeeded, attempts := attempt, updatedAt := at, nextAttemptAt := at, lastError := None)
    else if outcome.kind == TransientFailure && attempt < a.maxAttempts then
      a.(status := Retry, attempts := attempt, updatedAt := at, nextAttemptAt := at + retryDelay,
         lastError := Some(outcome.message))
    else
      a.(status := if outcome.kind == PermanentFailure then FailedPermanent else FailedExhausted, attempts := attempt,
         updatedAt := at, nextAttemptAt := at, lastError := Some(outcome.message))
  }

  function AuditOf(status: ActionStatus, i: nat): Audit {
    match status
    case Succeeded => ActionSucceeded(i)
    case FailedPermanent => ActionPermanentFailure(i)
    case FailedExhausted => ActionRetryExhausted(i)
    case _ => ActionTransientFailure(i)
  }

  datatype Tally = Tally(processed: nat, succeeded: nat, retried: nat, failed: nat)

  predicate Due(a: QueuedAction, now: Ticks) { Open(a) && a.nextAttemptAt <= now }

  function DueSet(actions: seq<QueuedAction>, now: Ticks): set<nat> {
    set i | 0 <= i < |actions| && Due(actions[i], now)
  }

  function AsSlot(a: QueuedAction): Scheduler.Slot { Scheduler.Slot(Open(a), Some(a.nextAttemptAt), a.createdAt) }

  function Slots(actions: seq<QueuedAction>): (q: seq<Scheduler.Slot>)
    ensures |q| == |actions| && forall i :: 0 <= i < |q| ==> q[i] == AsSlot(actions[i])
  {
    seq(|actions|, i requires 0 <= i < |actions| => AsSlot(actions[i]))
  }

  /** One call of ProcessPendingAsync: its clock reading, the rows GetDueActionsAsync gave, a reading per attempt. */
  datatype Round = Round(now: Ticks, limit: nat, sel: seq<nat>, ends: seq<Ticks>)

  ghost predicate Legal(actions: seq<QueuedAction>, r: Round) {
    && Scheduler.IsSelection(Slots(actions), DueSet(actions, r.now), r.sel, r.limit)
    && |r.ends| == |r.sel| && InTable(actions, r.sel)
  }

  /** The clock does not run backwards during a round. */
  predicate Punctual(r: Round) { forall k :: 0 <= k < |r.ends| ==> r.ends[k] >= r.now }

  predicate InTable(actions: seq<QueuedAction>, sel: seq<nat>) { forall k :: 0 <= k < |sel| ==> sel[k] < |actions| }

  predicate Distinct(sel: seq<nat>) { forall j, k :: 0 <= j < k < |sel| ==> sel[j] != sel[k] }

  lemma SelectionFacts(actions: seq<QueuedAction>, r: Round)
    requires Legal(actions, r)
    ensures Distinct(r.sel) && forall k :: 0 <= k < |r.sel| ==> r.sel[k] < |actions| && Due(actions[r.sel[k]], r.now)
  {
    forall k | 0 <= k < |r.sel| ensures Due(actions[r.sel[k]], r.now) { assert r.sel[k] in DueSet(actions, r.now); }
  }

  /** Whatever the table, the clock and the limit, the due query has an answer and the round can go ahead. */
  lemma RoundExists(actions: seq<QueuedAction>, now: Ticks, limit: nat) returns (r: Round)
    ensures Legal(actions, r) && Punctual(r) && r.now == now && r.limit == limit
    ensures forall k :: 0 <= k < |r.ends| ==> r.ends[k] == now
  {
    var sel := Scheduler.SelectionExists(Slots(actions), DueSet(actions, now), limit);
    r := Round(now, limit, sel, seq(|sel|, k => now));
    forall k | 0 <= k < |sel| ensures sel[k] < |actions| { assert sel[k] in DueSet(actions, now); }
  }

  function AttemptAt(db: Db, i: nat, at: Ticks, retryDelay: Ticks): Db
    requires i < |db.actions|
  {
    var a := Attempt(db.actions[i], at, retryDelay);
    db.(actions := db.actions[i := a]).Log(AuditOf(a.status, i))
  }

  /** The loop over the selected rows. */
  function AttemptAll(db: Db, sel: seq<nat>, ends: seq<Ticks>, retryDelay: Ticks): Db
    requires InTable(db.actions, sel) && |ends| == |sel|
    decreases |sel|
  {
    if sel == [] then db
    else
      assert forall k :: 0 <= k < |sel[1..]| ==> sel[1..][k] == sel[k + 1];
      AttemptAll(AttemptAt(db, sel[0], ends[0], retryDelay), sel[1..], ends[1..], retryDelay)
  }

  function Counted(t: Tally, s: ActionStatus): Tally {
    if s == Succeeded then t.(succeeded := t.succeeded + 1)
    else if s == Retry then t.(retried := t.retried + 1)
    else t.(failed := t.failed + 1)
  }

  /** The counters the same loop keeps. */
  function TallyAll(db: Db, sel: seq<nat>, ends: seq<Ticks>, retryDelay: Ticks, t: Tally): Tally
    requires InTable(db.actions, sel) && |ends| == |sel|
    decreases |sel|
  {
    if sel == [] then t
    else
      var next := AttemptAt(db, sel[0], ends[0], retryDelay);
      assert forall k :: 0 <= k < |sel[1..]| ==> sel[1..][k] == sel[k + 1];
      TallyAll(next, sel[1..], ends[1..], retryDelay, Counted(t, next.actions[sel[0]].status))
  }

  lemma {:induction false} ProcessedStays(db: Db, sel: seq<nat>, ends: seq<Ticks>, retryDelay: Ticks, t: Tally)
    requires InTable(db.actions, sel) && |ends| == |sel|
    ensures TallyAll(db, sel, ends, retryDelay, t).processed == t.processed
    decreases |sel|
  {
    if sel != [] {
      var next := AttemptAt(db, sel[0], ends[0], retryDelay);
      ProcessedStays(next, sel[1..], ends[1..], retryDelay, Counted(t, next.actions[sel[0]].status));
    }
  }

  function StatusTest(s: ActionStatus): QueuedAction -> bool { (a: QueuedAction) => a.status == s }

  function AttemptsOf(): QueuedAction -> nat { (a: QueuedAction) => a.attempts }

  function TotalAttempts(actions: seq<QueuedAction>): nat { Sum(actions, AttemptsOf()) }

  /** After k rows: what is left of the loop leads where the whole loop leads. */
  predicate LoopAt(was: Db, db: Db, sel: seq<nat>, ends: seq<Ticks>, retryDelay: Ticks, t: Tally, k: nat)
    requires k <= |sel| == |ends| && InTable(was.actions, sel)
  {
    && |db.actions| == |was.actions|
    && AttemptAll(was, sel, ends, retryDelay) == AttemptAll(db, sel[k..], ends[k..], retryDelay)
    && TallyAll(was, sel, ends, retryDelay, Tally(|sel|, 0, 0, 0)) == TallyAll(db, sel[k..], ends[k..], retryDelay, t)
  }

  lemma LoopStarts(db: Db, sel: seq<nat>, ends: seq<Ticks>, retryDelay: Ticks)
    requires InTable(db.actions, sel) && |ends| == |sel|
    ensures LoopAt(db, db, sel, ends, retryDelay, Tally(|sel|, 0, 0, 0), 0)
  {
    assert sel[0..] == sel && ends[0..] == ends;
  }

  lemma LoopStep(was: Db, db: Db, sel: seq<nat>, ends: seq<Ticks>, retryDelay: Ticks, t: Tally, k: nat)
    requires k < |sel| == |ends| && InTable(was.actions, sel) && LoopAt(was, db, sel, ends, retryDelay, t, k)
    ensures var next := AttemptAt(db, sel[k], ends[k], retryDelay);
            LoopAt(was, next, sel, ends, retryDelay, Counted(t, next.actions[sel[k]].status), k + 1)
  {
    assert sel[k..][1..] == sel[k + 1..] && ends[k..][1..] == ends[k + 1..];
  }

  lemma LoopEnds(was: Db, db: Db, sel: seq<nat>, ends: seq<Ticks>, retryDelay: Ticks, t: Tally)
    requires |sel| == |ends| && InTable(was.actions, sel) && LoopAt(was, db, sel, ends, retryDelay, t, |sel|)
    ensures db == AttemptAll(was, sel, ends, retryDelay)
    ensures t == TallyAll(was, sel, ends, retryDelay, Tally(|sel|, 0, 0, 0))
  {
  }

  /** The rows still to be attempted are as they were read. */
  predicate AsRead(actions: seq<QueuedAction>, sel: seq<nat>, rows: seq<QueuedAction>, k: nat) {
    && |rows| == |sel| && InTable(actions, sel)
    && forall j :: k <= j < |sel| ==> actions[sel[j]] == rows[j]
  }

  lemma StaysAsRead(actions: seq<QueuedAction>, sel: seq<nat>, rows: seq<QueuedAction>, k: nat, a: QueuedAction)
    requires k < |sel| && Distinct(sel) && AsRead(actions, sel, rows, k)
    ensures AsRead(actions[sel[k] := a], sel, rows, k + 1)
  {
  }

  class ActionProcessor {
    const store: OpsStore
    const retryDelay: Ticks

    constructor (store: OpsStore, retryDelay: Ticks)
      ensures this.store == store && this.retryDelay == retryDelay
    {
      this.store := store;
      this.retryDelay := retryDelay;
    }

    /** One pass through the loop body, for row `i` as it was read at the start of the round. */
    method AttemptOne(i: nat, action: QueuedAction, updatedAt: Ticks) returns (status: ActionStatus)
      requires i < |store.actions| && store.actions[i] == action
      modifies store
      ensures store.View() == AttemptAt(old(store.View()), i, updatedAt, retryDelay)
      ensures status == store.actions[i].status
      ensures status in {Succeeded, Retry, FailedPermanent, FailedExhausted}
    {
      var attempt := action.attempts + 1;
      var outcome := Execute(action.executorMode, attempt);
      if outcome.kind == Success {
        status := Succeeded;
        store.UpdateAction(i, action.(status := status, attempts := attempt, updatedAt := updatedAt,
                                      nextAttemptAt := updatedAt, lastError := None));
        store.AddAudit(ActionSucceeded(i));
      } else if outcome.kind == TransientFailure && attempt < action.maxAttempts {
        status := Retry;
        store.UpdateAction(i, action.(status := status, attempts := attempt, updatedAt := updatedAt,
                                      nextAttemptAt := updatedAt + retryDelay, lastError := Some(outcome.message)));
        store.AddAudit(ActionTransientFailure(i));
      } else {
        status := if outcome.kind == PermanentFailure then FailedPermanent else FailedExhausted;
        store.UpdateAction(i, action.(status := status, attempts := attempt, updatedAt := updatedAt,
                                      nextAttemptAt := updatedAt, lastError := Some(outcome.message)));
        store.AddAudit(if outcome.kind == PermanentFailure then ActionPermanentFailure(i) else ActionRetryExhausted(i));
      }
    }

    /** The loop over rows that were read once, up front, and are written back one by one. */
    method AttemptEach(sel: seq<nat>, rows: seq<QueuedAction>, ends: seq<Ticks>) returns (t: Tally)
      requires AsRead(store.actions, sel, rows, 0) && Distinct(sel) && |ends| == |sel|
      modifies store
      ensures store.View() == AttemptAll(old(store.View()), sel, ends, retryDelay)
      ensures t == TallyAll(old(store.View()), sel, ends, retryDelay, Tally(|sel|, 0, 0, 0))
    {
      ghost var was := store.View();
      t := Tally(|sel|, 0, 0, 0);
      LoopStarts(was, sel, ends, retryDelay);
      for k := 0 to |sel|
        invariant LoopAt(was, store.View(), sel, ends, retryDelay, t, k)
        invariant AsRead(store.actions, sel, rows, k)
      {
        LoopStep(was, store.View(), sel, ends, retryDelay, t, k);
        StaysAsRead(store.actions, sel, rows, k, Attempt(rows[k], ends[k], retryDelay));
        var status := AttemptOne(sel[k], rows[k], ends[k]);
        t := Counted(t, status);
      }
      LoopEnds(was, store.View(), sel, ends, retryDelay, t);
    }

    /** Each due action gets one attempt. */
    method ProcessPending(r: Round) returns (t: Tally)
      requires Legal(store.actions, r)
      modifies store
      ensures InTable(old(store.actions), r.sel) && |r.ends| == |r.sel|
      ensures store.View() == AttemptAll(old(store.View()), r.sel, r.ends, retryDelay)
      ensures t == TallyAll(old(store.View()), r.sel, r.ends, retryDelay, Tally(|r.sel|, 0, 0, 0))
    {
      SelectionFacts(store.actions, r);
      var rows := seq(|r.sel|, k requires 0 <= k < |r.sel| && r.sel[k] < |store.actions| reads store =>
        store.actions[r.sel[k]]);
      t := AttemptEach(r.sel, rows, r.ends);
    }
  }

  /** A round gives each selected row exactly one attempt and leaves the others alone. */
  lemma {:induction false} AttemptAllRows(db: Db, sel: seq<nat>, ends: seq<Ticks>, retryDelay: Ticks)
    requires InTable(db.actions, sel) && |ends| == |sel| && Distinct(sel)
    ensures var db' := AttemptAll(db, sel, ends, retryDelay);
            && |db'.actions| == |db.actions| && db' == db.(actions := db'.actions, audits := db'.audits)
            && (forall k :: 0 <= k < |sel| ==> db'.actions[sel[k]] == Attempt(db.actions[sel[k]], ends[k], retryDelay))
            && (forall j :: 0 <= j < |db.actions| && j !in sel ==> db'.actions[j] == db.actions[j])
    decreases |sel|
  {
    if sel != [] {
      var i, rest := sel[0], sel[1..];
      var next := AttemptAt(db, i, ends[0], retryDelay);
      assert i !in rest && forall j :: j in sel <==> j == i || j in rest;
      assert forall k :: 0 <= k < |rest| ==> rest[k] == sel[k + 1] && next.actions[rest[k]] == db.actions[sel[k + 1]];
      AttemptAllRows(next, rest, ends[1..], retryDelay);
      forall k | 0 < k < |sel|
        ensures AttemptAll(db, sel, ends, retryDelay).actions[sel[k]] == Attempt(db.actions[sel[k]], ends[k], retryDelay)
      {
        assert sel[k] == rest[k - 1] && ends[k] == ends[1..][k - 1];
      }
    }
  }

  lemma {:induction false} AttemptAllTotals(db: Db, sel: seq<nat>, ends: seq<Ticks>, retryDelay: Ticks)
    requires InTable(db.actions, sel) && |ends| == |sel| && Distinct(sel)
    ensures var db' := AttemptAll(db, sel, ends, retryDelay);
            && |db'.audits| == |db.audits| + |sel|
            && TotalAttempts(db'.actions) == TotalAttempts(db.actions) + |sel|
    decreases |sel|
  {
    if sel != [] {
      var next := AttemptAt(db, sel[0], ends[0], retryDelay);
      SumUpdate(db.actions, sel[0], next.actions[sel[0]], AttemptsOf());
      AttemptAllTotals(next, sel[1..], ends[1..], retryDelay);
    }
  }

  function Failed(): QueuedAction -> bool {
    (a: QueuedAction) => a.status == FailedPermanent || a.status == FailedExhausted
  }

  function IsOpen(): QueuedAction -> bool { (a: QueuedAction) => Open(a) }

  /** How one attempt on an open row moves the numbers of ended and open rows. */
  lemma AttemptCounts(db: Db, i: nat, at: Ticks, retryDelay: Ticks)
    requires i < |db.actions| && Open(db.actions[i])
    ensures var next := AttemptAt(db, i, at, retryDelay).actions;
            var s := next[i].status;
            && Count(next, StatusTest(Succeeded))
               == Count(db.actions, StatusTest(Succeeded)) + (if s == Succeeded then 1 else 0)
            && Count(next, Failed()) == Count(db.actions, Failed()) + (if s == Succeeded || s == Retry then 0 else 1)
            && Count(next, IsOpen()) + (if s == Retry then 0 else 1) == Count(db.actions, IsOpen())
            && s != Queued
  {
    var row := AttemptAt(db, i, at, retryDelay).actions[i];
    SumUpdate(db.actions, i, row, Indicator(StatusTest(Succeeded)));
    SumUpdate(db.actions, i, row, Indicator(Failed()));
    SumUpdate(db.actions, i, row, Indicator(IsOpen()));
  }

  /** What the counters report: rows that succeeded, rows that failed for good, rows that will be retried. */
  lemma {:induction false} TallyMeaning(db: Db, sel: seq<nat>, ends: seq<Ticks>, retryDelay: Ticks, t: Tally)
    requires InTable(db.actions, sel) && |ends| == |sel| && Distinct(sel)
    requires forall k :: 0 <= k < |sel| ==> Open(db.actions[sel[k]])
    ensures var (t', after) := (TallyAll(db, sel, ends, retryDelay, t), AttemptAll(db, sel, ends, retryDelay).actions);
            && t'.processed == t.processed
            && t'.succeeded + t'.retried + t'.failed == t.succeeded + t.retried + t.failed + |sel|
            && Count(after, StatusTest(Succeeded)) - t'.succeeded == Count(db.actions, StatusTest(Succeeded)) - t.succeeded
            && Count(after, Failed()) - t'.failed == Count(db.actions, Failed()) - t.failed
            && Count(after, IsOpen()) + t'.succeeded + t'.failed == Count(db.actions, IsOpen()) + t.succeeded + t.failed
    decreases |sel|
  {
    if sel != [] {
      var i, next := sel[0], AttemptAt(db, sel[0], ends[0], retryDelay);
      AttemptCounts(db, i, ends[0], retryDelay);
      TallyMeaning(next, sel[1..], ends[1..], retryDelay, Counted(t, next.actions[i].status));
    }
  }

  /** The row-level meaning of a round, by row instead of by position in the batch. */
  lemma RoundRow(db: Db, r: Round, retryDelay: Ticks, j: nat)
    requires Legal(db.actions, r) && j < |db.actions|
    ensures var after := AttemptAll(db, r.sel, r.ends, retryDelay).actions;
            && |after| == |db.actions|
            && if j in r.sel then exists at :: at in r.ends && after[j] == Attempt(db.actions[j], at, retryDelay)
               else after[j] == db.actions[j]
  {
    SelectionFacts(db.actions, r);
    AttemptAllRows(db, r.sel, r.ends, retryDelay);
    if j in r.sel {
      var k :| 0 <= k < |r.sel| && r.sel[k] == j;
      assert r.ends[k] in r.ends;
    }
  }

  // ---------------------------------------------------------------- conservation

  datatype Step = Ingest(request: Request) | Process(round: Round) | Reset

  ghost function Apply(db: Db, s: Step, retryDelay: Ticks): Db {
    match s
    case Ingest(q) => Record(db, q).0
    case Process(r) => if Legal(db.actions, r) then AttemptAll(db, r.sel, r.ends, retryDelay) else db
    case Reset => EMPTY
  }

  ghost function Run(steps: seq<Step>, retryDelay: Ticks): Db
    decreases |steps|
  {
    if steps == [] then EMPTY
    else Apply(Run(steps[..|steps| - 1], retryDelay), steps[|steps| - 1], retryDelay)
  }

  /** Two audit rows per event, one more per queued action, and one per attempt. */
  lemma {:induction false} AuditConservation(steps: seq<Step>, retryDelay: Ticks)
    ensures var db := Run(steps, retryDelay);
            |db.audits| == 2 * |db.events| + |db.actions| + TotalAttempts(db.actions)
    decreases |steps|
  {
    if steps != [] {
      var init, s := steps[..|steps| - 1], steps[|steps| - 1];
      var db := Run(init, retryDelay);
      AuditConservation(init, retryDelay);
      match s
      case Ingest(q) => SumOne(db.actions, NewAction(q, |db.incidents|), AttemptsOf());
      case Process(r) =>
        if Legal(db.actions, r) {
          SelectionFacts(db.actions, r);
          AttemptAllTotals(db, r.sel, r.ends, retryDelay);
          AttemptAllRows(db, r.sel, r.ends, retryDelay);
        }
      case Reset =>
    }
  }

  // ---------------------------------------------------------------- fairness

  /** A round at t or later that puts retries off to after t. */
  predicate PutsOff(r: Round, t: Ticks, retryDelay: Ticks) {
    r.now >= t && forall k :: 0 <= k < |r.ends| ==> r.ends[k] + retryDelay > t
  }

  /** From instant t on: any ingestion, and rounds that put retries off, without a reset. */
  ghost predicate ServiceRun(db: Db, steps: seq<Step>, t: Ticks, retryDelay: Ticks)
    decreases |steps|
  {
    steps != [] ==>
      var s := steps[0];
      && !s.Reset?
      && (s.Process? ==> PutsOff(s.round, t, retryDelay) && Legal(db.actions, s.round))
      && ServiceRun(Apply(db, s, retryDelay), steps[1..], t, retryDelay)
  }

  /** What the rounds can take altogether: the sum of their limits. */
  function Capacity(steps: seq<Step>): nat {
    if steps == [] then 0 else (if steps[0].Process? then steps[0].round.limit else 0) + Capacity(steps[1..])
  }

  /**
   * Ingestions that ask for an action and have read the clock by t. The clock is read before the write lock is taken,
   * so they can commit later and still sort in front of what falls due after t.
   */
  function EarlyReadings(steps: seq<Step>, t: Ticks): nat {
    if steps == [] then 0 else (if ReadsEarly(steps[0], t) then 1 else 0) + EarlyReadings(steps[1..], t)
  }

  predicate ReadsEarly(s: Step, t: Ticks) {
    s.Ingest? && s.request.now <= t && s.request.verdict.createIncident && s.request.verdict.queueAction
  }

  predicate Attempts(s: Step, i: nat) { s.Process? && i in s.round.sel }

  ghost function AsMove(db: Db, s: Step, retryDelay: Ticks): Scheduler.Move {
    match s
    case Ingest(q) =>
      if |Record(db, q).0.actions| == |db.actions| then Scheduler.Idle
      else Scheduler.Arrive(AsSlot(NewAction(q, |db.incidents|)))
    case Reset => Scheduler.Idle
    case Process(r) => Scheduler.Serve(r.sel, r.limit, DueSet(db.actions, r.now), Slots(Apply(db, s, retryDelay).actions))
  }

  ghost function AsMoves(db: Db, steps: seq<Step>, retryDelay: Ticks): (moves: seq<Scheduler.Move>)
    ensures |moves| == |steps| && Scheduler.Capacity(moves) == Capacity(steps)
    ensures forall k :: 0 <= k < |steps| ==>
              moves[k].Serve? == steps[k].Process? && (steps[k].Process? ==> moves[k].sel == steps[k].round.sel)
    decreases |steps|
  {
    if steps == [] then []
    else [AsMove(db, steps[0], retryDelay)] + AsMoves(Apply(db, steps[0], retryDelay), steps[1..], retryDelay)
  }

  lemma {:induction false} StragglersReadEarly(db: Db, steps: seq<Step>, t: Ticks, retryDelay: Ticks)
    ensures Scheduler.Stragglers(AsMoves(db, steps, retryDelay), t) <= EarlyReadings(steps, t)
    decreases |steps|
  {
    if steps != [] {
      StragglersReadEarly(Apply(db, steps[0], retryDelay), steps[1..], t, retryDelay);
      assert AsMoves(db, steps, retryDelay)[1..] == AsMoves(Apply(db, steps[0], retryDelay), steps[1..], retryDelay);
    }
  }

  lemma RoundPutsOff(db: Db, r: Round, t: Ticks, retryDelay: Ticks, j: nat)
    requires Legal(db.actions, r) && PutsOff(r, t, retryDelay) && j < |db.actions| && j in r.sel
    ensures var after := AttemptAll(db, r.sel, r.ends, retryDelay).actions;
            |after| == |db.actions| && (Open(after[j]) ==> after[j].nextAttemptAt > t)
  {
    RoundRow(db, r, retryDelay, j);
    var at :| at in r.ends && AttemptAll(db, r.sel, r.ends, retryDelay).actions[j] == Attempt(db.actions[j], at, retryDelay);
  }

  lemma RoundIsServe(db: Db, r: Round, t: Ticks, retryDelay: Ticks)
    requires Legal(db.actions, r) && PutsOff(r, t, retryDelay)
    ensures Scheduler.Follows(Slots(db.actions), AsMove(db, Process(r), retryDelay), t)
  {
    var after := AttemptAll(db, r.sel, r.ends, retryDelay).actions;
    SelectionFacts(db.actions, r);
    AttemptAllRows(db, r.sel, r.ends, retryDelay);
    forall j | 0 <= j < |db.actions|
      ensures if j in r.sel then Open(after[j]) ==> after[j].nextAttemptAt > t else after[j] == db.actions[j]
    {
      RoundRow(db, r, retryDelay, j);
      if j in r.sel { RoundPutsOff(db, r, t, retryDelay, j); }
    }
  }

  lemma IngestIsArrival(db: Db, q: Request)
    ensures Slots(Record(db, q).0.actions) == Scheduler.After(Slots(db.actions), AsMove(db, Ingest(q), 0))
    ensures |Record(db, q).0.actions| >= |db.actions| && Record(db, q).0.actions[..|db.actions|] == db.actions
  {
  }

  lemma {:induction false} RunRefinesScheduler(db: Db, steps: seq<Step>, i: nat, t: Ticks, retryDelay: Ticks)
    requires ServiceRun(db, steps, t, retryDelay)
    requires i < |db.actions| && Due(db.actions[i], t)
    ensures Scheduler.RunAfter(Slots(db.actions), AsMoves(db, steps, retryDelay), i, t)
    decreases |steps|
  {
    if steps != [] {
      var s, db' := steps[0], Apply(db, steps[0], retryDelay);
      if s.Process? {
        RoundIsServe(db, s.round, t, retryDelay);
        RoundRow(db, s.round, retryDelay, i);
        if i in s.round.sel { return; }
      } else {
        IngestIsArrival(db, s.request);
        assert db'.actions[i] == db'.actions[..|db.actions|][i];
      }
      RunRefinesScheduler(db', steps[1..], i, t, retryDelay);
    }
  }

  /**
   * Fairness: an action due at t with r actions before or tied with it, and e ingestions still to commit that have read
   * the clock by t, is attempted by the time the limits of the rounds from t on add up to more than r + e, however much
   * else is ingested. With one limit that is within floor((r + e) / limit) + 1 rounds.
   */
  lemma AttemptedInTime(db: Db, steps: seq<Step>, i: nat, t: Ticks, retryDelay: Ticks)
    requires ServiceRun(db, steps, t, retryDelay)
    requires i < |db.actions| && Due(db.actions[i], t)
    requires Capacity(steps) > |Scheduler.Ahead(Slots(db.actions), i)| + EarlyReadings(steps, t)
    ensures exists k :: 0 <= k < |steps| && Attempts(steps[k], i)
  {
    RunRefinesScheduler(db, steps, i, t, retryDelay);
    var moves := AsMoves(db, steps, retryDelay);
    StragglersReadEarly(db, steps, t, retryDelay);
    Scheduler.ServedInTime(Slots(db.actions), moves, i, t);
    var k :| 0 <= k < |moves| && Scheduler.Serves(moves[k], i);
    assert Attempts(steps[k], i);
  }

  // ---------------------------------------------------------------- an early reading overtakes

  const WAITING: QueuedAction :=
    QueuedAction(0, "first", "collect_diagnostics", "success", Queued, 0, 3, 10, 10, 10, None)

  const OVERTAKING: Request :=
    Request(OpEvent("source", "second", "offline", 92, "down", "success", 5, 5),
            RuleDecision(true, true, "collect_diagnostics"), 3, 0, 5)

  const OVERTAKEN: seq<Step> := [Ingest(OVERTAKING), Process(Round(11, 1, [1], [11]))]

  /**
   * Why such readings count: nothing is ahead of the one action, which is due at 10, and yet a round of one at 11
   * attempts the action of an event that read the clock at 5 and was committed after 10.
   */
  lemma EarlyReadingOvertakes(db: Db)
    requires db.actions == [WAITING] && db.incidents == []
    ensures ServiceRun(db, OVERTAKEN, 10, 0) && Due(db.actions[0], 10)
    ensures Capacity(OVERTAKEN) > |Scheduler.Ahead(Slots(db.actions), 0)| && EarlyReadings(OVERTAKEN, 10) == 1
    ensures forall k :: 0 <= k < |OVERTAKEN| ==> !Attempts(OVERTAKEN[k], 0)
  {
    var next := Record(db, OVERTAKING).0;
    var r := Round(11, 1, [1], [11]);
    assert next.actions == [WAITING, NewAction(OVERTAKING, 0)];
    assert Scheduler.KeyLe(Slots(next.actions)[1], Slots(next.actions)[0]);
    assert Legal(next.actions, r) && PutsOff(r, 10, 0);
    assert OVERTAKEN[1..] == [Process(r)] && [Process(r)][1..] == [];
    assert ServiceRun(next, [Process(r)], 10, 0);
    assert Capacity([Process(r)]) == 1;
    assert !ReadsEarly(Process(r), 10) && EarlyReadings([Process(r)], 10) == 0;
    assert ReadsEarly(OVERTAKEN[0], 10);
    assert Scheduler.Ahead(Slots(db.actions), 0) == {};
  }
}
