/** Whole runs of the durable queue: draining it, how long that takes, and who gets served when. */
module PyQueue {
  import opened Util
  import opened PyTables
  import opened PyActions
  import Scheduler
  import Text

  // ---------------------------------------------------------------- one pass

  predicate Distinct(sel: seq<nat>) { forall j, k :: 0 <= j < k < |sel| ==> sel[j] != sel[k] }

  function Executed(sel: seq<nat>): seq<Audit> { seq(|sel|, k requires 0 <= k < |sel| => ActionExecuted(sel[k])) }

  function WorkWeight(maxAttempts: int): Action -> nat { a => Work(a, maxAttempts) }

  /** The termination measure of the queue. */
  function TotalWork(actions: seq<Action>, maxAttempts: int): nat { Sum(actions, WorkWeight(maxAttempts)) }

  function Ended(t: Tally): nat { t.succeeded + t.failed }

  lemma ExecuteAtRows(db: Db, i: nat, cfg: Config, now: Time)
    requires i < |db.actions| && Active(db.actions[i]) && ExecuteAt(db, i, cfg, now).Ok?
    ensures var db' := ExecuteAt(db, i, cfg, now).value;
            && ExecuteOnce(db.actions[i], cfg, now).Ok?
            && db' == db.(actions := db.actions[i := ExecuteOnce(db.actions[i], cfg, now).value],
                          audits := db.audits + [ActionExecuted(i)])
            && TotalWork(db'.actions, cfg.maxAttempts) + 1 <= TotalWork(db.actions, cfg.maxAttempts)
            && Backlog(db'.actions) == Backlog(db.actions) - (if Active(db'.actions[i]) then 0 else 1)
  {
    var a := ExecuteOnce(db.actions[i], cfg, now).value;
    AttemptProgress(db.actions[i], cfg, now);
    SumUpdate(db.actions, i, a, WorkWeight(cfg.maxAttempts));
    SumUpdate(db.actions, i, a, Indicator(Active));
  }

  /** A pass that commits gives each selected row exactly one attempt and touches nothing else. */
  lemma {:induction false} ExecuteAllRows(db: Db, sel: seq<nat>, cfg: Config, now: Time, t: Tally)
    requires InTable(db.actions, sel) && Distinct(sel) && ExecuteAll(db, sel, cfg, now, t).Ok?
    requires forall k :: 0 <= k < |sel| ==> Active(db.actions[sel[k]])
    ensures var (db', t') := ExecuteAll(db, sel, cfg, now, t).value;
            && |db'.actions| == |db.actions|
            && (forall j :: 0 <= j < |db.actions| ==>
                  if j in sel then ExecuteOnce(db.actions[j], cfg, now) == Ok(db'.actions[j])
                  else db'.actions[j] == db.actions[j])
            && db' == db.(actions := db'.actions, audits := db.audits + Executed(sel))
    decreases |sel|
  {
    if sel != [] {
      var i, rest := sel[0], sel[1..];
      ExecuteAtRows(db, i, cfg, now);
      var next := ExecuteAt(db, i, cfg, now).value;
      assert i !in rest;
      ExecuteAllRows(next, rest, cfg, now, Count1(t, next.actions[i].state));
      assert Executed(sel) == [ActionExecuted(i)] + Executed(rest);
      assert forall j :: j in sel <==> j == i || j in rest;
    }
  }

  /** The tally of a pass: every row counted once, by the state it ended in; the measure falls with each. */
  lemma {:induction false} ExecuteAllTally(db: Db, sel: seq<nat>, cfg: Config, now: Time, t: Tally)
    requires InTable(db.actions, sel) && Distinct(sel) && ExecuteAll(db, sel, cfg, now, t).Ok?
    requires forall k :: 0 <= k < |sel| ==> Active(db.actions[sel[k]])
    ensures var (db', t') := ExecuteAll(db, sel, cfg, now, t).value;
            && t'.processed == t.processed + |sel|
            && t'.processed - t'.succeeded - t'.failed - t'.retried == t.processed - t.succeeded - t.failed - t.retried
            && TotalWork(db'.actions, cfg.maxAttempts) + |sel| <= TotalWork(db.actions, cfg.maxAttempts)
            && Backlog(db'.actions) + Ended(t') == Backlog(db.actions) + Ended(t)
    decreases |sel|
  {
    if sel != [] {
      var i, rest := sel[0], sel[1..];
      ExecuteAtRows(db, i, cfg, now);
      AttemptProgress(db.actions[i], cfg, now);
      var next := ExecuteAt(db, i, cfg, now).value;
      ExecuteAllTally(next, rest, cfg, now, Count1(t, next.actions[i].state));
    }
  }

  datatype Round = Round(now: Time, limit: nat, sel: seq<nat>)

  ghost predicate Legal(actions: seq<Action>, r: Round, cfg: Config) {
    IsDueSelection(actions, r.sel, r.limit, r.now, cfg.lease) && InTable(actions, r.sel)
  }

  /** `ExecuteAllRows` for the rows the due query selects. */
  lemma PassRows(db: Db, r: Round, cfg: Config)
    requires Legal(db.actions, r, cfg) && RunOnce(db, r.sel, cfg, r.now).1.Ok?
    ensures var db' := RunOnce(db, r.sel, cfg, r.now).0;
            && |db'.actions| == |db.actions|
            && (forall j :: 0 <= j < |db.actions| ==>
                  if j in r.sel then Due(db.actions[j], r.now, cfg.lease)
                                     && ExecuteOnce(db.actions[j], cfg, r.now) == Ok(db'.actions[j])
                  else db'.actions[j] == db.actions[j])
            && db' == db.(actions := db'.actions, audits := db.audits + Executed(r.sel))
  {
    SelectionInTable(db.actions, r.sel, r.limit, r.now, cfg.lease);
    ExecuteAllRows(db, r.sel, cfg, r.now, NOTHING);
  }

  lemma PassSize(actions: seq<Action>, r: Round, cfg: Config)
    requires Legal(actions, r, cfg)
    ensures var due := |DueSet(actions, r.now, cfg.lease)|; |r.sel| == if due < r.limit then due else r.limit
  {
    Scheduler.SelectionSize(Slots(actions), DueSet(actions, r.now, cfg.lease), r.sel, r.limit);
  }

  lemma PassTally(db: Db, r: Round, cfg: Config)
    requires Legal(db.actions, r, cfg) && RunOnce(db, r.sel, cfg, r.now).1.Ok?
    ensures var (db', t) := (RunOnce(db, r.sel, cfg, r.now).0, RunOnce(db, r.sel, cfg, r.now).1.value);
            && t.processed == t.succeeded + t.failed + t.retried && t.processed == |r.sel|
            && Backlog(db'.actions) == Backlog(db.actions) - t.succeeded - t.failed
            && TotalWork(db'.actions, cfg.maxAttempts) + t.processed <= TotalWork(db.actions, cfg.maxAttempts)
  {
    SelectionInTable(db.actions, r.sel, r.limit, r.now, cfg.lease);
    ExecuteAllTally(db, r.sel, cfg, r.now, NOTHING);
  }

  /** What a committed worker pass reports and achieves. */
  lemma PassAccounting(db: Db, r: Round, cfg: Config)
    requires Legal(db.actions, r, cfg) && RunOnce(db, r.sel, cfg, r.now).1.Ok?
    ensures var (db', t) := (RunOnce(db, r.sel, cfg, r.now).0, RunOnce(db, r.sel, cfg, r.now).1.value);
            var due := |DueSet(db.actions, r.now, cfg.lease)|;
            && t.processed == t.succeeded + t.failed + t.retried
            && t.processed == (if due < r.limit then due else r.limit)
            && Backlog(db'.actions) == Backlog(db.actions) - t.succeeded - t.failed
            && TotalWork(db'.actions, cfg.maxAttempts) + t.processed <= TotalWork(db.actions, cfg.maxAttempts)
  {
    PassTally(db, r, cfg);
    PassSize(db.actions, r, cfg);
  }

  lemma {:induction false} ExecuteAllOk(db: Db, sel: seq<nat>, cfg: Config, now: Time, t: Tally)
    requires InTable(db.actions, sel) && Distinct(sel)
    requires forall k :: 0 <= k < |sel| ==> Active(db.actions[sel[k]])
    ensures ExecuteAll(db, sel, cfg, now, t).Ok? <==>
            forall k :: 0 <= k < |sel| ==> ExecuteOnce(db.actions[sel[k]], cfg, now).Ok?
    decreases |sel|
  {
    if sel != [] && ExecuteOnce(db.actions[sel[0]], cfg, now).Ok? {
      var i, rest := sel[0], sel[1..];
      ExecuteAtRows(db, i, cfg, now);
      var next := ExecuteAt(db, i, cfg, now).value;
      assert forall k :: 0 <= k < |rest| ==> rest[k] == sel[k + 1] && next.actions[rest[k]] == db.actions[rest[k]];
      ExecuteAllOk(next, rest, cfg, now, Count1(t, next.actions[i].state));
      assert forall k :: 0 < k < |sel| ==> sel[k] == rest[k - 1];
    }
  }

  /** A pass commits if and only if no selected row's transport raises; otherwise it leaves everything as it was. */
  lemma PassCommits(db: Db, r: Round, cfg: Config)
    requires Legal(db.actions, r, cfg)
    ensures RunOnce(db, r.sel, cfg, r.now).1.Ok? <==>
            forall k :: 0 <= k < |r.sel| ==> ExecuteOnce(db.actions[r.sel[k]], cfg, r.now).Ok?
    ensures RunOnce(db, r.sel, cfg, r.now).1.Err? ==> RunOnce(db, r.sel, cfg, r.now).0 == db
  {
    SelectionInTable(db.actions, r.sel, r.limit, r.now, cfg.lease);
    ExecuteAllOk(db, r.sel, cfg, r.now, NOTHING);
  }

  /** The worker as the service runs it, with the default transport, always commits. */
  lemma DefaultWorkerCommits(db: Db, r: Round, cfg: Config)
    requires Legal(db.actions, r, cfg) && cfg.transport == DefaultTransport && cfg.maxAttempts >= 1
    ensures NeverRaises(cfg) && RunOnce(db, r.sel, cfg, r.now).1.Ok?
  {
    PassCommits(db, r, cfg);
  }

  /** One selected row whose transport raises keeps the whole batch from making progress. */
  lemma RaisingRowBlocksBatch(db: Db, r: Round, cfg: Config, i: nat)
    requires Legal(db.actions, r, cfg) && i in r.sel && ExecuteOnce(db.actions[i], cfg, r.now).Err?
    ensures RunOnce(db, r.sel, cfg, r.now).0 == db && RunOnce(db, r.sel, cfg, r.now).1.Err?
  {
    if RunOnce(db, r.sel, cfg, r.now).1.Ok? {
      PassRows(db, r, cfg);
    }
  }

  /** A caller's own transport that raises for one detail. */
  function Brittle(actionType: string, detail: string, attempts: nat, timeout: real): Attempt {
    if detail == "broken" then Raised("connection refused") else DefaultTransport(actionType, detail, attempts, timeout)
  }

  const BRITTLE: Config := Config(3, 1.0, 0, 60, Brittle)

  function Waiting(detail: string): Action {
    Action(0, "collect_diagnostics", Queued, 0, detail, Some(0), None, None, 0, 0)
  }

  lemma SoundRowSucceeds(c: nat -> Time)
    ensures RetryLoop(Waiting("sound"), BRITTLE, c).Ok?
    ensures RetryLoop(Waiting("sound"), BRITTLE, c).value.state == Succeeded
  {
    assert "sound"[0] != "broken"[0];
    Text.ContainsNot("sound", "permanent_failure");
    Text.ContainsNot("sound", "fail_once");
    Text.ContainsNot("sound", "transient_then_success");
    RetryStep(Waiting("sound"), BRITTLE, c);
  }

  /**
   * Such an input: beside a broken action, a sound one is never executed by any pass that can take both, although its
   * own retry loop ends it at the first attempt.
   */
  lemma BrokenRowStarvesSoundRow(db: Db, r: Round, c: nat -> Time)
    requires db.actions == [Waiting("broken"), Waiting("sound")]
    requires Legal(db.actions, r, BRITTLE) && r.limit >= 2 && r.now >= 0
    ensures RunOnce(db, r.sel, BRITTLE, r.now).1.Err? && RunOnce(db, r.sel, BRITTLE, r.now).0 == db
    ensures RetryLoop(db.actions[1], BRITTLE, c).Ok? && RetryLoop(db.actions[1], BRITTLE, c).value.state == Succeeded
  {
    PassSize(db.actions, r, BRITTLE);
    assert DueSet(db.actions, r.now, BRITTLE.lease) == {0, 1};
    assert |r.sel| == 2 && r.sel[0] in {0, 1} && r.sel[1] in {0, 1} && r.sel[0] != r.sel[1];
    RaisingRowBlocksBatch(db, r, BRITTLE, 0);
    SoundRowSucceeds(c);
  }

  // ---------------------------------------------------------------- draining

  ghost predicate LegalRun(db: Db, rounds: seq<Round>, cfg: Config)
    decreases |rounds|
  {
    rounds != [] ==>
      Legal(db.actions, rounds[0], cfg)
      && LegalRun(RunOnce(db, rounds[0].sel, cfg, rounds[0].now).0, rounds[1..], cfg)
  }

  /** The tables after a sequence of worker passes, each committed or rolled back. */
  ghost function Drain(db: Db, rounds: seq<Round>, cfg: Config): Db
    requires LegalRun(db, rounds, cfg)
    decreases |rounds|
  {
    if rounds == [] then db else Drain(RunOnce(db, rounds[0].sel, cfg, rounds[0].now).0, rounds[1..], cfg)
  }

  /** What callers observe of an action's fate; timestamps and leases are not part of it. */
  datatype Fate = Fate(actionType: string, state: ActionState, attempts: nat, detail: string)

  function FateOf(a: Action): Fate { Fate(a.actionType, a.state, a.attempts, a.detail) }

  predicate SameFate(a: Result<Action, Error>, b: Result<Action, Error>) {
    if a.Ok? && b.Ok? then FateOf(a.value) == FateOf(b.value) else a == b
  }

  /** execute_action_with_retry retries without delay, whatever delay the worker is configured with. */
  function Undelayed(cfg: Config): Config { cfg.(retryDelay := 0) }

  lemma AttemptsAlike(a: Action, b: Action, cfg: Config, other: Config, s: Time, t: Time)
    requires Active(a) && FateOf(a) == FateOf(b) && Undelayed(cfg) == Undelayed(other)
    ensures SameFate(ExecuteOnce(a, cfg, s), ExecuteOnce(b, other, t))
  {
  }

  /** The retry loop is blind to timestamps, leases, the clock and the delay. */
  lemma {:induction false} FateDecides(a: Action, b: Action, cfg: Config, other: Config, c: nat -> Time, d: nat -> Time)
    requires a.state != Skipped && FateOf(a) == FateOf(b) && Undelayed(cfg) == Undelayed(other)
    ensures SameFate(RetryLoop(a, cfg, c), RetryLoop(b, other, d))
    decreases Work(a, cfg.maxAttempts)
  {
    if cfg.maxAttempts >= 1 && Active(a) {
      RetryStep(a, cfg, c);
      RetryStep(b, other, d);
      var x, y := ExecuteOnce(a, cfg, c(a.attempts + 1)), ExecuteOnce(b, other, d(b.attempts + 1));
      AttemptsAlike(a, b, cfg, other, c(a.attempts + 1), d(b.attempts + 1));
      if x.Ok? {
        FateDecides(x.value, y.value, cfg, other, c, d);
      }
    }
  }

  lemma AttemptKeepsFate(a: Action, cfg: Config, now: Time, c: nat -> Time)
    requires Active(a) && ExecuteOnce(a, cfg, now).Ok?
    ensures ExecuteOnce(a, cfg, now).value.state != Skipped
    ensures SameFate(RetryLoop(a, cfg, c), RetryLoop(ExecuteOnce(a, cfg, now).value, cfg, c))
  {
    RetryStep(a, cfg, c);
    FateDecides(ExecuteOnce(a, cfg, now).value, ExecuteOnce(a, cfg, c(a.attempts + 1)).value, cfg, cfg, c, c);
  }

  /** A worker pass, committed or not, leaves every action headed for the same end. */
  lemma PassKeepsFate(db: Db, r: Round, cfg: Config, i: nat, c: nat -> Time)
    requires Legal(db.actions, r, cfg) && i < |db.actions| && db.actions[i].state != Skipped
    ensures var db' := RunOnce(db, r.sel, cfg, r.now).0;
            && |db'.actions| == |db.actions| && db'.actions[i].state != Skipped
            && SameFate(RetryLoop(db.actions[i], cfg, c), RetryLoop(db'.actions[i], cfg, c))
  {
    if RunOnce(db, r.sel, cfg, r.now).1.Ok? {
      PassRows(db, r, cfg);
      if i in r.sel {
        AttemptKeepsFate(db.actions[i], cfg, r.now, c);
      }
    }
  }

  lemma {:induction false} DrainKeepsFate(db: Db, rounds: seq<Round>, cfg: Config, i: nat, c: nat -> Time)
    requires LegalRun(db, rounds, cfg) && i < |db.actions| && db.actions[i].state != Skipped
    ensures var end := Drain(db, rounds, cfg);
            && |end.actions| == |db.actions| && end.actions[i].state != Skipped
            && SameFate(RetryLoop(db.actions[i], cfg, c), RetryLoop(end.actions[i], cfg, c))
    decreases |rounds|
  {
    if rounds != [] {
      PassKeepsFate(db, rounds[0], cfg, i, c);
      DrainKeepsFate(RunOnce(db, rounds[0].sel, cfg, rounds[0].now).0, rounds[1..], cfg, i, c);
    }
  }

  /**
   * Whatever passes the worker made, at whatever times, with whatever limits, delays, leases and rollbacks: an
   * action that has ended has ended as execute_action_with_retry would have ended it alone.
   */
  lemma EndedAsRetryLoop(db: Db, rounds: seq<Round>, cfg: Config, i: nat, c: nat -> Time)
    requires cfg.maxAttempts >= 1
    requires LegalRun(db, rounds, cfg) && i < |db.actions| && db.actions[i].state != Skipped
    ensures var end := Drain(db, rounds, cfg);
            |end.actions| == |db.actions| && (Terminal(end.actions[i]) ==>
              var alone := RetryLoop(db.actions[i], Undelayed(cfg), c);
              alone.Ok? && FateOf(end.actions[i]) == FateOf(alone.value))
  {
    DrainKeepsFate(db, rounds, cfg, i, c);
    FateDecides(db.actions[i], db.actions[i], cfg, Undelayed(cfg), c, c);
  }

  ghost predicate NeverRaises(cfg: Config) {
    forall t: string, d: string, n: nat :: !cfg.transport(t, d, n, cfg.timeout).Raised?
  }

  /** By `now` every active row has reached its due time and is free or held by a stale lease. */
  predicate AllDue(actions: seq<Action>, now: Time, lease: int) {
    forall i :: 0 <= i < |actions| && Active(actions[i]) ==> Due(actions[i], now, lease)
  }

  /** Passes no closer together than the retry delay, each allowed to take at least one row. */
  predicate Advancing(rounds: seq<Round>, start: Time, delay: int)
    decreases |rounds|
  {
    rounds != [] ==>
      && rounds[0].now >= start && rounds[0].limit >= 1
      && Advancing(rounds[1..], Later(rounds[0].now, delay), delay)
  }

  /** Passes of any number, at the earliest times that advance, can always be made. */
  lemma {:induction false} PassesExist(db: Db, cfg: Config, start: Time, limit: nat, n: nat) returns (rounds: seq<Round>)
    requires limit >= 1
    ensures LegalRun(db, rounds, cfg) && Advancing(rounds, start, cfg.retryDelay) && |rounds| == n
    decreases n
  {
    if n == 0 {
      rounds := [];
    } else {
      var sel := DueSelectionExists(db.actions, limit, start, cfg.lease);
      var r := Round(start, limit, sel);
      SelectionInTable(db.actions, sel, limit, start, cfg.lease);
      var rest := PassesExist(RunOnce(db, sel, cfg, start).0, cfg, Later(start, cfg.retryDelay), limit, n - 1);
      rounds := [r] + rest;
      assert rounds[1..] == rest;
    }
  }

  lemma {:induction false} ExecuteAllCommits(db: Db, sel: seq<nat>, cfg: Config, now: Time, t: Tally)
    requires InTable(db.actions, sel) && NeverRaises(cfg) && cfg.maxAttempts >= 1
    ensures ExecuteAll(db, sel, cfg, now, t).Ok?
    decreases |sel|
  {
    if sel != [] {
      var next := ExecuteAt(db, sel[0], cfg, now).value;
      assert forall k :: 0 <= k < |sel[1..]| ==> sel[1..][k] == sel[k + 1];
      ExecuteAllCommits(next, sel[1..], cfg, now, Count1(t, next.actions[sel[0]].state));
    }
  }

  function Later(now: Time, delay: int): Time { now + (if delay > 0 then delay else 0) }

  lemma PassLeavesDue(db: Db, r: Round, cfg: Config)
    requires Legal(db.actions, r, cfg) && AllDue(db.actions, r.now, cfg.lease)
    requires RunOnce(db, r.sel, cfg, r.now).1.Ok?
    ensures AllDue(RunOnce(db, r.sel, cfg, r.now).0.actions, Later(r.now, cfg.retryDelay), cfg.lease)
  {
    PassRows(db, r, cfg);
    forall j | 0 <= j < |db.actions| && j in r.sel
      ensures var b := RunOnce(db, r.sel, cfg, r.now).0.actions[j];
              Active(b) ==> b.nextAttemptAt == Some(r.now + cfg.retryDelay) && b.leaseId.None?
    {
      AttemptProgress(db.actions[j], cfg, r.now);
    }
  }

  /** While work remains, a pass at which everything is due makes some of it go away. */
  lemma PassProgress(db: Db, r: Round, cfg: Config)
    requires Legal(db.actions, r, cfg) && r.limit >= 1 && AllDue(db.actions, r.now, cfg.lease)
    requires RunOnce(db, r.sel, cfg, r.now).1.Ok?
    ensures var (before, after) := (TotalWork(db.actions, cfg.maxAttempts),
                                    TotalWork(RunOnce(db, r.sel, cfg, r.now).0.actions, cfg.maxAttempts));
            after <= before && (before > 0 ==> after < before)
  {
    PassTally(db, r, cfg);
    PassSize(db.actions, r, cfg);
    if TotalWork(db.actions, cfg.maxAttempts) > 0 {
      var i := SumPositive(db.actions, WorkWeight(cfg.maxAttempts));
      assert i in DueSet(db.actions, r.now, cfg.lease);
    }
  }

  /** The queue is empty after at most as many passes as there was work. */
  lemma {:induction false} DrainEnds(db: Db, rounds: seq<Round>, cfg: Config, start: Time)
    requires cfg.maxAttempts >= 1 && NeverRaises(cfg)
    requires LegalRun(db, rounds, cfg) && Advancing(rounds, start, cfg.retryDelay)
    requires AllDue(db.actions, start, cfg.lease) && |rounds| >= TotalWork(db.actions, cfg.maxAttempts)
    ensures Backlog(Drain(db, rounds, cfg).actions) == 0
    ensures forall i :: 0 <= i < |Drain(db, rounds, cfg).actions| ==> !Active(Drain(db, rounds, cfg).actions[i])
    decreases |rounds|
  {
    if rounds == [] || TotalWork(db.actions, cfg.maxAttempts) == 0 {
      NoWorkNothingActive(db.actions, cfg.maxAttempts);
    }
    if rounds != [] {
      var r := rounds[0];
      ExecuteAllCommits(db, r.sel, cfg, r.now, NOTHING);
      PassLeavesDue(db, r, cfg);
      PassProgress(db, r, cfg);
      DrainEnds(RunOnce(db, r.sel, cfg, r.now).0, rounds[1..], cfg, Later(r.now, cfg.retryDelay));
    }
  }

  lemma NoWorkNothingActive(actions: seq<Action>, maxAttempts: int)
    requires TotalWork(actions, maxAttempts) == 0
    ensures Backlog(actions) == 0 && forall i :: 0 <= i < |actions| ==> !Active(actions[i])
  {
    forall i | 0 <= i < |actions| ensures !Active(actions[i]) {
      SumAtLeast(actions, i, WorkWeight(maxAttempts));
    }
    if Backlog(actions) > 0 {
      var i := SumPositive(actions, Indicator(Active));
    }
  }

  /** Draining the queue is the retry loop on each action alone: every action ends, and ends alike. */
  lemma DrainIsRetryLoops(db: Db, rounds: seq<Round>, cfg: Config, start: Time, i: nat, c: nat -> Time)
    requires cfg.maxAttempts >= 1 && NeverRaises(cfg)
    requires LegalRun(db, rounds, cfg) && Advancing(rounds, start, cfg.retryDelay)
    requires AllDue(db.actions, start, cfg.lease) && |rounds| >= TotalWork(db.actions, cfg.maxAttempts)
    requires i < |db.actions| && db.actions[i].state != Skipped
    ensures var end := Drain(db, rounds, cfg);
            && |end.actions| == |db.actions| && Terminal(end.actions[i])
            && var alone := RetryLoop(db.actions[i], Undelayed(cfg), c);
               alone.Ok? && FateOf(end.actions[i]) == FateOf(alone.value)
  {
    EndedAsRetryLoop(db, rounds, cfg, i, c);
    DrainEnds(db, rounds, cfg, start);
    DrainKeepsFate(db, rounds, cfg, i, c);
  }

  // ---------------------------------------------------------------- fairness

  datatype Tick = Arrives(action: Action) | Pass(round: Round)

  ghost function TickEffect(db: Db, k: Tick, cfg: Config): Db
    requires k.Pass? ==> InTable(db.actions, k.round.sel)
  {
    if k.Arrives? then db.(actions := db.actions + [k.action]) else RunOnce(db, k.round.sel, cfg, k.round.now).0
  }

  /** From instant t on: committed passes that put retries off to after t, and any arrivals. */
  ghost predicate ServiceRun(db: Db, ticks: seq<Tick>, t: Time, cfg: Config)
    decreases |ticks|
  {
    ticks != [] ==>
      var k := ticks[0];
      && (k.Pass? ==> k.round.now >= t && k.round.now + cfg.retryDelay > t && Legal(db.actions, k.round, cfg)
                      && RunOnce(db, k.round.sel, cfg, k.round.now).1.Ok?)
      && ServiceRun(TickEffect(db, k, cfg), ticks[1..], t, cfg)
  }

  /** What the passes can take altogether: the sum of their limits. */
  function Capacity(ticks: seq<Tick>): nat {
    if ticks == [] then 0 else (if ticks[0].Pass? then ticks[0].round.limit else 0) + Capacity(ticks[1..])
  }

  /** Arrivals that sort before what falls due after t: sweep follow-ups, which have no due time, and early ones. */
  function Stragglers(ticks: seq<Tick>, t: Time): nat {
    if ticks == [] then 0
    else (if ticks[0].Arrives? && Scheduler.Straggles(AsSlot(ticks[0].action), t) then 1 else 0) + Stragglers(ticks[1..], t)
  }

  ghost function AsMove(db: Db, k: Tick, cfg: Config): Scheduler.Move
    requires k.Pass? ==> InTable(db.actions, k.round.sel)
  {
    if k.Arrives? then Scheduler.Arrive(AsSlot(k.action))
    else Scheduler.Serve(k.round.sel, k.round.limit, DueSet(db.actions, k.round.now, cfg.lease),
                         Slots(TickEffect(db, k, cfg).actions))
  }

  ghost function AsMoves(db: Db, ticks: seq<Tick>, t: Time, cfg: Config): (moves: seq<Scheduler.Move>)
    requires ServiceRun(db, ticks, t, cfg)
    ensures |moves| == |ticks| && Scheduler.Capacity(moves) == Capacity(ticks)
    ensures Scheduler.Stragglers(moves, t) == Stragglers(ticks, t)
    ensures forall j :: 0 <= j < |ticks| ==>
              moves[j].Serve? == ticks[j].Pass? && (ticks[j].Pass? ==> moves[j].sel == ticks[j].round.sel)
    decreases |ticks|
  {
    if ticks == [] then []
    else [AsMove(db, ticks[0], cfg)] + AsMoves(TickEffect(db, ticks[0], cfg), ticks[1..], t, cfg)
  }

  lemma PassIsServe(db: Db, r: Round, t: Time, cfg: Config)
    requires r.now + cfg.retryDelay > t && Legal(db.actions, r, cfg) && RunOnce(db, r.sel, cfg, r.now).1.Ok?
    ensures Scheduler.Follows(Slots(db.actions), AsMove(db, Pass(r), cfg), t)
  {
    PassRows(db, r, cfg);
    SelectionInTable(db.actions, r.sel, r.limit, r.now, cfg.lease);
    var db' := RunOnce(db, r.sel, cfg, r.now).0;
    forall j | 0 <= j < |db.actions| && j in r.sel
      ensures Active(db'.actions[j]) ==> db'.actions[j].nextAttemptAt == Some(r.now + cfg.retryDelay)
    {
      AttemptProgress(db.actions[j], cfg, r.now);
    }
  }

  lemma {:induction false} RunRefinesScheduler(db: Db, ticks: seq<Tick>, i: nat, t: Time, cfg: Config)
    requires ServiceRun(db, ticks, t, cfg)
    requires i < |db.actions| && Due(db.actions[i], t, cfg.lease) && db.actions[i].leaseId.None?
    ensures Scheduler.RunAfter(Slots(db.actions), AsMoves(db, ticks, t, cfg), i, t)
    decreases |ticks|
  {
    if ticks != [] {
      var k, m := ticks[0], AsMove(db, ticks[0], cfg);
      var db' := TickEffect(db, k, cfg);
      if k.Pass? {
        PassIsServe(db, k.round, t, cfg);
        PassRows(db, k.round, cfg);
        if i in k.round.sel { return; }
      } else {
        assert Slots(db'.actions) == Slots(db.actions) + [AsSlot(k.action)];
      }
      RunRefinesScheduler(db', ticks[1..], i, t, cfg);
    }
  }

  /**
   * Worker fairness: an unleased action due at t with r actions before or tied with it in queue order, and s stragglers
   * arriving meanwhile, is executed by the time the limits of the committed passes add up to more than r + s, whatever
   * else is queued or retried.
   */
  lemma ExecutedInTime(db: Db, ticks: seq<Tick>, i: nat, t: Time, cfg: Config)
    requires ServiceRun(db, ticks, t, cfg)
    requires i < |db.actions| && Due(db.actions[i], t, cfg.lease) && db.actions[i].leaseId.None?
    requires Capacity(ticks) > |Scheduler.Ahead(Slots(db.actions), i)| + Stragglers(ticks, t)
    ensures exists k :: 0 <= k < |ticks| && ticks[k].Pass? && i in ticks[k].round.sel
  {
    RunRefinesScheduler(db, ticks, i, t, cfg);
    var moves := AsMoves(db, ticks, t, cfg);
    Scheduler.ServedInTime(Slots(db.actions), moves, i, t);
    var k :| 0 <= k < |moves| && Scheduler.Serves(moves[k], i);
    assert ticks[k].Pass? && i in ticks[k].round.sel;
  }
}
