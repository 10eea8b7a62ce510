/** The audit log accounts for everything the Python service has done, row by row and in total. */
module PyLedger {
  import opened Util
  import opened PyTables
  import opened PyRuns
  import P = PyProcessor
  import A = PyActions
  import Q = PyQueue
  import C = PyChecks
  import J = PyJobs

  /** How often a row occurs in the log. */
  function Times(log: seq<Audit>, a: Audit): nat {
    if log == [] then 0 else Times(log[..|log| - 1], a) + (if log[|log| - 1] == a then 1 else 0)
  }

  lemma TimesOne(log: seq<Audit>, a: Audit, b: Audit)
    ensures Times(log + [a], b) == Times(log, b) + (if a == b then 1 else 0)
  {
    assert (log + [a])[..|log|] == log;
  }

  /** Audit rows are about rows that exist. */
  predicate Known(db: Db, a: Audit) {
    match a
    case EventRecorded(e) => e < |db.events|
    case EventSuppressed(e) => e < |db.events|
    case IncidentCreated(i) => i < |db.incidents|
    case BackpressureApplied(i) => i < |db.incidents|
    case IdempotencyHit(k) => k in db.records
    case ActionExecuted(i) => i < |db.actions|
    case CheckCreated(i) => i < |db.checks|
    case CheckTransitioned(i) => i < |db.checks|
  }

  predicate ActionsBalance(db: Db) {
    forall i :: 0 <= i < |db.actions| ==> Times(db.audits, ActionExecuted(i)) == db.actions[i].attempts
  }

  predicate IncidentsBalance(db: Db) {
    forall i :: 0 <= i < |db.incidents| ==>
      Times(db.audits, IncidentCreated(i)) + Times(db.audits, BackpressureApplied(i)) == 1
  }

  predicate RecordsBalance(db: Db) {
    forall k <- db.records :: Times(db.audits, IdempotencyHit(k)) == db.records[k].hits
  }

  predicate ChecksBalance(db: Db) {
    forall i :: 0 <= i < |db.checks| ==>
      Times(db.audits, CheckCreated(i)) == 1
      && C.MovesFit(db.checks[i].state, Times(db.audits, CheckTransitioned(i)))
  }

  /** Row by row: attempts, the opening of incidents, replays, and the life of checks. */
  predicate Balanced(db: Db) {
    && (forall a <- db.audits :: Known(db, a))
    && ActionsBalance(db) && IncidentsBalance(db) && RecordsBalance(db) && ChecksBalance(db)
  }

  // ---------------------------------------------------------------- totals

  predicate AboutEvent(a: Audit) {
    a.EventRecorded? || a.EventSuppressed? || a.IncidentCreated? || a.BackpressureApplied?
  }
  predicate AboutIncident(a: Audit) { a.IncidentCreated? || a.BackpressureApplied? }
  predicate AboutAttempt(a: Audit) { a.ActionExecuted? }
  predicate AboutReplay(a: Audit) { a.IdempotencyHit? }
  predicate AboutCreation(a: Audit) { a.CheckCreated? }
  predicate AboutMove(a: Audit) { a.CheckTransitioned? }

  function AttemptsOf(a: Action): nat { a.attempts }

  function TotalAttempts(actions: seq<Action>): nat { Sum(actions, AttemptsOf) }

  ghost function TotalHits(records: map<string, Record>): nat {
    if records == map[] then 0
    else
      var k :| k in records;
      records[k].hits + TotalHits(records - {k})
  }

  lemma {:induction false} HitsOf(records: map<string, Record>, k: string)
    requires k in records
    ensures TotalHits(records) == records[k].hits + TotalHits(records - {k})
    decreases |records|
  {
    var j :| j in records && TotalHits(records) == records[j].hits + TotalHits(records - {j});
    if j != k {
      HitsOf(records - {j}, k);
      HitsOf(records - {k}, j);
      assert records - {j} - {k} == records - {k} - {j};
    }
  }

  lemma HitsAfter(records: map<string, Record>, k: string, r: Record)
    ensures TotalHits(records[k := r]) ==
            TotalHits(records) - (if k in records then records[k].hits else 0) + r.hits
  {
    var changed := records[k := r];
    HitsOf(changed, k);
    assert changed - {k} == records - {k};
    if k in records {
      HitsOf(records, k);
    } else {
      assert records - {k} == records;
    }
  }

  ghost predicate Totals(db: Db) {
    && Count(db.audits, AboutEvent) == |db.events|
    && Count(db.audits, AboutIncident) == |db.incidents|
    && Count(db.audits, AboutAttempt) == TotalAttempts(db.actions)
    && Count(db.audits, AboutReplay) == TotalHits(db.records)
    && Count(db.audits, AboutCreation) == |db.checks|
  }

  lemma CountsOne(log: seq<Audit>, a: Audit)
    ensures Count(log + [a], AboutEvent) == Count(log, AboutEvent) + (if AboutEvent(a) then 1 else 0)
    ensures Count(log + [a], AboutIncident) == Count(log, AboutIncident) + (if AboutIncident(a) then 1 else 0)
    ensures Count(log + [a], AboutAttempt) == Count(log, AboutAttempt) + (if AboutAttempt(a) then 1 else 0)
    ensures Count(log + [a], AboutReplay) == Count(log, AboutReplay) + (if AboutReplay(a) then 1 else 0)
    ensures Count(log + [a], AboutCreation) == Count(log, AboutCreation) + (if AboutCreation(a) then 1 else 0)
    ensures Count(log + [a], AboutMove) == Count(log, AboutMove) + (if AboutMove(a) then 1 else 0)
  {
    SumOne(log, a, Indicator(AboutEvent));
    SumOne(log, a, Indicator(AboutIncident));
    SumOne(log, a, Indicator(AboutAttempt));
    SumOne(log, a, Indicator(AboutReplay));
    SumOne(log, a, Indicator(AboutCreation));
    SumOne(log, a, Indicator(AboutMove));
  }

  lemma {:induction false} EveryRowCountsOnce(log: seq<Audit>)
    ensures |log| == Count(log, AboutEvent) + Count(log, AboutAttempt) + Count(log, AboutReplay)
                     + Count(log, AboutCreation) + Count(log, AboutMove)
  {
    if log != [] {
      var n := |log| - 1;
      assert log == log[..n] + [log[n]];
      CountsOne(log[..n], log[n]);
      EveryRowCountsOnce(log[..n]);
    }
  }

  // ---------------------------------------------------------------- one audit row at a time

  ghost predicate Ledger(db: Db) { Balanced(db) && Totals(db) }

  /** Counts of rows other than the one just written are unchanged. */
  lemma Logged(log: seq<Audit>, a: Audit)
    ensures forall b :: Times(log + [a], b) == Times(log, b) + (if a == b then 1 else 0)
  {
    forall b ensures Times(log + [a], b) == Times(log, b) + (if a == b then 1 else 0) { TimesOne(log, a, b); }
  }

  lemma UnknownNeverLogged(db: Db, a: Audit)
    requires (forall b <- db.audits :: Known(db, b)) && !Known(db, a)
    ensures Times(db.audits, a) == 0
  {
    AbsentNeverLogged(db.audits, a);
  }

  lemma {:induction false} AbsentNeverLogged(log: seq<Audit>, a: Audit)
    requires a !in log
    ensures Times(log, a) == 0
  {
    if log != [] { AbsentNeverLogged(log[..|log| - 1], a); }
  }

  /** A row about one kind of thing leaves the balance of the other kinds alone. */
  lemma LogFrames(db: Db, db': Db, a: Audit)
    requires db'.audits == db.audits + [a]
    ensures !a.ActionExecuted? && db'.actions == db.actions && ActionsBalance(db) ==> ActionsBalance(db')
    ensures !AboutIncident(a) && db'.incidents == db.incidents && IncidentsBalance(db) ==> IncidentsBalance(db')
    ensures !a.IdempotencyHit? && db'.records == db.records && RecordsBalance(db) ==> RecordsBalance(db')
    ensures !a.CheckCreated? && !a.CheckTransitioned? && db'.checks == db.checks && ChecksBalance(db) ==>
              ChecksBalance(db')
  {
    Logged(db.audits, a);
  }

  /** What is known stays known when tables only grow. */
  lemma KnownGrows(db: Db, db': Db)
    requires |db.events| <= |db'.events| && |db.incidents| <= |db'.incidents| && |db.actions| <= |db'.actions|
    requires |db.checks| <= |db'.checks| && db.records.Keys <= db'.records.Keys
    requires forall a <- db.audits :: Known(db, a)
    ensures forall a <- db.audits :: Known(db', a)
  {
    forall a | a in db.audits ensures Known(db', a) { assert Known(db, a); }
  }

  /** A row that has made one more attempt, and the audit row about it. */
  lemma OneMoreAttempt(db: Db, db': Db, i: nat, a: Action)
    requires Ledger(db) && i < |db.actions| && a.attempts == db.actions[i].attempts + 1
    requires db' == db.(actions := db.actions[i := a]).Log(ActionExecuted(i))
    ensures Ledger(db')
  {
    CountsOne(db.audits, ActionExecuted(i));
    LogFrames(db, db', ActionExecuted(i));
    KnownGrows(db, db');
    SumUpdate(db.actions, i, a, AttemptsOf);
    assert ActionsBalance(db') by { Logged(db.audits, ActionExecuted(i)); }
  }

  lemma AttemptKeepsLedger(db: Db, i: nat, cfg: A.Config, now: Time)
    requires Ledger(db) && i < |db.actions| && Active(db.actions[i]) && A.ExecuteAt(db, i, cfg, now).Ok?
    ensures Ledger(A.ExecuteAt(db, i, cfg, now).value)
  {
    var a := A.ExecuteOnce(db.actions[i], cfg, now).value;
    A.AttemptProgress(db.actions[i], cfg, now);
    OneMoreAttempt(db, A.ExecuteAt(db, i, cfg, now).value, i, a);
  }

  lemma {:induction false} PassKeepsLedger(db: Db, sel: seq<nat>, cfg: A.Config, now: Time, t: A.Tally)
    requires Ledger(db) && A.InTable(db.actions, sel) && Q.Distinct(sel) && A.ExecuteAll(db, sel, cfg, now, t).Ok?
    requires forall k :: 0 <= k < |sel| ==> Active(db.actions[sel[k]])
    ensures Ledger(A.ExecuteAll(db, sel, cfg, now, t).value.0)
    decreases |sel|
  {
    if sel != [] {
      AttemptKeepsLedger(db, sel[0], cfg, now);
      Q.ExecuteAtRows(db, sel[0], cfg, now);
      var next := A.ExecuteAt(db, sel[0], cfg, now).value;
      PassKeepsLedger(next, sel[1..], cfg, now, A.Count1(t, next.actions[sel[0]].state));
    }
  }

  /** A check that has made one more move, and the audit row about it. */
  lemma OneMoreMove(db: Db, db': Db, i: nat, c: Check)
    requires Ledger(db) && i < |db.checks| && c.state in C.AllowedTargets(db.checks[i].state)
    requires db' == db.(checks := db.checks[i := c]).Log(CheckTransitioned(i))
    ensures Ledger(db')
  {
    CountsOne(db.audits, CheckTransitioned(i));
    LogFrames(db, db', CheckTransitioned(i));
    KnownGrows(db, db');
    assert ChecksBalance(db') by { Logged(db.audits, CheckTransitioned(i)); }
  }

  lemma MoveKeepsLedger(db: Db, i: nat, target: Option<CheckState>, detail: string, timeout: Option<int>, now: Time)
    requires Ledger(db) && i < |db.checks| && C.TransitionAt(db, i, target, detail, timeout, now).Ok?
    ensures Ledger(C.TransitionAt(db, i, target, detail, timeout, now).value)
  {
    var c := C.Transition(db.checks[i], target, detail, timeout, now).value;
    OneMoreMove(db, C.TransitionAt(db, i, target, detail, timeout, now).value, i, c);
  }

  lemma {:induction false} ExpiryKeepsLedger(db: Db, rows: seq<nat>, now: Time)
    requires Ledger(db) && (forall k :: 0 <= k < |rows| ==> rows[k] < |db.checks|) && C.ExpireRows(db, rows, now).Ok?
    ensures Ledger(C.ExpireRows(db, rows, now).value)
    decreases |rows|
  {
    if rows != [] {
      MoveKeepsLedger(db, rows[0], Some(TimedOut), C.TIMEOUT_DETAIL, None, now);
      ExpiryKeepsLedger(C.TransitionAt(db, rows[0], Some(TimedOut), C.TIMEOUT_DETAIL, None, now).value, rows[1..], now);
    }
  }

  lemma CreationKeepsLedger(db: Db, detail: string, now: Time)
    requires Ledger(db)
    ensures Ledger(C.Create(db, detail, now))
  {
    var n, db' := |db.checks|, C.Create(db, detail, now);
    CountsOne(db.audits, CheckCreated(n));
    LogFrames(db, db', CheckCreated(n));
    KnownGrows(db, db');
    UnknownNeverLogged(db, CheckCreated(n));
    UnknownNeverLogged(db, CheckTransitioned(n));
    assert ChecksBalance(db') by { Logged(db.audits, CheckCreated(n)); }
  }

  lemma ReplayKeepsLedger(db: Db, db': Db, k: string, at: Time)
    requires Ledger(db) && k in db.records
    requires db' == db.(records := db.records[k := db.records[k].(hits := db.records[k].hits + 1, updatedAt := at)])
                      .Log(IdempotencyHit(k))
    ensures Ledger(db')
  {
    CountsOne(db.audits, IdempotencyHit(k));
    LogFrames(db, db', IdempotencyHit(k));
    KnownGrows(db, db');
    HitsAfter(db.records, k, db.records[k].(hits := db.records[k].hits + 1, updatedAt := at));
    assert RecordsBalance(db') by { Logged(db.audits, IdempotencyHit(k)); }
  }

  /** Adding an event with its effect, before any record is stored. */
  lemma EffectKeepsBalance(db: Db, db': Db, event: Event, p: P.Payload, asset: nat, c: P.Readings, maxBacklog: int)
    requires Balanced(db) && Applied(db, db', event, EffectOf(db, p, asset, c, maxBacklog)) && db'.records == db.records
    ensures Balanced(db')
  {
    var a := EffectOf(db, p, asset, c, maxBacklog).audit;
    LogFrames(db, db', a);
    KnownGrows(db, db');
    NewIncidentBalances(db, db', event, p, asset, c, maxBacklog);
    NewActionBalances(db, db', event, p, asset, c, maxBacklog);
  }

  lemma NewIncidentBalances(db: Db, db': Db, event: Event, p: P.Payload, asset: nat, c: P.Readings, maxBacklog: int)
    requires Balanced(db) && Applied(db, db', event, EffectOf(db, p, asset, c, maxBacklog))
    ensures IncidentsBalance(db')
  {
    Logged(db.audits, EffectOf(db, p, asset, c, maxBacklog).audit);
    UnknownNeverLogged(db, IncidentCreated(|db.incidents|));
    UnknownNeverLogged(db, BackpressureApplied(|db.incidents|));
  }

  lemma NewActionBalances(db: Db, db': Db, event: Event, p: P.Payload, asset: nat, c: P.Readings, maxBacklog: int)
    requires Balanced(db) && Applied(db, db', event, EffectOf(db, p, asset, c, maxBacklog))
    ensures ActionsBalance(db')
  {
    Logged(db.audits, EffectOf(db, p, asset, c, maxBacklog).audit);
    UnknownNeverLogged(db, ActionExecuted(|db.actions|));
  }

  /** One more event, with an incident and an unattempted action or without, and one audit row about it. */
  lemma OneEventKeepsTotals(db: Db, db': Db, more: seq<Action>, a: Audit)
    requires Totals(db) && AboutEvent(a)
    requires |db'.events| == |db.events| + 1 && db'.audits == db.audits + [a]
    requires |db'.incidents| == |db.incidents| + (if AboutIncident(a) then 1 else 0)
    requires db'.actions == db.actions + more && forall i :: 0 <= i < |more| ==> more[i].attempts == 0
    requires db'.records == db.records && db'.checks == db.checks
    ensures Totals(db')
  {
    CountsOne(db.audits, a);
    SumAppend(db.actions, more, AttemptsOf);
    NoAttempts(more);
  }

  lemma EffectKeepsTotals(db: Db, db': Db, event: Event, p: P.Payload, asset: nat, c: P.Readings, maxBacklog: int)
    requires Totals(db) && Applied(db, db', event, EffectOf(db, p, asset, c, maxBacklog)) && db'.records == db.records
    ensures Totals(db')
  {
    var e := EffectOf(db, p, asset, c, maxBacklog);
    EffectIsPlain(db, p, asset, c, maxBacklog);
    OneEventKeepsTotals(db, db', if e.Opened? then Listed(e.action) else [], e.audit);
  }

  lemma EffectIsPlain(db: Db, p: P.Payload, asset: nat, c: P.Readings, maxBacklog: int)
    ensures var e := EffectOf(db, p, asset, c, maxBacklog);
            && AboutEvent(e.audit) && (AboutIncident(e.audit) <==> e.Opened?)
            && (e.Opened? && e.action.Some? ==> e.action.value.attempts == 0)
  {
  }

  lemma RecordKeepsLedger(db: Db, k: string, r: Record)
    requires Ledger(db) && k !in db.records && r.hits == 0
    ensures Ledger(db.(records := db.records[k := r]))
  {
    UnknownNeverLogged(db, IdempotencyHit(k));
    HitsAfter(db.records, k, r);
    var db' := db.(records := db.records[k := r]);
    assert forall a <- db.audits :: Known(db, a) ==> Known(db', a);
  }

  lemma EffectKeepsLedger(db: Db, db': Db, event: Event, p: P.Payload, asset: nat, c: P.Readings, maxBacklog: int)
    requires Ledger(db) && Applied(db, db', event, EffectOf(db, p, asset, c, maxBacklog)) && db'.records == db.records
    ensures Ledger(db')
  {
    EffectKeepsBalance(db, db', event, p, asset, c, maxBacklog);
    EffectKeepsTotals(db, db', event, p, asset, c, maxBacklog);
  }

  lemma IngestKeepsLedger(db: Db, db': Db, p: P.Payload, c: P.Readings, maxBacklog: int)
    requires Ledger(db) && Ingested(db, db', p, c, maxBacklog)
    ensures Ledger(db')
  {
    var asset := P.FindAsset(db.assets, p.asset);
    if P.Keyed(p) && p.idempotencyKey.value in db.records {
      ReplayKeepsLedger(db, db', p.idempotencyKey.value, c.done);
    } else if asset.Some? {
      var event := P.NewEvent(p, asset.value, c.event);
      var bare := db'.(records := db.records);
      EffectKeepsLedger(db, bare, event, p, asset.value, c, maxBacklog);
      if P.Keyed(p) {
        RecordKeepsLedger(bare, p.idempotencyKey.value, db'.records[p.idempotencyKey.value]);
        assert bare.(records := db'.records) == db';
      } else {
        assert bare == db';
      }
    }
  }

  /** Actions that nobody has attempted come without audit rows. */
  lemma MoreActionsKeepLedger(db: Db, more: seq<Action>)
    requires Ledger(db) && forall i :: 0 <= i < |more| ==> more[i].attempts == 0
    ensures Ledger(db.(actions := db.actions + more))
  {
    SumAppend(db.actions, more, AttemptsOf);
    NoAttempts(more);
    KnownGrows(db, db.(actions := db.actions + more));
    forall i | |db.actions| <= i < |db.actions + more| ensures Times(db.audits, ActionExecuted(i)) == 0 {
      AbsentNeverLogged(db.audits, ActionExecuted(i)) by { assert !Known(db, ActionExecuted(i)); }
    }
  }

  lemma SweepKeepsLedger(db: Db, m: int, now: Time, at: Time)
    requires Ledger(db)
    ensures Ledger(J.Sweep(db, m, now, at))
  {
    var more := J.FollowUps(db.incidents, now - m * MINUTE, m, at);
    MoreActionsKeepLedger(db, more) by {
      assert forall i :: 0 <= i < |more| ==> more[i].attempts == 0;
    }
  }

  lemma {:induction false} NoAttempts(s: seq<Action>)
    requires forall i :: 0 <= i < |s| ==> s[i].attempts == 0
    ensures TotalAttempts(s) == 0
  {
    if s != [] { NoAttempts(s[..|s| - 1]); }
  }

  lemma WorkKeepsLedger(db: Db, r: Q.Round, cfg: A.Config)
    requires Ledger(db) && Q.Legal(db.actions, r, cfg)
    ensures Ledger(A.RunOnce(db, r.sel, cfg, r.now).0)
  {
    if A.RunOnce(db, r.sel, cfg, r.now).1.Ok? {
      A.SelectionInTable(db.actions, r.sel, r.limit, r.now, cfg.lease);
      PassKeepsLedger(db, r.sel, cfg, r.now, A.NOTHING);
    }
  }

  lemma {:induction false} RetryKeepsLedger(db: Db, i: nat, cfg: A.Config, clock: nat -> Time)
    requires Ledger(db) && i < |db.actions| && db.actions[i].state != Skipped
    ensures A.RetryAt(db, i, cfg, clock).Ok? ==> Ledger(A.RetryAt(db, i, cfg, clock).value)
    decreases A.Work(db.actions[i], cfg.maxAttempts)
  {
    if cfg.maxAttempts >= 1 && Active(db.actions[i]) {
      var now := clock(db.actions[i].attempts + 1);
      A.RetryAtStep(db, i, cfg, clock);
      if A.ExecuteAt(db, i, cfg, now).Ok? {
        AttemptKeepsLedger(db, i, cfg, now);
        RetryKeepsLedger(A.ExecuteAt(db, i, cfg, now).value, i, cfg, clock);
      }
    }
  }

  lemma AdminKeepsLedger(db: Db, db': Db)
    requires Ledger(db) && db' == db.(assets := db'.assets, rules := db'.rules)
    ensures Ledger(db')
  {
    KnownGrows(db, db');
  }

  lemma ServingKeepsLedger(db: Db, p: P.Payload, c: P.Readings, maxBacklog: int)
    requires Refs(db) && Ledger(db)
    ensures Ledger(P.Served(db, p, c, maxBacklog))
  {
    IngestEffect(db, p, c, maxBacklog);
    IngestKeepsLedger(db, P.Served(db, p, c, maxBacklog), p, c, maxBacklog);
  }

  lemma RequestKeepsLedger(db: Db, i: nat, q: C.Request)
    requires Ledger(db) && i < |db.checks|
    ensures var r := C.TransitionAt(db, i, q.target, q.detail, q.timeout, q.now); r.Ok? ==> Ledger(r.value)
  {
    if C.TransitionAt(db, i, q.target, q.detail, q.timeout, q.now).Ok? {
      MoveKeepsLedger(db, i, q.target, q.detail, q.timeout, q.now);
    }
  }

  lemma ExpireKeepsLedger(db: Db, now: Time)
    requires Ledger(db)
    ensures C.Expire(db, now).Ok? && Ledger(C.Expire(db, now).value)
  {
    C.NeverRefused(db, now);
    ExpiryKeepsLedger(db, C.OverdueRows(db.checks, now), now);
  }

  lemma QueueStepKeepsLedger(db: Db, s: Step, svc: Service)
    requires Ledger(db) && (s.Work? || s.RetryNow? || s.Sweep?)
    ensures Ledger(Apply(db, s, svc))
  {
    match s
    case Work(r) => if Q.Legal(db.actions, r, svc.cfg) { WorkKeepsLedger(db, r, svc.cfg); }
    case RetryNow(i, clock) =>
      if i < |db.actions| && db.actions[i].state != Skipped { RetryKeepsLedger(db, i, Q.Undelayed(svc.cfg), clock); }
    case Sweep(m, now, at) => SweepKeepsLedger(db, m, now, at);
  }

  lemma CheckStepKeepsLedger(db: Db, s: Step, svc: Service)
    requires Ledger(db) && (s.CreateCheck? || s.MoveCheck? || s.ExpireChecks?)
    ensures Ledger(Apply(db, s, svc))
  {
    match s
    case CreateCheck(d, now) => CreationKeepsLedger(db, d, now);
    case MoveCheck(i, q) => if i < |db.checks| { RequestKeepsLedger(db, i, q); }
    case ExpireChecks(now) => ExpireKeepsLedger(db, now);
  }

  lemma StepKeepsLedger(db: Db, s: Step, svc: Service)
    requires Refs(db) && Ledger(db)
    ensures Ledger(Apply(db, s, svc))
  {
    if s.Ingest? {
      ServingKeepsLedger(db, s.payload, s.readings, svc.maxBacklog);
    } else if s.Work? || s.RetryNow? || s.Sweep? {
      QueueStepKeepsLedger(db, s, svc);
    } else if s.CreateCheck? || s.MoveCheck? || s.ExpireChecks? {
      CheckStepKeepsLedger(db, s, svc);
    } else if !s.Reset? {
      AdminKeepsLedger(db, Apply(db, s, svc));
    }
  }

  lemma {:induction false} RunKeepsLedger(db: Db, steps: seq<Step>, svc: Service)
    ensures Ledger(Run(Cleared(db), steps, svc))
    decreases |steps|
  {
    if steps != [] {
      var init := steps[..|steps| - 1];
      RunKeepsLedger(db, init, svc);
      RunKeepsRefs(db, init, svc);
      StepKeepsLedger(Run(Cleared(db), init, svc), steps[|steps| - 1], svc);
    }
  }

  // ---------------------------------------------------------------- transitions made

  /** The check transitions a step makes: one for a request that is accepted, one for each check that expires. */
  ghost function Moves(db: Db, s: Step): nat {
    match s
    case MoveCheck(i, q) =>
      if i < |db.checks| && C.Transition(db.checks[i], q.target, q.detail, q.timeout, q.now).Ok? then 1 else 0
    case ExpireChecks(now) => |C.OverdueRows(db.checks, now)|
    case _ => 0
  }

  /** The check transitions made since the tables were last reset. */
  ghost function TransitionsMade(db: Db, steps: seq<Step>, svc: Service): nat
    decreases |steps|
  {
    if steps == [] then 0
    else
      var init, s := steps[..|steps| - 1], steps[|steps| - 1];
      if s.Reset? then 0 else TransitionsMade(db, init, svc) + Moves(Run(db, init, svc), s)
  }

  lemma {:induction false} NoMoves(log: seq<Audit>, more: seq<Audit>)
    requires forall k :: 0 <= k < |more| ==> !AboutMove(more[k])
    ensures Count(log + more, AboutMove) == Count(log, AboutMove)
    decreases |more|
  {
    if more == [] {
      assert log + more == log;
    } else {
      var n := |more| - 1;
      assert log + more == log + more[..n] + [more[n]];
      NoMoves(log, more[..n]);
      CountsOne(log + more[..n], more[n]);
    }
  }

  lemma {:induction false} AllMoves(log: seq<Audit>, more: seq<Audit>)
    requires forall k :: 0 <= k < |more| ==> AboutMove(more[k])
    ensures Count(log + more, AboutMove) == Count(log, AboutMove) + |more|
    decreases |more|
  {
    if more == [] {
      assert log + more == log;
    } else {
      var n := |more| - 1;
      assert log + more == log + more[..n] + [more[n]];
      AllMoves(log, more[..n]);
      CountsOne(log + more[..n], more[n]);
    }
  }

  lemma IngestMovesNothing(db: Db, db': Db, p: P.Payload, c: P.Readings, maxBacklog: int)
    requires Ingested(db, db', p, c, maxBacklog)
    ensures Count(db'.audits, AboutMove) == Count(db.audits, AboutMove)
  {
    if P.Keyed(p) && p.idempotencyKey.value in db.records {
      NoMoves(db.audits, [IdempotencyHit(p.idempotencyKey.value)]);
    } else if P.FindAsset(db.assets, p.asset).Some? {
      var asset := P.FindAsset(db.assets, p.asset).value;
      EffectIsPlain(db, p, asset, c, maxBacklog);
      NoMoves(db.audits, [EffectOf(db, p, asset, c, maxBacklog).audit]);
    }
  }

  lemma WorkMovesNothing(db: Db, r: Q.Round, cfg: A.Config)
    requires Q.Legal(db.actions, r, cfg)
    ensures Count(A.RunOnce(db, r.sel, cfg, r.now).0.audits, AboutMove) == Count(db.audits, AboutMove)
  {
    if A.RunOnce(db, r.sel, cfg, r.now).1.Ok? {
      Q.PassRows(db, r, cfg);
      NoMoves(db.audits, Q.Executed(r.sel));
    }
  }

  lemma RetryMovesNothing(db: Db, i: nat, cfg: A.Config, clock: nat -> Time)
    requires i < |db.actions| && db.actions[i].state != Skipped
    ensures Count(Retried(db, i, cfg, clock).audits, AboutMove) == Count(db.audits, AboutMove)
  {
    RetriedRow(db, i, cfg, clock);
    var n :| Retried(db, i, cfg, clock).audits == db.audits + A.Repeat(ActionExecuted(i), n);
    var more := A.Repeat(ActionExecuted(i), n);
    forall k | 0 <= k < |more| ensures !AboutMove(more[k]) { RepeatsAre(ActionExecuted(i), n, more[k]); }
    NoMoves(db.audits, more);
  }

  /** The audit rows about transitions grow by the transitions made. */
  lemma StepLogsMoves(db: Db, s: Step, svc: Service)
    requires Refs(db) && !s.Reset?
    ensures Count(Apply(db, s, svc).audits, AboutMove) == Count(db.audits, AboutMove) + Moves(db, s)
  {
    match s
    case Ingest(p, c) =>
      IngestEffect(db, p, c, svc.maxBacklog);
      IngestMovesNothing(db, Apply(db, s, svc), p, c, svc.maxBacklog);
    case Work(r) => if Q.Legal(db.actions, r, svc.cfg) { WorkMovesNothing(db, r, svc.cfg); }
    case RetryNow(i, clock) =>
      if i < |db.actions| && db.actions[i].state != Skipped { RetryMovesNothing(db, i, svc.cfg, clock); }
    case CreateCheck(_, _) => NoMoves(db.audits, [CheckCreated(|db.checks|)]);
    case MoveCheck(i, _) => AllMoves(db.audits, [CheckTransitioned(i)]);
    case ExpireChecks(now) =>
      var rows := C.OverdueRows(db.checks, now);
      C.ExpireIsPointwise(db, rows, now);
      AllMoves(db.audits, C.Transitioned(rows));
    case _ =>
  }

  lemma {:induction false} RunLogsMoves(db: Db, steps: seq<Step>, svc: Service)
    ensures Count(Run(Cleared(db), steps, svc).audits, AboutMove) == TransitionsMade(Cleared(db), steps, svc)
    decreases |steps|
  {
    if steps != [] {
      var init, s := steps[..|steps| - 1], steps[|steps| - 1];
      RunLogsMoves(db, init, svc);
      RunKeepsRefs(db, init, svc);
      if !s.Reset? { StepLogsMoves(Run(Cleared(db), init, svc), s, svc); }
    }
  }

  /**
   * Conservation, in every reachable state, resets included: audit rows = events + attempts + hits + checks created
   * + check transitions made, and one opening row per incident; row by row, each action has its attempts, each record
   * its hits and each check the transitions its state allows.
   */
  lemma AuditConservation(db: Db, steps: seq<Step>, svc: Service)
    ensures var now := Run(Cleared(db), steps, svc);
            && |now.audits| == |now.events| + TotalAttempts(now.actions) + TotalHits(now.records)
                               + |now.checks| + TransitionsMade(Cleared(db), steps, svc)
            && |now.incidents| == Count(now.audits, AboutIncident)
            && ActionsBalance(now) && IncidentsBalance(now) && RecordsBalance(now) && ChecksBalance(now)
  {
    RunKeepsLedger(db, steps, svc);
    RunLogsMoves(db, steps, svc);
    EveryRowCountsOnce(Run(Cleared(db), steps, svc).audits);
  }
}
