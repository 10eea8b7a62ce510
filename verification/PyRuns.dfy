/**
 * Every serial run of the Python service: ingestion, workers, the direct retry loop, sweeps, checks, administration and
 * reset.
 */
module PyRuns {
  import opened Util
  import opened PyTables
  import PyRules
  import opened P = PyProcessor
  import A = PyActions
  import Q = PyQueue
  import C = PyChecks
  import J = PyJobs
  import Scheduler

  datatype Service = Service(cfg: A.Config, maxBacklog: int)

  datatype Step =
    | Ingest(payload: Payload, readings: Readings)
    | Work(round: Q.Round)
    | RetryNow(action: nat, clock: nat -> Time)
    | Sweep(staleMinutes: int, now: Time, createdAt: Time)
    | CreateCheck(detail: string, now: Time)
    | MoveCheck(check: nat, request: C.Request)
    | ExpireChecks(now: Time)
    | AddAsset(externalId: string)
    | AddRule(rule: Rule)
    | Reset

  /** One request against the service, committed, or rolled back when it fails. */
  ghost function Apply(db: Db, s: Step, svc: Service): Db {
    match s
    case Ingest(p, c) => P.Served(db, p, c, svc.maxBacklog)
    case Work(r) =>
      if Q.Legal(db.actions, r, svc.cfg) then A.RunOnce(db, r.sel, svc.cfg, r.now).0 else db
    case RetryNow(i, clock) =>
      if i < |db.actions| && db.actions[i].state != Skipped then Retried(db, i, svc.cfg, clock) else db
    case Sweep(m, now, at) => J.Sweep(db, m, now, at)
    case CreateCheck(d, now) => C.Create(db, d, now)
    case MoveCheck(i, q) =>
      if i >= |db.checks| then db
      else
        var r := C.TransitionAt(db, i, q.target, q.detail, q.timeout, q.now);
        if r.Ok? then r.value else db
    case ExpireChecks(now) =>
      var r := C.Expire(db, now);
      if r.Ok? then r.value else db
    case AddAsset(id) =>
      if P.FindAsset(db.assets, id).Some? then db else db.(assets := db.assets + [Asset(id, "registered")])
    case AddRule(rule) => db.(rules := db.rules + [rule])
    case Reset => Cleared(db)
  }

  /** One call of execute_action_with_retry, committed, or rolled back when the transport raises. */
  function Retried(db: Db, i: nat, cfg: A.Config, clock: nat -> Time): Db
    requires i < |db.actions| && db.actions[i].state != Skipped
  {
    var r := A.RetryAt(db, i, Q.Undelayed(cfg), clock);
    if r.Ok? then r.value else db
  }

  /** DELETE /admin/reset keeps assets and rules. */
  function Cleared(db: Db): Db {
    Db(db.assets, db.rules, [], [], [], [], map[], [])
  }

  /** The clock does not run backwards within one event; between requests any readings will do. */
  predicate WellTimed(s: Step) { s.Ingest? ==> s.readings.Ordered() }

  ghost function Run(db: Db, steps: seq<Step>, svc: Service): Db
    decreases |steps|
  {
    if steps == [] then db
    else Apply(Run(db, steps[..|steps| - 1], svc), steps[|steps| - 1], svc)
  }

  // ---------------------------------------------------------------- how ingestion changes the tables

  /** What an event adds to the tables besides its own row, and the one audit row it leaves. */
  datatype Effect =
    | Recorded(audit: Audit)
    | Opened(incident: Incident, audit: Audit, action: Option<Action>)

  function EffectOf(db: Db, p: Payload, asset: nat, c: Readings, maxBacklog: int): Effect {
    var n, i := |db.events|, |db.incidents|;
    var rule := PyRules.Match(db.rules, p.category, p.severity);
    if rule.None? then Recorded(EventRecorded(n))
    else if InCooldown(db.incidents, asset, db.rules[rule.value].cooldownMinutes, c.check) then
      Recorded(EventSuppressed(n))
    else
      var incident := Incident(asset, rule.value, n, Open, c.incident);
      if db.rules[rule.value].actionType == "none" then Opened(incident, IncidentCreated(i), None)
      else if Backlog(db.actions) >= maxBacklog then Opened(incident, BackpressureApplied(i), None)
      else Opened(incident, IncidentCreated(i), Some(NewAction(i, db.rules[rule.value].actionType, p, c)))
  }

  function OutcomeOf(db: Db, e: Effect): Outcome {
    match e
    case Recorded(a) =>
      Outcome(|db.events|, None, None, Some(if a == EventRecorded(|db.events|) then NoMatchingRule else Cooldown))
    case Opened(_, a, act) =>
      Outcome(|db.events|, Some(|db.incidents|), if act.Some? then Some(|db.actions|) else None,
              if a == BackpressureApplied(|db.incidents|) then Some(QueueBackpressure) else None)
  }

  function Listed<T>(o: Option<T>): seq<T> { if o.Some? then [o.value] else [] }

  /** The tables after a new event with effect `e`. */
  predicate Applied(db: Db, db': Db, event: Event, e: Effect) {
    && event.asset < |db.assets|
    && db'.assets == db.assets[event.asset := db.assets[event.asset].(status := event.category)]
    && db'.rules == db.rules && db'.checks == db.checks
    && db'.events == db.events + [event]
    && db'.incidents == db.incidents + (if e.Opened? then [e.incident] else [])
    && db'.actions == db.actions + (if e.Opened? then Listed(e.action) else [])
    && db'.audits == db.audits + [e.audit]
  }

  lemma DecideEffect(db: Db, rec: Db, p: Payload, asset: nat, c: Readings, maxBacklog: int)
    requires |rec.events| == |db.events| + 1 && rec.rules == db.rules && rec.incidents == db.incidents
    requires rec.actions == db.actions && rec.audits == db.audits
    ensures var (db', o) := P.Decide(rec, p, asset, c, maxBacklog);
            var e := EffectOf(db, p, asset, c, maxBacklog);
            && o == OutcomeOf(db, e)
            && db' == rec.(incidents := db'.incidents, actions := db'.actions, audits := db.audits + [e.audit])
            && db'.incidents == db.incidents + (if e.Opened? then [e.incident] else [])
            && db'.actions == db.actions + (if e.Opened? then Listed(e.action) else [])
  {
  }

  lemma NewEffect(db: Db, p: Payload, asset: nat, c: Readings, maxBacklog: int)
    requires P.FindAsset(db.assets, p.asset) == Some(asset)
    ensures var r := P.ProcessNew(db, p, c, maxBacklog);
            var e := EffectOf(db, p, asset, c, maxBacklog);
            && r.Ok? && r.value.1 == OutcomeOf(db, e) && r.value.0.records == db.records
            && Applied(db, r.value.0, NewEvent(p, asset, c.event), e)
  {
    DecideEffect(db, P.RecordEvent(db, p, asset, c), p, asset, c, maxBacklog);
  }

  predicate RecordsComplete(db: Db) {
    forall k <- db.records :: HasResult(db, k) && Stored(db.records[k]).event < |db.events|
  }

  /** A committed request replays a record, or adds a new event with its effect and, under a key, a new record. */
  predicate Ingested(db: Db, db': Db, p: Payload, c: Readings, maxBacklog: int) {
    var asset := P.FindAsset(db.assets, p.asset);
    if Keyed(p) && p.idempotencyKey.value in db.records then
      var (k, r) := (p.idempotencyKey.value, db.records[p.idempotencyKey.value]);
      db' == db.(records := db.records[k := r.(hits := r.hits + 1, updatedAt := c.done)]).Log(IdempotencyHit(k))
    else if asset.None? then db' == db
    else
      var e := EffectOf(db, p, asset.value, c, maxBacklog);
      && Applied(db, db', NewEvent(p, asset.value, c.event), e)
      && db'.records == (if Keyed(p) then
                           db.records[p.idempotencyKey.value := Completed(OutcomeOf(db, e), c.done)]
                         else db.records)
  }

  lemma IngestEffect(db: Db, p: Payload, c: Readings, maxBacklog: int)
    requires RecordsComplete(db)
    ensures Ingested(db, P.Served(db, p, c, maxBacklog), p, c, maxBacklog)
  {
    if P.FindAsset(db.assets, p.asset).Some? {
      NewEffect(db, p, P.FindAsset(db.assets, p.asset).value, c, maxBacklog);
    }
  }

  // ---------------------------------------------------------------- referential closure

  predicate RecordRefs(db: Db, r: Record) {
    && r.eventId.Some? && r.eventId.value < |db.events|
    && (r.incidentId.Some? ==> r.incidentId.value < |db.incidents|
                               && db.incidents[r.incidentId.value].event == r.eventId.value)
    && (r.actionId.Some? ==> r.actionId.value < |db.actions|
                             && r.incidentId == Some(db.actions[r.actionId.value].incident))
  }

  /** Events name assets, incidents name events of the same asset, actions name incidents, records name all of these. */
  predicate RowRefs(db: Db) {
    && (forall i :: 0 <= i < |db.events| ==> db.events[i].asset < |db.assets|)
    && (forall i :: 0 <= i < |db.incidents| ==>
          db.incidents[i].rule < |db.rules| && db.incidents[i].event < |db.events|
          && db.events[db.incidents[i].event].asset == db.incidents[i].asset)
    && (forall i :: 0 <= i < |db.actions| ==> db.actions[i].incident < |db.incidents|)
  }

  predicate Refs(db: Db) {
    RowRefs(db) && forall k <- db.records :: RecordRefs(db, db.records[k])
  }

  lemma PassKeepsIncidents(db: Db, r: Q.Round, cfg: A.Config)
    requires Q.Legal(db.actions, r, cfg)
    ensures var db' := A.RunOnce(db, r.sel, cfg, r.now).0;
            && |db'.actions| == |db.actions| && db' == db.(actions := db'.actions, audits := db'.audits)
            && forall i :: 0 <= i < |db.actions| ==> db'.actions[i].incident == db.actions[i].incident
  {
    if A.RunOnce(db, r.sel, cfg, r.now).1.Ok? {
      Q.PassRows(db, r, cfg);
      forall i | 0 <= i < |db.actions| && i in r.sel
        ensures A.RunOnce(db, r.sel, cfg, r.now).0.actions[i].incident == db.actions[i].incident
      {
        A.AttemptProgress(db.actions[i], cfg, r.now);
      }
    }
  }

  /** A retry loop touches one row of the action table and writes audit rows about it. */
  lemma RetriedRow(db: Db, i: nat, cfg: A.Config, clock: nat -> Time)
    requires i < |db.actions| && db.actions[i].state != Skipped
    ensures var db' := Retried(db, i, cfg, clock);
            && |db'.actions| == |db.actions| && db' == db.(actions := db'.actions, audits := db'.audits)
            && (forall j :: 0 <= j < |db.actions| && j != i ==> db'.actions[j] == db.actions[j])
            && (exists n: int :: db'.audits == db.audits + A.Repeat(ActionExecuted(i), n))
            && (db'.actions[i] == db.actions[i]
                || A.RetryLoop(db.actions[i], Q.Undelayed(cfg), clock) == Ok(db'.actions[i]))
  {
    A.RetryAtIsLoop(db, i, Q.Undelayed(cfg), clock);
    if A.RetryLoop(db.actions[i], Q.Undelayed(cfg), clock).Err? {
      assert db.audits == db.audits + A.Repeat(ActionExecuted(i), 0);
    }
  }

  /** The loop keeps what an action is about, and leads from one point of its life to a later one. */
  lemma {:induction false} RetryLoopEvolves(a: Action, cfg: A.Config, clock: nat -> Time)
    requires a.state != Skipped && A.RetryLoop(a, cfg, clock).Ok?
    ensures var b := A.RetryLoop(a, cfg, clock).value;
            Evolves(a, b) && (Lived(a, cfg.maxAttempts) ==> Lived(b, cfg.maxAttempts))
    decreases A.Work(a, cfg.maxAttempts)
  {
    if cfg.maxAttempts >= 1 && Active(a) {
      A.RetryStep(a, cfg, clock);
      A.AttemptProgress(a, cfg, clock(a.attempts + 1));
      RetryLoopEvolves(A.ExecuteOnce(a, cfg, clock(a.attempts + 1)).value, cfg, clock);
    }
  }

  lemma RetriedEvolves(db: Db, i: nat, cfg: A.Config, clock: nat -> Time)
    requires i < |db.actions| && db.actions[i].state != Skipped
    ensures Evolved(db.actions, Retried(db, i, cfg, clock).actions)
    ensures Lives(db, cfg.maxAttempts) ==> Lives(Retried(db, i, cfg, clock), cfg.maxAttempts)
  {
    RetriedRow(db, i, cfg, clock);
    if A.RetryLoop(db.actions[i], Q.Undelayed(cfg), clock).Ok? {
      RetryLoopEvolves(db.actions[i], Q.Undelayed(cfg), clock);
    }
  }

  lemma ChecksApart(db: Db, s: Step, svc: Service)
    requires s.CreateCheck? || s.MoveCheck? || s.ExpireChecks?
    ensures var db' := Apply(db, s, svc); db' == db.(checks := db'.checks, audits := db'.audits)
  {
    if s.ExpireChecks? {
      C.ExpireIsPointwise(db, C.OverdueRows(db.checks, s.now), s.now);
    }
  }

  lemma IngestKeepsRowRefs(db: Db, db': Db, p: Payload, c: Readings, maxBacklog: int)
    requires RowRefs(db) && Ingested(db, db', p, c, maxBacklog)
    ensures RowRefs(db')
  {
  }

  lemma IngestKeepsRefs(db: Db, db': Db, p: Payload, c: Readings, maxBacklog: int)
    requires Refs(db) && Ingested(db, db', p, c, maxBacklog)
    ensures Refs(db')
  {
    IngestKeepsRowRefs(db, db', p, c, maxBacklog);
    forall k | k in db'.records ensures RecordRefs(db', db'.records[k]) {
      assert k in db.records ==> RecordRefs(db, db.records[k]);
    }
  }

  /** Other steps leave the rows that are referred to where they were. */
  lemma RefsFramed(db: Db, db': Db)
    requires Refs(db) && db'.events == db.events && db'.incidents == db.incidents && db'.records == db.records
    requires db.assets <= db'.assets && db.rules <= db'.rules && |db.actions| <= |db'.actions|
    requires forall i :: 0 <= i < |db.actions| ==> db'.actions[i].incident == db.actions[i].incident
    requires forall i :: |db.actions| <= i < |db'.actions| ==> db'.actions[i].incident < |db'.incidents|
    ensures Refs(db')
  {
    forall k | k in db'.records ensures RecordRefs(db', db'.records[k]) {
      assert RecordRefs(db, db.records[k]);
    }
  }

  lemma StepKeepsRefs(db: Db, s: Step, svc: Service)
    requires Refs(db)
    ensures Refs(Apply(db, s, svc))
  {
    if s.CreateCheck? || s.MoveCheck? || s.ExpireChecks? {
      ChecksApart(db, s, svc);
    } else if s.Work? && Q.Legal(db.actions, s.round, svc.cfg) {
      PassKeepsIncidents(db, s.round, svc.cfg);
    } else if s.RetryNow? && s.action < |db.actions| && db.actions[s.action].state != Skipped {
      RetriedRow(db, s.action, svc.cfg, s.clock);
      RetriedEvolves(db, s.action, svc.cfg, s.clock);
    }
    if s.Ingest? {
      IngestEffect(db, s.payload, s.readings, svc.maxBacklog);
      IngestKeepsRefs(db, Apply(db, s, svc), s.payload, s.readings, svc.maxBacklog);
    } else if !s.Reset? {
      RefsFramed(db, Apply(db, s, svc));
    }
  }

  lemma {:induction false} RunKeepsRefs(db: Db, steps: seq<Step>, svc: Service)
    ensures Refs(Run(Cleared(db), steps, svc))
    decreases |steps|
  {
    if steps != [] {
      RunKeepsRefs(db, steps[..|steps| - 1], svc);
      StepKeepsRefs(Run(Cleared(db), steps[..|steps| - 1], svc), steps[|steps| - 1], svc);
    }
  }

  /** In no run does an idempotency record name a missing event, and no caller waits for an incomplete record. */
  lemma ReplaysNeverDangle(db: Db, steps: seq<Step>, svc: Service, p: Payload, c: Readings)
    ensures var r := P.Process(Run(Cleared(db), steps, svc), p, c, svc.maxBacklog);
            r.Err? ==> r.error == UnknownAsset(p.asset)
  {
    RunKeepsRefs(db, steps, svc);
  }

  // ---------------------------------------------------------------- life of an action

  /** What the state of an action says about its attempts; nothing is left leased between passes. */
  predicate Lived(a: Action, maxAttempts: int) {
    && a.leaseId.None? && a.state != Skipped
    && (a.state == Queued ==> a.attempts == 0)
    && (a.state == Retry ==> 1 <= a.attempts < maxAttempts)
    && (Terminal(a) ==> 1 <= a.attempts <= maxAttempts)
  }

  predicate Lives(db: Db, maxAttempts: int) {
    forall i :: 0 <= i < |db.actions| ==> Lived(db.actions[i], maxAttempts)
  }

  /** An action keeps its detail while it can still be retried, and everything once it has ended. */
  predicate Evolves(a: Action, b: Action) {
    && b.incident == a.incident && b.actionType == a.actionType && b.createdAt == a.createdAt
    && b.attempts >= a.attempts && (b.state == Queued ==> a.state == Queued)
    && (Active(b) ==> Active(a) && b.detail == a.detail)
    && (Terminal(a) ==> b == a)
  }

  predicate Evolved(a: seq<Action>, b: seq<Action>) {
    |a| <= |b| && forall i :: 0 <= i < |a| ==> Evolves(a[i], b[i])
  }

  lemma PassKeepsLives(db: Db, r: Q.Round, cfg: A.Config)
    requires Lives(db, cfg.maxAttempts) && Q.Legal(db.actions, r, cfg)
    ensures Lives(A.RunOnce(db, r.sel, cfg, r.now).0, cfg.maxAttempts)
    ensures Evolved(db.actions, A.RunOnce(db, r.sel, cfg, r.now).0.actions)
  {
    if A.RunOnce(db, r.sel, cfg, r.now).1.Ok? {
      Q.PassRows(db, r, cfg);
      forall i | 0 <= i < |db.actions| && i in r.sel
        ensures var b := A.RunOnce(db, r.sel, cfg, r.now).0.actions[i];
                Lived(b, cfg.maxAttempts) && Evolves(db.actions[i], b)
      {
        A.AttemptProgress(db.actions[i], cfg, r.now);
      }
    }
  }

  lemma IngestKeepsLives(db: Db, db': Db, p: Payload, c: Readings, svc: Service)
    requires Lives(db, svc.cfg.maxAttempts) && Ingested(db, db', p, c, svc.maxBacklog)
    ensures Lives(db', svc.cfg.maxAttempts) && Evolved(db.actions, db'.actions)
  {
  }

  lemma StepKeepsLives(db: Db, s: Step, svc: Service)
    requires Refs(db) && Lives(db, svc.cfg.maxAttempts)
    ensures Lives(Apply(db, s, svc), svc.cfg.maxAttempts)
    ensures !s.Reset? ==> Evolved(db.actions, Apply(db, s, svc).actions)
  {
    if s.CreateCheck? || s.MoveCheck? || s.ExpireChecks? {
      ChecksApart(db, s, svc);
    } else if s.Work? && Q.Legal(db.actions, s.round, svc.cfg) {
      PassKeepsLives(db, s.round, svc.cfg);
    } else if s.RetryNow? && s.action < |db.actions| && db.actions[s.action].state != Skipped {
      RetriedEvolves(db, s.action, svc.cfg, s.clock);
    } else if s.Ingest? {
      IngestEffect(db, s.payload, s.readings, svc.maxBacklog);
      IngestKeepsLives(db, Apply(db, s, svc), s.payload, s.readings, svc);
    }
  }

  lemma {:induction false} RunKeepsLives(db: Db, steps: seq<Step>, svc: Service)
    ensures Lives(Run(Cleared(db), steps, svc), svc.cfg.maxAttempts)
    decreases |steps|
  {
    if steps != [] {
      var before := Run(Cleared(db), steps[..|steps| - 1], svc);
      RunKeepsLives(db, steps[..|steps| - 1], svc);
      RunKeepsRefs(db, steps[..|steps| - 1], svc);
      StepKeepsLives(before, steps[|steps| - 1], svc);
    }
  }

  lemma EvolvesTransitively(a: seq<Action>, b: seq<Action>, c: seq<Action>)
    requires Evolved(a, b) && Evolved(b, c)
    ensures Evolved(a, c)
  {
    forall i | 0 <= i < |a| ensures Evolves(a[i], c[i]) {
      assert Evolves(a[i], b[i]) && Evolves(b[i], c[i]);
    }
  }

  /** Over any stretch of a run without a reset: ended actions are frozen, waiting ones keep their detail. */
  lemma {:induction false} ActionsEvolve(db: Db, earlier: seq<Step>, later: seq<Step>, svc: Service)
    requires forall s <- later :: !s.Reset?
    ensures Evolved(Run(Cleared(db), earlier, svc).actions, Run(Cleared(db), earlier + later, svc).actions)
    decreases |later|
  {
    var n := |later| - 1;
    if later == [] {
      assert earlier + later == earlier;
    } else {
      var steps := earlier + later[..n];
      assert (earlier + later)[..|earlier + later| - 1] == steps && (earlier + later)[|earlier + later| - 1] == later[n];
      ActionsEvolve(db, earlier, later[..n], svc);
      RunKeepsRefs(db, steps, svc);
      RunKeepsLives(db, steps, svc);
      StepKeepsLives(Run(Cleared(db), steps, svc), later[n], svc);
      EvolvesTransitively(Run(Cleared(db), earlier, svc).actions, Run(Cleared(db), steps, svc).actions,
                          Run(Cleared(db), earlier + later, svc).actions);
    }
  }

  // ---------------------------------------------------------------- cooldown

  function CooldownOf(db: Db, i: Incident): int
    requires i.rule < |db.rules|
  {
    db.rules[i.rule].cooldownMinutes
  }

  predicate Apart(db: Db, earlier: Incident, later: Incident)
    requires later.rule < |db.rules|
  {
    earlier.asset == later.asset && CooldownOf(db, later) > 0 ==>
      later.createdAt > earlier.createdAt + CooldownOf(db, later) * MINUTE
  }

  /** An incident opened through a rule with a cooldown is later than every earlier one on its asset by more than it. */
  predicate Spaced(db: Db) {
    && (forall i :: 0 <= i < |db.incidents| ==> db.incidents[i].rule < |db.rules| && db.incidents[i].state == Open)
    && (forall i, j :: 0 <= i < j < |db.incidents| ==> Apart(db, db.incidents[i], db.incidents[j]))
  }

  /** Incident `i` and rule `r` account for the suppression of event `e`, `r` matching it among the first `k` rules. */
  predicate Accounts(db: Db, e: nat, i: nat, r: nat, k: nat) {
    && e < |db.events| && i < |db.incidents| && r < k <= |db.rules|
    && PyRules.Match(db.rules[..k], db.events[e].category, db.events[e].severity) == Some(r)
    && db.rules[r].cooldownMinutes > 0
    && db.incidents[i].asset == db.events[e].asset && db.incidents[i].event < e && db.incidents[i].state != Resolved
    && db.incidents[i].createdAt >= db.events[e].createdAt - db.rules[r].cooldownMinutes * MINUTE
  }

  /**
   * Every suppressed event has an earlier unresolved incident on its asset within the cooldown of the rule that matched
   * it when it came, among the rules there were.
   */
  ghost predicate SuppressionsAccounted(db: Db) {
    forall e :: EventSuppressed(e) in db.audits ==> exists i: nat, r: nat, k: nat :: Accounts(db, e, i, r, k)
  }

  lemma IngestKeepsSpaced(db: Db, db': Db, p: Payload, c: Readings, maxBacklog: int)
    requires Spaced(db) && c.Ordered() && Ingested(db, db', p, c, maxBacklog)
    ensures Spaced(db')
  {
    if |db'.incidents| > |db.incidents| {
      var n := |db.incidents|;
      var opened_ := db'.incidents[n];
      assert forall i :: 0 <= i < n ==> db'.incidents[i] == db.incidents[i];
      forall i | 0 <= i < n ensures Apart(db, db.incidents[i], opened_) {
        assert CooldownOf(db, opened_) > 0 ==> !Blocks(db.incidents[i], opened_.asset, CooldownOf(db, opened_), c.check);
      }
    }
  }

  lemma StepKeepsSpaced(db: Db, s: Step, svc: Service)
    requires Refs(db) && Spaced(db) && WellTimed(s)
    ensures Spaced(Apply(db, s, svc))
  {
    match s
    case Ingest(p, c) =>
      IngestEffect(db, p, c, svc.maxBacklog);
      IngestKeepsSpaced(db, Apply(db, s, svc), p, c, svc.maxBacklog);
    case Work(r) => if Q.Legal(db.actions, r, svc.cfg) { PassKeepsIncidents(db, r, svc.cfg); }
    case RetryNow(i, clock) =>
      if i < |db.actions| && db.actions[i].state != Skipped { RetriedRow(db, i, svc.cfg, clock); }
    case CreateCheck(_, _) => ChecksApart(db, s, svc);
    case MoveCheck(_, _) => ChecksApart(db, s, svc);
    case ExpireChecks(_) => ChecksApart(db, s, svc);
    case _ =>
  }

  /** Rows of `db` survive in `db'`, so what accounted for a suppression still does. */
  predicate Extends(db: Db, db': Db) {
    db.events <= db'.events && db.incidents <= db'.incidents && db.rules <= db'.rules
  }

  lemma SuppressionsPersist(db: Db, db': Db)
    requires SuppressionsAccounted(db) && Extends(db, db')
    requires forall e :: EventSuppressed(e) in db'.audits && EventSuppressed(e) !in db.audits ==>
               exists i: nat, r: nat, k: nat :: Accounts(db', e, i, r, k)
    ensures SuppressionsAccounted(db')
  {
    forall e | EventSuppressed(e) in db.audits ensures exists i: nat, r: nat, k: nat :: Accounts(db', e, i, r, k) {
      var i: nat, r: nat, k: nat :| Accounts(db, e, i, r, k);
      assert db'.rules[..k] == db.rules[..k];
      assert Accounts(db', e, i, r, k);
    }
  }

  lemma IngestAccounts(db: Db, db': Db, p: Payload, c: Readings, maxBacklog: int)
    requires Refs(db) && Spaced(db) && SuppressionsAccounted(db) && c.Ordered()
    requires Ingested(db, db', p, c, maxBacklog)
    ensures SuppressionsAccounted(db')
  {
    var n := |db.events|;
    if EventSuppressed(n) in db'.audits && EventSuppressed(n) !in db.audits {
      var asset := P.FindAsset(db.assets, p.asset).value;
      var r := PyRules.Match(db.rules, p.category, p.severity).value;
      var i :| 0 <= i < |db.incidents| && Blocks(db.incidents[i], asset, db.rules[r].cooldownMinutes, c.check);
      assert db'.rules[..|db'.rules|] == db.rules;
      assert Accounts(db', n, i, r, |db'.rules|);
    }
    SuppressionsPersist(db, db');
  }

  lemma AuditsOfPass(db: Db, r: Q.Round, cfg: A.Config, e: nat)
    requires Q.Legal(db.actions, r, cfg)
    ensures EventSuppressed(e) in A.RunOnce(db, r.sel, cfg, r.now).0.audits ==> EventSuppressed(e) in db.audits
  {
    if A.RunOnce(db, r.sel, cfg, r.now).1.Ok? {
      Q.PassRows(db, r, cfg);
    }
  }

  lemma {:induction false} RepeatsAre<T>(x: T, n: int, y: T)
    ensures y in A.Repeat(x, n) ==> y == x
    decreases n
  {
    if n > 0 { RepeatsAre(x, n - 1, y); }
  }

  lemma RetriedSuppressesNothing(db: Db, i: nat, cfg: A.Config, clock: nat -> Time)
    requires i < |db.actions| && db.actions[i].state != Skipped
    ensures forall e :: EventSuppressed(e) in Retried(db, i, cfg, clock).audits ==> EventSuppressed(e) in db.audits
  {
    RetriedRow(db, i, cfg, clock);
    var n :| Retried(db, i, cfg, clock).audits == db.audits + A.Repeat(ActionExecuted(i), n);
    forall e | EventSuppressed(e) in Retried(db, i, cfg, clock).audits ensures EventSuppressed(e) in db.audits {
      RepeatsAre(ActionExecuted(i), n, EventSuppressed(e));
    }
  }

  lemma StepKeepsSuppressions(db: Db, s: Step, svc: Service)
    requires Refs(db) && Spaced(db) && SuppressionsAccounted(db) && WellTimed(s)
    ensures SuppressionsAccounted(Apply(db, s, svc))
  {
    var db' := Apply(db, s, svc);
    match s
    case Ingest(p, c) =>
      IngestEffect(db, p, c, svc.maxBacklog);
      IngestAccounts(db, db', p, c, svc.maxBacklog);
    case Work(r) =>
      if Q.Legal(db.actions, r, svc.cfg) {
        PassKeepsIncidents(db, r, svc.cfg);
        forall e | EventSuppressed(e) in db'.audits ensures EventSuppressed(e) in db.audits {
          AuditsOfPass(db, r, svc.cfg, e);
        }
        SuppressionsPersist(db, db');
      }
    case RetryNow(i, clock) =>
      if i < |db.actions| && db.actions[i].state != Skipped {
        RetriedRow(db, i, svc.cfg, clock);
        RetriedSuppressesNothing(db, i, svc.cfg, clock);
      }
      SuppressionsPersist(db, db');
    case ExpireChecks(now) =>
      C.ExpireIsPointwise(db, C.OverdueRows(db.checks, now), now);
      SuppressionsPersist(db, db');
    case Reset =>
    case _ => SuppressionsPersist(db, db');
  }

  /** Cooldown over whole runs, with rules added at any time and readings ordered only within each event. */
  lemma {:induction false} RunKeepsCooldown(db: Db, steps: seq<Step>, svc: Service)
    requires forall s <- steps :: WellTimed(s)
    ensures Spaced(Run(Cleared(db), steps, svc)) && SuppressionsAccounted(Run(Cleared(db), steps, svc))
    decreases |steps|
  {
    if steps != [] {
      var init := steps[..|steps| - 1];
      RunKeepsCooldown(db, init, svc);
      RunKeepsRefs(db, init, svc);
      StepKeepsSpaced(Run(Cleared(db), init, svc), steps[|steps| - 1], svc);
      StepKeepsSuppressions(Run(Cleared(db), init, svc), steps[|steps| - 1], svc);
    }
  }

  // ---------------------------------------------------------------- backpressure

  function ActiveRows(actions: seq<Action>): set<nat> { set i | 0 <= i < |actions| && Active(actions[i]) }

  lemma {:induction false} BacklogCountsRows(actions: seq<Action>)
    ensures Backlog(actions) == |ActiveRows(actions)|
  {
    if actions != [] {
      var n := |actions| - 1;
      BacklogCountsRows(actions[..n]);
      assert ActiveRows(actions) == ActiveRows(actions[..n]) + (if Active(actions[n]) then {n} else {});
    }
  }

  /** Which rows of the action table came from sweeps, a history the tables themselves do not keep. */
  ghost function SweptRows(db: Db, steps: seq<Step>, svc: Service): set<nat>
    decreases |steps|
  {
    if steps == [] then {}
    else
      var init, s := steps[..|steps| - 1], steps[|steps| - 1];
      if s.Reset? then {}
      else if s.Sweep? then
        SweptRows(db, init, svc) + (ActiveRows(Run(db, steps, svc).actions) - ActiveRows(Run(db, init, svc).actions))
      else SweptRows(db, init, svc)
  }

  function Capacity(maxBacklog: int): nat { if maxBacklog > 0 then maxBacklog else 0 }

  /** An action is only ever added while the backlog is below the limit. */
  lemma IngestAddsBelowLimit(db: Db, db': Db, p: Payload, c: Readings, maxBacklog: int)
    requires Ingested(db, db', p, c, maxBacklog)
    ensures db'.actions == db.actions
      || (Backlog(db.actions) < maxBacklog && |db'.actions| == |db.actions| + 1
          && db'.actions[..|db.actions|] == db.actions)
  {
  }

  lemma IngestKeepsBound(a: seq<Action>, b: seq<Action>, maxBacklog: int, swept: set<nat>)
    requires b == a || (Backlog(a) < maxBacklog && |b| == |a| + 1 && b[..|a|] == a)
    requires |ActiveRows(a) - swept| <= Capacity(maxBacklog)
    ensures |ActiveRows(b) - swept| <= Capacity(maxBacklog)
  {
    if b != a {
      BacklogCountsRows(a);
      assert forall i :: 0 <= i < |a| ==> b[i] == b[..|a|][i] == a[i];
      assert ActiveRows(b) - swept <= ActiveRows(a) + {|a|};
      Scheduler.SubsetSize(ActiveRows(b) - swept, ActiveRows(a) + {|a|});
    }
  }

  /** No ended action becomes active again, so a step that adds none adds nothing to the backlog. */
  lemma EvolvingKeepsBound(a: seq<Action>, b: seq<Action>, swept: set<nat>)
    requires Evolved(a, b) && |a| == |b|
    ensures |ActiveRows(b) - swept| <= |ActiveRows(a) - swept|
  {
    forall i | i in ActiveRows(b) ensures i in ActiveRows(a) { assert Evolves(a[i], b[i]); }
    Scheduler.SubsetSize(ActiveRows(b) - swept, ActiveRows(a) - swept);
  }

  lemma StepKeepsBound(db: Db, s: Step, svc: Service, swept: set<nat>)
    requires Refs(db) && Lives(db, svc.cfg.maxAttempts) && !s.Sweep? && !s.Reset?
    requires |ActiveRows(db.actions) - swept| <= Capacity(svc.maxBacklog)
    ensures |ActiveRows(Apply(db, s, svc).actions) - swept| <= Capacity(svc.maxBacklog)
  {
    if s.Ingest? {
      IngestEffect(db, s.payload, s.readings, svc.maxBacklog);
      IngestAddsBelowLimit(db, Apply(db, s, svc), s.payload, s.readings, svc.maxBacklog);
      IngestKeepsBound(db.actions, Apply(db, s, svc).actions, svc.maxBacklog, swept);
    } else {
      StepKeepsLives(db, s, svc);
      if s.Work? && Q.Legal(db.actions, s.round, svc.cfg) {
        PassKeepsIncidents(db, s.round, svc.cfg);
      } else if s.RetryNow? && s.action < |db.actions| && db.actions[s.action].state != Skipped {
        RetriedRow(db, s.action, svc.cfg, s.clock);
      } else if s.ExpireChecks? || s.CreateCheck? || s.MoveCheck? {
        ChecksApart(db, s, svc);
      }
      EvolvingKeepsBound(db.actions, Apply(db, s, svc).actions, swept);
    }
  }

  /** Queued or retrying work that ingestion created never exceeds the limit, whatever sweeps have added beside it. */
  lemma {:induction false} BackpressureHolds(db: Db, steps: seq<Step>, svc: Service)
    ensures |ActiveRows(Run(Cleared(db), steps, svc).actions) - SweptRows(Cleared(db), steps, svc)|
              <= Capacity(svc.maxBacklog)
    decreases |steps|
  {
    if steps != [] {
      var init, s := steps[..|steps| - 1], steps[|steps| - 1];
      var before := Run(Cleared(db), init, svc);
      var swept := SweptRows(Cleared(db), init, svc);
      BackpressureHolds(db, init, svc);
      RunKeepsRefs(db, init, svc);
      RunKeepsLives(db, init, svc);
      if s.Sweep? {
        var after := Run(Cleared(db), steps, svc);
        assert ActiveRows(after.actions) - SweptRows(Cleared(db), steps, svc) <= ActiveRows(before.actions) - swept;
        Scheduler.SubsetSize(ActiveRows(after.actions) - SweptRows(Cleared(db), steps, svc),
                             ActiveRows(before.actions) - swept);
      } else if !s.Reset? {
        StepKeepsBound(before, s, svc, swept);
      }
    }
  }

  /** The whole backlog stays within the limit plus the follow-ups still active. */
  lemma BacklogBounded(db: Db, steps: seq<Step>, svc: Service)
    ensures var after := Run(Cleared(db), steps, svc);
            Backlog(after.actions) <=
              Capacity(svc.maxBacklog) + |ActiveRows(after.actions) * SweptRows(Cleared(db), steps, svc)|
  {
    var active, swept := ActiveRows(Run(Cleared(db), steps, svc).actions), SweptRows(Cleared(db), steps, svc);
    BackpressureHolds(db, steps, svc);
    BacklogCountsRows(Run(Cleared(db), steps, svc).actions);
    assert active == (active - swept) + active * swept;
  }
}
