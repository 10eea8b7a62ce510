/** The shared workload through the Python engine, as the benchmark driver runs it (run_python_engine_once). */
module PyWorkload {
  import opened Util
  import opened Text
  import opened PyTables
  import PyRules
  import P = PyProcessor
  import A = PyActions
  import R = PyRuns
  import W = Workload

  /** seed_python_database */
  const RULES: seq<Rule> := [Rule("offline", 80, 5, "collect_diagnostics", true), Rule("degraded", 50, 5, "none", true)]

  const START: Db := Db([], RULES, [], [], [], [], map[], [])

  const CONFIG: A.Config := A.Config(3, 0.001, 0, 60_000_000, A.DefaultTransport)

  /** to_python_payload */
  function PayloadOf(e: W.SharedEvent): P.Payload {
    P.Payload(e.assetId, e.source, e.category, e.severity, e.message, e.executorMode, None)
  }

  predicate Seeded(assets: seq<Asset>, n: nat, gen: nat -> W.SharedEvent) {
    forall i :: 0 <= i < n ==> P.FindAsset(assets, gen(i).assetId).Some?
  }

  /** A request that fails is rolled back and counted. */
  function Committed(db: Db, errors: nat, r: Result<(Db, P.Answer), P.Error>): (Db, nat) {
    if r.Ok? then (r.value.0, errors) else (db, errors + 1)
  }

  /** The tables, and the driver's error count, after the first n events. */
  function Ingest(assets: seq<Asset>, n: nat, gen: nat -> W.SharedEvent, readings: seq<P.Readings>, maxBacklog: int)
    : (Db, nat)
    requires n <= |readings|
  {
    if n == 0 then (START.(assets := assets), 0)
    else
      var (db, errors) := Ingest(assets, n - 1, gen, readings, maxBacklog);
      Committed(db, errors, P.Process(db, PayloadOf(gen(n - 1)), readings[n - 1], maxBacklog))
  }

  /** execute_action_with_retry on every action that is queued; `clocks(i)` is the clock during the i-th. */
  function RetryQueued(actions: seq<Action>, clocks: nat -> (nat -> Time)): (s: seq<Action>)
    ensures |s| == |actions|
  {
    seq(|actions|, i requires 0 <= i < |actions| =>
      if actions[i].state != Queued then actions[i]
      else match A.RetryLoop(actions[i], CONFIG, clocks(i)) case Ok(a) => a case Err(_) => actions[i])
  }

  function IsSuppression(): Audit -> bool { (a: Audit) => a.EventSuppressed? }
  function InState(s: ActionState): Action -> bool { (a: Action) => a.state == s }
  function Retries(): Action -> nat { (a: Action) => if a.attempts > 1 then a.attempts - 1 else 0 }
  function Permanent(): Action -> bool { (a: Action) => a.state == Failed && Contains(a.detail, "permanent") }

  /** python_metrics, with the driver's own error count */
  function Metrics(db: Db, errors: nat): W.Counters {
    W.Counters(|db.events|, |db.incidents|, |db.actions|, Count(db.audits, IsSuppression()),
               Count(db.actions, InState(Succeeded)), Count(db.actions, InState(Failed)), Sum(db.actions, Retries()),
               Count(db.actions, Permanent()), errors)
  }

  /** The whole run. */
  function Final(assets: seq<Asset>, n: nat, seed: int, readings: seq<P.Readings>, maxBacklog: int,
                 clocks: nat -> (nat -> Time)): W.Counters
    requires n <= |readings|
  {
    var (db, errors) := Ingest(assets, n, W.Events(seed), readings, maxBacklog);
    Metrics(db.(actions := RetryQueued(db.actions, clocks)), errors)
  }

  /** The second event of a cycle is checked while the first one's incident is at most five minutes old. */
  predicate Within(readings: seq<P.Readings>, i: nat) {
    0 < i < |readings| ==> readings[i - 1].incident >= readings[i].check - 5 * MINUTE
  }

  function LateIn(readings: seq<P.Readings>): nat -> bool { (i: nat) => !Within(readings, i) }

  predicate AllWithin(readings: seq<P.Readings>, n: nat) { W.AllOnTime(LateIn(readings), n) }

  // ---------------------------------------------------------------- one event

  function RuleFor(position: nat): Option<nat> {
    if position == 2 then Some(1) else if position <= 4 then Some(0) else None
  }

  lemma RuleMatches(n: nat, gen: nat -> W.SharedEvent)
    requires W.CyclicAt(gen, n)
    ensures var e := gen(n); PyRules.Match(RULES, e.category, e.severity) == RuleFor(n % 20)
  {
    var e := gen(n);
    assert "offline"[0] != "degraded"[0] && "heartbeat"[0] != "offline"[0] && "heartbeat"[0] != "degraded"[0];
    assert PyRules.Applies(RULES[0], e.category, e.severity) <==> RuleFor(n % 20) == Some(0);
    assert PyRules.Applies(RULES[1], e.category, e.severity) <==> RuleFor(n % 20) == Some(1);
  }

  /** What ingestion has built from the first n events. */
  predicate Built(db: Db, assets: seq<Asset>, n: nat, gen: nat -> W.SharedEvent, readings: seq<P.Readings>)
    requires n <= |readings|
  {
    && db.rules == RULES && db.records == map[] && |db.events| == n
    && |db.assets| == |assets| && (forall i :: 0 <= i < |assets| ==> db.assets[i].externalId == assets[i].externalId)
    && IncidentsNamed(db.incidents, assets, n, gen)
    && (n % 20 == 1 ==> LastIsFirstOfCycle(db.incidents, n - 1, readings[n - 1]))
  }

  /** The event at an index that starts a cycle has just opened its incident. */
  predicate LastIsFirstOfCycle(incidents: seq<Incident>, index: nat, readings: P.Readings) {
    && incidents != []
    && (forall i :: 0 <= i < |incidents| - 1 ==> incidents[i].event < index)
    && var last := incidents[|incidents| - 1];
       last.event == index && last.state == Open && last.createdAt == readings.incident
  }

  lemma SameName(assets: seq<Asset>, a: string, b: string)
    requires P.FindAsset(assets, a).Some? && P.FindAsset(assets, a) == P.FindAsset(assets, b)
    ensures a == b
  {
  }

  /** An incident on the asset of event n was opened by the event before it, which starts the cycle. */
  lemma IncidentsOnAsset(incidents: seq<Incident>, assets: seq<Asset>, n: nat, gen: nat -> W.SharedEvent, asset: nat, i: nat)
    requires IncidentsNamed(incidents, assets, n, gen) && W.CyclicAt(gen, n)
    requires P.FindAsset(assets, gen(n).assetId) == Some(asset)
    requires i < |incidents|
    ensures incidents[i].asset == asset <==> n % 20 == 1 && incidents[i].event == n - 1
  {
    var m := incidents[i].event;
    if incidents[i].asset == asset {
      SameName(assets, gen(m).assetId, gen(n).assetId);
    }
    assert m < n;
  }

  /** Only the first event of its cycle can put the next event on cooldown, and it does exactly when within. */
  lemma CooldownFor(incidents: seq<Incident>, assets: seq<Asset>, n: nat, gen: nat -> W.SharedEvent,
                    readings: seq<P.Readings>, asset: nat)
    requires n < |readings| && IncidentsNamed(incidents, assets, n, gen) && W.CyclicAt(gen, n)
    requires n % 20 == 1 ==> LastIsFirstOfCycle(incidents, n - 1, readings[n - 1])
    requires P.FindAsset(assets, gen(n).assetId) == Some(asset)
    ensures P.InCooldown(incidents, asset, 5, readings[n].check) <==> n % 20 == 1 && Within(readings, n)
  {
    var since := readings[n].check;
    if P.InCooldown(incidents, asset, 5, since) {
      var i :| 0 <= i < |incidents| && P.Blocks(incidents[i], asset, 5, since);
      IncidentsOnAsset(incidents, assets, n, gen, asset, i);
    }
    if n % 20 == 1 {
      IncidentsOnAsset(incidents, assets, n, gen, asset, |incidents| - 1);
      assert Within(readings, n) ==> P.Blocks(incidents[|incidents| - 1], asset, 5, since);
    }
  }

  /** The effect the event at index n must have, by its position in the cycle. */
  predicate Effects(e: R.Effect, n: nat, actions: seq<Action>, readings: P.Readings, within: bool, maxBacklog: int) {
    var position := n % 20;
    if position >= 5 then e == R.Recorded(EventRecorded(n))
    else if position == 1 && within then e == R.Recorded(EventSuppressed(n))
    else
      && e.Opened? && e.incident.event == n && e.incident.state == Open && e.incident.createdAt == readings.incident
      && (e.audit.IncidentCreated? || e.audit.BackpressureApplied?)
      && (e.action.Some? <==> position != 2 && Backlog(actions) < maxBacklog)
      && (e.action.Some? ==> e.action.value.state == Queued && e.action.value.attempts == 0
                             && e.action.value.detail == W.ModeAt(n % 20))
  }

  lemma EffectFor(db: Db, assets: seq<Asset>, n: nat, gen: nat -> W.SharedEvent, readings: seq<P.Readings>, asset: nat,
                  maxBacklog: int)
    requires n < |readings| && Built(db, assets, n, gen, readings) && W.CyclicAt(gen, n)
    requires P.FindAsset(assets, gen(n).assetId) == Some(asset)
    ensures var e := R.EffectOf(db, PayloadOf(gen(n)), asset, readings[n], maxBacklog);
            && Effects(e, n, db.actions, readings[n], Within(readings, n), maxBacklog)
            && Starts(e, n, asset, readings[n])
  {
    RuleMatches(n, gen);
    CooldownFor(db.incidents, assets, n, gen, readings, asset);
    assert "collect_diagnostics"[0] != "none"[0];
  }

  // ---------------------------------------------------------------- all events

  function Min(a: int, b: int): int { if a < b then a else b }

  function HasMode(mode: string): Action -> bool { (a: Action) => a.detail == mode }

  predicate IsMode(mode: string) {
    mode == "success" || mode == "transient_then_success" || mode == "permanent_failure"
  }

  /** Fresh actions, each in one of the three modes. */
  predicate Fresh(actions: seq<Action>) {
    forall i :: 0 <= i < |actions| ==>
      actions[i].state == Queued && actions[i].attempts == 0 && IsMode(actions[i].detail)
  }

  lemma {:induction false} FreshBacklog(actions: seq<Action>)
    requires Fresh(actions)
    ensures Backlog(actions) == |actions|
  {
    if actions != [] {
      FreshBacklog(actions[..|actions| - 1]);
      assert Active(actions[|actions| - 1]);
    }
  }

  predicate ModesCounted(actions: seq<Action>, c: W.Counters) {
    && Count(actions, HasMode("success")) + c.retries == c.succeeded
    && Count(actions, HasMode("transient_then_success")) == c.retries
    && Count(actions, HasMode("permanent_failure")) == c.failed
  }

  /** How the tables compare with the prediction, when so many second events have come too late. */
  predicate OnTrack(db: Db, c: W.Counters, late: nat, maxBacklog: int) {
    && Fresh(db.actions)
    && Count(db.audits, IsSuppression()) + late == c.suppressions
    && (late == 0 ==>
          && |db.incidents| == c.incidents
          && |db.actions| == Min(c.actions, R.Capacity(maxBacklog))
          && (c.actions <= R.Capacity(maxBacklog) ==> ModesCounted(db.actions, c)))
  }

  lemma CountsMode(actions: seq<Action>, a: Action, mode: string)
    ensures Count(actions + [a], HasMode(mode)) == Count(actions, HasMode(mode)) + (if a.detail == mode then 1 else 0)
  {
    SumOne(actions, a, Indicator(HasMode(mode)));
  }

  lemma OneMoreMode(actions: seq<Action>, a: Action, c: W.Counters, position: nat)
    requires ModesCounted(actions, c) && position in {0, 3, 4} && a.detail == W.ModeAt(position)
    ensures ModesCounted(actions + [a], W.Plus(c, position))
  {
    W.ModesDiffer();
    CountsMode(actions, a, "success");
    CountsMode(actions, a, "transient_then_success");
    CountsMode(actions, a, "permanent_failure");
  }

  lemma ActionsTrack(actions: seq<Action>, e: R.Effect, n: nat, c: W.Counters, readings: P.Readings, within: bool,
                     maxBacklog: int)
    requires Effects(e, n, actions, readings, within, maxBacklog) && (n % 20 == 1 ==> within) && Fresh(actions)
    requires |actions| == Min(c.actions, R.Capacity(maxBacklog))
    requires c.actions <= R.Capacity(maxBacklog) ==> ModesCounted(actions, c)
    ensures var (more, c') := (actions + (if e.Opened? then R.Listed(e.action) else []), W.Plus(c, n % 20));
            && Fresh(more) && |more| == Min(c'.actions, R.Capacity(maxBacklog))
            && (c'.actions <= R.Capacity(maxBacklog) ==> ModesCounted(more, c'))
  {
    FreshBacklog(actions);
    if e.Opened? && e.action.Some? {
      assert n % 20 in {0, 3, 4};
      if c.actions <= R.Capacity(maxBacklog) { OneMoreMode(actions, e.action.value, c, n % 20); }
    } else {
      assert actions + [] == actions;
    }
  }

  lemma StaysOnTrack(db: Db, db': Db, event: Event, e: R.Effect, n: nat, c: W.Counters, late: nat,
                     readings: P.Readings, within: bool, maxBacklog: int)
    requires OnTrack(db, c, late, maxBacklog) && R.Applied(db, db', event, e)
    requires Effects(e, n, db.actions, readings, within, maxBacklog)
    ensures OnTrack(db', W.Plus(c, n % 20), late + (if n % 20 == 1 && !within then 1 else 0), maxBacklog)
  {
    SumOne(db.audits, e.audit, Indicator(IsSuppression()));
    if late == 0 && (n % 20 == 1 ==> within) {
      ActionsTrack(db.actions, e, n, c, readings, within, maxBacklog);
    }
  }

  predicate IncidentsNamed(incidents: seq<Incident>, assets: seq<Asset>, n: nat, gen: nat -> W.SharedEvent) {
    forall i :: 0 <= i < |incidents| ==>
      incidents[i].event < n
      && P.FindAsset(assets, gen(incidents[i].event).assetId) == Some(incidents[i].asset)
  }

  lemma OneMoreNamed(incidents: seq<Incident>, one: Incident, assets: seq<Asset>, n: nat, gen: nat -> W.SharedEvent)
    requires IncidentsNamed(incidents, assets, n, gen) && one.event == n
    requires P.FindAsset(assets, gen(n).assetId) == Some(one.asset)
    ensures IncidentsNamed(incidents + [one], assets, n + 1, gen)
  {
    var more := incidents + [one];
    forall i | 0 <= i < |more|
      ensures more[i].event < n + 1
      ensures P.FindAsset(assets, gen(more[i].event).assetId) == Some(more[i].asset)
    {
      if i < |incidents| { assert more[i] == incidents[i]; }
    }
  }

  /** What `Built` needs to know of an effect. */
  predicate Starts(e: R.Effect, n: nat, asset: nat, readings: P.Readings) {
    && (e.Opened? ==> e.incident.event == n && e.incident.asset == asset)
    && (n % 20 == 0 ==> e.Opened? && e.incident.state == Open && e.incident.createdAt == readings.incident)
  }

  lemma StaysBuilt(db: Db, db': Db, assets: seq<Asset>, event: Event, e: R.Effect, n: nat, gen: nat -> W.SharedEvent,
                   readings: seq<P.Readings>, asset: nat)
    requires n < |readings| && Built(db, assets, n, gen, readings) && R.Applied(db, db', event, e)
    requires P.FindAsset(assets, gen(n).assetId) == Some(asset) && db'.records == db.records
    requires Starts(e, n, asset, readings[n])
    ensures Built(db', assets, n + 1, gen, readings)
  {
    if e.Opened? {
      OneMoreNamed(db.incidents, e.incident, assets, n, gen);
    } else {
      assert db'.incidents == db.incidents;
    }
    W.NewCycle(n);
    if (n + 1) % 20 == 1 {
      assert db'.incidents == db.incidents + [e.incident];
      assert LastIsFirstOfCycle(db'.incidents, n, readings[n]);
    }
  }

  lemma SameFind(a: seq<Asset>, b: seq<Asset>, id: string)
    requires |a| == |b| && forall i :: 0 <= i < |a| ==> a[i].externalId == b[i].externalId
    ensures P.FindAsset(a, id) == P.FindAsset(b, id)
  {
  }

  predicate Tracked(db: Db, assets: seq<Asset>, n: nat, gen: nat -> W.SharedEvent, readings: seq<P.Readings>,
                    maxBacklog: int)
    requires n <= |readings|
  {
    && Built(db, assets, n, gen, readings)
    && OnTrack(db, W.Predicted(n), W.LateEvents(LateIn(readings), n), maxBacklog)
  }

  lemma PredictionNext(n: nat, readings: seq<P.Readings>)
    ensures W.Predicted(n + 1) == W.Plus(W.Predicted(n), n % 20)
    ensures W.LateEvents(LateIn(readings), n + 1)
         == W.LateEvents(LateIn(readings), n) + (if n % 20 == 1 && !Within(readings, n) then 1 else 0)
  {
    W.PredictedNext(n);
    W.LateNext(LateIn(readings), n);
  }

  lemma StepTracks(db: Db, assets: seq<Asset>, n: nat, gen: nat -> W.SharedEvent, readings: seq<P.Readings>, maxBacklog: int)
    requires n < |readings| && Seeded(assets, n + 1, gen) && W.CyclicAt(gen, n)
    requires Tracked(db, assets, n, gen, readings, maxBacklog)
    ensures var r := P.Process(db, PayloadOf(gen(n)), readings[n], maxBacklog);
            r.Ok? && Tracked(r.value.0, assets, n + 1, gen, readings, maxBacklog)
  {
    var p := PayloadOf(gen(n));
    var asset := P.FindAsset(assets, p.asset).value;
    SameFind(assets, db.assets, p.asset);
    EffectFor(db, assets, n, gen, readings, asset, maxBacklog);
    R.NewEffect(db, p, asset, readings[n], maxBacklog);
    var e, event := R.EffectOf(db, p, asset, readings[n], maxBacklog), P.NewEvent(p, asset, readings[n].event);
    var db' := P.ProcessNew(db, p, readings[n], maxBacklog).value.0;
    StaysBuilt(db, db', assets, event, e, n, gen, readings, asset);
    StaysOnTrack(db, db', event, e, n, W.Predicted(n), W.LateEvents(LateIn(readings), n), readings[n],
                 Within(readings, n), maxBacklog);
    PredictionNext(n, readings);
  }

  lemma IngestNext(assets: seq<Asset>, n: nat, gen: nat -> W.SharedEvent, readings: seq<P.Readings>, maxBacklog: int)
    requires n < |readings|
    ensures var (db, errors) := Ingest(assets, n, gen, readings, maxBacklog);
            var r := P.Process(db, PayloadOf(gen(n)), readings[n], maxBacklog);
            Ingest(assets, n + 1, gen, readings, maxBacklog) ==
              Committed(db, errors, r)
  {
  }

  lemma StartOnTrack(db: Db, maxBacklog: int)
    requires db.incidents == [] && db.actions == [] && db.audits == []
    ensures OnTrack(db, W.ZERO, 0, maxBacklog)
  {
  }

  lemma StartBuilt(assets: seq<Asset>, gen: nat -> W.SharedEvent, readings: seq<P.Readings>)
    ensures Built(START.(assets := assets), assets, 0, gen, readings)
  {
  }

  lemma StartTracks(assets: seq<Asset>, gen: nat -> W.SharedEvent, readings: seq<P.Readings>, maxBacklog: int)
    ensures Tracked(START.(assets := assets), assets, 0, gen, readings, maxBacklog)
  {
    StartBuilt(assets, gen, readings);
    StartOnTrack(START.(assets := assets), maxBacklog);
    W.PredictedZero();
    assert W.LateEvents(LateIn(readings), 0) == 0;
  }

  predicate Ingested(assets: seq<Asset>, n: nat, gen: nat -> W.SharedEvent, readings: seq<P.Readings>, maxBacklog: int)
    requires n <= |readings|
  {
    var (db, errors) := Ingest(assets, n, gen, readings, maxBacklog);
    errors == 0 && Tracked(db, assets, n, gen, readings, maxBacklog)
  }

  lemma NothingIngested(assets: seq<Asset>, gen: nat -> W.SharedEvent, readings: seq<P.Readings>, maxBacklog: int)
    ensures Ingested(assets, 0, gen, readings, maxBacklog)
  {
    StartTracks(assets, gen, readings, maxBacklog);
  }

  lemma OneMoreIngested(assets: seq<Asset>, n: nat, gen: nat -> W.SharedEvent, readings: seq<P.Readings>, maxBacklog: int)
    requires n < |readings| && Seeded(assets, n + 1, gen) && W.CyclicAt(gen, n)
    requires Ingested(assets, n, gen, readings, maxBacklog)
    ensures Ingested(assets, n + 1, gen, readings, maxBacklog)
  {
    StepTracks(Ingest(assets, n, gen, readings, maxBacklog).0, assets, n, gen, readings, maxBacklog);
    IngestNext(assets, n, gen, readings, maxBacklog);
  }

  /** No event is refused, and the tables are as the prediction has them after every prefix, late events aside. */
  lemma IngestTracks(assets: seq<Asset>, n: nat, gen: nat -> W.SharedEvent, readings: seq<P.Readings>, maxBacklog: int)
    requires n <= |readings| && Seeded(assets, n, gen) && W.Cyclic(gen)
    ensures Ingested(assets, n, gen, readings, maxBacklog)
  {
    NothingIngested(assets, gen, readings, maxBacklog);
    for m := 0 to n
      invariant Ingested(assets, m, gen, readings, maxBacklog)
    {
      OneMoreIngested(assets, m, gen, readings, maxBacklog);
    }
  }

  // ---------------------------------------------------------------- the retry loop on the workload's actions

  lemma NoFailureWords()
    ensures 'p' !in "transient_then_success" && 'f' !in "transient_then_success"
    ensures 'p' !in "success" && 'f' !in "success" && 't' !in "success"
  {
  }

  /** Each of the two modes that succeed says nothing of a failure. */
  lemma SucceedingMode(mode: string)
    requires mode == "success" || mode == "transient_then_success"
    ensures !Contains(mode, "permanent_failure") && !Contains(mode, "fail_once")
    ensures mode == "success" ==> !Contains(mode, "transient_then_success")
  {
    NoFailureWords();
    ContainsNot(mode, "permanent_failure");
    ContainsNot(mode, "fail_once");
    if mode == "success" { ContainsNot(mode, "transient_then_success"); }
  }

  /** What the default transport answers to each mode. */
  lemma Answers(actionType: string, mode: string, attempts: nat)
    requires IsMode(mode)
    ensures var answer := A.DefaultTransport(actionType, mode, attempts, CONFIG.timeout);
            answer == if mode == "permanent_failure" then A.Answered(false, "synthetic permanent failure")
                      else if mode == "transient_then_success" && attempts <= 1 then
                        A.Answered(false, "synthetic transient failure")
                      else A.Answered(true, "synthetic " + actionType + " completed")
  {
    if mode != "permanent_failure" { SucceedingMode(mode); }
  }

  lemma OnlyPermanent(mode: string)
    requires IsMode(mode)
    ensures Contains(mode, "permanent_failure") <==> mode == "permanent_failure"
  {
    if mode != "permanent_failure" { SucceedingMode(mode); }
  }

  lemma SaysPermanent()
    ensures Contains("synthetic permanent failure", "permanent")
  {
    assert "synthetic permanent failure" == "synthetic " + "permanent" + " failure";
    ContainsBetween("synthetic ", "permanent", " failure");
  }

  lemma AnsweredSettles(a: Action, now: Time, succeeded: bool, text: string)
    requires Active(a)
    requires A.DefaultTransport(a.actionType, a.detail, a.attempts + 1, CONFIG.timeout) == A.Answered(succeeded, text)
    ensures A.ExecuteOnce(a, CONFIG, now) == Ok(A.Settle(a, a.attempts + 1, succeeded, text, CONFIG, now))
  {
  }

  /** One attempt on an action of each mode. */
  lemma AttemptEnds(a: Action, now: Time)
    requires Active(a) && a.attempts <= 1 && IsMode(a.detail)
    ensures var r := A.ExecuteOnce(a, CONFIG, now);
            && r.Ok? && r.value.attempts == a.attempts + 1
            && r.value.state == (if a.detail == "permanent_failure" then Failed
                                 else if a.detail == "transient_then_success" && a.attempts == 0 then Retry
                                 else Succeeded)
            && (r.value.state == Retry ==> r.value.detail == a.detail)
            && (r.value.state == Failed ==> Contains(r.value.detail, "permanent"))
  {
    Answers(a.actionType, a.detail, a.attempts + 1);
    OnlyPermanent(a.detail);
    if a.detail == "permanent_failure" {
      AnsweredSettles(a, now, false, "synthetic permanent failure");
      SaysPermanent();
    } else if a.detail == "transient_then_success" && a.attempts == 0 {
      AnsweredSettles(a, now, false, "synthetic transient failure");
    } else {
      AnsweredSettles(a, now, true, "synthetic " + a.actionType + " completed");
    }
  }

  /** How an action of each mode ends. */
  lemma ModeEnds(a: Action, clock: nat -> Time)
    requires a.state == Queued && a.attempts == 0 && IsMode(a.detail)
    ensures var r := A.RetryLoop(a, CONFIG, clock);
            && r.Ok? && r.value.attempts == (if a.detail == "transient_then_success" then 2 else 1)
            && r.value.state == (if a.detail == "permanent_failure" then Failed else Succeeded)
            && (r.value.state == Failed ==> Contains(r.value.detail, "permanent"))
  {
    W.ModesDiffer();
    var first := A.ExecuteOnce(a, CONFIG, clock(1)).value;
    AttemptEnds(a, clock(1));
    A.RetryStep(a, CONFIG, clock);
    if a.detail == "transient_then_success" {
      AttemptEnds(first, clock(2));
      A.RetryStep(first, CONFIG, clock);
    }
  }

  lemma {:induction false} RetryQueuedCounts(actions: seq<Action>, clocks: nat -> (nat -> Time))
    requires Fresh(actions)
    ensures var (s, permanent) := (RetryQueued(actions, clocks), Count(actions, HasMode("permanent_failure")));
            var transient := Count(actions, HasMode("transient_then_success"));
            && Count(s, InState(Succeeded)) == Count(actions, HasMode("success")) + transient
            && Count(s, InState(Failed)) == permanent && Count(s, Permanent()) == permanent
            && Sum(s, Retries()) == transient
  {
    if actions != [] {
      var last := |actions| - 1;
      W.ModesDiffer();
      ModeEnds(actions[last], clocks(last));
      RetryQueuedCounts(actions[..last], clocks);
      assert RetryQueued(actions, clocks)[..last] == RetryQueued(actions[..last], clocks);
    }
  }

  /**
   * The whole Python run ends with the predicted counters if and only if each second critical event of a cycle is
   * checked within the cooldown of the first, and the actions fit the backlog limit.
   */
  lemma MeetsPrediction(assets: seq<Asset>, n: nat, seed: int, readings: seq<P.Readings>, maxBacklog: int,
                        clocks: nat -> (nat -> Time))
    requires n <= |readings| && Seeded(assets, n, W.Events(seed))
    ensures Final(assets, n, seed, readings, maxBacklog, clocks) == W.Expected(n) <==>
            AllWithin(readings, n) && W.Actions(n) <= R.Capacity(maxBacklog)
  {
    var (db, _) := Ingest(assets, n, W.Events(seed), readings, maxBacklog);
    W.WorkloadIsCyclic(seed);
    IngestTracks(assets, n, W.Events(seed), readings, maxBacklog);
    W.NoneLate(LateIn(readings), n);
    RetryQueuedCounts(db.actions, clocks);
    W.PredictedIsExpected(n);
  }

  /** With the service's default limit of 10,000 the prediction cannot be met beyond 66,663 events. */
  lemma DefaultLimit(assets: seq<Asset>, n: nat, seed: int, readings: seq<P.Readings>, clocks: nat -> (nat -> Time))
    requires n <= |readings| && Seeded(assets, n, W.Events(seed))
    ensures Final(assets, n, seed, readings, 10_000, clocks) == W.Expected(n) <==>
            AllWithin(readings, n) && n <= 66_663
  {
    MeetsPrediction(assets, n, seed, readings, 10_000, clocks);
    W.ActionsWithinDefault(n);
  }

  // ---------------------------------------------------------------- an input beyond the limit

  predicate DistinctNames(assets: seq<Asset>) {
    forall i, j :: 0 <= i < j < |assets| ==> assets[i].externalId != assets[j].externalId
  }

  /** seed_python_database: one asset for every name the events use. */
  function SeedAssets(n: nat, gen: nat -> W.SharedEvent): seq<Asset> {
    if n == 0 then []
    else
      var assets := SeedAssets(n - 1, gen);
      if P.FindAsset(assets, gen(n - 1).assetId).Some? then assets
      else assets + [Asset(gen(n - 1).assetId, "registered")]
  }

  lemma StillFound(assets: seq<Asset>, one: Asset, id: string)
    requires P.FindAsset(assets, id).Some? || one.externalId == id
    ensures P.FindAsset(assets + [one], id).Some?
  {
    if P.FindAsset(assets, id).Some? {
      var k := P.FindAsset(assets, id).value;
      assert (assets + [one])[k] == assets[k];
    } else {
      assert (assets + [one])[|assets|] == one;
    }
  }

  lemma OneMoreSeeded(assets: seq<Asset>, n: nat, gen: nat -> W.SharedEvent, one: Asset)
    requires Seeded(assets, n, gen) && one.externalId == gen(n).assetId
    ensures Seeded(assets + [one], n + 1, gen)
  {
    forall i | 0 <= i < n + 1 ensures P.FindAsset(assets + [one], gen(i).assetId).Some? {
      StillFound(assets, one, gen(i).assetId);
    }
  }

  lemma OneMoreDistinct(assets: seq<Asset>, one: Asset)
    requires DistinctNames(assets) && P.FindAsset(assets, one.externalId).None?
    ensures DistinctNames(assets + [one])
  {
  }

  predicate WellSeeded(assets: seq<Asset>, n: nat, gen: nat -> W.SharedEvent) {
    Seeded(assets, n, gen) && DistinctNames(assets)
  }

  lemma SeedNext(n: nat, gen: nat -> W.SharedEvent)
    requires WellSeeded(SeedAssets(n, gen), n, gen)
    ensures WellSeeded(SeedAssets(n + 1, gen), n + 1, gen)
  {
    var assets, one := SeedAssets(n, gen), Asset(gen(n).assetId, "registered");
    if P.FindAsset(assets, gen(n).assetId).None? {
      OneMoreSeeded(assets, n, gen, one);
      OneMoreDistinct(assets, one);
    }
  }

  /** Seeding gives every event of the workload its asset, and names no asset twice. */
  lemma SeedingSeeds(n: nat, gen: nat -> W.SharedEvent)
    ensures WellSeeded(SeedAssets(n, gen), n, gen)
  {
    for m := 0 to n
      invariant WellSeeded(SeedAssets(m, gen), m, gen)
    {
      SeedNext(m, gen);
    }
  }

  function Still(n: nat): (readings: seq<P.Readings>)
    ensures |readings| == n && AllWithin(readings, n)
  {
    seq(n, i => P.Readings(0, 0, 0, 0, 0, 0))
  }

  /** 66,664 events with their assets seeded and the clock standing still: not one is late, and the limit is missed. */
  lemma TooMany(seed: int, clocks: nat -> (nat -> Time)) returns (assets: seq<Asset>, readings: seq<P.Readings>)
    ensures |readings| == 66_664 && Seeded(assets, 66_664, W.Events(seed)) && DistinctNames(assets)
    ensures AllWithin(readings, 66_664)
    ensures Final(assets, 66_664, seed, readings, 10_000, clocks) != W.Expected(66_664)
  {
    readings := Still(66_664);
    assets := SeedAssets(66_664, W.Events(seed));
    SeedingSeeds(66_664, W.Events(seed));
    DefaultLimit(assets, 66_664, seed, readings, clocks);
  }

  // ---------------------------------------------------------------- the driver

  lemma {:induction false} NeverRaises(a: Action, clock: nat -> Time)
    requires a.state != Skipped
    ensures A.RetryLoop(a, CONFIG, clock).Ok?
    decreases A.Work(a, CONFIG.maxAttempts)
  {
    if Active(a) {
      A.RetryStep(a, CONFIG, clock);
      NeverRaises(A.ExecuteOnce(a, CONFIG, clock(a.attempts + 1)).value, clock);
    }
  }

  lemma {:induction false} AttemptsSuppressNothing(log: seq<Audit>, i: nat, n: int)
    ensures Count(log + A.Repeat(ActionExecuted(i), n), IsSuppression()) == Count(log, IsSuppression())
    decreases n
  {
    if n <= 0 {
      assert log + A.Repeat(ActionExecuted(i), n) == log;
    } else {
      var fewer := log + A.Repeat(ActionExecuted(i), n - 1);
      assert log + A.Repeat(ActionExecuted(i), n) == fewer + [ActionExecuted(i)];
      AttemptsSuppressNothing(log, i, n - 1);
      SumOne(fewer, ActionExecuted(i), Indicator(IsSuppression()));
    }
  }

  /** The event loop: every request is committed, or rolled back and counted as an error. */
  method IngestEvents(assets: seq<Asset>, n: nat, gen: nat -> W.SharedEvent, readings: seq<P.Readings>, maxBacklog: int)
    returns (db: Db, errors: nat)
    requires n <= |readings|
    ensures (db, errors) == Ingest(assets, n, gen, readings, maxBacklog)
  {
    var processor := new P.EventProcessor(START.(assets := assets), maxBacklog);
    errors := 0;
    for i := 0 to n
      invariant fresh(processor) && processor.maxBacklog == maxBacklog
      invariant (processor.View(), errors) == Ingest(assets, i, gen, readings, maxBacklog)
    {
      IngestNext(assets, i, gen, readings, maxBacklog);
      var r := processor.Ingest(PayloadOf(gen(i)), readings[i], []);
      if r.Err? {
        errors := errors + 1;
      }
    }
    db := processor.View();
  }

  method RetryAction(worker: A.ActionWorker, i: nat, clock: nat -> Time)
    requires worker.cfg == CONFIG && i < |worker.actions| && worker.actions[i].state == Queued
    modifies worker
    ensures A.RetryLoop(old(worker.actions[i]), CONFIG, clock).Ok?
    ensures worker.actions == old(worker.actions)[i := A.RetryLoop(old(worker.actions[i]), CONFIG, clock).value]
    ensures Count(worker.audits, IsSuppression()) == old(Count(worker.audits, IsSuppression()))
  {
    NeverRaises(worker.actions[i], clock);
    ghost var before, attempts := worker.audits, worker.actions[i].attempts;
    var r := worker.ExecuteActionWithRetry(i, clock);
    AttemptsSuppressNothing(before, i, worker.actions[i].attempts - attempts);
  }

  /** The action loop over the rows that are queued. */
  method RetryActions(db: Db, clocks: nat -> (nat -> Time)) returns (actions: seq<Action>, audits: seq<Audit>)
    ensures actions == RetryQueued(db.actions, clocks)
    ensures Count(audits, IsSuppression()) == Count(db.audits, IsSuppression())
  {
    var worker := new A.ActionWorker(db, CONFIG);
    for i := 0 to |db.actions|
      invariant fresh(worker) && worker.cfg == CONFIG && |worker.actions| == |db.actions|
      invariant forall j :: i <= j < |db.actions| ==> worker.actions[j] == db.actions[j]
      invariant forall j :: 0 <= j < i ==> worker.actions[j] == RetryQueued(db.actions, clocks)[j]
      invariant Count(worker.audits, IsSuppression()) == Count(db.audits, IsSuppression())
    {
      if worker.actions[i].state == Queued {
        RetryAction(worker, i, clocks(i));
      }
    }
    actions, audits := worker.actions, worker.audits;
  }

  /** run_python_engine_once, through the service's own methods. */
  method RunEngine(assets: seq<Asset>, n: nat, seed: int, readings: seq<P.Readings>, maxBacklog: int,
                   clocks: nat -> (nat -> Time)) returns (metrics: W.Counters)
    requires n <= |readings|
    ensures metrics == Final(assets, n, seed, readings, maxBacklog, clocks)
    ensures Seeded(assets, n, W.Events(seed)) ==>
              (metrics == W.Expected(n) <==> AllWithin(readings, n) && W.Actions(n) <= R.Capacity(maxBacklog))
  {
    var db, errors := IngestEvents(assets, n, W.Events(seed), readings, maxBacklog);
    var actions, audits := RetryActions(db, clocks);
    metrics := Metrics(db.(actions := actions, audits := audits), errors);
    if Seeded(assets, n, W.Events(seed)) {
      MeetsPrediction(assets, n, seed, readings, maxBacklog, clocks);
    }
  }
}
