/** The shared workload through the .NET engine, as its benchmark program runs it (RunOnceAsync). */
module NetWorkload {
  import opened Util
  import opened Text
  import opened NetStore
  import I = NetIngestion
  import Q = NetQueue
  import D = NetDrain
  import W = Workload

  const SECOND: Ticks := 10_000_000

  /** 2026-01-01T00:00:00Z */
  const YEAR_2026: Ticks := 739_616 * 86_400 * SECOND

  /** The program's options: default cooldown and attempts, no retry delay. */
  const OPTIONS: I.Options := I.Options(3, 300 * SECOND, 0)

  /** ReadEvents */
  function RequestOf(e: W.SharedEvent): I.EventRequest {
    I.EventRequest(e.source, e.assetId, e.category, e.severity, e.message, Some(e.executorMode),
                   Some(YEAR_2026 + e.occurredAt * SECOND))
  }

  /** A request that throws leaves the tables alone and is counted. */
  function Committed(db: Db, errors: nat, r: Result<(Db, IngestResult), I.Error>): (Db, nat) {
    if r.Ok? then (r.value.0, errors) else (db, errors + 1)
  }

  /** The tables, and the program's error count, after the first n events. */
  function Ingest(start: Db, n: nat, gen: nat -> W.SharedEvent, nows: seq<Ticks>): (Db, nat)
    requires n <= |nows|
  {
    if n == 0 then (start, 0)
    else
      var (db, errors) := Ingest(start, n - 1, gen, nows);
      Committed(db, errors, I.Ingest(db, RequestOf(gen(n - 1)), OPTIONS, nows[n - 1]))
  }

  /** The second event of a cycle reads the clock more than the cooldown after the first one did. */
  predicate Late(nows: seq<Ticks>, i: nat) { 0 < i < |nows| && nows[i - 1] < nows[i] - OPTIONS.cooldown }

  function LateIn(nows: seq<Ticks>): nat -> bool { (i: nat) => Late(nows, i) }

  predicate AllWithin(nows: seq<Ticks>, n: nat) { W.AllOnTime(LateIn(nows), n) }

  // ---------------------------------------------------------------- one event

  /** The event as it is stored. */
  function Stored(e: W.SharedEvent, now: Ticks): OpEvent {
    OpEvent(e.source, e.assetId, e.category, e.severity, e.message, e.executorMode,
            YEAR_2026 + e.occurredAt * SECOND, now)
  }

  predicate Solid(s: string) { s != "" && !I.White(s[0]) && !I.White(s[|s| - 1]) }

  lemma SolidJoin(a: string, b: string)
    requires Solid(a) && Solid(b)
    ensures Solid(a + b)
  {
    assert (a + b)[0] == a[0] && (a + b)[|a + b| - 1] == b[|b| - 1];
  }

  lemma SolidPlus(a: string, b: string)
    requires a != "" && !I.White(a[0]) && Solid(b)
    ensures Solid(a + b)
  {
    assert (a + b)[0] == a[0] && (a + b)[|a + b| - 1] == b[|b| - 1];
  }

  lemma SolidNumber(n: int)
    ensures Solid(Integer(n))
  {
    if n < 0 { SolidJoin("-", Decimal(-n)); }
  }

  lemma SolidSuffix(position: nat)
    ensures Solid(W.Suffix(position))
  {
    if position >= 5 { SolidJoin("normal-", Padded(position, 2)); }
  }

  lemma SolidAsset(seed: int, group: nat, suffix: string)
    requires Solid(suffix)
    ensures Solid(W.AssetId(seed, group, suffix))
  {
    SolidPlus("SYN-" + Integer(seed) + "-", Padded(group, 6) + "-" + suffix) by {
      assert "SYN-"[0] == 'S';
      SolidPlus(Padded(group, 6) + "-", suffix);
    }
  }

  lemma SolidMessage(index: nat, seed: int)
    ensures Solid(W.EventAt(index, seed).message)
  {
    var position := index % 20;
    SolidPlus("critical synthetic event ", Decimal(index));
    SolidPlus("cooldown duplicate synthetic event ", Decimal(index));
    SolidPlus("warning synthetic event ", Decimal(index));
    SolidPlus("transient synthetic event ", Decimal(index));
    SolidPlus("permanent synthetic event ", Decimal(index));
    SolidPlus("normal synthetic event ", Decimal(index));
  }

  lemma LowerCategory(category: string)
    requires category == "offline" || category == "degraded" || category == "heartbeat"
    ensures Solid(category) && I.Lower(category) == category
  {
    assert I.IsLower(category);
    I.LowerSame(category);
  }

  lemma SolidIsTrimmed(s: string)
    requires Solid(s)
    ensures !I.Blank(s) && I.Trimmed(s)
  {
  }

  /** The workload is written in canonical form, so normalization keeps it. */
  lemma StoredAsGenerated(index: nat, seed: int, now: Ticks)
    ensures var e := W.EventAt(index, seed); I.Normalize(RequestOf(e), now) == Ok(Stored(e, now))
  {
    var e := W.EventAt(index, seed);
    SolidNumber(seed % 997);
    SolidJoin("synthetic-source-", Integer(seed % 997));
    SolidSuffix(index % 20);
    SolidAsset(seed, index / 20, W.Suffix(index % 20));
    SolidMessage(index, seed);
    LowerCategory(e.category);
    assert I.Canonical(Stored(e, now)) by {
      SolidIsTrimmed(e.source);
      SolidIsTrimmed(e.assetId);
      SolidIsTrimmed(e.message);
      SolidIsTrimmed(e.category);
    }
    assert RequestOf(e) == I.AsRequest(Stored(e, now));
    I.NormalizeProjects(Stored(e, now));
  }

  // ---------------------------------------------------------------- what one event does

  /** The event is one of the cycle, and is stored as it is. */
  ghost predicate Plain(gen: nat -> W.SharedEvent, n: nat) {
    W.CyclicAt(gen, n) && forall now: Ticks :: I.Normalize(RequestOf(gen(n)), now) == Ok(Stored(gen(n), now))
  }

  lemma EventsArePlain(n: nat, seed: int)
    ensures Plain(W.Events(seed), n)
  {
    W.EventsAreCyclic(n, seed);
    forall now: Ticks
      ensures I.Normalize(RequestOf(W.Events(seed)(n)), now) == Ok(Stored(W.Events(seed)(n), now))
    {
      StoredAsGenerated(n, seed, now);
    }
  }

  ghost predicate AllPlain(gen: nat -> W.SharedEvent) { forall n: nat :: Plain(gen, n) }

  lemma WorkloadIsPlain(seed: int)
    ensures AllPlain(W.Events(seed))
  {
    forall n: nat ensures Plain(W.Events(seed), n) { EventsArePlain(n, seed); }
  }

  /** The verdict on the event at a position of the cycle. */
  lemma VerdictFor(index: nat, gen: nat -> W.SharedEvent, now: Ticks)
    requires W.CyclicAt(gen, index)
    ensures var v := Evaluate(Stored(gen(index), now));
            && (v.createIncident <==> index % 20 <= 4) && (v.queueAction <==> index % 20 in {0, 1, 3, 4})
  {
    assert "heartbeat"[0] !in {'o', 'c', 'd', 'w'} && "degraded"[0] !in {'o', 'c'};
  }

  /** Every incident was opened by an earlier event, for that event's asset. */
  predicate Named(incidents: seq<Incident>, n: nat, gen: nat -> W.SharedEvent) {
    forall i :: 0 <= i < |incidents| ==>
      incidents[i].event < n && incidents[i].asset == gen(incidents[i].event).assetId
  }

  /** The event at `index` has just opened an incident, the only one of its cycle so far. */
  predicate LastIsFirstOfCycle(incidents: seq<Incident>, index: nat, now: Ticks) {
    && incidents != []
    && (forall i :: 0 <= i < |incidents| - 1 ==> incidents[i].event < index)
    && var last := incidents[|incidents| - 1];
       last.event == index && last.category == "offline" && last.status == OPEN && last.createdAt == now
  }

  predicate Built(db: Db, n: nat, gen: nat -> W.SharedEvent, nows: seq<Ticks>)
    requires n <= |nows|
  {
    && |db.events| == n && Named(db.incidents, n, gen)
    && (n % 20 == 1 ==> LastIsFirstOfCycle(db.incidents, n - 1, nows[n - 1]))
  }

  /** Only the second event of a cycle meets a recent incident, and it does exactly when it is not late. */
  lemma RecentFor(incidents: seq<Incident>, n: nat, gen: nat -> W.SharedEvent, nows: seq<Ticks>)
    requires n < |nows| && Named(incidents, n, gen) && W.CyclicAt(gen, n)
    requires n % 20 == 1 ==> LastIsFirstOfCycle(incidents, n - 1, nows[n - 1])
    ensures var e := gen(n);
            RecentOpenIncident(incidents, e.assetId, e.category, nows[n] - OPTIONS.cooldown).Some?
            <==> n % 20 == 1 && !Late(nows, n)
  {
    var e := gen(n);
    forall i | 0 <= i < |incidents| && incidents[i].asset == e.assetId
      ensures n % 20 == 1 && i == |incidents| - 1
    {
      assert incidents[i].event < n;
    }
    if n % 20 == 1 {
      assert gen(n - 1).assetId == e.assetId;
      assert Recent(incidents[|incidents| - 1], e.assetId, e.category, nows[n] - OPTIONS.cooldown) <==> !Late(nows, n);
    }
  }

  /** The three things one write decision can do, told by two bits. */
  predicate Grown(db: Db, db': Db, q: Request, opens: bool, suppresses: bool) {
    && db'.events == db.events + [q.event]
    && db'.incidents == db.incidents + (if opens then [NewIncident(q, |db.events|)] else [])
    && db'.actions == db.actions + (if opens && q.verdict.queueAction then [NewAction(q, |db.incidents|)] else [])
    && Count(db'.audits, IsSuppression()) == Count(db.audits, IsSuppression()) + (if suppresses then 1 else 0)
  }

  function IsSuppression(): Audit -> bool { (a: Audit) => a.CooldownSuppressed? }

  lemma TwoAudits(log: seq<Audit>, a: Audit, b: Audit)
    ensures Count(log + [a] + [b], IsSuppression())
         == Count(log, IsSuppression()) + (if a.CooldownSuppressed? then 1 else 0) + (if b.CooldownSuppressed? then 1 else 0)
  {
    SumOne(log, a, Indicator(IsSuppression()));
    SumOne(log + [a], b, Indicator(IsSuppression()));
  }

  lemma RecordGrows(db: Db, q: Request)
    ensures var recent := RecentOpenIncident(db.incidents, q.event.asset, q.event.category, q.now - q.cooldown);
            Grown(db, Record(db, q).0, q, q.verdict.createIncident && recent.None?,
                  q.verdict.createIncident && recent.Some?)
  {
    var recent := RecentOpenIncident(db.incidents, q.event.asset, q.event.category, q.now - q.cooldown);
    var e, i := |db.events|, |db.incidents|;
    if !q.verdict.createIncident {
      TwoAudits(db.audits, EventReceived(e), NormalEventRecorded(e));
    } else if recent.Some? {
      TwoAudits(db.audits, EventReceived(e), CooldownSuppressed(recent.value));
    } else {
      TwoAudits(db.audits, EventReceived(e), IncidentCreated(i));
      SumOne(db.audits + [EventReceived(e)] + [IncidentCreated(i)], ActionQueued(|db.actions|), Indicator(IsSuppression()));
    }
  }

  function RequestAt(n: nat, gen: nat -> W.SharedEvent, now: Ticks): Request {
    I.RequestFor(Stored(gen(n), now), OPTIONS, now)
  }

  lemma EventGrows(db: Db, n: nat, gen: nat -> W.SharedEvent, nows: seq<Ticks>)
    requires n < |nows| && Built(db, n, gen, nows) && Plain(gen, n)
    ensures var r := I.Ingest(db, RequestOf(gen(n)), OPTIONS, nows[n]);
            && r.Ok?
            && Grown(db, r.value.0, RequestAt(n, gen, nows[n]), W.Opens(n, Late(nows, n)),
                     n % 20 == 1 && !Late(nows, n))
    ensures W.Opens(n, Late(nows, n)) ==> (RequestAt(n, gen, nows[n]).verdict.queueAction <==> n % 20 != 2)
  {
    VerdictFor(n, gen, nows[n]);
    RecentFor(db.incidents, n, gen, nows);
    RecordGrows(db, RequestAt(n, gen, nows[n]));
  }

  lemma StaysBuilt(db: Db, db': Db, n: nat, gen: nat -> W.SharedEvent, nows: seq<Ticks>, suppresses: bool)
    requires n < |nows| && Built(db, n, gen, nows) && W.CyclicAt(gen, n)
    requires Grown(db, db', RequestAt(n, gen, nows[n]), W.Opens(n, Late(nows, n)), suppresses)
    ensures Built(db', n + 1, gen, nows)
  {
    forall i | 0 <= i < |db'.incidents|
      ensures db'.incidents[i].event < n + 1
      ensures db'.incidents[i].asset == gen(db'.incidents[i].event).assetId
    {
      if i < |db.incidents| { assert db'.incidents[i] == db.incidents[i]; }
    }
    W.NewCycle(n);
    if n % 20 == 0 {
      assert gen(n).category == "offline";
      assert LastIsFirstOfCycle(db'.incidents, n, nows[n]);
    }
  }

  // ---------------------------------------------------------------- all events

  function HasMode(mode: string): QueuedAction -> bool { (a: QueuedAction) => a.executorMode == mode }

  predicate ModesCounted(actions: seq<QueuedAction>, c: W.Counters) {
    && Count(actions, HasMode("success")) + c.retries == c.succeeded
    && Count(actions, HasMode("transient_then_success")) == c.retries
    && Count(actions, HasMode("permanent_failure")) == c.failed
  }

  /** Actions as ingestion leaves them, created no later than `bound`. */
  predicate Fresh(actions: seq<QueuedAction>, bound: Ticks) {
    forall i :: 0 <= i < |actions| ==>
      var a := actions[i];
      && a.status == Queued && a.attempts == 0 && a.maxAttempts == OPTIONS.maxAttempts && I.IsMode(a.executorMode)
      && a.nextAttemptAt <= bound
  }

  predicate ReadBy(nows: seq<Ticks>, n: nat, bound: Ticks)
    requires n <= |nows|
  {
    forall i :: 0 <= i < n ==> nows[i] <= bound
  }

  /** How the tables compare with the prediction, when so many second events have come too late. */
  predicate OnTrack(db: Db, c: W.Counters, late: nat, bound: Ticks) {
    && Fresh(db.actions, bound)
    && Count(db.audits, IsSuppression()) + late == c.suppressions
    && (late == 0 ==> |db.incidents| == c.incidents && |db.actions| == c.actions && ModesCounted(db.actions, c))
  }

  lemma CountsMode(actions: seq<QueuedAction>, a: QueuedAction, mode: string)
    ensures Count(actions + [a], HasMode(mode)) == Count(actions, HasMode(mode)) + (if a.executorMode == mode then 1 else 0)
  {
    SumOne(actions, a, Indicator(HasMode(mode)));
  }

  lemma OneMoreMode(actions: seq<QueuedAction>, a: QueuedAction, c: W.Counters, position: nat)
    requires ModesCounted(actions, c) && position in {0, 3, 4} && a.executorMode == W.ModeAt(position)
    ensures ModesCounted(actions + [a], W.Plus(c, position))
  {
    W.ModesDiffer();
    CountsMode(actions, a, "success");
    CountsMode(actions, a, "transient_then_success");
    CountsMode(actions, a, "permanent_failure");
  }

  lemma StaysOnTrack(db: Db, db': Db, q: Request, n: nat, c: W.Counters, late: nat, isLate: bool, bound: Ticks)
    requires OnTrack(db, c, late, bound) && q.now <= bound && q.maxAttempts == OPTIONS.maxAttempts
    requires Grown(db, db', q, W.Opens(n, isLate), n % 20 == 1 && !isLate)
    requires q.event.executorMode == W.ModeAt(n % 20)
    requires W.Opens(n, isLate) ==> (q.verdict.queueAction <==> n % 20 != 2)
    ensures OnTrack(db', W.Plus(c, n % 20), late + (if n % 20 == 1 && isLate then 1 else 0), bound)
  {
    if W.Opens(n, isLate) && n % 20 != 2 {
      var a := NewAction(q, |db.incidents|);
      assert db'.actions == db.actions + [a];
      if late == 0 && n % 20 != 1 { OneMoreMode(db.actions, a, c, n % 20); }
    } else {
      assert db'.actions == db.actions;
    }
  }

  predicate Tracked(db: Db, n: nat, gen: nat -> W.SharedEvent, nows: seq<Ticks>, bound: Ticks)
    requires n <= |nows|
  {
    Built(db, n, gen, nows) && OnTrack(db, W.Predicted(n), W.LateEvents(LateIn(nows), n), bound)
  }

  lemma PredictionNext(n: nat, nows: seq<Ticks>)
    ensures W.Predicted(n + 1) == W.Plus(W.Predicted(n), n % 20)
    ensures W.LateEvents(LateIn(nows), n + 1)
         == W.LateEvents(LateIn(nows), n) + (if n % 20 == 1 && Late(nows, n) then 1 else 0)
  {
    W.PredictedNext(n);
    W.LateNext(LateIn(nows), n);
  }

  lemma StaysTracked(db: Db, db': Db, n: nat, gen: nat -> W.SharedEvent, nows: seq<Ticks>, bound: Ticks)
    requires n < |nows| && nows[n] <= bound && Tracked(db, n, gen, nows, bound) && W.CyclicAt(gen, n)
    requires Grown(db, db', RequestAt(n, gen, nows[n]), W.Opens(n, Late(nows, n)), n % 20 == 1 && !Late(nows, n))
    requires W.Opens(n, Late(nows, n)) ==> (RequestAt(n, gen, nows[n]).verdict.queueAction <==> n % 20 != 2)
    ensures Tracked(db', n + 1, gen, nows, bound)
  {
    var late := Late(nows, n);
    StaysBuilt(db, db', n, gen, nows, n % 20 == 1 && !late);
    StaysOnTrack(db, db', RequestAt(n, gen, nows[n]), n, W.Predicted(n), W.LateEvents(LateIn(nows), n), late, bound);
    PredictionNext(n, nows);
  }

  lemma IngestNext(start: Db, n: nat, gen: nat -> W.SharedEvent, nows: seq<Ticks>)
    requires n < |nows|
    ensures var (db, errors) := Ingest(start, n, gen, nows);
            Ingest(start, n + 1, gen, nows)
              == Committed(db, errors, I.Ingest(db, RequestOf(gen(n)), OPTIONS, nows[n]))
  {
  }

  predicate Clean(db: Db) { db.events == [] && db.incidents == [] && db.actions == [] && db.audits == [] }

  lemma StartOnTrack(db: Db, bound: Ticks)
    requires Clean(db)
    ensures OnTrack(db, W.ZERO, 0, bound)
  {
  }

  lemma StartBuilt(db: Db, gen: nat -> W.SharedEvent, nows: seq<Ticks>)
    requires Clean(db)
    ensures Built(db, 0, gen, nows)
  {
  }

  lemma StartTracked(db: Db, gen: nat -> W.SharedEvent, nows: seq<Ticks>, bound: Ticks)
    requires Clean(db)
    ensures Tracked(db, 0, gen, nows, bound)
  {
    StartOnTrack(db, bound);
    StartBuilt(db, gen, nows);
    W.PredictedZero();
    assert W.LateEvents(LateIn(nows), 0) == 0;
  }

  predicate Ingested(start: Db, n: nat, gen: nat -> W.SharedEvent, nows: seq<Ticks>, bound: Ticks)
    requires n <= |nows|
  {
    var (db, errors) := Ingest(start, n, gen, nows);
    errors == 0 && Tracked(db, n, gen, nows, bound)
  }

  lemma NothingIngested(start: Db, gen: nat -> W.SharedEvent, nows: seq<Ticks>, bound: Ticks)
    requires Clean(start)
    ensures Ingested(start, 0, gen, nows, bound)
  {
    StartTracked(start, gen, nows, bound);
  }

  lemma OneMoreIngested(start: Db, n: nat, gen: nat -> W.SharedEvent, nows: seq<Ticks>, bound: Ticks)
    requires n < |nows| && nows[n] <= bound && AllPlain(gen) && Ingested(start, n, gen, nows, bound)
    ensures Ingested(start, n + 1, gen, nows, bound)
  {
    var db := Ingest(start, n, gen, nows).0;
    assert Plain(gen, n);
    EventGrows(db, n, gen, nows);
    StaysTracked(db, I.Ingest(db, RequestOf(gen(n)), OPTIONS, nows[n]).value.0, n, gen, nows, bound);
    IngestNext(start, n, gen, nows);
  }

  /** No request throws, and the tables are as the prediction has them after every prefix, late events aside. */
  lemma IngestTracks(start: Db, n: nat, gen: nat -> W.SharedEvent, nows: seq<Ticks>, bound: Ticks)
    requires Clean(start) && n <= |nows| && ReadBy(nows, n, bound) && AllPlain(gen)
    ensures Ingested(start, n, gen, nows, bound)
  {
    NothingIngested(start, gen, nows, bound);
    for m := 0 to n
      invariant Ingested(start, m, gen, nows, bound)
    {
      OneMoreIngested(start, m, gen, nows, bound);
    }
  }

  // ---------------------------------------------------------------- the rounds

  function Retries(): QueuedAction -> nat { (a: QueuedAction) => if a.attempts > 1 then a.attempts - 1 else 0 }

  /** GetMetricsAsync, with the program's own error count */
  function Metrics(db: Db, errors: nat): W.Counters {
    W.Counters(|db.events|, |db.incidents|, |db.actions|, Count(db.audits, IsSuppression()),
               Count(db.actions, Q.StatusTest(Succeeded)), Count(db.actions, Q.Failed()), Sum(db.actions, Retries()),
               Count(db.actions, Q.StatusTest(FailedPermanent)), errors)
  }

  /** The tables when ingestion is over. */
  function Ready(n: nat, seed: int, nows: seq<Ticks>): Db
    requires n <= |nows|
  {
    Ingest(EMPTY, n, W.Events(seed), nows).0
  }

  /** Rounds of attempts after ingestion, with any clock readings. */
  ghost predicate Running(n: nat, seed: int, nows: seq<Ticks>, rounds: seq<Q.Round>)
    requires n <= |nows|
  {
    D.LegalRun(Ready(n, seed, nows), rounds, OPTIONS.retryDelay)
  }

  /** The tables when the rounds are over. */
  ghost function Ended(n: nat, seed: int, nows: seq<Ticks>, rounds: seq<Q.Round>): Db
    requires n <= |nows| && Running(n, seed, nows, rounds)
  {
    D.Drain(Ready(n, seed, nows), rounds, OPTIONS.retryDelay)
  }

  ghost function Final(n: nat, seed: int, nows: seq<Ticks>, rounds: seq<Q.Round>): W.Counters
    requires n <= |nows| && Running(n, seed, nows, rounds)
  {
    Metrics(Ended(n, seed, nows, rounds), Ingest(EMPTY, n, W.Events(seed), nows).1)
  }

  /** The clock does not step back: no round reads earlier than an ingestion did, or than the round before it ended. */
  predicate InOrder(n: nat, nows: seq<Ticks>, rounds: seq<Q.Round>)
    requires n <= |nows|
  {
    rounds != [] ==> ReadBy(nows, n, rounds[0].now) && D.Advancing(rounds, rounds[0].now, OPTIONS.retryDelay)
  }

  /** A round changes action rows and adds audits of attempts. */
  predicate OnlyActions(db: Db, db': Db) {
    && db'.events == db.events && db'.incidents == db.incidents && |db'.actions| == |db.actions|
    && Count(db'.audits, IsSuppression()) == Count(db.audits, IsSuppression())
  }

  lemma {:induction false} RoundIsApart(db: Db, sel: seq<nat>, ends: seq<Ticks>, retryDelay: Ticks)
    requires Q.InTable(db.actions, sel) && |ends| == |sel|
    ensures OnlyActions(db, Q.AttemptAll(db, sel, ends, retryDelay))
    decreases |sel|
  {
    if sel != [] {
      var next := Q.AttemptAt(db, sel[0], ends[0], retryDelay);
      SumOne(db.audits, Q.AuditOf(next.actions[sel[0]].status, sel[0]), Indicator(IsSuppression()));
      RoundIsApart(next, sel[1..], ends[1..], retryDelay);
    }
  }

  lemma {:induction false} DrainIsApart(db: Db, rounds: seq<Q.Round>, retryDelay: Ticks)
    requires D.LegalRun(db, rounds, retryDelay)
    ensures OnlyActions(db, D.Drain(db, rounds, retryDelay))
    decreases |rounds|
  {
    if rounds != [] {
      RoundIsApart(db, rounds[0].sel, rounds[0].ends, retryDelay);
      DrainIsApart(D.After(db, rounds[0], retryDelay), rounds[1..], retryDelay);
    }
  }

  /** Fresh actions of the workload and what became of them. */
  predicate Destined(actions: seq<QueuedAction>, after: seq<QueuedAction>) {
    |after| == |actions| && forall j :: 0 <= j < |actions| ==> D.DestinyOf(after[j]) == D.DestinyOf(actions[j])
  }

  predicate NoneOpen(actions: seq<QueuedAction>) { forall j :: 0 <= j < |actions| ==> !Open(actions[j]) }

  /** Ended actions are counted by the modes they were created with. */
  lemma {:induction false} EndsByMode(actions: seq<QueuedAction>, after: seq<QueuedAction>, bound: Ticks)
    requires Fresh(actions, bound) && Destined(actions, after) && NoneOpen(after)
    ensures var (permanent, transient) := (Count(actions, HasMode("permanent_failure")),
                                           Count(actions, HasMode("transient_then_success")));
            && Count(after, Q.StatusTest(Succeeded)) == Count(actions, HasMode("success")) + transient
            && Count(after, Q.Failed()) == permanent && Count(after, Q.StatusTest(FailedPermanent)) == permanent
            && Sum(after, Retries()) == transient
  {
    if actions != [] {
      var last := |actions| - 1;
      W.ModesDiffer();
      EndsByMode(actions[..last], after[..last], bound);
      assert D.DestinyOf(after[last]) == D.DestinyOf(actions[last]);
      assert D.DestinyOf(after[last]) == D.Destiny(after[last].status, after[last].attempts);
    }
  }

  lemma {:induction false} EndedOrOpen(actions: seq<QueuedAction>)
    ensures Count(actions, Q.StatusTest(Succeeded)) + Count(actions, Q.Failed()) + Count(actions, Q.IsOpen()) == |actions|
  {
    if actions != [] { EndedOrOpen(actions[..|actions| - 1]); }
  }

  /** What ingestion leaves, in the terms of the prediction. */
  lemma ReadyFor(n: nat, seed: int, nows: seq<Ticks>, bound: Ticks)
    requires n <= |nows| && ReadBy(nows, n, bound)
    ensures var (db, late) := (Ready(n, seed, nows), W.LateEvents(LateIn(nows), n));
            && Ingest(EMPTY, n, W.Events(seed), nows).1 == 0 && |db.events| == n && OnTrack(db, W.Expected(n), late, bound)
            && (late == 0 <==> AllWithin(nows, n))
  {
    WorkloadIsPlain(seed);
    IngestTracks(EMPTY, n, W.Events(seed), nows, bound);
    W.NoneLate(LateIn(nows), n);
    W.PredictedIsExpected(n);
  }

  /** A time by which the clock has been read n times. */
  lemma SomeBound(n: nat, nows: seq<Ticks>) returns (bound: Ticks)
    requires n <= |nows|
    ensures ReadBy(nows, n, bound)
  {
    bound := D.Latest(nows, 0);
  }

  lemma NoneOpenCount(actions: seq<QueuedAction>)
    ensures NoneOpen(actions) <==> Count(actions, Q.IsOpen()) == 0
  {
    if Count(actions, Q.IsOpen()) == 0 {
      forall j | 0 <= j < |actions| ensures !Open(actions[j]) { SumAtLeast(actions, j, Indicator(Q.IsOpen())); }
    } else {
      var j := SumPositive(actions, Indicator(Q.IsOpen()));
      assert Open(actions[j]);
    }
  }

  /**
   * Whatever the clock reads: the run ends with the predicted counters if and only if each second critical event of a
   * cycle reads the clock within the cooldown of the first, and every action has ended.
   */
  lemma PredictedIffEnded(n: nat, seed: int, nows: seq<Ticks>, rounds: seq<Q.Round>)
    requires n <= |nows| && Running(n, seed, nows, rounds)
    ensures Final(n, seed, nows, rounds) == W.Expected(n) <==>
            AllWithin(nows, n) && NoneOpen(Ended(n, seed, nows, rounds).actions)
  {
    var (db, end) := (Ready(n, seed, nows), Ended(n, seed, nows, rounds));
    var bound := SomeBound(n, nows);
    ReadyFor(n, seed, nows, bound);
    DrainIsApart(db, rounds, OPTIONS.retryDelay);
    EndedOrOpen(end.actions);
    NoneOpenCount(end.actions);
    if NoneOpen(end.actions) {
      forall j | 0 <= j < |db.actions| ensures D.DestinyOf(end.actions[j]) == D.DestinyOf(db.actions[j]) {
        D.DrainKeeps(db, rounds, OPTIONS.retryDelay, j);
      }
      EndsByMode(db.actions, end.actions, bound);
    }
  }

  lemma FreshIsDue(actions: seq<QueuedAction>, bound: Ticks, t: Ticks)
    requires Fresh(actions, bound) && bound <= t
    ensures D.AllDue(actions, t)
  {
  }

  /** With the clock in order every round finds due whatever is open. */
  lemma InOrderIsDue(n: nat, seed: int, nows: seq<Ticks>, rounds: seq<Q.Round>)
    requires n <= |nows| && Running(n, seed, nows, rounds) && InOrder(n, nows, rounds)
    ensures D.EachDue(Ready(n, seed, nows), rounds, OPTIONS.retryDelay)
    ensures rounds != [] ==> D.AllFrom(rounds, rounds[0].now)
  {
    if rounds != [] {
      var start := rounds[0].now;
      ReadyFor(n, seed, nows, start);
      FreshIsDue(Ready(n, seed, nows).actions, start, start);
      D.OrderedClockIsDue(Ready(n, seed, nows), rounds, start, OPTIONS.retryDelay);
    }
  }

  /**
   * Rounds with any positive limits, until one processes nothing, end with the predicted counters if and only if no
   * second event came late and the last round found due whatever was still open, as it does with the clock in order.
   */
  lemma MeetsPrediction(n: nat, seed: int, nows: seq<Ticks>, rounds: seq<Q.Round>)
    requires n <= |nows| && Running(n, seed, nows, rounds)
    requires rounds != [] && rounds[|rounds| - 1].sel == [] && rounds[|rounds| - 1].limit >= 1
    ensures Final(n, seed, nows, rounds) == W.Expected(n) <==>
            AllWithin(nows, n) && D.AllDue(Ended(n, seed, nows, rounds).actions, rounds[|rounds| - 1].now)
    ensures InOrder(n, nows, rounds) ==> (Final(n, seed, nows, rounds) == W.Expected(n) <==> AllWithin(nows, n))
  {
    PredictedIffEnded(n, seed, nows, rounds);
    D.NothingLeft(Ended(n, seed, nows, rounds).actions);
    D.EmptyRoundDecides(Ready(n, seed, nows), rounds, OPTIONS.retryDelay);
    if InOrder(n, nows, rounds) {
      InOrderIsDue(n, seed, nows, rounds);
      D.EmptyRoundEnds(Ready(n, seed, nows), rounds, OPTIONS.retryDelay);
    }
  }

  // ---------------------------------------------------------------- ten rounds

  const ROUNDS: nat := 10
  const LIMIT: nat := 10_000

  /** The program's loop: at most ten rounds, stopping at the first that processes nothing. */
  predicate TenRounds(rounds: seq<Q.Round>) {
    && D.Limited(rounds, LIMIT) && |rounds| <= ROUNDS
    && (|rounds| < ROUNDS ==> rounds != [] && rounds[|rounds| - 1].sel == [])
    && (forall i :: 0 <= i < |rounds| - 1 ==> rounds[i].sel != [])
  }

  lemma {:induction false} AttemptsNeeded(actions: seq<QueuedAction>, bound: Ticks)
    requires Fresh(actions, bound)
    ensures D.TotalLeft(actions) == Count(actions, HasMode("success"))
              + 2 * Count(actions, HasMode("transient_then_success")) + Count(actions, HasMode("permanent_failure"))
    ensures D.Unattempted(actions) == |actions|
  {
    if actions != [] {
      W.ModesDiffer();
      AttemptsNeeded(actions[..|actions| - 1], bound);
    }
  }

  /** Without late events every action needs one attempt, and every transient one a second. */
  lemma ReadyNeeds(n: nat, seed: int, nows: seq<Ticks>, bound: Ticks)
    requires n <= |nows| && ReadBy(nows, n, bound) && AllWithin(nows, n)
    ensures var actions := Ready(n, seed, nows).actions;
            && Fresh(actions, bound) && |actions| == W.Actions(n) == D.Unattempted(actions)
            && D.TotalLeft(actions) == W.Actions(n) + W.At(n, 3)
            && Count(actions, HasMode("transient_then_success")) == W.At(n, 3)
  {
    ReadyFor(n, seed, nows, bound);
    AttemptsNeeded(Ready(n, seed, nows).actions, bound);
  }

  /** The clock has moved on between the last event and the first round, and does not step back within a round. */
  predicate Later(n: nat, nows: seq<Ticks>, rounds: seq<Q.Round>)
    requires n <= |nows|
  {
    rounds != [] ==> ReadBy(nows, n, rounds[0].now - 1) && D.AllPunctual(rounds)
  }

  /** The program always has such a run, whatever the clock reads during ingestion. */
  lemma TenRoundsExist(n: nat, seed: int, nows: seq<Ticks>, start: Ticks) returns (rounds: seq<Q.Round>)
    requires n <= |nows| && ReadBy(nows, n, start - 1)
    ensures Running(n, seed, nows, rounds) && TenRounds(rounds) && InOrder(n, nows, rounds) && Later(n, nows, rounds)
  {
    rounds := D.RunExists(Ready(n, seed, nows), start, OPTIONS.retryDelay, LIMIT, ROUNDS);
  }

  lemma {:induction false} TakenWithin(rounds: seq<Q.Round>, limit: nat)
    requires forall i :: 0 <= i < |rounds| ==> |rounds[i].sel| <= limit
    ensures D.Taken(rounds) <= |rounds| * limit
    decreases |rounds|
  {
    if rounds != [] { TakenWithin(rounds[1..], limit); }
  }

  lemma {:induction false} BatchesWithin(db: Db, rounds: seq<Q.Round>, retryDelay: Ticks, limit: nat)
    requires D.LegalRun(db, rounds, retryDelay) && D.Limited(rounds, limit)
    ensures forall i :: 0 <= i < |rounds| ==> |rounds[i].sel| <= limit
    decreases |rounds|
  {
    if rounds != [] {
      BatchesWithin(D.After(db, rounds[0], retryDelay), rounds[1..], retryDelay, limit);
      forall i | 0 <= i < |rounds| ensures |rounds[i].sel| <= limit {
        assert i > 0 ==> rounds[i] == rounds[1..][i - 1];
      }
    }
  }

  /** No ten rounds finish more than 500,000 events, whatever the clock reads. */
  lemma TenRoundsAtMost(n: nat, seed: int, nows: seq<Ticks>, rounds: seq<Q.Round>)
    requires n <= |nows| && Running(n, seed, nows, rounds) && AllWithin(nows, n)
    requires D.Limited(rounds, LIMIT) && |rounds| <= ROUNDS
    ensures NoneOpen(Ended(n, seed, nows, rounds).actions) ==> n <= 500_000
  {
    var db := Ready(n, seed, nows);
    var bound := SomeBound(n, nows);
    ReadyNeeds(n, seed, nows, bound);
    W.AttemptsWithinTenRounds(n);
    D.NothingLeft(Ended(n, seed, nows, rounds).actions);
    D.DrainUsesUp(db, rounds, OPTIONS.retryDelay);
    BatchesWithin(db, rounds, OPTIONS.retryDelay, LIMIT);
    TakenWithin(rounds, LIMIT);
  }

  /** With the clock in order, and however the due query breaks ties, ten rounds finish up to 450,003 events. */
  lemma TenRoundsAnyway(n: nat, seed: int, nows: seq<Ticks>, rounds: seq<Q.Round>)
    requires n <= |nows| && Running(n, seed, nows, rounds) && TenRounds(rounds) && AllWithin(nows, n)
    requires InOrder(n, nows, rounds) && n <= 450_003
    ensures NoneOpen(Ended(n, seed, nows, rounds).actions)
  {
    var db := Ready(n, seed, nows);
    var bound := SomeBound(n, nows);
    ReadyNeeds(n, seed, nows, bound);
    W.AttemptsWithinTenRounds(n);
    InOrderIsDue(n, seed, nows, rounds);
    D.NothingLeft(Ended(n, seed, nows, rounds).actions);
    if |rounds| < ROUNDS {
      D.EmptyRoundEnds(db, rounds, OPTIONS.retryDelay);
    } else {
      D.DrainedAnyway(db, rounds, OPTIONS.retryDelay, LIMIT);
    }
  }

  /** When the clock has moved on, ten rounds finish up to 500,000 events. */
  lemma TenRoundsSuffice(n: nat, seed: int, nows: seq<Ticks>, rounds: seq<Q.Round>)
    requires n <= |nows| && Running(n, seed, nows, rounds) && TenRounds(rounds) && AllWithin(nows, n)
    requires InOrder(n, nows, rounds) && Later(n, nows, rounds) && n <= 500_000
    ensures NoneOpen(Ended(n, seed, nows, rounds).actions)
  {
    var db, start := Ready(n, seed, nows), rounds[0].now;
    ReadyNeeds(n, seed, nows, start - 1);
    W.AttemptsWithinTenRounds(n);
    InOrderIsDue(n, seed, nows, rounds);
    D.NothingLeft(Ended(n, seed, nows, rounds).actions);
    if |rounds| < ROUNDS {
      D.EmptyRoundEnds(db, rounds, OPTIONS.retryDelay);
    } else {
      D.ReachIsDrained(db, rounds, start, OPTIONS.retryDelay, LIMIT);
    }
  }

  /** What decides, among the events and the clock readings, whether ten rounds meet the prediction. */
  predicate Decided(n: nat, nows: seq<Ticks>, rounds: seq<Q.Round>, met: bool)
    requires n <= |nows|
  {
    && (met ==> AllWithin(nows, n) && n <= 500_000)
    && (InOrder(n, nows, rounds) && n <= 450_003 ==> (met <==> AllWithin(nows, n)))
    && (InOrder(n, nows, rounds) && Later(n, nows, rounds) ==> (met <==> AllWithin(nows, n) && n <= 500_000))
  }

  /**
   * The benchmark program itself, whatever the clock reads, meets the prediction if and only if no event came late and
   * every action has ended. That takes at most 500,000 events; with the clock in order up to 450,003 always do; and with
   * a first round that reads a later clock than ingestion did, the number of events decides.
   */
  lemma BenchmarkMeetsPrediction(n: nat, seed: int, nows: seq<Ticks>, rounds: seq<Q.Round>)
    requires n <= |nows| && Running(n, seed, nows, rounds) && TenRounds(rounds)
    ensures Final(n, seed, nows, rounds) == W.Expected(n) <==>
            AllWithin(nows, n) && NoneOpen(Ended(n, seed, nows, rounds).actions)
    ensures Decided(n, nows, rounds, Final(n, seed, nows, rounds) == W.Expected(n))
  {
    PredictedIffEnded(n, seed, nows, rounds);
    if AllWithin(nows, n) {
      TenRoundsAtMost(n, seed, nows, rounds);
      if InOrder(n, nows, rounds) && n <= 450_003 { TenRoundsAnyway(n, seed, nows, rounds); }
      if InOrder(n, nows, rounds) && Later(n, nows, rounds) && n <= 500_000 { TenRoundsSuffice(n, seed, nows, rounds); }
    }
  }

  /** An input beyond it: one more event than that, with a clock that stands still while it ingests. */
  lemma TooLong(seed: int) returns (nows: seq<Ticks>, rounds: seq<Q.Round>)
    ensures |nows| == 500_001 && AllWithin(nows, 500_001) && Running(500_001, seed, nows, rounds)
    ensures TenRounds(rounds) && InOrder(500_001, nows, rounds) && Later(500_001, nows, rounds)
    ensures Final(500_001, seed, nows, rounds) != W.Expected(500_001)
  {
    nows := Still(500_001);
    rounds := TenRoundsExist(500_001, seed, nows, 1);
    BenchmarkMeetsPrediction(500_001, seed, nows, rounds);
  }

  function Still(n: nat): (nows: seq<Ticks>)
    ensures |nows| == n && AllWithin(nows, n) && ReadBy(nows, n, 0)
    ensures forall i :: 0 <= i < n ==> nows[i] == 0
  {
    seq(n, i => 0)
  }

  /** A single round that reads the clock before anything is due stops the program with everything still to do. */
  lemma StopsEarly(n: nat, seed: int, nows: seq<Ticks>, r: Q.Round)
    requires n <= |nows| && r.limit == LIMIT && r.sel == [] && r.ends == []
    requires var actions := Ready(n, seed, nows).actions;
             |actions| > 0 && Open(actions[0]) && D.Stamped(actions, r.now + 2)
    ensures Running(n, seed, nows, [r]) && TenRounds([r]) && !NoneOpen(Ended(n, seed, nows, [r]).actions)
  {
    D.NothingDueYet(Ready(n, seed, nows), r, OPTIONS.retryDelay);
  }

  /** The order of the clock is needed: one event read at 5 and a round that reads 3, finds nothing due and stops. */
  lemma SteppingBack(seed: int, nows: seq<Ticks>, r: Q.Round)
    requires nows == [5] && r == Q.Round(3, LIMIT, [], [])
    ensures Running(1, seed, nows, [r]) && TenRounds([r]) && AllWithin(nows, 1) && !InOrder(1, nows, [r])
    ensures Final(1, seed, nows, [r]) != W.Expected(1)
  {
    ReadyStamps(1, seed, nows, 5);
    OneAction(seed, nows);
    StopsEarly(1, seed, nows, r);
    PredictedIffEnded(1, seed, nows, [r]);
  }

  lemma OneAction(seed: int, nows: seq<Ticks>)
    requires |nows| == 1 && AllWithin(nows, 1)
    ensures |Ready(1, seed, nows).actions| == 1 && Open(Ready(1, seed, nows).actions[0])
  {
    var bound := SomeBound(1, nows);
    ReadyNeeds(1, seed, nows, bound);
    assert W.Actions(1) == 1;
  }

  // ---------------------------------------------------------------- when every reading is the same

  lemma RecordStamps(db: Db, q: Request)
    requires D.Stamped(db.actions, q.now)
    ensures D.Stamped(Record(db, q).0.actions, q.now)
  {
  }

  lemma IngestStamps(db: Db, r: I.EventRequest, now: Ticks)
    requires D.Stamped(db.actions, now) && I.Ingest(db, r, OPTIONS, now).Ok?
    ensures D.Stamped(I.Ingest(db, r, OPTIONS, now).value.0.actions, now)
  {
    RecordStamps(db, I.RequestFor(I.Normalize(r, now).value, OPTIONS, now));
  }

  /** Actions carry the reading they were created at. */
  lemma StampedAll(n: nat, gen: nat -> W.SharedEvent, nows: seq<Ticks>, t: Ticks)
    requires n <= |nows| && forall i :: 0 <= i < n ==> nows[i] == t
    ensures D.Stamped(Ingest(EMPTY, n, gen, nows).0.actions, t)
  {
    for m := 0 to n
      invariant D.Stamped(Ingest(EMPTY, m, gen, nows).0.actions, t)
    {
      IngestNext(EMPTY, m, gen, nows);
      var (db, r) := (Ingest(EMPTY, m, gen, nows).0, RequestOf(gen(m)));
      if I.Ingest(db, r, OPTIONS, t).Ok? { IngestStamps(db, r, t); }
    }
  }

  lemma ReadyStamps(n: nat, seed: int, nows: seq<Ticks>, t: Ticks)
    requires n <= |nows| && forall i :: 0 <= i < n ==> nows[i] == t
    ensures D.Stamped(Ready(n, seed, nows).actions, t)
  {
    StampedAll(n, W.Events(seed), nows, t);
  }

  lemma AllAreOpen(actions: seq<QueuedAction>, bound: Ticks)
    requires Fresh(actions, bound)
    ensures Count(actions, Q.IsOpen()) == |actions|
  {
    SumPointwise(actions, actions, Indicator(Q.IsOpen()), One());
    SumOfOnes(actions);
  }

  function One(): QueuedAction -> nat { (a: QueuedAction) => 1 }

  lemma {:induction false} SumOfOnes(actions: seq<QueuedAction>)
    ensures Sum(actions, One()) == |actions|
  {
    if actions != [] { SumOfOnes(actions[..|actions| - 1]); }
  }

  /** From 450,004 events on, one transient action can be starved through nine rounds, and cannot end in the tenth. */
  lemma StillStarves(n: nat, seed: int, nows: seq<Ticks>) returns (rounds: seq<Q.Round>)
    requires n == |nows| && n >= 450_004 && AllWithin(nows, n) && forall i :: 0 <= i < n ==> nows[i] == 0
    ensures Running(n, seed, nows, rounds) && TenRounds(rounds) && InOrder(n, nows, rounds)
    ensures !NoneOpen(Ended(n, seed, nows, rounds).actions)
  {
    var db := Ready(n, seed, nows);
    ReadyNeeds(n, seed, nows, 0);
    ReadyStamps(n, seed, nows, 0);
    W.AttemptsBeyond(n);
    AllAreOpen(db.actions, 0);
    var x := SumPositive(db.actions, Indicator(HasMode("transient_then_success")));
    assert D.Starvable(db.actions, x, ROUNDS - 1, LIMIT);
    rounds := D.Starve(db, x, ROUNDS - 1, LIMIT);
    D.FrozenClock(rounds);
  }

  /** While every reading is the same, ten rounds are sure to meet the prediction for up to 450,003 events, no more. */
  lemma StillClockDecides(n: nat, seed: int)
    ensures (forall rounds :: Running(n, seed, Still(n), rounds) && TenRounds(rounds) && InOrder(n, Still(n), rounds) ==>
               Final(n, seed, Still(n), rounds) == W.Expected(n))
            <==> n <= 450_003
  {
    var nows := Still(n);
    forall rounds | Running(n, seed, nows, rounds) && TenRounds(rounds) && InOrder(n, nows, rounds) && n <= 450_003
      ensures Final(n, seed, nows, rounds) == W.Expected(n)
    {
      BenchmarkMeetsPrediction(n, seed, nows, rounds);
    }
    if n > 450_003 {
      var rounds := StillStarves(n, seed, nows);
      PredictedIffEnded(n, seed, nows, rounds);
    }
  }

  // ---------------------------------------------------------------- the program

  /** The event loop: an exception is counted, and the write decision it came from has been rolled back. */
  method IngestEvents(n: nat, gen: nat -> W.SharedEvent, nows: seq<Ticks>) returns (store: OpsStore, errors: nat)
    requires n <= |nows|
    ensures fresh(store) && (store.View(), errors) == Ingest(EMPTY, n, gen, nows)
  {
    store := new OpsStore();
    var ingestion := new I.EventIngestionService(store, OPTIONS);
    errors := 0;
    for i := 0 to n
      invariant fresh(store) && ingestion.store == store && ingestion.options == OPTIONS
      invariant (store.View(), errors) == Ingest(EMPTY, i, gen, nows)
    {
      IngestNext(EMPTY, i, gen, nows);
      var r := ingestion.IngestAsync(RequestOf(gen(i)), nows[i], false, false);
      if r.Err? {
        errors := errors + 1;
      }
    }
  }

  /** RunOnceAsync, with the rounds the clock and the due query make of its calls of ProcessPendingAsync. */
  method RunEngine(n: nat, seed: int, nows: seq<Ticks>, rounds: seq<Q.Round>) returns (metrics: W.Counters)
    requires n <= |nows| && Running(n, seed, nows, rounds) && TenRounds(rounds)
    ensures metrics == Final(n, seed, nows, rounds)
    ensures metrics == W.Expected(n) <==> AllWithin(nows, n) && NoneOpen(Ended(n, seed, nows, rounds).actions)
    ensures Decided(n, nows, rounds, metrics == W.Expected(n))
  {
    var store, errors := IngestEvents(n, W.Events(seed), nows);
    var processor := new Q.ActionProcessor(store, OPTIONS.retryDelay);
    BenchmarkMeetsPrediction(n, seed, nows, rounds);
    RunRounds(processor, rounds);
    metrics := Metrics(store.View(), errors);
  }

  /** One round of the loop leaves the rest of the run to do. */
  method RunRound(processor: Q.ActionProcessor, rounds: seq<Q.Round>, k: nat, ghost end: Db) returns (processed: nat)
    requires k < |rounds| && D.LeadsTo(processor.store.View(), rounds, k, processor.retryDelay, end)
    modifies processor.store
    ensures processed == |rounds[k].sel|
    ensures D.LeadsTo(processor.store.View(), rounds, k + 1, processor.retryDelay, end)
  {
    ghost var before := processor.store.View();
    var r := rounds[k];
    D.NextRound(before, rounds, processor.retryDelay, k);
    Q.ProcessedStays(before, r.sel, r.ends, processor.retryDelay, Q.Tally(|r.sel|, 0, 0, 0));
    var batch := processor.ProcessPending(r);
    assert processor.store.View() == D.After(before, r, processor.retryDelay);
    processed := batch.processed;
  }

  /** The loop of rounds, left at the first that processes nothing. */
  method RunRounds(processor: Q.ActionProcessor, rounds: seq<Q.Round>)
    requires TenRounds(rounds) && D.LegalRun(processor.store.View(), rounds, processor.retryDelay)
    modifies processor.store
    ensures processor.store.View() == D.Drain(old(processor.store.View()), rounds, processor.retryDelay)
  {
    ghost var end := D.Drain(processor.store.View(), rounds, processor.retryDelay);
    ghost var made := 0;
    D.StartLeads(processor.store.View(), rounds, processor.retryDelay);
    for round := 0 to ROUNDS
      invariant made == round <= |rounds| && (round == |rounds| ==> round == ROUNDS)
      invariant D.LeadsTo(processor.store.View(), rounds, made, processor.retryDelay, end)
    {
      var processed := RunRound(processor, rounds, round, end);
      made := round + 1;
      if processed == 0 {
        break;
      }
    }
    D.EndLeads(processor.store.View(), rounds, processor.retryDelay, end);
  }
}
