/**
 * Any number of .NET ingestion clients over one writer lock, statement by statement. A client reads the clock before
 * it asks for the lock, so commit order and clock order can differ; it can die between any two statements. The action
 * worker's single-statement writes go through the same lock.
 */
module NetConcurrency {
  import opened Util
  import opened NetStore

  /** The statement a transaction executes next. */
  datatype Pc =
    | InsertEvent
    | AuditReceived
    | Decide
    | AuditNormal
    | AuditSuppressed(incident: nat)
    | CreateIncident
    | AuditIncident(incident: nat)
    | CreateAction(incident: nat)
    | AuditAction(incident: nat, action: nat)
    | Commit(result: IngestResult)

  datatype Phase =
    | Idle                                  // clock not read
    | Ready(now: Ticks)                     // clock read, lock not held
    | InTx(now: Ticks, pc: Pc, work: Db)    // lock held; `work` is what this connection sees
    | Done(slot: nat)                       // committed, as this entry of the log
    | Aborted

  /** A client and what it was asked to ingest; its clock reading becomes part of the request. */
  datatype Client = Client(request: Request, phase: Phase)

  /** What has been committed, in order. */
  datatype Entry =
    | Ingested(request: Request, result: IngestResult)
    | ActionUpdated(action: nat, row: QueuedAction)
    | AuditAdded(audit: Audit)

  datatype State = State(db: Db, lock: Option<nat>, clients: seq<Client>, log: seq<Entry>)

  datatype Label =
    | ReadClock(client: nat, now: Ticks)
    | BeginImmediate(client: nat)
    | Statement(client: nat)
    | Die(client: nat)
    | WorkerUpdate(action: nat, row: QueuedAction)
    | WorkerAudit(audit: Audit)

  function At(q: Request, now: Ticks): Request { q.(now := now, event := q.event.(createdAt := now)) }

  function Start(requests: seq<Request>): State {
    State(EMPTY, None, seq(|requests|, i requires 0 <= i < |requests| => Client(requests[i], Idle)), [])
  }

  /** One statement inside the transaction: the connection's view and the next statement. */
  function Execute(pc: Pc, work: Db, q: Request): (Db, Pc)
    requires !pc.Commit?
  {
    var e := |work.events| - 1;
    match pc
    case InsertEvent => (work.(events := work.events + [q.event]), AuditReceived)
    case AuditReceived =>
      (if e < 0 then work else work.Log(EventReceived(e)), if q.verdict.createIncident then Decide else AuditNormal)
    case AuditNormal =>
      if e < 0 then (work, pc) else (work.Log(NormalEventRecorded(e)), Commit(IngestResult(e, Ignored)))
    case Decide =>
      var recent := RecentOpenIncident(work.incidents, q.event.asset, q.event.category, q.now - q.cooldown);
      (work, if recent.Some? then AuditSuppressed(recent.value) else CreateIncident)
    case AuditSuppressed(i) =>
      if e < 0 then (work, pc) else (work.Log(CooldownSuppressed(i)), Commit(IngestResult(e, Suppressed(i))))
    case CreateIncident =>
      if e < 0 then (work, pc)
      else (work.(incidents := work.incidents + [NewIncident(q, e)]), AuditIncident(|work.incidents|))
    case AuditIncident(i) =>
      if e < 0 then (work, pc)
      else (work.Log(IncidentCreated(i)),
            if q.verdict.queueAction then CreateAction(i) else Commit(IngestResult(e, IncidentOpened(i))))
    case CreateAction(i) =>
      (work.(actions := work.actions + [NewAction(q, i)]), AuditAction(i, |work.actions|))
    case AuditAction(i, a) =>
      if e < 0 then (work, pc) else (work.Log(ActionQueued(a)), Commit(IngestResult(e, ActionOpened(i, a))))
  }

  function SetPhase(s: State, c: nat, phase: Phase): State
    requires c < |s.clients|
  {
    s.(clients := s.clients[c := s.clients[c].(phase := phase)])
  }

  function Updated(db: Db, i: nat, row: QueuedAction): Db {
    if i >= |db.actions| then db
    else db.(actions := db.actions[i := db.actions[i].(status := row.status, attempts := row.attempts,
               updatedAt := row.updatedAt, nextAttemptAt := row.nextAttemptAt, lastError := row.lastError)])
  }

  /** One step of somebody; a step that is not enabled does nothing. */
  function Next(s: State, l: Label): State {
    match l
    case ReadClock(c, now) =>
      if c < |s.clients| && s.clients[c].phase.Idle? then SetPhase(s, c, Ready(now)) else s
    case BeginImmediate(c) =>
      if c < |s.clients| && s.clients[c].phase.Ready? && s.lock.None? then
        SetPhase(s, c, InTx(s.clients[c].phase.now, InsertEvent, s.db)).(lock := Some(c))
      else s
    case Statement(c) =>
      if c < |s.clients| && s.clients[c].phase.InTx? then
        var (tx, q) := (s.clients[c].phase, At(s.clients[c].request, s.clients[c].phase.now));
        if tx.pc.Commit? then
          SetPhase(s, c, Done(|s.log|)).(db := tx.work, lock := None, log := s.log + [Ingested(q, tx.pc.result)])
        else
          var (work, pc) := Execute(tx.pc, tx.work, q);
          SetPhase(s, c, InTx(tx.now, pc, work))
      else s
    case Die(c) =>
      if c < |s.clients| && !s.clients[c].phase.Done? then
        SetPhase(s, c, Aborted).(lock := if s.clients[c].phase.InTx? then None else s.lock)
      else s
    case WorkerUpdate(i, row) =>
      if s.lock.None? then s.(db := Updated(s.db, i, row), log := s.log + [ActionUpdated(i, row)]) else s
    case WorkerAudit(a) =>
      if s.lock.None? then s.(db := s.db.Log(a), log := s.log + [AuditAdded(a)]) else s
  }

  function Interleave(s: State, labels: seq<Label>): State
    decreases |labels|
  {
    if labels == [] then s else Next(Interleave(s, labels[..|labels| - 1]), labels[|labels| - 1])
  }

  // ---------------------------------------------------------------- the serial order

  function Committed(db: Db, e: Entry): Db {
    match e
    case Ingested(q, _) => Record(db, q).0
    case ActionUpdated(i, row) => Updated(db, i, row)
    case AuditAdded(a) => db.Log(a)
  }

  /** The committed transactions run one at a time, in commit order. */
  function Serial(log: seq<Entry>): Db
    decreases |log|
  {
    if log == [] then EMPTY else Committed(Serial(log[..|log| - 1]), log[|log| - 1])
  }

  /** Each committed caller was told what the serial run tells it. */
  predicate Answered(log: seq<Entry>)
    decreases |log|
  {
    log == [] ||
      var (init, last) := (log[..|log| - 1], log[|log| - 1]);
      Answered(init) && (last.Ingested? ==> last.result == Record(Serial(init), last.request).1)
  }

  /** The rest of a transaction, run to its end from where it stands. */
  function Remainder(pc: Pc, work: Db, q: Request): Option<(Db, IngestResult)>
  {
    var e := |work.events| - 1;
    if pc.InsertEvent? then Some(Record(work, q))
    else if e < 0 then None
    else
      match pc
      case AuditReceived =>
        if q.verdict.createIncident then Rest(work.Log(EventReceived(e)), q)
        else Some((work.Log(EventReceived(e)).Log(NormalEventRecorded(e)), IngestResult(e, Ignored)))
      case Decide => Rest(work, q)
      case AuditNormal => Some((work.Log(NormalEventRecorded(e)), IngestResult(e, Ignored)))
      case AuditSuppressed(i) => Some((work.Log(CooldownSuppressed(i)), IngestResult(e, Suppressed(i))))
      case CreateIncident => Opening(work, q)
      case AuditIncident(i) => Some(Queueing(work.Log(IncidentCreated(i)), q, i))
      case CreateAction(i) => Some(Queueing(work, q.(verdict := q.verdict.(queueAction := true)), i))
      case AuditAction(i, a) => Some((work.Log(ActionQueued(a)), IngestResult(e, ActionOpened(i, a))))
      case Commit(r) => Some((work, r))
  }

  function Rest(work: Db, q: Request): Option<(Db, IngestResult)>
    requires work.events != []
  {
    var recent := RecentOpenIncident(work.incidents, q.event.asset, q.event.category, q.now - q.cooldown);
    if recent.Some? then
      Some((work.Log(CooldownSuppressed(recent.value)), IngestResult(|work.events| - 1, Suppressed(recent.value))))
    else Opening(work, q)
  }

  function Opening(work: Db, q: Request): Option<(Db, IngestResult)>
    requires work.events != []
  {
    var i := |work.incidents|;
    var withIncident := work.(incidents := work.incidents + [NewIncident(q, |work.events| - 1)]);
    Some(Queueing(withIncident.Log(IncidentCreated(i)), q, i))
  }

  function Queueing(work: Db, q: Request, i: nat): (Db, IngestResult)
    requires work.events != []
  {
    var e, a := |work.events| - 1, |work.actions|;
    if q.verdict.queueAction then
      (work.(actions := work.actions + [NewAction(q, i)]).Log(ActionQueued(a)), IngestResult(e, ActionOpened(i, a)))
    else (work, IngestResult(e, IncidentOpened(i)))
  }

  /** A transaction in progress will end as the whole decision would, taken on what is committed now. */
  predicate OnCourse(s: State, c: nat)
    requires c < |s.clients|
  {
    var (phase, q) := (s.clients[c].phase, s.clients[c].request);
    phase.InTx? ==>
      && s.lock == Some(c)
      && Remainder(phase.pc, phase.work, At(q, phase.now)) == Some(Record(s.db, At(q, phase.now)))
  }

  predicate CommitLogged(s: State, c: nat)
    requires c < |s.clients|
  {
    var (phase, q) := (s.clients[c].phase, s.clients[c].request);
    phase.Done? ==> phase.slot < |s.log| && s.log[phase.slot].Ingested?
                    && s.log[phase.slot].request == At(q, s.log[phase.slot].request.now)
  }

  predicate Consistent(s: State) {
    && s.db == Serial(s.log) && Answered(s.log)
    && (s.lock.Some? ==> s.lock.value < |s.clients| && s.clients[s.lock.value].phase.InTx?)
    && forall c :: 0 <= c < |s.clients| ==> OnCourse(s, c) && CommitLogged(s, c)
  }

  lemma StatementKeepsCourse(pc: Pc, work: Db, q: Request)
    requires !pc.Commit? && Remainder(pc, work, q).Some?
    ensures Remainder(Execute(pc, work, q).1, Execute(pc, work, q).0, q) == Remainder(pc, work, q)
  {
  }

  lemma OneMoreEntry(log: seq<Entry>, e: Entry)
    ensures Serial(log + [e]) == Committed(Serial(log), e)
    ensures Answered(log) && (e.Ingested? ==> e.result == Record(Serial(log), e.request).1) ==> Answered(log + [e])
  {
    assert (log + [e])[..|log|] == log;
  }

  /** What a step adds to the log. */
  function Logged(s: State, l: Label): seq<Entry> {
    match l
    case Statement(c) =>
      if c < |s.clients| && s.clients[c].phase.InTx? && s.clients[c].phase.pc.Commit? then
        [Ingested(At(s.clients[c].request, s.clients[c].phase.now), s.clients[c].phase.pc.result)]
      else []
    case WorkerUpdate(i, row) => if s.lock.None? then [ActionUpdated(i, row)] else []
    case WorkerAudit(a) => if s.lock.None? then [AuditAdded(a)] else []
    case _ => []
  }

  lemma StepLogs(s: State, l: Label)
    ensures Next(s, l).log == s.log + Logged(s, l)
    ensures Logged(s, l) == [] ==> Next(s, l).db == s.db
    ensures Logged(s, l) != [] && !l.Statement? ==> Next(s, l).db == Committed(s.db, Logged(s, l)[0])
    ensures Logged(s, l) != [] && l.Statement? ==> Next(s, l).db == s.clients[l.client].phase.work
  {
  }

  /** What is about to be committed is the whole decision, taken on what is committed now. */
  lemma CommitIsRecord(s: State, c: nat)
    requires c < |s.clients| && OnCourse(s, c) && s.clients[c].phase.InTx? && s.clients[c].phase.pc.Commit?
    ensures var tx := s.clients[c].phase;
            Record(s.db, At(s.clients[c].request, tx.now)) == (tx.work, tx.pc.result)
  {
  }

  lemma StepIsSerial(s: State, l: Label, e: Entry)
    requires Logged(s, l) == [e] && forall c :: 0 <= c < |s.clients| ==> OnCourse(s, c)
    ensures Next(s, l).db == Committed(s.db, e)
    ensures e.Ingested? ==> e.result == Record(s.db, e.request).1
  {
    StepLogs(s, l);
    if l.Statement? { CommitIsRecord(s, l.client); }
  }

  lemma LogStaysSerial(s: State, l: Label)
    requires Consistent(s)
    ensures Next(s, l).db == Serial(Next(s, l).log) && Answered(Next(s, l).log)
  {
    StepLogs(s, l);
    if Logged(s, l) == [] {
      assert s.log + Logged(s, l) == s.log;
    } else {
      var e := Logged(s, l)[0];
      assert Logged(s, l) == [e];
      StepIsSerial(s, l, e);
      OneMoreEntry(s.log, e);
    }
  }

  lemma ClientStaysOnCourse(s: State, l: Label, c: nat)
    requires Consistent(s) && c < |s.clients|
    ensures |Next(s, l).clients| == |s.clients| && OnCourse(Next(s, l), c) && CommitLogged(Next(s, l), c)
  {
    assert OnCourse(s, c) && CommitLogged(s, c);
    if l == Statement(c) && s.clients[c].phase.InTx? && !s.clients[c].phase.pc.Commit? {
      var tx := s.clients[c].phase;
      StatementKeepsCourse(tx.pc, tx.work, At(s.clients[c].request, tx.now));
    } else if (l.Statement? || l.Die?) && l.client < |s.clients| {
      assert OnCourse(s, l.client);
    }
  }

  lemma LockStaysHeld(s: State, l: Label)
    requires Consistent(s)
    ensures var s' := Next(s, l);
            s'.lock.Some? ==> s'.lock.value < |s'.clients| && s'.clients[s'.lock.value].phase.InTx?
  {
    if (l.Statement? || l.Die?) && l.client < |s.clients| {
      assert OnCourse(s, l.client);
    }
  }

  lemma StepKeepsConsistent(s: State, l: Label)
    requires Consistent(s)
    ensures Consistent(Next(s, l))
  {
    LogStaysSerial(s, l);
    LockStaysHeld(s, l);
    forall c | 0 <= c < |s.clients|
      ensures |Next(s, l).clients| == |s.clients| && OnCourse(Next(s, l), c) && CommitLogged(Next(s, l), c)
    {
      ClientStaysOnCourse(s, l, c);
    }
  }

  /**
   * Serializability: whatever the interleaving and whoever dies where, what is committed is what the committed
   * transactions leave one at a time in commit order, and each caller got the answer of that serial run.
   */
  lemma {:induction false} EveryInterleavingIsSerial(requests: seq<Request>, labels: seq<Label>)
    ensures Consistent(Interleave(Start(requests), labels))
    decreases |labels|
  {
    if labels != [] {
      EveryInterleavingIsSerial(requests, labels[..|labels| - 1]);
      StepKeepsConsistent(Interleave(Start(requests), labels[..|labels| - 1]), labels[|labels| - 1]);
    }
  }
}
