/**
 * The .NET service's tables (SqliteOpsStore) and the one write decision that turns an event into rows. A row is named
 * by its position in its table, where the service uses a fresh GUID.
 */
module NetStore {
  import opened Util

  /** Instants are ticks of 100 nanoseconds. */
  type Ticks = int

  const OPEN: string := "open"

  datatype OpEvent = OpEvent(
    source: string, asset: string, category: string, severity: int, message: string, executorMode: string,
    occurredAt: Ticks, createdAt: Ticks)

  datatype Incident = Incident(
    event: nat, asset: string, category: string, severity: int, status: string, createdAt: Ticks, updatedAt: Ticks)

  datatype ActionStatus = Queued | Retry | Succeeded | FailedPermanent | FailedExhausted

  datatype QueuedAction = QueuedAction(
    incident: nat, asset: string, actionType: string, executorMode: string, status: ActionStatus,
    attempts: nat, maxAttempts: int, createdAt: Ticks, updatedAt: Ticks, nextAttemptAt: Ticks, lastError: Option<string>)

  datatype Audit =
    | EventReceived(event: nat)
    | NormalEventRecorded(event: nat)
    | CooldownSuppressed(incident: nat)
    | IncidentCreated(incident: nat)
    | ActionQueued(action: nat)
    | ActionSucceeded(action: nat)
    | ActionTransientFailure(action: nat)
    | ActionPermanentFailure(action: nat)
    | ActionRetryExhausted(action: nat)

  datatype Db = Db(events: seq<OpEvent>, incidents: seq<Incident>, actions: seq<QueuedAction>, audits: seq<Audit>)
  {
    function Log(a: Audit): Db { this.(audits := audits + [a]) }
  }

  const EMPTY: Db := Db([], [], [], [])

  /** RuleDecision of RuleEvaluator. */
  datatype RuleDecision = RuleDecision(createIncident: bool, queueAction: bool, actionType: string)

  /** RuleEvaluator.Evaluate */
  function Evaluate(e: OpEvent): (d: RuleDecision)
    ensures d.createIncident <==> e.severity >= 50 || e.category in {"offline", "critical", "degraded", "warning"}
    ensures d.queueAction <==> e.severity >= 80 || e.category in {"offline", "critical"}
    ensures d.queueAction ==> d.createIncident && d.actionType == "collect_diagnostics"
  {
    if e.severity >= 80 || e.category == "offline" || e.category == "critical" then
      RuleDecision(true, true, "collect_diagnostics")
    else if e.severity >= 50 || e.category == "degraded" || e.category == "warning" then
      RuleDecision(true, false, "none")
    else
      RuleDecision(false, false, "none")
  }

  datatype Decision = Ignored | Suppressed(incident: nat) | IncidentOpened(incident: nat)
                    | ActionOpened(incident: nat, action: nat)

  /** EventIngestionResult */
  datatype IngestResult = IngestResult(event: nat, decision: Decision)

  /** What IngestAsync hands to the store: the event, the verdict on it, the options, and its clock reading. */
  datatype Request = Request(event: OpEvent, verdict: RuleDecision, maxAttempts: int, cooldown: Ticks, now: Ticks)

  predicate Recent(i: Incident, asset: string, category: string, since: Ticks) {
    i.asset == asset && i.category == category && i.status == OPEN && i.createdAt >= since
  }

  /** GetRecentOpenIncidentAsync: a recent open incident of the key, the latest there is. */
  function RecentOpenIncident(incidents: seq<Incident>, asset: string, category: string, since: Ticks): (r: Option<nat>)
    ensures r.None? <==> forall i :: 0 <= i < |incidents| ==> !Recent(incidents[i], asset, category, since)
    ensures r.Some? ==> r.value < |incidents| && Recent(incidents[r.value], asset, category, since)
    ensures r.Some? ==> forall i :: 0 <= i < |incidents| && Recent(incidents[i], asset, category, since) ==>
              incidents[i].createdAt <= incidents[r.value].createdAt
  {
    if incidents == [] then None
    else
      var n := |incidents| - 1;
      var best := RecentOpenIncident(incidents[..n], asset, category, since);
      if !Recent(incidents[n], asset, category, since) then best
      else if best.Some? && incidents[n].createdAt <= incidents[best.value].createdAt then best
      else Some(n)
  }

  function NewIncident(q: Request, event: nat): Incident {
    Incident(event, q.event.asset, q.event.category, q.event.severity, OPEN, q.now, q.now)
  }

  function NewAction(q: Request, incident: nat): QueuedAction {
    QueuedAction(incident, q.event.asset, q.verdict.actionType, q.event.executorMode, Queued, 0, q.maxAttempts,
                 q.now, q.now, q.now, None)
  }

  /** RecordIngestionDecisionAsync as one transaction. */
  function Record(db: Db, q: Request): (Db, IngestResult) {
    var e, i, a := |db.events|, |db.incidents|, |db.actions|;
    var received := db.(events := db.events + [q.event]).Log(EventReceived(e));
    if !q.verdict.createIncident then
      (received.Log(NormalEventRecorded(e)), IngestResult(e, Ignored))
    else
      var recent := RecentOpenIncident(db.incidents, q.event.asset, q.event.category, q.now - q.cooldown);
      if recent.Some? then
        (received.Log(CooldownSuppressed(recent.value)), IngestResult(e, Suppressed(recent.value)))
      else
        var withIncident := received.(incidents := db.incidents + [NewIncident(q, e)]).Log(IncidentCreated(i));
        if !q.verdict.queueAction then (withIncident, IngestResult(e, IncidentOpened(i)))
        else
          (withIncident.(actions := db.actions + [NewAction(q, i)]).Log(ActionQueued(a)),
           IngestResult(e, ActionOpened(i, a)))
  }

  /** The columns an update never writes. */
  predicate SameIdentity(a: QueuedAction, b: QueuedAction) {
    && a.incident == b.incident && a.asset == b.asset && a.actionType == b.actionType
    && a.executorMode == b.executorMode && a.maxAttempts == b.maxAttempts && a.createdAt == b.createdAt
  }

  /** The columns that record how far an action has come. */
  predicate SameProgress(a: QueuedAction, b: QueuedAction) {
    && a.status == b.status && a.attempts == b.attempts && a.updatedAt == b.updatedAt
    && a.nextAttemptAt == b.nextAttemptAt && a.lastError == b.lastError
  }

  predicate Open(a: QueuedAction) { a.status == Queued || a.status == Retry }

  class OpsStore {
    var events: seq<OpEvent>
    var incidents: seq<Incident>
    var actions: seq<QueuedAction>
    var audits: seq<Audit>

    constructor ()
      ensures View() == EMPTY
    {
      events, incidents, actions, audits := [], [], [], [];
    }

    function View(): Db
      reads this
    {
      Db(events, incidents, actions, audits)
    }

    method AddAudit(a: Audit)
      modifies this`audits
      ensures audits == old(audits) + [a]
    {
      audits := audits + [a];
    }

    /**
     * The row takes the progress of `a` and keeps its identity, and no other row changes: writing back a row that was
     * read from this place stores exactly that row, and a row of another action cannot change what this one is about.
     */
    method UpdateAction(i: nat, a: QueuedAction)
      requires i < |actions|
      modifies this`actions
      ensures |actions| == |old(actions)| && forall j :: 0 <= j < |actions| && j != i ==> actions[j] == old(actions)[j]
      ensures SameIdentity(actions[i], old(actions)[i]) && SameProgress(actions[i], a)
      ensures SameIdentity(a, old(actions)[i]) ==> actions[i] == a
    {
      actions := actions[i := actions[i].(status := a.status, attempts := a.attempts, updatedAt := a.updatedAt,
                                          nextAttemptAt := a.nextAttemptAt, lastError := a.lastError)];
    }

    /** When a statement or the commit throws (`fails`), the catch block rolls back whatever was written. */
    method RecordIngestionDecision(q: Request, fails: bool) returns (r: Option<IngestResult>)
      modifies this
      ensures r.None? <==> fails
      ensures r.None? ==> View() == old(View())
      ensures r.Some? ==> (View(), r.value) == Record(old(View()), q)
    {
      var events0, incidents0, actions0, audits0 := events, incidents, actions, audits;
      var e := |events|;
      var result := IngestResult(e, Ignored);
      events := events + [q.event];
      AddAudit(EventReceived(e));
      if !q.verdict.createIncident {
        AddAudit(NormalEventRecorded(e));
      } else {
        var recent := RecentOpenIncident(incidents, q.event.asset, q.event.category, q.now - q.cooldown);
        if recent.Some? {
          AddAudit(CooldownSuppressed(recent.value));
          result := IngestResult(e, Suppressed(recent.value));
        } else {
          var i := |incidents|;
          incidents := incidents + [NewIncident(q, e)];
          AddAudit(IncidentCreated(i));
          result := IngestResult(e, IncidentOpened(i));
          if q.verdict.queueAction {
            var a := |actions|;
            actions := actions + [NewAction(q, i)];
            AddAudit(ActionQueued(a));
            result := IngestResult(e, ActionOpened(i, a));
          }
        }
      }
      if fails {
        events, incidents, actions, audits := events0, incidents0, actions0, audits0;
        return None;
      }
      return Some(result);
    }
  }
}
