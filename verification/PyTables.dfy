/** Rows and tables of the Python service (models.py). A row is named by its position in its table. */
module PyTables {
  import opened Util

  /** Instants are whole microseconds, the resolution of a Python datetime. */
  type Time = int

  const MINUTE: int := 60_000_000

  datatype Asset = Asset(externalId: string, status: string)

  datatype Rule = Rule(category: string, minimumSeverity: int, cooldownMinutes: int, actionType: string, enabled: bool)

  datatype Event = Event(asset: nat, source: string, category: string, severity: int, message: string, createdAt: Time)

  datatype IncidentState = Open | Acknowledged | Resolved

  datatype Incident = Incident(asset: nat, rule: nat, event: nat, state: IncidentState, createdAt: Time)

  datatype ActionState = Queued | Retry | Succeeded | Failed | Skipped

  datatype Action = Action(
    incident: nat, actionType: string, state: ActionState, attempts: nat, detail: string,
    nextAttemptAt: Option<Time>, leaseId: Option<string>, leasedAt: Option<Time>, createdAt: Time, updatedAt: Time)

  datatype SkipReason = NoMatchingRule | Cooldown | QueueBackpressure

  /** Why an event, incident, action, record or check was written about. */
  datatype Audit =
    | EventRecorded(event: nat)
    | EventSuppressed(event: nat)
    | IncidentCreated(incident: nat)
    | BackpressureApplied(incident: nat)
    | IdempotencyHit(key: string)
    | ActionExecuted(action: nat)
    | CheckCreated(check: nat)
    | CheckTransitioned(check: nat)

  datatype Record = Record(
    eventId: Option<nat>, incidentId: Option<nat>, actionId: Option<nat>, skipped: Option<SkipReason>,
    hits: nat, updatedAt: Time)

  datatype CheckState = Pending | Started | WaitingConfirmation | Confirmed | TimedOut | Cancelled | CheckFailed

  datatype Check = Check(state: CheckState, detail: string, dueAt: Option<Time>, updatedAt: Time)

  datatype Db = Db(
    assets: seq<Asset>, rules: seq<Rule>, events: seq<Event>, incidents: seq<Incident>, actions: seq<Action>,
    audits: seq<Audit>, records: map<string, Record>, checks: seq<Check>)
  {
    function Log(a: Audit): Db { this.(audits := audits + [a]) }
  }

  /** States that still count against the queue. */
  predicate Active(a: Action) { a.state == Queued || a.state == Retry }

  predicate Terminal(a: Action) { a.state == Succeeded || a.state == Failed }

  /** EventProcessor._queue_backlog */
  function Backlog(actions: seq<Action>): nat { Count(actions, Active) }
}
