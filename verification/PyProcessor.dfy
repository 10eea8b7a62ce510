/** services/processor.py: one event becomes rows in the event, incident, action and audit tables. */
module PyProcessor {
  import opened Util
  import opened PyTables
  import PyRules

  datatype Payload = Payload(
    asset: string, source: string, category: string, severity: int, message: string, executorMode: string,
    idempotencyKey: Option<string>)

  /** The successive readings of the clock while one event is processed. */
  datatype Readings = Readings(event: Time, check: Time, incident: Time, due: Time, action: Time, done: Time)
  {
    predicate Ordered() { event <= check <= incident <= due <= action <= done }
  }

  datatype Error = UnknownAsset(externalId: string) | IdempotencyTimeout | MissingEvent

  /** Rows produced for one event, and why nothing (more) was produced. */
  datatype Outcome = Outcome(event: nat, incident: Option<nat>, action: Option<nat>, skipped: Option<SkipReason>)

  datatype Answer = Answer(outcome: Outcome, replay: bool)

  function FindAsset(assets: seq<Asset>, externalId: string): (r: Option<nat>)
    ensures r.None? <==> forall i :: 0 <= i < |assets| ==> assets[i].externalId != externalId
    ensures r.Some? ==> r.value < |assets| && assets[r.value].externalId == externalId
    ensures r.Some? ==> forall i :: 0 <= i < r.value ==> assets[i].externalId != externalId
  {
    if assets == [] then None
    else
      var last := |assets| - 1;
      var found := FindAsset(assets[..last], externalId);
      if found.Some? then found
      else if assets[last].externalId == externalId then Some(last)
      else None
  }

  /** An unresolved incident on the asset that is not older than the cooldown, whatever its category. */
  predicate Blocks(i: Incident, asset: nat, cooldownMinutes: int, now: Time) {
    i.asset == asset && i.createdAt >= now - cooldownMinutes * MINUTE && i.state != Resolved
  }

  predicate InCooldown(incidents: seq<Incident>, asset: nat, cooldownMinutes: int, now: Time) {
    cooldownMinutes > 0 && exists i :: 0 <= i < |incidents| && Blocks(incidents[i], asset, cooldownMinutes, now)
  }

  function NewEvent(p: Payload, asset: nat, at: Time): Event {
    Event(asset, p.source, p.category, p.severity, p.message, at)
  }

  function NewAction(incident: nat, actionType: string, p: Payload, c: Readings): Action {
    Action(incident, actionType, Queued, 0, p.executorMode, Some(c.due), None, None, c.action, c.action)
  }

  /** The asset's status and the event row, written before any rule is consulted. */
  function RecordEvent(db: Db, p: Payload, asset: nat, c: Readings): Db
    requires asset < |db.assets|
  {
    db.(assets := db.assets[asset := db.assets[asset].(status := p.category)],
        events := db.events + [NewEvent(p, asset, c.event)])
  }

  /** Opening an incident under rule `r`, with its action unless the queue is full. */
  function OpenIncident(db: Db, p: Payload, asset: nat, r: nat, c: Readings, maxBacklog: int): (Db, Outcome)
    requires r < |db.rules| && db.events != []
  {
    var e := |db.events| - 1;
    var i := |db.incidents|;
    var withIncident := db.(incidents := db.incidents + [Incident(asset, r, e, Open, c.incident)]);
    if db.rules[r].actionType == "none" then
      (withIncident.Log(IncidentCreated(i)), Outcome(e, Some(i), None, None))
    else if Backlog(db.actions) >= maxBacklog then
      (withIncident.Log(BackpressureApplied(i)), Outcome(e, Some(i), None, Some(QueueBackpressure)))
    else
      (withIncident.(actions := db.actions + [NewAction(i, db.rules[r].actionType, p, c)]).Log(IncidentCreated(i)),
       Outcome(e, Some(i), Some(|db.actions|), None))
  }

  /** What follows the event row. */
  function Decide(db: Db, p: Payload, asset: nat, c: Readings, maxBacklog: int): (Db, Outcome)
    requires db.events != []
  {
    var e := |db.events| - 1;
    var rule := PyRules.Match(db.rules, p.category, p.severity);
    if rule.None? then
      (db.Log(EventRecorded(e)), Outcome(e, None, None, Some(NoMatchingRule)))
    else if InCooldown(db.incidents, asset, db.rules[rule.value].cooldownMinutes, c.check) then
      (db.Log(EventSuppressed(e)), Outcome(e, None, None, Some(Cooldown)))
    else
      OpenIncident(db, p, asset, rule.value, c, maxBacklog)
  }

  /** EventProcessor._process_new */
  function ProcessNew(db: Db, p: Payload, c: Readings, maxBacklog: int): Result<(Db, Outcome), Error> {
    var asset := FindAsset(db.assets, p.asset);
    if asset.None? then Err(UnknownAsset(p.asset))
    else Ok(Decide(RecordEvent(db, p, asset.value, c), p, asset.value, c, maxBacklog))
  }

  predicate Keyed(p: Payload) { p.idempotencyKey.Some? && p.idempotencyKey.value != "" }

  predicate HasResult(db: Db, key: string) { key in db.records && db.records[key].eventId.Some? }

  const RESERVED: Record := Record(None, None, None, None, 0, 0)

  function Completed(o: Outcome, at: Time): Record { Record(Some(o.event), o.incident, o.action, o.skipped, 0, at) }

  function Stored(r: Record): Outcome
    requires r.eventId.Some?
  {
    Outcome(r.eventId.value, r.incidentId, r.actionId, r.skipped)
  }

  /** EventProcessor._replay_idempotent_record */
  function Replay(db: Db, key: string, at: Time): Result<(Db, Answer), Error>
    requires HasResult(db, key)
  {
    var r := db.records[key];
    if r.eventId.value >= |db.events| then Err(MissingEvent)
    else Ok((db.(records := db.records[key := r.(hits := r.hits + 1, updatedAt := at)]).Log(IdempotencyHit(key)),
             Answer(Stored(r), true)))
  }

  /** Processing a fresh key: the answer is stored under the key in the same transaction. */
  function ProcessFresh(db: Db, p: Payload, key: string, c: Readings, maxBacklog: int): Result<(Db, Answer), Error> {
    match ProcessNew(db, p, c, maxBacklog)
    case Err(e) => Err(e)
    case Ok((db', o)) => Ok((db'.(records := db'.records[key := Completed(o, c.done)]), Answer(o, false)))
  }

  /** EventProcessor.process with nobody else writing: a reservation left incomplete is waited for in vain. */
  function Process(db: Db, p: Payload, c: Readings, maxBacklog: int): Result<(Db, Answer), Error> {
    if !Keyed(p) then
      match ProcessNew(db, p, c, maxBacklog)
      case Err(e) => Err(e)
      case Ok((db', o)) => Ok((db', Answer(o, false)))
    else
      var key := p.idempotencyKey.value;
      if HasResult(db, key) then Replay(db, key, c.done)
      else if key in db.records then Err(IdempotencyTimeout)
      else ProcessFresh(db, p, key, c, maxBacklog)
  }

  /** The tables once the request is committed, or rolled back because it failed. */
  function Served(db: Db, p: Payload, c: Readings, maxBacklog: int): Db {
    var r := Process(db, p, c, maxBacklog);
    if r.Ok? then r.value.0 else db
  }

  /** The first of the polls of a waiting caller that finds the key completed. */
  function FirstResult(views: seq<Db>, key: string): (n: nat)
    ensures n <= |views|
    ensures n < |views| ==> HasResult(views[n], key)
    ensures forall k :: 0 <= k < n ==> !HasResult(views[k], key)
  {
    if views == [] || HasResult(views[0], key) then 0 else 1 + FirstResult(views[1..], key)
  }

  /** The key is reserved by somebody who has not completed it. */
  predicate Taken(db: Db, p: Payload) {
    Keyed(p) && p.idempotencyKey.value in db.records && db.records[p.idempotencyKey.value].eventId.None?
  }

  /** The tables at the poll that ended the waiting, or when it began if there was none. */
  function LastSeen(db: Db, key: string, others: seq<Db>): Db {
    var n := FirstResult(others, key);
    if n < |others| then others[n] else if others == [] then db else others[|others| - 1]
  }

  /** What a waiting caller is told, and the tables afterwards. */
  function Awaited(db: Db, key: string, others: seq<Db>, at: Time): (Result<Answer, Error>, Db) {
    var seen := LastSeen(db, key, others);
    if FirstResult(others, key) == |others| then (Err(IdempotencyTimeout), seen)
    else
      match Replay(seen, key, at)
      case Err(e) => (Err(e), seen)
      case Ok((db', answer)) => (Ok(answer), db')
  }

  /** A caller waiting alone times out, and changes nothing: what `Process` says of a reserved key. */
  lemma WaitingAlone(db: Db, p: Payload, c: Readings, others: seq<Db>, maxBacklog: int)
    requires Taken(db, p) && forall k :: 0 <= k < |others| ==> others[k] == db
    ensures Awaited(db, p.idempotencyKey.value, others, c.done) == (Err(IdempotencyTimeout), db)
    ensures Process(db, p, c, maxBacklog) == Err(IdempotencyTimeout) && Served(db, p, c, maxBacklog) == db
  {
    assert FirstResult(others, p.idempotencyKey.value) == |others|;
  }

  /** A unit of work over the tables; `EventProcessor` is the service working through it. */
  class EventProcessor {
    var assets: seq<Asset>
    var rules: seq<Rule>
    var events: seq<Event>
    var incidents: seq<Incident>
    var actions: seq<Action>
    var audits: seq<Audit>
    var records: map<string, Record>
    var checks: seq<Check>
    const maxBacklog: int

    constructor (db: Db, maxBacklog: int)
      ensures View() == db && this.maxBacklog == maxBacklog
    {
      this.maxBacklog := maxBacklog;
      assets, rules, events, incidents := db.assets, db.rules, db.events, db.incidents;
      actions, audits, records, checks := db.actions, db.audits, db.records, db.checks;
    }

    function View(): Db
      reads this
    {
      Db(assets, rules, events, incidents, actions, audits, records, checks)
    }

    method Restore(db: Db)
      modifies this
      ensures View() == db
    {
      assets, rules, events, incidents := db.assets, db.rules, db.events, db.incidents;
      actions, audits, records, checks := db.actions, db.audits, db.records, db.checks;
    }

    method Audited(a: Audit)
      modifies this`audits
      ensures View() == old(View()).Log(a)
    {
      audits := audits + [a];
    }

    method ProcessNewEvent(p: Payload, c: Readings) returns (r: Result<Outcome, Error>)
      modifies this
      ensures match ProcessNew(old(View()), p, c, maxBacklog)
              case Err(e) => r == Err(e) && View() == old(View())
              case Ok((db, o)) => r == Ok(o) && View() == db
    {
      var asset := FindAsset(assets, p.asset);
      if asset.None? {
        return Err(UnknownAsset(p.asset));
      }
      var a := asset.value;
      var e := |events|;
      assets := assets[a := assets[a].(status := p.category)];
      events := events + [NewEvent(p, a, c.event)];
      assert View() == RecordEvent(old(View()), p, a, c);

      var rule := PyRules.Match(rules, p.category, p.severity);
      if rule.None? {
        Audited(EventRecorded(e));
        return Ok(Outcome(e, None, None, Some(NoMatchingRule)));
      }
      var matched := rules[rule.value];
      if InCooldown(incidents, a, matched.cooldownMinutes, c.check) {
        Audited(EventSuppressed(e));
        return Ok(Outcome(e, None, None, Some(Cooldown)));
      }

      var i := |incidents|;
      incidents := incidents + [Incident(a, rule.value, e, Open, c.incident)];
      var action := None;
      if matched.actionType != "none" {
        if Backlog(actions) >= maxBacklog {
          Audited(BackpressureApplied(i));
          return Ok(Outcome(e, Some(i), None, Some(QueueBackpressure)));
        }
        action := Some(|actions|);
        actions := actions + [NewAction(i, matched.actionType, p, c)];
      }
      Audited(IncidentCreated(i));
      return Ok(Outcome(e, Some(i), action, None));
    }

    method ReplayRecord(key: string, at: Time) returns (r: Result<Answer, Error>)
      requires HasResult(View(), key)
      modifies this
      ensures match Replay(old(View()), key, at)
              case Err(e) => r == Err(e)
              case Ok((db, answer)) => r == Ok(answer) && View() == db
    {
      var record := records[key];
      records := records[key := record.(hits := record.hits + 1, updatedAt := at)];
      Audited(IdempotencyHit(key));
      if record.eventId.value >= |events| {
        return Err(MissingEvent);
      }
      return Ok(Answer(Stored(record), true));
    }

    /** Poll until some other transaction has completed the key; each poll sees the tables afresh. */
    method WaitForResult(key: string, views: seq<Db>, at: Time) returns (r: Result<Answer, Error>)
      modifies this
      ensures var n := FirstResult(views, key);
              if n == |views| then r == Err(IdempotencyTimeout)
              else match Replay(views[n], key, at)
                   case Err(e) => r == Err(e)
                   case Ok((db, answer)) => r == Ok(answer) && View() == db
    {
      for attempt := 0 to |views|
        invariant forall k :: 0 <= k < attempt ==> !HasResult(views[k], key)
      {
        Restore(views[attempt]);
        if HasResult(View(), key) {
          r := ReplayRecord(key, at);
          return;
        }
      }
      return Err(IdempotencyTimeout);
    }

    /** `others` are the tables at the polls, should the key turn out to be taken. */
    method ProcessWithIdempotency(p: Payload, c: Readings, others: seq<Db>) returns (r: Result<Answer, Error>)
      requires Keyed(p)
      modifies this
      ensures var key := p.idempotencyKey.value;
              if HasResult(old(View()), key) || key !in old(records) then
                match Process(old(View()), p, c, maxBacklog)
                case Err(e) => r == Err(e)
                case Ok((db, answer)) => r == Ok(answer) && View() == db
              else if FirstResult(others, key) == |others| then r == Err(IdempotencyTimeout)
              else match Replay(others[FirstResult(others, key)], key, c.done)
                   case Err(e) => r == Err(e)
                   case Ok((db, answer)) => r == Ok(answer) && View() == db
    {
      var key := p.idempotencyKey.value;
      if key in records && records[key].eventId.Some? {
        r := ReplayRecord(key, c.done);
        return;
      }
      if key in records {
        r := WaitForResult(key, others, c.done);
        return;
      }
      records := records[key := RESERVED];
      var first := ProcessNewEvent(p, c);
      FramesRecords(old(View()), key, p, c, maxBacklog);
      if first.Err? {
        return Err(first.error);
      }
      records := records[key := Completed(first.value, c.done)];
      return Ok(Answer(first.value, false));
    }

    /**
     * POST /events: commit on success, roll back on any error. `others` are the tables at the polls of a caller that
     * finds its key taken; what others have committed meanwhile stays.
     */
    method Ingest(p: Payload, c: Readings, others: seq<Db>) returns (r: Result<Answer, Error>)
      modifies this
      ensures !Taken(old(View()), p) ==>
        && View() == Served(old(View()), p, c, maxBacklog)
        && match Process(old(View()), p, c, maxBacklog)
           case Err(e) => r == Err(e)
           case Ok((_, answer)) => r == Ok(answer)
      ensures Taken(old(View()), p) ==> (r, View()) == Awaited(old(View()), p.idempotencyKey.value, others, c.done)
    {
      var before := View();
      if Keyed(p) {
        r := ProcessWithIdempotency(p, c, others);
      } else {
        var first := ProcessNewEvent(p, c);
        r := if first.Ok? then Ok(Answer(first.value, false)) else Err(first.error);
      }
      if r.Err? {
        Restore(if Taken(before, p) then LastSeen(before, p.idempotencyKey.value, others) else before);
      }
    }
  }

  /** Reserving a key changes nothing about how the event itself is processed. */
  lemma FramesRecords(db: Db, key: string, p: Payload, c: Readings, maxBacklog: int)
    ensures var plain := ProcessNew(db, p, c, maxBacklog);
            var reserved := ProcessNew(db.(records := db.records[key := RESERVED]), p, c, maxBacklog);
            match plain
            case Err(e) => reserved == Err(e)
            case Ok((db', o)) =>
              (db'.records == db.records && reserved == Ok((db'.(records := db.records[key := RESERVED]), o)))
  {
  }
}
