/** Idempotency keys: what repeats of a key mean in a serial run, and why concurrent callers see no more than that. */
module PyIdempotency {
  import opened Util
  import opened PyTables
  import opened P = PyProcessor
  import R = PyRuns

  // ---------------------------------------------------------------- serial runs

  datatype Request = Request(payload: Payload, readings: Readings)

  function KeyOf(p: Payload): Option<string> { if Keyed(p) then Some(p.idempotencyKey.value) else None }

  /** Requests one after the other, each committed or rolled back. */
  function ServeAll(db: Db, reqs: seq<Request>, maxBacklog: int): Db
    decreases |reqs|
  {
    if reqs == [] then db
    else
      var last := reqs[|reqs| - 1];
      Served(ServeAll(db, reqs[..|reqs| - 1], maxBacklog), last.payload, last.readings, maxBacklog)
  }

  /** The keys under which some request has been accepted; a request for an unknown asset is not. */
  function KeysServed(db: Db, reqs: seq<Request>): set<string>
    decreases |reqs|
  {
    if reqs == [] then db.records.Keys
    else
      var p := reqs[|reqs| - 1].payload;
      KeysServed(db, reqs[..|reqs| - 1]) +
      (if Keyed(p) && FindAsset(db.assets, p.asset).Some? then {p.idempotencyKey.value} else {})
  }

  /** The sequence without the later repeats of each accepted key. */
  function Deduplicated(db: Db, reqs: seq<Request>): seq<Request>
    decreases |reqs|
  {
    if reqs == [] then []
    else
      var init, last := reqs[..|reqs| - 1], reqs[|reqs| - 1];
      Deduplicated(db, init) +
      (if Keyed(last.payload) && last.payload.idempotencyKey.value in KeysServed(db, init) then [] else [last])
  }

  /** The audit log without the rows that replays write. */
  function WithoutHits(log: seq<Audit>): seq<Audit> {
    if log == [] then []
    else WithoutHits(log[..|log| - 1]) + (if log[|log| - 1].IdempotencyHit? then [] else [log[|log| - 1]])
  }

  predicate SameResult(r: Record, q: Record) { r.(hits := q.hits, updatedAt := q.updatedAt) == q }

  predicate SameResults(r: map<string, Record>, q: map<string, Record>) {
    r.Keys == q.Keys && forall k <- r :: SameResult(r[k], q[k])
  }

  /** Equal tables, except for hits, the records' update times and the audit rows of replays. */
  predicate Alike(a: Db, b: Db) {
    && a == b.(audits := a.audits, records := a.records)
    && WithoutHits(a.audits) == WithoutHits(b.audits)
    && SameResults(a.records, b.records)
  }

  lemma WithoutHitsOne(log: seq<Audit>, a: Audit)
    ensures WithoutHits(log + [a]) == WithoutHits(log) + (if a.IdempotencyHit? then [] else [a])
  {
    assert (log + [a])[..|log|] == log;
  }

  /** Names never change, so the same assets are known throughout. */
  lemma {:induction false} NamesFixed(a: seq<Asset>, b: seq<Asset>, id: string)
    requires |a| == |b| && forall i :: 0 <= i < |a| ==> a[i].externalId == b[i].externalId
    ensures FindAsset(a, id) == FindAsset(b, id)
  {
  }

  predicate SameNames(a: Db, b: Db) {
    |a.assets| == |b.assets| && forall i :: 0 <= i < |a.assets| ==> a.assets[i].externalId == b.assets[i].externalId
  }

  /** Serving one request: complete records stay complete, names stay, and the key is recorded once accepted. */
  lemma ServingOne(db: Db, db': Db, p: Payload, c: Readings, maxBacklog: int)
    requires R.RecordsComplete(db) && R.Ingested(db, db', p, c, maxBacklog)
    ensures R.RecordsComplete(db') && SameNames(db, db')
    ensures db'.records.Keys == db.records.Keys +
            (if Keyed(p) && FindAsset(db.assets, p.asset).Some? then {p.idempotencyKey.value} else {})
  {
  }

  lemma {:induction false} ServingAll(db: Db, reqs: seq<Request>, maxBacklog: int)
    requires R.RecordsComplete(db)
    ensures var after := ServeAll(db, reqs, maxBacklog);
            R.RecordsComplete(after) && SameNames(db, after) && after.records.Keys == KeysServed(db, reqs)
    decreases |reqs|
  {
    if reqs != [] {
      var before, last := ServeAll(db, reqs[..|reqs| - 1], maxBacklog), reqs[|reqs| - 1];
      ServingAll(db, reqs[..|reqs| - 1], maxBacklog);
      R.IngestEffect(before, last.payload, last.readings, maxBacklog);
      ServingOne(before, Served(before, last.payload, last.readings, maxBacklog), last.payload, last.readings, maxBacklog);
      NamesFixed(db.assets, before.assets, last.payload.asset);
    }
  }

  /** A repeat changes nothing that counts. */
  lemma RepeatIsInvisible(a: Db, a': Db, b: Db, p: Payload, c: Readings, maxBacklog: int)
    requires R.Ingested(a, a', p, c, maxBacklog) && Alike(a, b)
    requires Keyed(p) && p.idempotencyKey.value in a.records
    ensures Alike(a', b)
  {
    WithoutHitsOne(a.audits, IdempotencyHit(p.idempotencyKey.value));
  }

  /** Tables that are alike are indistinguishable to a new event. */
  lemma SameEffect(a: Db, b: Db, p: Payload, asset: nat, c: Readings, maxBacklog: int)
    requires Alike(a, b)
    ensures var e := R.EffectOf(a, p, asset, c, maxBacklog);
            e == R.EffectOf(b, p, asset, c, maxBacklog) && R.OutcomeOf(a, e) == R.OutcomeOf(b, e)
            && !e.audit.IdempotencyHit?
  {
  }

  lemma AppliedAlike(a: Db, a': Db, b: Db, b': Db, event: Event, e: R.Effect)
    requires Alike(a, b) && R.Applied(a, a', event, e) && R.Applied(b, b', event, e) && !e.audit.IdempotencyHit?
    requires SameResults(a'.records, b'.records)
    ensures Alike(a', b')
  {
    WithoutHitsOne(a.audits, e.audit);
    WithoutHitsOne(b.audits, e.audit);
  }

  /** A request that is no repeat does the same to tables that are alike. */
  lemma FirstIsFaithful(a: Db, a': Db, b: Db, b': Db, p: Payload, c: Readings, maxBacklog: int)
    requires R.Ingested(a, a', p, c, maxBacklog) && R.Ingested(b, b', p, c, maxBacklog) && Alike(a, b)
    requires !(Keyed(p) && p.idempotencyKey.value in a.records)
    ensures Alike(a', b')
  {
    var asset := FindAsset(a.assets, p.asset);
    if asset.Some? {
      var e := R.EffectOf(a, p, asset.value, c, maxBacklog);
      SameEffect(a, b, p, asset.value, c, maxBacklog);
      AppliedAlike(a, a', b, b', NewEvent(p, asset.value, c.event), e);
    }
  }

  lemma ServeAllOne(db: Db, reqs: seq<Request>, r: Request, maxBacklog: int)
    ensures ServeAll(db, reqs + [r], maxBacklog) ==
            Served(ServeAll(db, reqs, maxBacklog), r.payload, r.readings, maxBacklog)
  {
    assert (reqs + [r])[..|reqs|] == reqs;
  }

  lemma OneMoreRequest(a: Db, b: Db, p: Payload, c: Readings, maxBacklog: int)
    requires R.RecordsComplete(a) && R.RecordsComplete(b) && Alike(a, b)
    ensures if Keyed(p) && p.idempotencyKey.value in a.records then Alike(Served(a, p, c, maxBacklog), b)
            else Alike(Served(a, p, c, maxBacklog), Served(b, p, c, maxBacklog))
  {
    R.IngestEffect(a, p, c, maxBacklog);
    R.IngestEffect(b, p, c, maxBacklog);
    if Keyed(p) && p.idempotencyKey.value in a.records {
      RepeatIsInvisible(a, Served(a, p, c, maxBacklog), b, p, c, maxBacklog);
    } else {
      FirstIsFaithful(a, Served(a, p, c, maxBacklog), b, Served(b, p, c, maxBacklog), p, c, maxBacklog);
    }
  }

  /**
   * Processing any sequence leaves the events, incidents, actions, asset statuses, checks and stored results of
   * processing it with the later repeats of each key removed.
   */
  lemma {:induction false} RepeatsDoNotCount(db: Db, reqs: seq<Request>, maxBacklog: int)
    requires R.RecordsComplete(db)
    ensures Alike(ServeAll(db, reqs, maxBacklog), ServeAll(db, Deduplicated(db, reqs), maxBacklog))
    decreases |reqs|
  {
    if reqs != [] {
      var init, last := reqs[..|reqs| - 1], reqs[|reqs| - 1];
      var fewer := Deduplicated(db, init);
      RepeatsDoNotCount(db, init, maxBacklog);
      ServingAll(db, init, maxBacklog);
      ServingAll(db, fewer, maxBacklog);
      OneMoreRequest(ServeAll(db, init, maxBacklog), ServeAll(db, fewer, maxBacklog),
                     last.payload, last.readings, maxBacklog);
      if Keyed(last.payload) && last.payload.idempotencyKey.value in KeysServed(db, init) {
        assert Deduplicated(db, reqs) == fewer + [] == fewer;
      } else {
        assert Deduplicated(db, reqs) == fewer + [last];
        ServeAllOne(db, fewer, last, maxBacklog);
      }
    }
  }

  // ---------------------------------------------------------------- answers of a serial run

  /** A committed request and what its caller was told. */
  datatype Entry = Entry(payload: Payload, readings: Readings, answer: Answer)

  function Requests(log: seq<Entry>): seq<Request> {
    seq(|log|, i requires 0 <= i < |log| => Request(log[i].payload, log[i].readings))
  }

  function SerialDb(db: Db, log: seq<Entry>, maxBacklog: int): Db
    decreases |log|
  {
    if log == [] then db
    else
      var last := log[|log| - 1];
      Served(SerialDb(db, log[..|log| - 1], maxBacklog), last.payload, last.readings, maxBacklog)
  }

  /** Every answer in the log is the one a serial run gives. */
  predicate Answered(db: Db, log: seq<Entry>, maxBacklog: int)
    decreases |log|
  {
    log == [] ||
      var (init, last) := (log[..|log| - 1], log[|log| - 1]);
      && Answered(db, init, maxBacklog)
      && var r := Process(SerialDb(db, init, maxBacklog), last.payload, last.readings, maxBacklog);
         r.Ok? && r.value.1 == last.answer
  }

  lemma {:induction false} SerialDbServes(db: Db, log: seq<Entry>, maxBacklog: int)
    ensures SerialDb(db, log, maxBacklog) == ServeAll(db, Requests(log), maxBacklog)
  {
    if log != [] {
      SerialDbServes(db, log[..|log| - 1], maxBacklog);
      assert Requests(log)[..|log| - 1] == Requests(log[..|log| - 1]);
    }
  }

  predicate For(e: Entry, k: string) { KeyOf(e.payload) == Some(k) }

  function Originals(log: seq<Entry>, k: string): nat
  {
    if log == [] then 0
    else Originals(log[..|log| - 1], k) + (if For(log[|log| - 1], k) && !log[|log| - 1].answer.replay then 1 else 0)
  }

  function Replays(log: seq<Entry>, k: string): nat
  {
    if log == [] then 0
    else Replays(log[..|log| - 1], k) + (if For(log[|log| - 1], k) && log[|log| - 1].answer.replay then 1 else 0)
  }

  function HitsAt(db: Db, k: string): nat { if k in db.records then db.records[k].hits else 0 }

  /** One key of the log against the record stored under it, which may have been there from the start. */
  predicate KeyConsistent(start: Db, db: Db, log: seq<Entry>, k: string) {
    if k in db.records then
      && HasResult(db, k)
      && Originals(log, k) == (if k in start.records then 0 else 1)
      && db.records[k].hits == HitsAt(start, k) + Replays(log, k)
      && (k in start.records ==> HasResult(start, k) && Stored(db.records[k]) == Stored(start.records[k]))
      && forall i :: 0 <= i < |log| && For(log[i], k) ==> log[i].answer.outcome == Stored(db.records[k])
    else
      && k !in start.records
      && Originals(log, k) == 0 && Replays(log, k) == 0 && forall i :: 0 <= i < |log| ==> !For(log[i], k)
  }

  /** How one answer relates to the record stored under `k` before and after. */
  predicate KeyServed(db: Db, db': Db, p: Payload, answer: Answer, k: string) {
    if KeyOf(p) == Some(k) then
      && HasResult(db', k) && answer.outcome == Stored(db'.records[k]) && answer.replay == (k in db.records)
      && db'.records[k].hits == (if k in db.records then db.records[k].hits + 1 else 0)
      && (k in db.records ==> HasResult(db, k) && Stored(db'.records[k]) == Stored(db.records[k]))
    else (k in db'.records <==> k in db.records) && (k in db.records ==> db'.records[k] == db.records[k])
  }

  lemma AnswerOf(db: Db, p: Payload, c: Readings, maxBacklog: int, k: string)
    requires R.RecordsComplete(db) && Process(db, p, c, maxBacklog).Ok?
    ensures KeyServed(db, Process(db, p, c, maxBacklog).value.0, p, Process(db, p, c, maxBacklog).value.1, k)
  {
    FramesRecords(db, k, p, c, maxBacklog);
  }

  lemma OneMoreAnswer(start: Db, db: Db, db': Db, log: seq<Entry>, e: Entry, k: string)
    requires KeyConsistent(start, db, log, k) && KeyServed(db, db', e.payload, e.answer, k)
    ensures KeyConsistent(start, db', log + [e], k)
  {
    var more := log + [e];
    assert more[..|log|] == log && more[|log|] == e;
    assert forall i :: 0 <= i < |log| ==> more[i] == log[i];
  }

  lemma OneMoreServed(start: Db, before: Db, log: seq<Entry>, e: Entry, maxBacklog: int, k: string)
    requires R.RecordsComplete(before) && KeyConsistent(start, before, log, k)
    requires var r := Process(before, e.payload, e.readings, maxBacklog); r.Ok? && r.value.1 == e.answer
    ensures KeyConsistent(start, Served(before, e.payload, e.readings, maxBacklog), log + [e], k)
  {
    AnswerOf(before, e.payload, e.readings, maxBacklog, k);
    OneMoreAnswer(start, before, Process(before, e.payload, e.readings, maxBacklog).value.0, log, e, k);
  }

  lemma NothingServed(db: Db, k: string)
    requires R.RecordsComplete(db)
    ensures KeyConsistent(db, db, [], k)
  {
    assert k in db.records ==> HasResult(db, k);
  }

  lemma BeforeIsComplete(db: Db, log: seq<Entry>, maxBacklog: int)
    requires R.RecordsComplete(db)
    ensures R.RecordsComplete(SerialDb(db, log, maxBacklog))
  {
    SerialDbServes(db, log, maxBacklog);
    ServingAll(db, Requests(log), maxBacklog);
  }

  /** In every serial run: one original answer per new key, none per old one, replays counted, all answers the same. */
  lemma {:induction false} KeyHistory(db: Db, log: seq<Entry>, maxBacklog: int, k: string)
    requires R.RecordsComplete(db) && Answered(db, log, maxBacklog)
    ensures KeyConsistent(db, SerialDb(db, log, maxBacklog), log, k)
    decreases |log|
  {
    if log == [] {
      NothingServed(db, k);
    } else {
      var init, last := log[..|log| - 1], log[|log| - 1];
      KeyHistory(db, init, maxBacklog, k);
      BeforeIsComplete(db, init, maxBacklog);
      OneMoreServed(db, SerialDb(db, init, maxBacklog), init, last, maxBacklog, k);
      assert init + [last] == log;
    }
  }
}
