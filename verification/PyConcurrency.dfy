/**
 * Callers sharing idempotency keys, interleaved at will. Reserving a key and completing it are separate steps that
 * every other caller can see; a caller may die at any point, and dying rolls back what it had not committed.
 */
module PyConcurrency {
  import opened Util
  import opened PyTables
  import opened P = PyProcessor
  import opened PyIdempotency
  import R = PyRuns

  const POLLS: nat := 100

  datatype Phase =
    | Begin                 // nothing read yet
    | Reserving             // has seen no completed record for its key
    | Owner                 // holds the reservation of its key
    | Waiting(left: nat)    // found the key taken, polls for the result
    | Done(slot: nat)       // committed, as this entry of the log
    | Gone                  // failed, rolled back

  datatype Client = Client(payload: Payload, phase: Phase)

  /** The tables as everybody sees them, and the history of commits. */
  datatype State = State(db: Db, clients: seq<Client>, log: seq<Entry>)

  datatype Move = Look(now: Readings) | Reserve | Complete(now: Readings) | Poll(now: Readings) | Crash

  datatype Label = Label(client: nat, move: Move)

  function Key(p: Payload): string
    requires Keyed(p)
  {
    p.idempotencyKey.value
  }

  function Moved(s: State, i: nat, phase: Phase): State
    requires i < |s.clients|
  {
    s.(clients := s.clients[i := s.clients[i].(phase := phase)])
  }

  /** The transaction of client `i` ends with `r`; when it failed, `rolledBack` are the tables without it. */
  function Finish(s: State, i: nat, now: Readings, r: Result<(Db, Answer), P.Error>, rolledBack: Db): State
    requires i < |s.clients|
  {
    if r.Err? then Moved(s, i, Gone).(db := rolledBack)
    else
      Moved(s, i, Done(|s.log|)).(db := r.value.0, log := s.log + [Entry(s.clients[i].payload, now, r.value.1)])
  }

  function Unreserved(db: Db, key: string): Db { db.(records := db.records - {key}) }

  /** One step of one client; a step that is not enabled does nothing. */
  function Next(s: State, l: Label, maxBacklog: int): State {
    if l.client >= |s.clients| then s
    else
      var i := l.client;
      var p := s.clients[i].payload;
      match (s.clients[i].phase, l.move)
      case (Begin, Look(now)) =>
        if !Keyed(p) || HasResult(s.db, Key(p)) then Finish(s, i, now, Process(s.db, p, now, maxBacklog), s.db)
        else Moved(s, i, Reserving)
      case (Reserving, Reserve) =>
        if !Keyed(p) then s
        else if Key(p) in s.db.records then Moved(s, i, Waiting(POLLS))
        else Moved(s, i, Owner).(db := s.db.(records := s.db.records[Key(p) := RESERVED]))
      case (Owner, Complete(now)) =>
        if !Keyed(p) then s
        else Finish(s, i, now, ProcessFresh(s.db, p, Key(p), now, maxBacklog), Unreserved(s.db, Key(p)))
      case (Owner, Crash) =>
        if !Keyed(p) then s else Moved(s, i, Gone).(db := Unreserved(s.db, Key(p)))
      case (Waiting(left), Poll(now)) =>
        if left == 0 || !Keyed(p) then Moved(s, i, Gone)
        else if HasResult(s.db, Key(p)) then Finish(s, i, now, Process(s.db, p, now, maxBacklog), s.db)
        else Moved(s, i, Waiting(left - 1))
      case (Begin, Crash) => Moved(s, i, Gone)
      case (Reserving, Crash) => Moved(s, i, Gone)
      case (Waiting(_), Crash) => Moved(s, i, Gone)
      case _ => s
  }

  function Interleave(s: State, labels: seq<Label>, maxBacklog: int): State
    decreases |labels|
  {
    if labels == [] then s
    else Next(Interleave(s, labels[..|labels| - 1], maxBacklog), labels[|labels| - 1], maxBacklog)
  }

  function Start(db: Db, payloads: seq<Payload>): State {
    State(db, seq(|payloads|, i requires 0 <= i < |payloads| => Client(payloads[i], Begin)), [])
  }

  // ---------------------------------------------------------------- reservations do not matter

  /** The tables without the reservations. */
  function Settled(db: Db): Db {
    db.(records := map k | k in db.records && db.records[k].eventId.Some? :: db.records[k])
  }

  lemma RecordsDoNotMatter(db: Db, m: map<string, Record>, p: Payload, c: Readings, maxBacklog: int)
    ensures var plain := ProcessNew(db, p, c, maxBacklog);
            var other := ProcessNew(db.(records := m), p, c, maxBacklog);
            if plain.Err? then other == Err(plain.error)
            else plain.value.0.records == db.records
                 && other == Ok((plain.value.0.(records := m), plain.value.1))
  {
  }

  predicate SameAnswer(r: Result<(Db, Answer), P.Error>, q: Result<(Db, Answer), P.Error>) {
    if r.Err? then q == Err(r.error)
    else q.Ok? && q.value.1 == r.value.1 && Settled(r.value.0) == q.value.0
  }

  lemma ReplayInvisible(db: Db, p: Payload, c: Readings, maxBacklog: int)
    requires Keyed(p) && HasResult(db, Key(p))
    ensures SameAnswer(Process(db, p, c, maxBacklog), Process(Settled(db), p, c, maxBacklog))
  {
    assert Settled(db).records[Key(p)] == db.records[Key(p)];
  }

  /** Answering without a key, or from a stored result, is the same with reservations around. */
  lemma ReservationsInvisible(db: Db, p: Payload, c: Readings, maxBacklog: int)
    requires !Keyed(p) || HasResult(db, Key(p))
    ensures SameAnswer(Process(db, p, c, maxBacklog), Process(Settled(db), p, c, maxBacklog))
  {
    if Keyed(p) {
      ReplayInvisible(db, p, c, maxBacklog);
    } else {
      RecordsDoNotMatter(db, Settled(db).records, p, c, maxBacklog);
    }
  }

  /** ... and leaves the reservations as they are. */
  lemma ReservationsStay(db: Db, p: Payload, c: Readings, maxBacklog: int, k: string)
    requires !Keyed(p) || HasResult(db, Key(p))
    ensures var r := Process(db, p, c, maxBacklog);
            r.Ok? ==> (k in r.value.0.records <==> k in db.records)
                      && (k in db.records && db.records[k].eventId.None? ==> r.value.0.records[k] == db.records[k])
                      && (k in db.records && db.records[k].eventId.Some? ==> r.value.0.records[k].eventId.Some?)
  {
    RecordsDoNotMatter(db, db.records, p, c, maxBacklog);
  }

  /** Completing one's own reservation is, for everybody else, processing a key nobody has used. */
  lemma CompletionIsFresh(db: Db, p: Payload, c: Readings, maxBacklog: int)
    requires Keyed(p) && Key(p) in db.records && db.records[Key(p)].eventId.None?
    ensures SameAnswer(ProcessFresh(db, p, Key(p), c, maxBacklog), Process(Settled(db), p, c, maxBacklog))
    ensures var r := ProcessFresh(db, p, Key(p), c, maxBacklog);
            r.Ok? ==> HasResult(r.value.0, Key(p)) && r.value.0.records == db.records[Key(p) := r.value.0.records[Key(p)]]
    ensures Settled(Unreserved(db, Key(p))) == Settled(db)
  {
    RecordsDoNotMatter(db, Settled(db).records, p, c, maxBacklog);
  }

  // ---------------------------------------------------------------- the invariant

  /** Owners hold their keys, and no key has two owners. */
  predicate OwnersHold(s: State) {
    && (forall i :: 0 <= i < |s.clients| && s.clients[i].phase.Owner? ==>
          var p := s.clients[i].payload;
          Keyed(p) && Key(p) in s.db.records && s.db.records[Key(p)].eventId.None?)
    && (forall i, j :: 0 <= i < j < |s.clients| && s.clients[i].phase.Owner? && s.clients[j].phase.Owner? ==>
          s.clients[i].payload.idempotencyKey != s.clients[j].payload.idempotencyKey)
  }

  predicate CommitsLogged(s: State) {
    forall i :: 0 <= i < |s.clients| && s.clients[i].phase.Done? ==>
      s.clients[i].phase.slot < |s.log| && s.log[s.clients[i].phase.slot].payload == s.clients[i].payload
  }

  /** What is visible, reservations aside, is what the committed callers leave one after the other. */
  predicate Serial(s: State, db: Db, maxBacklog: int) {
    Settled(s.db) == SerialDb(db, s.log, maxBacklog) && Answered(db, s.log, maxBacklog)
  }

  predicate Consistent(s: State, db: Db, maxBacklog: int) {
    OwnersHold(s) && CommitsLogged(s) && Serial(s, db, maxBacklog)
  }

  /** Appending the entry of a transaction that answered as the serial run would. */
  lemma CommitIsSerial(s: State, i: nat, now: Readings, r: Result<(Db, Answer), P.Error>, back: Db, db: Db, maxBacklog: int)
    requires i < |s.clients| && Serial(s, db, maxBacklog)
    requires SameAnswer(r, Process(Settled(s.db), s.clients[i].payload, now, maxBacklog)) && Settled(back) == Settled(s.db)
    ensures Serial(Finish(s, i, now, r, back), db, maxBacklog)
  {
    if r.Ok? {
      var e := Entry(s.clients[i].payload, now, r.value.1);
      assert (s.log + [e])[..|s.log|] == s.log;
    }
  }

  lemma CommitStaysLogged(s: State, i: nat, now: Readings, r: Result<(Db, Answer), P.Error>, back: Db)
    requires i < |s.clients| && CommitsLogged(s)
    ensures CommitsLogged(Finish(s, i, now, r, back))
  {
  }

  /** Owners keep their keys while somebody else's transaction ends without touching reservations. */
  lemma OwnersKeep(s: State, i: nat, now: Readings, r: Result<(Db, Answer), P.Error>)
    requires i < |s.clients| && !s.clients[i].phase.Owner? && OwnersHold(s)
    requires r.Ok? ==> forall k :: Reserved(s.db, k) ==> Reserved(r.value.0, k)
    ensures OwnersHold(Finish(s, i, now, r, s.db))
  {
    var s' := Finish(s, i, now, r, s.db);
    forall j | 0 <= j < |s'.clients| && s'.clients[j].phase.Owner?
      ensures Keyed(s'.clients[j].payload) && Reserved(s'.db, Key(s'.clients[j].payload))
    {
      assert s'.clients[j] == s.clients[j] && Reserved(s.db, Key(s.clients[j].payload));
    }
  }

  lemma ReservationsKept(db: Db, p: Payload, now: Readings, maxBacklog: int)
    requires (!Keyed(p) || HasResult(db, Key(p))) && Process(db, p, now, maxBacklog).Ok?
    ensures forall k :: Reserved(db, k) ==> Reserved(Process(db, p, now, maxBacklog).value.0, k)
  {
    forall k | Reserved(db, k) ensures Reserved(Process(db, p, now, maxBacklog).value.0, k) {
      ReservationsStay(db, p, now, maxBacklog, k);
    }
  }

  lemma LookOrPoll(s: State, i: nat, now: Readings, db: Db, maxBacklog: int)
    requires Consistent(s, db, maxBacklog) && i < |s.clients| && !s.clients[i].phase.Owner?
    requires var p := s.clients[i].payload; !Keyed(p) || HasResult(s.db, Key(p))
    ensures Consistent(Finish(s, i, now, Process(s.db, s.clients[i].payload, now, maxBacklog), s.db), db, maxBacklog)
  {
    var p := s.clients[i].payload;
    var r := Process(s.db, p, now, maxBacklog);
    ReservationsInvisible(s.db, p, now, maxBacklog);
    CommitIsSerial(s, i, now, r, s.db, db, maxBacklog);
    CommitStaysLogged(s, i, now, r, s.db);
    if r.Ok? { ReservationsKept(s.db, p, now, maxBacklog); }
    OwnersKeep(s, i, now, r);
  }

  /** The other owners keep their keys when an owner is done with its own. */
  lemma OwnerLeaves(s: State, i: nat, now: Readings, r: Result<(Db, Answer), P.Error>)
    requires i < |s.clients| && s.clients[i].phase.Owner? && OwnersHold(s)
    requires var p := s.clients[i].payload;
             r.Ok? ==> Key(p) in r.value.0.records
                       && r.value.0.records == s.db.records[Key(p) := r.value.0.records[Key(p)]]
    ensures OwnersHold(Finish(s, i, now, r, Unreserved(s.db, Key(s.clients[i].payload))))
  {
    var s' := Finish(s, i, now, r, Unreserved(s.db, Key(s.clients[i].payload)));
    forall j | 0 <= j < |s'.clients| && s'.clients[j].phase.Owner?
      ensures Keyed(s'.clients[j].payload) && Reserved(s'.db, Key(s'.clients[j].payload))
    {
      assert j != i && s'.clients[j] == s.clients[j];
      assert s.clients[j].payload.idempotencyKey != s.clients[i].payload.idempotencyKey;
    }
  }

  /** An owner's transaction ends: its key is completed, or free again when it failed. */
  lemma OwnerFinishes(s: State, i: nat, now: Readings, r: Result<(Db, Answer), P.Error>, db: Db, maxBacklog: int)
    requires i < |s.clients| && s.clients[i].phase.Owner? && Consistent(s, db, maxBacklog)
    requires var p := s.clients[i].payload;
             && Settled(Unreserved(s.db, Key(p))) == Settled(s.db)
             && SameAnswer(r, Process(Settled(s.db), p, now, maxBacklog))
             && (r.Ok? ==> HasResult(r.value.0, Key(p))
                           && r.value.0.records == s.db.records[Key(p) := r.value.0.records[Key(p)]])
    ensures Consistent(Finish(s, i, now, r, Unreserved(s.db, Key(s.clients[i].payload))), db, maxBacklog)
  {
    var back := Unreserved(s.db, Key(s.clients[i].payload));
    CommitIsSerial(s, i, now, r, back, db, maxBacklog);
    CommitStaysLogged(s, i, now, r, back);
    OwnerLeaves(s, i, now, r);
  }

  lemma OwnerDies(s: State, i: nat, db: Db, maxBacklog: int)
    requires Consistent(s, db, maxBacklog) && i < |s.clients| && s.clients[i].phase.Owner?
    ensures var p := s.clients[i].payload;
            Keyed(p) && Consistent(Moved(s, i, Gone).(db := Unreserved(s.db, Key(p))), db, maxBacklog)
  {
    var p := s.clients[i].payload;
    assert Settled(Unreserved(s.db, Key(p))) == Settled(s.db);
  }

  lemma Reserves(s: State, i: nat, db: Db, maxBacklog: int)
    requires Consistent(s, db, maxBacklog) && i < |s.clients|
    requires var p := s.clients[i].payload; Keyed(p) && Key(p) !in s.db.records
    ensures var p := s.clients[i].payload;
            Consistent(Moved(s, i, Owner).(db := s.db.(records := s.db.records[Key(p) := RESERVED])), db, maxBacklog)
  {
    var p := s.clients[i].payload;
    assert Settled(s.db.(records := s.db.records[Key(p) := RESERVED])) == Settled(s.db);
  }

  lemma Idles(s: State, i: nat, phase: Phase, db: Db, maxBacklog: int)
    requires Consistent(s, db, maxBacklog) && i < |s.clients| && !s.clients[i].phase.Owner?
    requires !phase.Owner? && !phase.Done?
    ensures Consistent(Moved(s, i, phase), db, maxBacklog)
  {
  }

  lemma StepKeepsConsistent(s: State, l: Label, db: Db, maxBacklog: int)
    requires Consistent(s, db, maxBacklog)
    ensures Consistent(Next(s, l, maxBacklog), db, maxBacklog)
  {
    if l.client < |s.clients| {
      var i := l.client;
      var p := s.clients[i].payload;
      match (s.clients[i].phase, l.move)
      case (Begin, Look(now)) =>
        if !Keyed(p) || HasResult(s.db, Key(p)) { LookOrPoll(s, i, now, db, maxBacklog); }
        else { Idles(s, i, Reserving, db, maxBacklog); }
      case (Reserving, Reserve) =>
        if Keyed(p) {
          if Key(p) in s.db.records { Idles(s, i, Waiting(POLLS), db, maxBacklog); }
          else { Reserves(s, i, db, maxBacklog); }
        }
      case (Owner, Complete(now)) =>
        CompletionIsFresh(s.db, p, now, maxBacklog);
        OwnerFinishes(s, i, now, ProcessFresh(s.db, p, Key(p), now, maxBacklog), db, maxBacklog);
      case (Owner, Crash) => OwnerDies(s, i, db, maxBacklog);
      case (Waiting(left), Poll(now)) =>
        if left == 0 || !Keyed(p) { Idles(s, i, Gone, db, maxBacklog); }
        else if HasResult(s.db, Key(p)) { LookOrPoll(s, i, now, db, maxBacklog); }
        else { Idles(s, i, Waiting(left - 1), db, maxBacklog); }
      case (Begin, Crash) => Idles(s, i, Gone, db, maxBacklog);
      case (Reserving, Crash) => Idles(s, i, Gone, db, maxBacklog);
      case (Waiting(_), Crash) => Idles(s, i, Gone, db, maxBacklog);
      case _ =>
    }
  }

  /** Serializability: every interleaving leaves what its committed callers leave one at a time, in commit order. */
  lemma {:induction false} EveryInterleavingIsSerial(db: Db, payloads: seq<Payload>, labels: seq<Label>, maxBacklog: int)
    requires R.RecordsComplete(db)
    ensures Consistent(Interleave(Start(db, payloads), labels, maxBacklog), db, maxBacklog)
    decreases |labels|
  {
    if labels == [] {
      assert Settled(db).records == db.records by {
        forall k | k in db.records ensures k in Settled(db).records { assert HasResult(db, k); }
      }
    } else {
      EveryInterleavingIsSerial(db, payloads, labels[..|labels| - 1], maxBacklog);
      StepKeepsConsistent(Interleave(Start(db, payloads), labels[..|labels| - 1], maxBacklog),
                          labels[|labels| - 1], db, maxBacklog);
    }
  }

  /**
   * Whatever the interleaving and whoever dies: per key at most one original answer commits, and none when the key had
   * a result from the start; everybody who commits gets the outcome stored under the key, and hits has grown by the
   * committed replays.
   */
  lemma OneResultPerKey(db: Db, payloads: seq<Payload>, labels: seq<Label>, maxBacklog: int, k: string)
    requires R.RecordsComplete(db)
    ensures var s := Interleave(Start(db, payloads), labels, maxBacklog);
            && Originals(s.log, k) <= (if k in db.records then 0 else 1)
            && (HasResult(s.db, k) ==> k in db.records || Originals(s.log, k) == 1)
            && (HasResult(s.db, k) ==> s.db.records[k].hits == HitsAt(db, k) + Replays(s.log, k))
            && (HasResult(s.db, k) ==> forall n :: 0 <= n < |s.log| && For(s.log[n], k) ==>
                                         s.log[n].answer.outcome == Stored(s.db.records[k]))
            && (!HasResult(s.db, k) ==> forall n :: 0 <= n < |s.log| ==> !For(s.log[n], k))
            && (k in db.records ==> HasResult(s.db, k) && Stored(s.db.records[k]) == Stored(db.records[k]))
  {
    var s := Interleave(Start(db, payloads), labels, maxBacklog);
    EveryInterleavingIsSerial(db, payloads, labels, maxBacklog);
    KeyHistory(db, s.log, maxBacklog, k);
    SettledResult(s.db, k);
  }

  lemma SettledResult(db: Db, k: string)
    ensures k in Settled(db).records <==> HasResult(db, k)
    ensures HasResult(db, k) ==> Settled(db).records[k] == db.records[k]
  {
  }

  /** Concurrent callers leave what serving each accepted key once would leave, up to hits and their audit rows. */
  lemma ConcurrentRepeatsDoNotCount(db: Db, payloads: seq<Payload>, labels: seq<Label>, maxBacklog: int)
    requires R.RecordsComplete(db)
    ensures var s := Interleave(Start(db, payloads), labels, maxBacklog);
            Alike(Settled(s.db), ServeAll(db, Deduplicated(db, Requests(s.log)), maxBacklog))
  {
    var s := Interleave(Start(db, payloads), labels, maxBacklog);
    EveryInterleavingIsSerial(db, payloads, labels, maxBacklog);
    SerialDbServes(db, s.log, maxBacklog);
    RepeatsDoNotCount(db, Requests(s.log), maxBacklog);
  }

  lemma StepKeepsResult(s: State, l: Label, db: Db, maxBacklog: int, k: string)
    requires Consistent(s, db, maxBacklog) && HasResult(s.db, k)
    ensures var s' := Next(s, l, maxBacklog);
            HasResult(s'.db, k) && Stored(s'.db.records[k]) == Stored(s.db.records[k])
            && s'.db.records[k].hits >= s.db.records[k].hits
  {
    if l.client < |s.clients| {
      var i := l.client;
      var p := s.clients[i].payload;
      match (s.clients[i].phase, l.move)
      case (Owner, Complete(now)) => CompletionIsFresh(s.db, p, now, maxBacklog);
      case (Begin, Look(now)) => RecordsDoNotMatter(s.db, map[], p, now, maxBacklog);
      case _ =>
    }
  }

  /** Once a record is completed, nothing that happens later changes its result, and its hits never fall. */
  lemma {:induction false} ResultsAreFinal(db: Db, payloads: seq<Payload>, labels: seq<Label>, more: seq<Label>,
                                           maxBacklog: int, k: string)
    requires R.RecordsComplete(db) && HasResult(Interleave(Start(db, payloads), labels, maxBacklog).db, k)
    ensures var s := Interleave(Start(db, payloads), labels, maxBacklog);
            var s' := Interleave(Start(db, payloads), labels + more, maxBacklog);
            && HasResult(s'.db, k) && Stored(s'.db.records[k]) == Stored(s.db.records[k])
            && s'.db.records[k].hits >= s.db.records[k].hits
    decreases |more|
  {
    if more == [] {
      assert labels + more == labels;
    } else {
      var n := |more| - 1;
      var before := labels + more[..n];
      assert (labels + more)[..|labels + more| - 1] == before && (labels + more)[|labels + more| - 1] == more[n];
      ResultsAreFinal(db, payloads, labels, more[..n], maxBacklog, k);
      EveryInterleavingIsSerial(db, payloads, before, maxBacklog);
      StepKeepsResult(Interleave(Start(db, payloads), before, maxBacklog), more[n], db, maxBacklog, k);
    }
  }

  /** A key that is reserved but not completed belongs to a live owner: a dead one leaves nothing behind. */
  ghost predicate NoOrphans(s: State) {
    forall k <- s.db.records :: Reserved(s.db, k) ==> exists i :: 0 <= i < |s.clients| && Owns(s.clients[i], k)
  }

  predicate Reserved(db: Db, k: string) { k in db.records && db.records[k].eventId.None? }

  predicate Owns(c: Client, k: string) { c.phase.Owner? && KeyOf(c.payload) == Some(k) }

  /** A reservation after a step was there before, and its owner with it, or is the one just made. */
  lemma ReservationsAfter(s: State, l: Label, db: Db, maxBacklog: int, k: string)
    requires Consistent(s, db, maxBacklog) && l.client < |s.clients|
    requires Reserved(Next(s, l, maxBacklog).db, k)
    ensures var (before, after) := (s.clients[l.client], Next(s, l, maxBacklog).clients[l.client]);
            Owns(after, k) || (Reserved(s.db, k) && !Owns(before, k))
  {
    var i := l.client;
    var p := s.clients[i].payload;
    match (s.clients[i].phase, l.move)
    case (Owner, Complete(now)) => CompletionIsFresh(s.db, p, now, maxBacklog);
    case (Begin, Look(now)) =>
      if !Keyed(p) || HasResult(s.db, Key(p)) { ReservationsStay(s.db, p, now, maxBacklog, k); }
    case (Waiting(left), Poll(now)) =>
      if Keyed(p) && HasResult(s.db, Key(p)) { ReservationsStay(s.db, p, now, maxBacklog, k); }
    case _ =>
  }

  lemma OthersStay(s: State, l: Label, maxBacklog: int)
    ensures var s' := Next(s, l, maxBacklog);
            |s'.clients| == |s.clients| &&
            forall j :: 0 <= j < |s.clients| && j != l.client ==> s'.clients[j] == s.clients[j]
  {
  }

  lemma StepLeavesNoOrphans(s: State, l: Label, db: Db, maxBacklog: int)
    requires Consistent(s, db, maxBacklog) && NoOrphans(s)
    ensures NoOrphans(Next(s, l, maxBacklog))
  {
    var s' := Next(s, l, maxBacklog);
    if l.client < |s.clients| {
      OthersStay(s, l, maxBacklog);
      forall k | k in s'.db.records && Reserved(s'.db, k)
        ensures exists j :: 0 <= j < |s'.clients| && Owns(s'.clients[j], k)
      {
        ReservationsAfter(s, l, db, maxBacklog, k);
        if !Owns(s'.clients[l.client], k) {
          var j :| 0 <= j < |s.clients| && Owns(s.clients[j], k);
          assert s'.clients[j] == s.clients[j];
        }
      }
    }
  }

  lemma {:induction false} ReservationsAreOwned(db: Db, payloads: seq<Payload>, labels: seq<Label>, maxBacklog: int)
    requires R.RecordsComplete(db)
    ensures NoOrphans(Interleave(Start(db, payloads), labels, maxBacklog))
    decreases |labels|
  {
    if labels == [] {
      forall k | k in db.records ensures db.records[k].eventId.Some? { assert HasResult(db, k); }
    } else {
      var init := labels[..|labels| - 1];
      ReservationsAreOwned(db, payloads, init, maxBacklog);
      EveryInterleavingIsSerial(db, payloads, init, maxBacklog);
      StepLeavesNoOrphans(Interleave(Start(db, payloads), init, maxBacklog), labels[|labels| - 1], db, maxBacklog);
    }
  }
}
