/** services/checks.py: the check state machine and its confirmation timeouts. */
module PyChecks {
  import opened Util
  import opened PyTables

  datatype Error = InvalidTransition(from: CheckState)

  function AllowedTargets(s: CheckState): set<CheckState> {
    match s
    case Pending => {Started, Cancelled, CheckFailed}
    case Started => {WaitingConfirmation, Cancelled, CheckFailed}
    case WaitingConfirmation => {Confirmed, TimedOut, Cancelled, CheckFailed}
    case _ => {}
  }

  predicate Ended(s: CheckState) { s == Confirmed || s == TimedOut || s == Cancelled || s == CheckFailed }

  /** transition_check on the row; a target that names no state is None and is refused like any other. */
  function Transition(c: Check, target: Option<CheckState>, detail: string, timeout: Option<int>, now: Time)
    : Result<Check, Error>
  {
    if target.None? || target.value !in AllowedTargets(c.state) then Err(InvalidTransition(c.state))
    else
      var due := if Ended(target.value) then None
                 else if target.value == WaitingConfirmation && timeout.Some? then Some(now + timeout.value)
                 else c.dueAt;
      Ok(Check(target.value, if detail != "" then detail else c.detail, due, now))
  }

  function Create(db: Db, detail: string, now: Time): Db {
    db.(checks := db.checks + [Check(Pending, detail, None, now)]).Log(CheckCreated(|db.checks|))
  }

  function TransitionAt(db: Db, i: nat, target: Option<CheckState>, detail: string, timeout: Option<int>, now: Time)
    : Result<Db, Error>
    requires i < |db.checks|
  {
    match Transition(db.checks[i], target, detail, timeout, now)
    case Err(e) => Err(e)
    case Ok(c) => Ok(db.(checks := db.checks[i := c]).Log(CheckTransitioned(i)))
  }

  predicate Overdue(c: Check, now: Time) {
    c.state == WaitingConfirmation && c.dueAt.Some? && c.dueAt.value <= now
  }

  /** The rows the expiry query returns, in table order. */
  function OverdueRows(checks: seq<Check>, now: Time): (rows: seq<nat>)
    ensures forall k :: 0 <= k < |rows| ==> rows[k] < |checks| && Overdue(checks[rows[k]], now)
    ensures forall j, k :: 0 <= j < k < |rows| ==> rows[j] < rows[k]
    ensures forall i :: 0 <= i < |checks| && Overdue(checks[i], now) ==> i in rows
  {
    if checks == [] then []
    else
      var n := |checks| - 1;
      OverdueRows(checks[..n], now) + (if Overdue(checks[n], now) then [n] else [])
  }

  const TIMEOUT_DETAIL: string := "confirmation timeout"

  /** The loop of expire_waiting_checks; an invalid transition would raise out of it. */
  function ExpireRows(db: Db, rows: seq<nat>, now: Time): Result<Db, Error>
    requires forall k :: 0 <= k < |rows| ==> rows[k] < |db.checks|
    decreases |rows|
  {
    if rows == [] then Ok(db)
    else
      match TransitionAt(db, rows[0], Some(TimedOut), TIMEOUT_DETAIL, None, now)
      case Err(e) => Err(e)
      case Ok(next) =>
        assert forall k :: 0 <= k < |rows[1..]| ==> rows[1..][k] == rows[k + 1];
        ExpireRows(next, rows[1..], now)
  }

  function Expire(db: Db, now: Time): Result<Db, Error> { ExpireRows(db, OverdueRows(db.checks, now), now) }

  function Expired(c: Check, now: Time): Check {
    if Overdue(c, now) then Check(TimedOut, TIMEOUT_DETAIL, None, now) else c
  }

  function Transitioned(rows: seq<nat>): seq<Audit> {
    seq(|rows|, k requires 0 <= k < |rows| => CheckTransitioned(rows[k]))
  }

  class CheckService {
    var checks: seq<Check>
    var audits: seq<Audit>
    ghost const rest: Db

    constructor (db: Db)
      ensures View() == db
    {
      checks, audits := db.checks, db.audits;
      rest := db;
    }

    ghost function View(): Db
      reads this
    {
      rest.(checks := checks, audits := audits)
    }

    method CreateCheck(detail: string, now: Time) returns (i: nat)
      modifies this
      ensures i == |old(checks)| && View() == Create(old(View()), detail, now)
    {
      i := |checks|;
      checks := checks + [Check(Pending, detail, None, now)];
      audits := audits + [CheckCreated(i)];
    }

    method TransitionCheck(i: nat, target: Option<CheckState>, detail: string, timeout: Option<int>, now: Time)
      returns (r: Result<(), Error>)
      requires i < |checks|
      modifies this
      ensures match TransitionAt(old(View()), i, target, detail, timeout, now)
              case Err(e) => r == Err(e) && View() == old(View())
              case Ok(db) => r == Ok(()) && View() == db
    {
      var c := checks[i];
      if target.None? || target.value !in AllowedTargets(c.state) {
        return Err(InvalidTransition(c.state));
      }
      c := c.(state := target.value, updatedAt := now);
      if detail != "" {
        c := c.(detail := detail);
      }
      if target.value == WaitingConfirmation && timeout.Some? {
        c := c.(dueAt := Some(now + timeout.value));
      }
      if Ended(target.value) {
        c := c.(dueAt := None);
      }
      checks := checks[i := c];
      audits := audits + [CheckTransitioned(i)];
      return Ok(());
    }

    /** Every overdue waiting check times out, nothing else changes, and no transition is refused. */
    method ExpireWaitingChecks(now: Time) returns (r: Result<nat, Error>)
      modifies this
      ensures r == Ok(|OverdueRows(old(checks), now)|) && Expire(old(View()), now) == Ok(View())
    {
      var rows := OverdueRows(checks, now);
      NeverRefused(View(), now);
      ghost var end := Expire(View(), now).value;
      for k := 0 to |rows|
        invariant StillOverdue(checks, rows, k, now)
        invariant ExpireRows(View(), rows[k..], now) == Ok(end)
      {
        ghost var before := View();
        ExpireNext(before, rows, k, now);
        var once := TransitionCheck(rows[k], Some(TimedOut), TIMEOUT_DETAIL, None, now);
        assert once.Ok?;  // otherwise the exception would leave the loop here
        assert View() == TransitionAt(before, rows[k], Some(TimedOut), TIMEOUT_DETAIL, None, now).value;
      }
      return Ok(|rows|);
    }
  }

  // ---------------------------------------------------------------- expiry

  /** Rows from the k-th on are overdue, each named once. */
  predicate StillOverdue(checks: seq<Check>, rows: seq<nat>, k: nat, now: Time) {
    && (forall j :: k <= j < |rows| ==> rows[j] < |checks| && Overdue(checks[rows[j]], now))
    && (forall i, j :: k <= i < j < |rows| ==> rows[i] < rows[j])
  }

  lemma ExpireNext(db: Db, rows: seq<nat>, k: nat, now: Time)
    requires k < |rows| && StillOverdue(db.checks, rows, k, now)
    ensures var once := TransitionAt(db, rows[k], Some(TimedOut), TIMEOUT_DETAIL, None, now);
            && once.Ok? && StillOverdue(once.value.checks, rows, k + 1, now)
            && ExpireRows(db, rows[k..], now) == ExpireRows(once.value, rows[k + 1..], now)
  {
    assert rows[k..][0] == rows[k] && rows[k..][1..] == rows[k + 1..];
  }

  lemma {:induction false} ExpireIsPointwise(db: Db, rows: seq<nat>, now: Time)
    requires forall k :: 0 <= k < |rows| ==> rows[k] < |db.checks| && Overdue(db.checks[rows[k]], now)
    requires forall j, k :: 0 <= j < k < |rows| ==> rows[j] < rows[k]
    ensures ExpireRows(db, rows, now).Ok?
    ensures var db' := ExpireRows(db, rows, now).value;
            && |db'.checks| == |db.checks|
            && (forall i :: 0 <= i < |db.checks| ==>
                  db'.checks[i] == if i in rows then Expired(db.checks[i], now) else db.checks[i])
            && db' == db.(checks := db'.checks, audits := db.audits + Transitioned(rows))
    decreases |rows|
  {
    if rows != [] {
      var next := TransitionAt(db, rows[0], Some(TimedOut), TIMEOUT_DETAIL, None, now).value;
      ExpireIsPointwise(next, rows[1..], now);
      assert Transitioned(rows) == [CheckTransitioned(rows[0])] + Transitioned(rows[1..]);
      assert forall i :: i in rows <==> i == rows[0] || i in rows[1..];
    }
  }

  lemma NeverRefused(db: Db, now: Time)
    ensures Expire(db, now).Ok?
  {
    ExpireIsPointwise(db, OverdueRows(db.checks, now), now);
  }

  /** Expiry never raises, and what it leaves is each row expired on its own: no waiting check stays overdue. */
  lemma ExpiryIsTotal(db: Db, now: Time)
    ensures Expire(db, now).Ok? && |Expire(db, now).value.checks| == |db.checks|
    ensures forall i :: 0 <= i < |db.checks| ==> Expire(db, now).value.checks[i] == Expired(db.checks[i], now)
    ensures forall c <- Expire(db, now).value.checks :: !Overdue(c, now)
  {
    ExpireIsPointwise(db, OverdueRows(db.checks, now), now);
  }

  predicate SameButTouched(a: Check, b: Check) { a.(updatedAt := b.updatedAt) == b }

  /** Expiring at t1 and again at t2 leaves the checks as expiring once at t2 would, up to when rows were touched. */
  lemma ExpiringTwice(db: Db, t1: Time, t2: Time)
    requires t1 <= t2
    ensures Expire(db, t1).Ok? && Expire(Expire(db, t1).value, t2).Ok? && Expire(db, t2).Ok?
    ensures var twice := Expire(Expire(db, t1).value, t2).value.checks;
            var once := Expire(db, t2).value.checks;
            |twice| == |once| && forall i :: 0 <= i < |once| ==> SameButTouched(twice[i], once[i])
  {
    ExpiryIsTotal(db, t1);
    ExpiryIsTotal(db, t2);
    ExpiryIsTotal(Expire(db, t1).value, t2);
  }

  // ---------------------------------------------------------------- whole lives

  function Rank(s: CheckState): nat {
    match s case Pending => 0 case Started => 1 case WaitingConfirmation => 2 case _ => 3
  }

  /** How many transitions a check in this state can have made. */
  predicate MovesFit(s: CheckState, moves: nat) {
    if s == Cancelled || s == CheckFailed then 1 <= moves <= 3 else moves == Rank(s)
  }

  /** One attempted transition: target, detail, timeout, time. */
  datatype Request = Request(target: Option<CheckState>, detail: string, timeout: Option<int>, now: Time)

  /** The life of one check under any requests; refused ones change nothing. Also counts those that were accepted. */
  function Live(c: Check, requests: seq<Request>): (Check, nat)
    decreases |requests|
  {
    if requests == [] then (c, 0)
    else
      var r := requests[|requests| - 1];
      var (before, moves) := Live(c, requests[..|requests| - 1]);
      match Transition(before, r.target, r.detail, r.timeout, r.now)
      case Err(_) => (before, moves)
      case Ok(after) => (after, moves + 1)
  }

  /**
   * However a fresh check is driven, it makes at most three transitions, as many as its state tells, ended states
   * refuse everything, and a due time is set only while confirmation is awaited.
   */
  lemma {:induction false} LifeOfACheck(detail: string, created: Time, requests: seq<Request>)
    ensures var (c, moves) := Live(Check(Pending, detail, None, created), requests);
            && moves <= 3 && MovesFit(c.state, moves)
            && (c.dueAt.Some? ==> c.state == WaitingConfirmation)
            && (Ended(c.state) ==> forall r: Request :: Transition(c, r.target, r.detail, r.timeout, r.now).Err?)
    decreases |requests|
  {
    if requests != [] {
      LifeOfACheck(detail, created, requests[..|requests| - 1]);
    }
  }
}
