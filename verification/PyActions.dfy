/** services/actions.py: attempts, retries, due selection and the durable worker. */
module PyActions {
  import opened Util
  import opened PyTables
  import opened Text
  import Scheduler

  /** What a transport does with one attempt. `Raised` stands for any exception the service does not catch. */
  datatype Attempt =
    | Answered(succeeded: bool, detail: string)
    | TimedOut(message: string)
    | ActionTimedOut(message: string)
    | Raised(message: string)

  /** A transport sees the action's type, detail and attempt count, and the timeout. */
  type Transport = (string, string, nat, real) -> Attempt

  datatype Config = Config(maxAttempts: int, timeout: real, retryDelay: int, lease: int, transport: Transport)

  datatype Error = BadMaxAttempts | TransportRaised(message: string)

  function DefaultTransport(actionType: string, detail: string, attempts: nat, timeout: real): Attempt {
    if timeout <= 0.0 then ActionTimedOut("timeout must be positive")
    else if Contains(detail, "permanent_failure") then Answered(false, "synthetic permanent failure")
    else if (Contains(detail, "fail_once") || Contains(detail, "transient_then_success")) && attempts <= 1 then
      Answered(false, "synthetic transient failure")
    else Answered(true, "synthetic " + actionType + " completed")
  }

  predicate Final(s: ActionState) { s == Succeeded || s == Failed || s == Skipped }

  /** The row after an attempt that came back with `outcome`. */
  function Settle(a: Action, attempts: nat, succeeded: bool, detail: string, cfg: Config, now: Time): Action {
    var released := a.(attempts := attempts, leaseId := None, leasedAt := None, updatedAt := now);
    if succeeded then released.(state := Succeeded, detail := detail)
    else if Contains(a.detail, "permanent_failure") || attempts >= cfg.maxAttempts then
      released.(state := Failed, detail := detail)
    else released.(state := Retry, nextAttemptAt := Some(now + cfg.retryDelay))
  }

  /** execute_action_once, on the row alone */
  function ExecuteOnce(a: Action, cfg: Config, now: Time): Result<Action, Error> {
    if cfg.maxAttempts < 1 then Err(BadMaxAttempts)
    else if Final(a.state) then Ok(a)
    else
      match cfg.transport(a.actionType, a.detail, a.attempts + 1, cfg.timeout)
      case Raised(m) => Err(TransportRaised(m))
      case TimedOut(m) => Ok(Settle(a, a.attempts + 1, false, "timeout: " + m, cfg, now))
      case ActionTimedOut(m) => Ok(Settle(a, a.attempts + 1, false, m, cfg, now))
      case Answered(s, d) => Ok(Settle(a, a.attempts + 1, s, d, cfg, now))
  }

  /** Attempts an action can still make before its state is final. */
  function Work(a: Action, maxAttempts: int): nat {
    if !Active(a) then 0 else if maxAttempts - a.attempts > 1 then maxAttempts - a.attempts else 1
  }

  /** An attempt on an active row either ends it or leaves it waiting with strictly less work. */
  lemma AttemptProgress(a: Action, cfg: Config, now: Time)
    requires Active(a) && ExecuteOnce(a, cfg, now).Ok?
    ensures var b := ExecuteOnce(a, cfg, now).value;
            && b.attempts == a.attempts + 1 && b.leaseId.None?
            && (Terminal(b) || (b.state == Retry && b.detail == a.detail && b.attempts < cfg.maxAttempts
                                && b.nextAttemptAt == Some(now + cfg.retryDelay)))
            && Work(b, cfg.maxAttempts) < Work(a, cfg.maxAttempts)
            && b.(state := a.state, attempts := a.attempts, detail := a.detail, nextAttemptAt := a.nextAttemptAt,
                  leaseId := a.leaseId, leasedAt := a.leasedAt, updatedAt := a.updatedAt) == a
  {
  }

  /** execute_action_with_retry: attempt until the state is final; `clock(k)` is the reading at the k-th attempt. */
  function RetryLoop(a: Action, cfg: Config, clock: nat -> Time): Result<Action, Error>
    requires a.state != Skipped
    decreases Work(a, cfg.maxAttempts)
  {
    if cfg.maxAttempts < 1 then Err(BadMaxAttempts)
    else if Terminal(a) then Ok(a)
    else
      var once := ExecuteOnce(a, cfg, clock(a.attempts + 1));
      if once.Err? then once
      else
        AttemptProgress(a, cfg, clock(a.attempts + 1));
        RetryLoop(once.value, cfg, clock)
  }

  lemma RetryStep(a: Action, cfg: Config, clock: nat -> Time)
    requires Active(a) && cfg.maxAttempts >= 1
    ensures var once := ExecuteOnce(a, cfg, clock(a.attempts + 1));
            if once.Err? then RetryLoop(a, cfg, clock) == Err(once.error)
            else
              && once.value.state != Skipped && once.value.attempts == a.attempts + 1
              && Work(once.value, cfg.maxAttempts) < Work(a, cfg.maxAttempts)
              && RetryLoop(a, cfg, clock) == RetryLoop(once.value, cfg, clock)
  {
  }

  function AsSlot(a: Action): Scheduler.Slot { Scheduler.Slot(Active(a), a.nextAttemptAt, a.createdAt) }

  function Slots(actions: seq<Action>): (q: seq<Scheduler.Slot>)
    ensures |q| == |actions| && forall i :: 0 <= i < |q| ==> q[i] == AsSlot(actions[i])
  {
    seq(|actions|, i requires 0 <= i < |actions| => AsSlot(actions[i]))
  }

  /** The WHERE clause of the due query. */
  predicate Due(a: Action, now: Time, lease: int) {
    && Active(a)
    && (a.nextAttemptAt.None? || a.nextAttemptAt.value <= now)
    && (a.leaseId.None? || (a.leasedAt.Some? && a.leasedAt.value <= now - lease))
  }

  function DueSet(actions: seq<Action>, now: Time, lease: int): set<nat> {
    set i | 0 <= i < |actions| && Due(actions[i], now, lease)
  }

  /** Any row order the due query may return; ORDER BY leaves rows with equal keys unordered. */
  ghost predicate IsDueSelection(actions: seq<Action>, sel: seq<nat>, limit: nat, now: Time, lease: int) {
    Scheduler.IsSelection(Slots(actions), DueSet(actions, now, lease), sel, limit)
  }

  /** Whatever the table, the clock and the limit, the due query has an answer. */
  lemma DueSelectionExists(actions: seq<Action>, limit: nat, now: Time, lease: int) returns (sel: seq<nat>)
    ensures IsDueSelection(actions, sel, limit, now, lease)
  {
    sel := Scheduler.SelectionExists(Slots(actions), DueSet(actions, now, lease), limit);
  }

  datatype Tally = Tally(processed: nat, succeeded: nat, failed: nat, retried: nat)

  function Count1(t: Tally, s: ActionState): Tally {
    Tally(t.processed + 1,
          t.succeeded + (if s == Succeeded then 1 else 0),
          t.failed + (if s == Failed then 1 else 0),
          t.retried + (if s == Retry then 1 else 0))
  }

  /** execute_action_once within the tables: the row is rewritten and the attempt audited. */
  function ExecuteAt(db: Db, i: nat, cfg: Config, now: Time): Result<Db, Error>
    requires i < |db.actions|
  {
    match ExecuteOnce(db.actions[i], cfg, now)
    case Err(e) => Err(e)
    case Ok(a) =>
      if Final(db.actions[i].state) then Ok(db)
      else Ok(db.(actions := db.actions[i := a]).Log(ActionExecuted(i)))
  }

  predicate InTable(actions: seq<Action>, sel: seq<nat>) { forall k :: 0 <= k < |sel| ==> sel[k] < |actions| }

  /** The loop of process_due_actions over the rows already selected. */
  function ExecuteAll(db: Db, sel: seq<nat>, cfg: Config, now: Time, t: Tally): Result<(Db, Tally), Error>
    requires InTable(db.actions, sel)
    decreases |sel|
  {
    if sel == [] then Ok((db, t))
    else
      match ExecuteAt(db, sel[0], cfg, now)
      case Err(e) => Err(e)
      case Ok(next) =>
        assert forall k :: 0 <= k < |sel[1..]| ==> sel[1..][k] == sel[k + 1];
        ExecuteAll(next, sel[1..], cfg, now, Count1(t, next.actions[sel[0]].state))
  }

  const NOTHING: Tally := Tally(0, 0, 0, 0)

  /** ActionWorker.run_once: a pass that raises is rolled back. */
  function RunOnce(db: Db, sel: seq<nat>, cfg: Config, now: Time): (Db, Result<Tally, Error>)
    requires InTable(db.actions, sel)
  {
    match ExecuteAll(db, sel, cfg, now, NOTHING)
    case Err(e) => (db, Err(e))
    case Ok((db', t)) => (db', Ok(t))
  }

  class ActionWorker {
    var actions: seq<Action>
    var audits: seq<Audit>
    ghost const rest: Db
    const cfg: Config

    constructor (db: Db, cfg: Config)
      ensures View() == db && this.cfg == cfg
    {
      actions, audits := db.actions, db.audits;
      this.rest := db;
      this.cfg := cfg;
    }

    /** The worker touches two tables; the others are those it was opened on. */
    ghost function View(): Db
      reads this
    {
      rest.(actions := actions, audits := audits)
    }

    method ExecuteActionOnce(i: nat, now: Time) returns (r: Result<(), Error>)
      requires i < |actions|
      modifies this
      ensures |actions| == |old(actions)|
      ensures match ExecuteOnce(old(actions)[i], cfg, now)
              case Err(e) => r == Err(e)
              case Ok(a) => r == Ok(()) && actions == old(actions)[i := a]
      ensures audits == if r.Err? || Final(old(actions)[i].state) then old(audits) else old(audits) + [ActionExecuted(i)]
      ensures r.Err? ==>
        actions == if r.error.BadMaxAttempts? then old(actions)
                   else old(actions)[i := old(actions)[i].(attempts := old(actions)[i].attempts + 1)]
    {
      if cfg.maxAttempts < 1 {
        return Err(BadMaxAttempts);
      }
      var a := actions[i];
      if a.state == Succeeded || a.state == Failed || a.state == Skipped {
        return Ok(());
      }
      a := a.(attempts := a.attempts + 1);
      var originalDetail := a.detail;
      var succeeded, detail;
      match cfg.transport(a.actionType, a.detail, a.attempts, cfg.timeout) {
        case Raised(m) =>
          actions := actions[i := a];
          return Err(TransportRaised(m));
        case TimedOut(m) => succeeded, detail := false, "timeout: " + m;
        case ActionTimedOut(m) => succeeded, detail := false, m;
        case Answered(s, d) => succeeded, detail := s, d;
      }
      if succeeded {
        a := a.(state := Succeeded, detail := detail);
      } else if Contains(originalDetail, "permanent_failure") || a.attempts >= cfg.maxAttempts {
        a := a.(state := Failed, detail := detail);
      } else {
        a := a.(state := Retry, nextAttemptAt := Some(now + cfg.retryDelay));
      }
      actions := actions[i := a.(leaseId := None, leasedAt := None, updatedAt := now)];
      audits := audits + [ActionExecuted(i)];
      return Ok(());
    }

    /** One round of the retry loop: what is left to do afterwards ends as it would have ended before. */
    method RetryOnce(i: nat, clock: nat -> Time) returns (r: Result<(), Error>)
      requires i < |actions| && Active(actions[i]) && cfg.maxAttempts >= 1
      modifies this
      ensures |actions| == |old(actions)| && (r.Ok? ==> actions[i].state != Skipped)
      ensures RetryLoop(old(actions)[i], cfg, clock) ==
              if r.Err? then Err(r.error) else RetryLoop(actions[i], cfg, clock)
      ensures r.Ok? ==>
        && actions == old(actions)[i := actions[i]] && audits == old(audits) + [ActionExecuted(i)]
        && actions[i].attempts == old(actions)[i].attempts + 1
        && Work(actions[i], cfg.maxAttempts) < Work(old(actions)[i], cfg.maxAttempts)
    {
      RetryStep(actions[i], cfg, clock);
      r := ExecuteActionOnce(i, clock(actions[i].attempts + 1));
    }

    /** `clock(k)` is the reading at the attempt that makes the count k; the service passes a zero retry delay. */
    method ExecuteActionWithRetry(i: nat, clock: nat -> Time) returns (r: Result<(), Error>)
      requires i < |actions| && actions[i].state != Skipped
      requires cfg.retryDelay == 0
      modifies this
      ensures |actions| == |old(actions)|
      ensures match RetryLoop(old(actions)[i], cfg, clock)
              case Err(e) => r == Err(e)
              case Ok(a) => r == Ok(()) && actions == old(actions)[i := a]
      ensures r.Ok? ==>
        audits == old(audits) + Repeat(ActionExecuted(i), actions[i].attempts - old(actions)[i].attempts)
    {
      if cfg.maxAttempts < 1 {
        return Err(BadMaxAttempts);
      }
      ghost var start := actions[i];
      while !Terminal(actions[i])
        invariant |actions| == |old(actions)| && actions == old(actions)[i := actions[i]]
        invariant actions[i].state != Skipped && start.attempts <= actions[i].attempts
        invariant RetryLoop(start, cfg, clock) == RetryLoop(actions[i], cfg, clock)
        invariant audits == old(audits) + Repeat(ActionExecuted(i), actions[i].attempts - start.attempts)
        decreases Work(actions[i], cfg.maxAttempts)
      {
        ghost var made := actions[i].attempts - start.attempts;
        var once := RetryOnce(i, clock);
        if once.Err? {
          return once;
        }
        OneMore(old(audits), ActionExecuted(i), made);
      }
      return Ok(());
    }

    /** `sel` is the answer of the due query. */
    method ProcessDueActions(sel: seq<nat>, limit: nat, now: Time, leaseId: string) returns (r: Result<Tally, Error>)
      requires IsDueSelection(actions, sel, limit, now, cfg.lease)
      modifies this
      ensures InTable(old(actions), sel)
      ensures match ExecuteAll(old(View()), sel, cfg, now, NOTHING)
              case Err(e) => r == Err(e)
              case Ok((db, t)) => r == Ok(t) && View() == db
    {
      var t := NOTHING;
      SelectionInTable(actions, sel, limit, now, cfg.lease);
      for k := 0 to |sel|
        invariant |actions| == |old(actions)|
        invariant InTable(actions, sel)
        invariant forall j :: k <= j < |sel| ==> actions[sel[j]] == old(actions)[sel[j]]
        invariant ExecuteAll(old(View()), sel, cfg, now, NOTHING) == ExecuteAll(View(), sel[k..], cfg, now, t)
      {
        var i := sel[k];
        ghost var before := View();
        actions := actions[i := actions[i].(leaseId := Some(leaseId), leasedAt := Some(now))];
        var once := ExecuteActionOnce(i, now);
        assert sel[k..][0] == i && sel[k..][1..] == sel[k + 1..];
        LeaseIsInvisible(before, i, leaseId, cfg, now);
        if once.Err? {
          return Err(once.error);
        }
        t := Count1(t, actions[i].state);
      }
      return Ok(t);
    }

    method RunOnceCommitted(sel: seq<nat>, limit: nat, now: Time, leaseId: string) returns (r: Result<Tally, Error>)
      requires IsDueSelection(actions, sel, limit, now, cfg.lease)
      modifies this
      ensures InTable(old(actions), sel)
      ensures (View(), r) == RunOnce(old(View()), sel, cfg, now)
    {
      var actions0, audits0 := actions, audits;
      r := ProcessDueActions(sel, limit, now, leaseId);
      if r.Err? {
        actions, audits := actions0, audits0;
      }
    }
  }

  function Repeat<T>(x: T, n: int): seq<T> { if n <= 0 then [] else Repeat(x, n - 1) + [x] }

  /** execute_action_with_retry within the tables: attempt by attempt, each audited. */
  function RetryAt(db: Db, i: nat, cfg: Config, clock: nat -> Time): Result<Db, Error>
    requires i < |db.actions| && db.actions[i].state != Skipped
    decreases if i < |db.actions| then Work(db.actions[i], cfg.maxAttempts) else 0
  {
    if cfg.maxAttempts < 1 then Err(BadMaxAttempts)
    else if Terminal(db.actions[i]) then Ok(db)
    else
      RetryStep(db.actions[i], cfg, clock);
      var once := ExecuteAt(db, i, cfg, clock(db.actions[i].attempts + 1));
      if once.Err? then once else RetryAt(once.value, i, cfg, clock)
  }

  lemma ExecuteAtWork(db: Db, i: nat, cfg: Config, now: Time)
    requires i < |db.actions| && Active(db.actions[i]) && ExecuteAt(db, i, cfg, now).Ok?
    ensures var next := ExecuteAt(db, i, cfg, now).value;
            && |next.actions| == |db.actions| && next.actions[i].state != Skipped
            && Work(next.actions[i], cfg.maxAttempts) < Work(db.actions[i], cfg.maxAttempts)
  {
    AttemptProgress(db.actions[i], cfg, now);
  }

  lemma RetryAtStep(db: Db, i: nat, cfg: Config, clock: nat -> Time)
    requires i < |db.actions| && Active(db.actions[i]) && cfg.maxAttempts >= 1
    ensures var once := ExecuteAt(db, i, cfg, clock(db.actions[i].attempts + 1));
            if once.Err? then RetryAt(db, i, cfg, clock) == once
            else
              && |once.value.actions| == |db.actions| && once.value.actions[i].state != Skipped
              && Work(once.value.actions[i], cfg.maxAttempts) < Work(db.actions[i], cfg.maxAttempts)
              && RetryAt(db, i, cfg, clock) == RetryAt(once.value, i, cfg, clock)
  {
    var now := clock(db.actions[i].attempts + 1);
    if ExecuteAt(db, i, cfg, now).Ok? { ExecuteAtWork(db, i, cfg, now); }
  }

  lemma RepeatMore<T>(x: T, m: nat, n: nat)
    ensures Repeat(x, m) + Repeat(x, n) == Repeat(x, m + n)
  {
    if n > 0 { RepeatMore(x, m, n - 1); }
  }

  /** The tables once row `i` has become `a`, with an audit row for each attempt it took. */
  function Attempted(db: Db, i: nat, a: Action): Db
    requires i < |db.actions|
  {
    db.(actions := db.actions[i := a],
        audits := db.audits + Repeat(ActionExecuted(i), a.attempts - db.actions[i].attempts))
  }

  lemma AttemptedTwice(db: Db, i: nat, b: Action, a: Action)
    requires i < |db.actions| && db.actions[i].attempts <= b.attempts <= a.attempts
    ensures Attempted(Attempted(db, i, b), i, a) == Attempted(db, i, a)
  {
    RepeatMore(ActionExecuted(i), b.attempts - db.actions[i].attempts, a.attempts - b.attempts);
    assert db.actions[i := b][i := a] == db.actions[i := a];
  }

  lemma AttemptedOnce(db: Db, i: nat, cfg: Config, now: Time)
    requires i < |db.actions| && Active(db.actions[i]) && ExecuteOnce(db.actions[i], cfg, now).Ok?
    ensures ExecuteAt(db, i, cfg, now) == Ok(Attempted(db, i, ExecuteOnce(db.actions[i], cfg, now).value))
  {
    assert Repeat(ActionExecuted(i), 1) == [ActionExecuted(i)];
  }

  lemma AttemptedNot(db: Db, i: nat)
    requires i < |db.actions|
    ensures Attempted(db, i, db.actions[i]) == db
  {
  }

  /** The loop rewrites one row as RetryLoop does and leaves one audit row per attempt. */
  lemma {:induction false} RetryAtIsLoop(db: Db, i: nat, cfg: Config, clock: nat -> Time)
    requires i < |db.actions| && db.actions[i].state != Skipped
    ensures match RetryLoop(db.actions[i], cfg, clock)
            case Err(e) => RetryAt(db, i, cfg, clock) == Err(e)
            case Ok(a) => (a.attempts >= db.actions[i].attempts
                           && RetryAt(db, i, cfg, clock) == Ok(Attempted(db, i, a)))
    decreases Work(db.actions[i], cfg.maxAttempts)
  {
    var a := db.actions[i];
    AttemptedNot(db, i);
    if cfg.maxAttempts >= 1 && !Terminal(a) {
      RetryStep(a, cfg, clock);
      var now := clock(a.attempts + 1);
      var once := ExecuteOnce(a, cfg, now);
      if once.Ok? {
        AttemptedOnce(db, i, cfg, now);
        RetryAtIsLoop(Attempted(db, i, once.value), i, cfg, clock);
        if RetryLoop(a, cfg, clock).Ok? {
          AttemptedTwice(db, i, once.value, RetryLoop(a, cfg, clock).value);
        }
      }
    }
  }

  lemma OneMore<T>(s: seq<T>, x: T, n: nat)
    ensures s + Repeat(x, n) + [x] == s + Repeat(x, n + 1)
  {
  }

  lemma SelectionInTable(actions: seq<Action>, sel: seq<nat>, limit: nat, now: Time, lease: int)
    requires IsDueSelection(actions, sel, limit, now, lease)
    ensures InTable(actions, sel)
    ensures forall k :: 0 <= k < |sel| ==> Due(actions[sel[k]], now, lease)
    ensures forall j, k :: 0 <= j < k < |sel| ==> sel[j] != sel[k]
  {
    forall k | 0 <= k < |sel|
      ensures sel[k] < |actions| && Due(actions[sel[k]], now, lease)
    {
      assert sel[k] in DueSet(actions, now, lease);
    }
  }

  /** Leasing a due row right before executing it leaves no trace on success. */
  lemma LeaseIsInvisible(db: Db, i: nat, leaseId: string, cfg: Config, now: Time)
    requires i < |db.actions| && Active(db.actions[i])
    ensures var leased := db.actions[i].(leaseId := Some(leaseId), leasedAt := Some(now));
            ExecuteAt(db.(actions := db.actions[i := leased]), i, cfg, now) == ExecuteAt(db, i, cfg, now)
  {
    var leased := db.actions[i].(leaseId := Some(leaseId), leasedAt := Some(now));
    assert ExecuteOnce(leased, cfg, now) == ExecuteOnce(db.actions[i], cfg, now);
    if ExecuteOnce(leased, cfg, now).Ok? {
      var a := ExecuteOnce(leased, cfg, now).value;
      assert db.actions[i := leased][i := a] == db.actions[i := a];
    }
  }
}
