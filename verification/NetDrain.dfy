/** Draining the .NET queue: how each action must end, and when a number of rounds is enough. */
module NetDrain {
  import opened Util
  import opened NetStore
  import opened NetQueue
  import Scheduler

  // ---------------------------------------------------------------- one action

  datatype Destiny = Destiny(status: ActionStatus, attempts: nat)

  function Transient(a: QueuedAction): bool { a.executorMode == "transient_then_success" && a.attempts == 0 }

  /** The attempts an action still has ahead of it. */
  function Left(a: QueuedAction): nat {
    if !Open(a) then 0 else if Transient(a) && a.maxAttempts > 1 then 2 else 1
  }

  /** How an action ends when it is left alone with the processor. */
  function DestinyOf(a: QueuedAction): Destiny {
    if !Open(a) then Destiny(a.status, a.attempts)
    else if a.executorMode == "permanent_failure" then Destiny(FailedPermanent, a.attempts + 1)
    else if Transient(a) && a.maxAttempts <= 1 then Destiny(FailedExhausted, 1)
    else Destiny(Succeeded, a.attempts + Left(a))
  }

  /** An attempt uses up one of the attempts left and does not change the end. */
  lemma AttemptKeepsDestiny(a: QueuedAction, at: Ticks, retryDelay: Ticks)
    requires Open(a)
    ensures var b := Attempt(a, at, retryDelay);
            && DestinyOf(b) == DestinyOf(a) && Left(b) + 1 == Left(a) && b.executorMode == a.executorMode
            && (Open(b) ==> b.status == Retry && b.attempts >= 1 && b.nextAttemptAt == at + retryDelay)
  {
    assert "permanent_failure"[0] != "transient_then_success"[0];
  }

  // ---------------------------------------------------------------- one round

  function LeftWeight(): QueuedAction -> nat { (a: QueuedAction) => Left(a) }

  function TotalLeft(actions: seq<QueuedAction>): nat { Sum(actions, LeftWeight()) }

  function IsQueued(): QueuedAction -> bool { (a: QueuedAction) => a.status == Queued }

  function Unattempted(actions: seq<QueuedAction>): nat { Count(actions, IsQueued()) }

  function After(db: Db, r: Round, retryDelay: Ticks): Db
    requires InTable(db.actions, r.sel) && |r.ends| == |r.sel|
  {
    AttemptAll(db, r.sel, r.ends, retryDelay)
  }

  /** When each attempt takes one off a weight, so many attempts take off so much. */
  lemma {:induction false} WeightFalls(db: Db, sel: seq<nat>, ends: seq<Ticks>, retryDelay: Ticks,
                                       w: QueuedAction -> nat)
    requires InTable(db.actions, sel) && |ends| == |sel| && Distinct(sel)
    requires forall k :: 0 <= k < |sel| ==>
               w(Attempt(db.actions[sel[k]], ends[k], retryDelay)) + 1 == w(db.actions[sel[k]])
    ensures Sum(AttemptAll(db, sel, ends, retryDelay).actions, w) + |sel| == Sum(db.actions, w)
    decreases |sel|
  {
    if sel != [] {
      var next := AttemptAt(db, sel[0], ends[0], retryDelay);
      SumUpdate(db.actions, sel[0], next.actions[sel[0]], w);
      assert forall k :: 0 <= k < |sel[1..]| ==> sel[1..][k] == sel[k + 1] && ends[1..][k] == ends[k + 1];
      WeightFalls(next, sel[1..], ends[1..], retryDelay, w);
    }
  }

  /** Rows as a round finds or leaves them. */
  predicate Kept(a: QueuedAction, b: QueuedAction) {
    DestinyOf(b) == DestinyOf(a) && b.executorMode == a.executorMode
  }

  lemma RoundKeeps(db: Db, r: Round, retryDelay: Ticks, j: nat)
    requires Legal(db.actions, r) && j < |db.actions|
    ensures |After(db, r, retryDelay).actions| == |db.actions|
    ensures var (a, b) := (db.actions[j], After(db, r, retryDelay).actions[j]);
            && Kept(a, b)
            && if j in r.sel then Open(a) && (Open(b) ==> b.status == Retry && b.attempts >= 1) else b == a
  {
    RoundRow(db, r, retryDelay, j);
    SelectionFacts(db.actions, r);
    if j in r.sel {
      var at :| at in r.ends && After(db, r, retryDelay).actions[j] == Attempt(db.actions[j], at, retryDelay);
      AttemptKeepsDestiny(db.actions[j], at, retryDelay);
    }
  }

  lemma RoundUsesUp(db: Db, r: Round, retryDelay: Ticks)
    requires Legal(db.actions, r)
    ensures TotalLeft(After(db, r, retryDelay).actions) + |r.sel| == TotalLeft(db.actions)
  {
    SelectionFacts(db.actions, r);
    forall k | 0 <= k < |r.sel|
      ensures Left(Attempt(db.actions[r.sel[k]], r.ends[k], retryDelay)) + 1 == Left(db.actions[r.sel[k]])
    {
      AttemptKeepsDestiny(db.actions[r.sel[k]], r.ends[k], retryDelay);
    }
    WeightFalls(db, r.sel, r.ends, retryDelay, LeftWeight());
  }

  /** The last moment a round, and then the delay it sets, can put a retry off to. */
  function Latest(ends: seq<Ticks>, now: Ticks): (t: Ticks)
    ensures t >= now && forall k :: 0 <= k < |ends| ==> ends[k] <= t
  {
    if ends == [] then now
    else
      var t := Latest(ends[..|ends| - 1], now);
      assert forall k :: 0 <= k < |ends| - 1 ==> ends[k] == ends[..|ends| - 1][k];
      if ends[|ends| - 1] > t then ends[|ends| - 1] else t
  }

  function Settled(r: Round, retryDelay: Ticks): Ticks { Latest(r.ends, r.now) + retryDelay }

  predicate AllDue(actions: seq<QueuedAction>, t: Ticks) {
    forall i :: 0 <= i < |actions| && Open(actions[i]) ==> actions[i].nextAttemptAt <= t
  }

  lemma RoundLeavesDue(db: Db, r: Round, retryDelay: Ticks)
    requires retryDelay >= 0 && Legal(db.actions, r) && AllDue(db.actions, r.now)
    ensures AllDue(After(db, r, retryDelay).actions, Settled(r, retryDelay))
  {
    SelectionFacts(db.actions, r);
    AttemptAllRows(db, r.sel, r.ends, retryDelay);
    var after := After(db, r, retryDelay).actions;
    forall i | 0 <= i < |after| && Open(after[i]) ensures after[i].nextAttemptAt <= Settled(r, retryDelay) {
      if i in r.sel {
        var k :| 0 <= k < |r.sel| && r.sel[k] == i;
        AttemptKeepsDestiny(db.actions[i], r.ends[k], retryDelay);
      }
    }
  }

  lemma {:induction false} OpenRows(actions: seq<QueuedAction>, t: Ticks)
    requires AllDue(actions, t)
    ensures |DueSet(actions, t)| == Count(actions, IsOpen())
  {
    if actions != [] {
      var last := |actions| - 1;
      OpenRows(actions[..last], t);
      assert DueSet(actions, t) == DueSet(actions[..last], t) + (if Open(actions[last]) then {last} else {});
    }
  }

  /** When everything open is due, a round takes as many open rows as its limit allows. */
  lemma RoundSize(db: Db, r: Round)
    requires Legal(db.actions, r) && AllDue(db.actions, r.now)
    ensures |r.sel| == if Count(db.actions, IsOpen()) < r.limit then Count(db.actions, IsOpen()) else r.limit
    ensures |r.sel| < r.limit ==> forall j :: 0 <= j < |db.actions| && Open(db.actions[j]) ==> j in r.sel
  {
    OpenRows(db.actions, r.now);
    Scheduler.SelectionSize(Slots(db.actions), DueSet(db.actions, r.now), r.sel, r.limit);
    forall j | 0 <= j < |db.actions| && Open(db.actions[j]) && |r.sel| < r.limit ensures j in r.sel {
      assert j in DueSet(db.actions, r.now);
    }
  }

  // ---------------------------------------------------------------- first attempts come first

  /** Actions that have been attempted wait in the queue behind all that have not. */
  predicate Staged(actions: seq<QueuedAction>, start: Ticks) {
    forall i :: 0 <= i < |actions| ==>
      && (actions[i].status == Queued ==> actions[i].nextAttemptAt < start)
      && (actions[i].status == Retry ==> actions[i].nextAttemptAt >= start && actions[i].attempts >= 1)
  }

  lemma RoundKeepsStages(db: Db, r: Round, retryDelay: Ticks, start: Ticks)
    requires retryDelay >= 0 && Legal(db.actions, r) && Punctual(r) && Staged(db.actions, start) && start <= r.now
    ensures Staged(After(db, r, retryDelay).actions, start)
  {
    SelectionFacts(db.actions, r);
    AttemptAllRows(db, r.sel, r.ends, retryDelay);
    var after := After(db, r, retryDelay).actions;
    forall i | 0 <= i < |after|
      ensures after[i].status == Queued ==> after[i].nextAttemptAt < start
      ensures after[i].status == Retry ==> after[i].nextAttemptAt >= start && after[i].attempts >= 1
    {
      if i in r.sel {
        var k :| 0 <= k < |r.sel| && r.sel[k] == i;
        AttemptKeepsDestiny(db.actions[i], r.ends[k], retryDelay);
      }
    }
  }

  /** A round that leaves an action unattempted has made first attempts only, as many as its limit. */
  lemma RoundOfFirstAttempts(db: Db, r: Round, retryDelay: Ticks, start: Ticks, j: nat)
    requires Legal(db.actions, r) && AllDue(db.actions, r.now) && Staged(db.actions, start)
    requires j < |db.actions| && db.actions[j].status == Queued && j !in r.sel
    ensures |r.sel| == r.limit
    ensures Unattempted(After(db, r, retryDelay).actions) + r.limit == Unattempted(db.actions)
  {
    RoundSize(db, r);
    SelectionFacts(db.actions, r);
    forall k | 0 <= k < |r.sel|
      ensures db.actions[r.sel[k]].status == Queued
      ensures Attempt(db.actions[r.sel[k]], r.ends[k], retryDelay).status != Queued
    {
      assert j in DueSet(db.actions, r.now);
      assert Scheduler.KeyLe(Slots(db.actions)[r.sel[k]], Slots(db.actions)[j]);
    }
    WeightFalls(db, r.sel, r.ends, retryDelay, Indicator(IsQueued()));
  }

  lemma NoneUnattempted(actions: seq<QueuedAction>)
    ensures Unattempted(actions) == 0 <==> forall j :: 0 <= j < |actions| ==> actions[j].status != Queued
  {
    if Unattempted(actions) > 0 {
      var j := SumPositive(actions, Indicator(IsQueued()));
      assert actions[j].status == Queued;
    } else {
      forall j | 0 <= j < |actions| ensures actions[j].status != Queued {
        SumAtLeast(actions, j, Indicator(IsQueued()));
      }
    }
  }

  lemma FirstAttempts(db: Db, r: Round, retryDelay: Ticks, start: Ticks)
    requires Legal(db.actions, r) && AllDue(db.actions, r.now) && Staged(db.actions, start)
    ensures var after := Unattempted(After(db, r, retryDelay).actions);
            after == 0 || (|r.sel| == r.limit && after + r.limit == Unattempted(db.actions))
  {
    var after := After(db, r, retryDelay).actions;
    NoneUnattempted(after);
    if Unattempted(after) > 0 {
      var j :| 0 <= j < |after| && after[j].status == Queued;
      SelectionFacts(db.actions, r);
      AttemptAllRows(db, r.sel, r.ends, retryDelay);
      RoundKeeps(db, r, retryDelay, j);
      RoundOfFirstAttempts(db, r, retryDelay, start, j);
    }
  }

  /** What is being retried has been attempted. */
  predicate Begun(actions: seq<QueuedAction>) {
    forall i :: 0 <= i < |actions| && actions[i].status == Retry ==> actions[i].attempts >= 1
  }

  lemma RoundKeepsBegun(db: Db, r: Round, retryDelay: Ticks)
    requires Legal(db.actions, r) && Begun(db.actions)
    ensures Begun(After(db, r, retryDelay).actions)
  {
    var after := After(db, r, retryDelay).actions;
    RoundLength(db, r, retryDelay);
    forall i | 0 <= i < |after| && after[i].status == Retry ensures after[i].attempts >= 1 {
      RoundKeeps(db, r, retryDelay, i);
    }
  }

  /** Once every open action is a retry, each has one attempt left. */
  lemma RetriesHaveOneLeft(actions: seq<QueuedAction>)
    requires Begun(actions) && Unattempted(actions) == 0
    ensures TotalLeft(actions) == Count(actions, IsOpen())
  {
    NoneUnattempted(actions);
    SumPointwise(actions, actions, LeftWeight(), Indicator(IsOpen()));
  }

  lemma FewerOpen(db: Db, r: Round, retryDelay: Ticks)
    requires Legal(db.actions, r)
    ensures Count(After(db, r, retryDelay).actions, IsOpen()) <= Count(db.actions, IsOpen())
  {
    RoundLength(db, r, retryDelay);
    var after := After(db, r, retryDelay).actions;
    forall j | 0 <= j < |after| ensures Open(after[j]) ==> Open(db.actions[j]) {
      RoundKeeps(db, r, retryDelay, j);
    }
    SumMonotone(after, db.actions, Indicator(IsOpen()), Indicator(IsOpen()));
  }

  lemma RoundLength(db: Db, r: Round, retryDelay: Ticks)
    requires Legal(db.actions, r)
    ensures |After(db, r, retryDelay).actions| == |db.actions|
  {
    SelectionFacts(db.actions, r);
    AttemptAllRows(db, r.sel, r.ends, retryDelay);
  }

  // ---------------------------------------------------------------- many rounds

  ghost predicate LegalRun(db: Db, rounds: seq<Round>, retryDelay: Ticks)
    decreases |rounds|
  {
    rounds != [] ==>
      Legal(db.actions, rounds[0]) && LegalRun(After(db, rounds[0], retryDelay), rounds[1..], retryDelay)
  }

  ghost function Drain(db: Db, rounds: seq<Round>, retryDelay: Ticks): Db
    requires LegalRun(db, rounds, retryDelay)
    decreases |rounds|
  {
    if rounds == [] then db else Drain(After(db, rounds[0], retryDelay), rounds[1..], retryDelay)
  }

  lemma NextRound(db: Db, rounds: seq<Round>, retryDelay: Ticks, k: nat)
    requires k < |rounds| && LegalRun(db, rounds[k..], retryDelay)
    ensures Legal(db.actions, rounds[k])
    ensures var next := After(db, rounds[k], retryDelay);
            && LegalRun(next, rounds[k + 1..], retryDelay)
            && Drain(next, rounds[k + 1..], retryDelay) == Drain(db, rounds[k..], retryDelay)
  {
    assert rounds[k..][0] == rounds[k] && rounds[k..][1..] == rounds[k + 1..];
  }

  /** From the k-th round on, the run is legal and leads to `end`. */
  ghost predicate LeadsTo(db: Db, rounds: seq<Round>, k: nat, retryDelay: Ticks, end: Db) {
    k <= |rounds| && LegalRun(db, rounds[k..], retryDelay) && Drain(db, rounds[k..], retryDelay) == end
  }

  lemma StartLeads(db: Db, rounds: seq<Round>, retryDelay: Ticks)
    requires LegalRun(db, rounds, retryDelay)
    ensures LeadsTo(db, rounds, 0, retryDelay, Drain(db, rounds, retryDelay))
  {
    assert rounds[0..] == rounds;
  }

  lemma EndLeads(db: Db, rounds: seq<Round>, retryDelay: Ticks, end: Db)
    requires LeadsTo(db, rounds, |rounds|, retryDelay, end)
    ensures db == end
  {
    assert rounds[|rounds|..] == [];
  }

  /** Each round starts when the delays set by the one before it are over. */
  predicate Advancing(rounds: seq<Round>, start: Ticks, retryDelay: Ticks)
    decreases |rounds|
  {
    rounds != [] ==>
      rounds[0].now >= start && Advancing(rounds[1..], Settled(rounds[0], retryDelay), retryDelay)
  }

  predicate AllPunctual(rounds: seq<Round>) { forall i :: 0 <= i < |rounds| ==> Punctual(rounds[i]) }

  predicate Limited(rounds: seq<Round>, limit: nat) {
    forall i :: 0 <= i < |rounds| ==> rounds[i].limit == limit
  }

  /** Up to `most` rounds, stopping at the first that finds nothing, can always be run. */
  lemma {:induction false} RunExists(db: Db, start: Ticks, retryDelay: Ticks, limit: nat, most: nat)
    returns (rounds: seq<Round>)
    requires most >= 1
    ensures LegalRun(db, rounds, retryDelay) && Advancing(rounds, start, retryDelay) && Limited(rounds, limit)
    ensures AllPunctual(rounds)
    ensures 1 <= |rounds| <= most && (|rounds| < most ==> rounds[|rounds| - 1].sel == [])
    ensures forall i :: 0 <= i < |rounds| - 1 ==> rounds[i].sel != []
    decreases most
  {
    var r := RoundExists(db.actions, start, limit);
    if r.sel == [] || most == 1 {
      rounds := [r];
    } else {
      var rest := RunExists(After(db, r, retryDelay), Settled(r, retryDelay), retryDelay, limit, most - 1);
      rounds := [r] + rest;
      assert rounds[1..] == rest;
    }
  }

  function Taken(rounds: seq<Round>): nat {
    if rounds == [] then 0 else |rounds[0].sel| + Taken(rounds[1..])
  }

  /** Whatever the rounds, an action ends, if it ends, as it was destined to. */
  lemma {:induction false} DrainKeeps(db: Db, rounds: seq<Round>, retryDelay: Ticks, j: nat)
    requires LegalRun(db, rounds, retryDelay) && j < |db.actions|
    ensures var end := Drain(db, rounds, retryDelay).actions;
            |end| == |db.actions| && Kept(db.actions[j], end[j])
    decreases |rounds|
  {
    if rounds != [] {
      RoundKeeps(db, rounds[0], retryDelay, j);
      DrainKeeps(After(db, rounds[0], retryDelay), rounds[1..], retryDelay, j);
    }
  }

  lemma {:induction false} DrainUsesUp(db: Db, rounds: seq<Round>, retryDelay: Ticks)
    requires LegalRun(db, rounds, retryDelay)
    ensures TotalLeft(Drain(db, rounds, retryDelay).actions) + Taken(rounds) == TotalLeft(db.actions)
    decreases |rounds|
  {
    if rounds != [] {
      RoundUsesUp(db, rounds[0], retryDelay);
      DrainUsesUp(After(db, rounds[0], retryDelay), rounds[1..], retryDelay);
    }
  }

  lemma NothingLeft(actions: seq<QueuedAction>)
    ensures TotalLeft(actions) == 0 <==> forall j :: 0 <= j < |actions| ==> !Open(actions[j])
  {
    if TotalLeft(actions) > 0 {
      var j := SumPositive(actions, LeftWeight());
      assert Open(actions[j]);
    } else {
      forall j | 0 <= j < |actions| ensures !Open(actions[j]) {
        SumAtLeast(actions, j, LeftWeight());
      }
    }
  }

  /** Every round finds all that is open due. */
  ghost predicate EachDue(db: Db, rounds: seq<Round>, retryDelay: Ticks)
    requires LegalRun(db, rounds, retryDelay)
    decreases |rounds|
  {
    rounds != [] ==>
      AllDue(db.actions, rounds[0].now) && EachDue(After(db, rounds[0], retryDelay), rounds[1..], retryDelay)
  }

  predicate AllFrom(rounds: seq<Round>, start: Ticks) { forall i :: 0 <= i < |rounds| ==> rounds[i].now >= start }

  /** A clock that does not step back between rounds, nor before what the last one set, makes it so. */
  lemma {:induction false} OrderedClockIsDue(db: Db, rounds: seq<Round>, start: Ticks, retryDelay: Ticks)
    requires retryDelay >= 0 && LegalRun(db, rounds, retryDelay) && Advancing(rounds, start, retryDelay)
    requires AllDue(db.actions, start)
    ensures EachDue(db, rounds, retryDelay) && AllFrom(rounds, start)
    decreases |rounds|
  {
    if rounds != [] {
      var r := rounds[0];
      RoundLeavesDue(db, r, retryDelay);
      OrderedClockIsDue(After(db, r, retryDelay), rounds[1..], Settled(r, retryDelay), retryDelay);
      assert forall i :: 0 < i < |rounds| ==> rounds[i] == rounds[1..][i - 1];
    }
  }

  lemma EmptyRoundAlone(db: Db, r: Round, retryDelay: Ticks)
    requires Legal(db.actions, r) && r.sel == [] && r.limit >= 1
    ensures After(db, r, retryDelay) == db
    ensures TotalLeft(db.actions) == 0 <==> AllDue(db.actions, r.now)
  {
    NothingLeft(db.actions);
    if AllDue(db.actions, r.now) { RoundSize(db, r); }
  }

  /** A round that reads the clock before anything is due changes nothing. */
  lemma NothingDueYet(db: Db, r: Round, retryDelay: Ticks)
    requires r.sel == [] && r.ends == []
    requires forall i :: 0 <= i < |db.actions| ==> db.actions[i].nextAttemptAt > r.now
    ensures LegalRun(db, [r], retryDelay) && Drain(db, [r], retryDelay) == db
  {
    assert DueSet(db.actions, r.now) == {};
    assert [r][1..] == [];
  }

  /** When the last round finds nothing to do, nothing is left if and only if it found due whatever is still open. */
  lemma {:induction false} EmptyRoundDecides(db: Db, rounds: seq<Round>, retryDelay: Ticks)
    requires LegalRun(db, rounds, retryDelay) && rounds != []
    requires rounds[|rounds| - 1].sel == [] && rounds[|rounds| - 1].limit >= 1
    ensures var end := Drain(db, rounds, retryDelay).actions;
            TotalLeft(end) == 0 <==> AllDue(end, rounds[|rounds| - 1].now)
    decreases |rounds|
  {
    if |rounds| == 1 {
      EmptyRoundAlone(db, rounds[0], retryDelay);
    } else {
      EmptyRoundDecides(After(db, rounds[0], retryDelay), rounds[1..], retryDelay);
    }
  }

  /** When each round finds due what is open, and one finds nothing to do, nothing is left. */
  lemma {:induction false} EmptyRoundEnds(db: Db, rounds: seq<Round>, retryDelay: Ticks)
    requires LegalRun(db, rounds, retryDelay) && EachDue(db, rounds, retryDelay) && rounds != []
    requires rounds[|rounds| - 1].sel == [] && rounds[|rounds| - 1].limit >= 1
    ensures TotalLeft(Drain(db, rounds, retryDelay).actions) == 0
    decreases |rounds|
  {
    if |rounds| == 1 {
      EmptyRoundAlone(db, rounds[0], retryDelay);
    } else {
      EmptyRoundEnds(After(db, rounds[0], retryDelay), rounds[1..], retryDelay);
    }
  }

  /** While anything is left, a round with a positive limit makes an attempt. */
  lemma RoundIsBusy(db: Db, r: Round)
    requires Legal(db.actions, r) && AllDue(db.actions, r.now) && r.limit >= 1 && TotalLeft(db.actions) > 0
    ensures |r.sel| > 0
  {
    RoundSize(db, r);
    var j := SumPositive(db.actions, LeftWeight());
    SumAtLeast(db.actions, j, Indicator(IsOpen()));
  }

  /** Draining ends: at the latest after as many rounds as there were attempts left. */
  lemma {:induction false} EnoughRoundsEnd(db: Db, rounds: seq<Round>, retryDelay: Ticks)
    requires LegalRun(db, rounds, retryDelay) && EachDue(db, rounds, retryDelay)
    requires |rounds| >= TotalLeft(db.actions) && forall i :: 0 <= i < |rounds| ==> rounds[i].limit >= 1
    ensures TotalLeft(Drain(db, rounds, retryDelay).actions) == 0
    decreases |rounds|
  {
    if rounds != [] {
      var r := rounds[0];
      if TotalLeft(db.actions) > 0 { RoundIsBusy(db, r); }
      RoundUsesUp(db, r, retryDelay);
      EnoughRoundsEnd(After(db, r, retryDelay), rounds[1..], retryDelay);
    }
  }

  /** What `m` further rounds can finish. */
  predicate InReach(actions: seq<QueuedAction>, m: nat, limit: nat) {
    if m == 0 then TotalLeft(actions) == 0
    else TotalLeft(actions) <= m * limit && Unattempted(actions) <= (m - 1) * limit
  }

  lemma OneFewer(m: nat, limit: nat)
    ensures (m + 1) * limit == m * limit + limit
    ensures m > 0 ==> m * limit == (m - 1) * limit + limit
    ensures m > 0 ==> limit <= m * limit
  {
    if m > 0 { assert m * limit == (m - 1) * limit + limit; }
  }

  /** A full batch leaves what the remaining rounds can finish. */
  lemma FullRoundStaysInReach(db: Db, r: Round, retryDelay: Ticks, start: Ticks, m: nat)
    requires Legal(db.actions, r) && AllDue(db.actions, r.now) && Staged(db.actions, start)
    requires InReach(db.actions, m + 1, r.limit) && |r.sel| == r.limit
    ensures InReach(After(db, r, retryDelay).actions, m, r.limit)
  {
    RoundUsesUp(db, r, retryDelay);
    FirstAttempts(db, r, retryDelay, start);
    OneFewer(m, r.limit);
  }

  /** A batch that is not full has taken everything: only retries are left, at most as many as it took. */
  lemma ShortRoundStaysInReach(db: Db, r: Round, retryDelay: Ticks, start: Ticks, m: nat)
    requires retryDelay >= 0 && Legal(db.actions, r) && AllDue(db.actions, r.now) && Staged(db.actions, start)
    requires Punctual(r) && start <= r.now && InReach(db.actions, m + 1, r.limit) && |r.sel| < r.limit
    ensures InReach(After(db, r, retryDelay).actions, m, r.limit)
  {
    RoundSize(db, r);
    FirstAttempts(db, r, retryDelay, start);
    if m == 0 {
      RoundUsesUp(db, r, retryDelay);
      RetriesHaveOneLeft(db.actions);
    } else {
      RoundKeepsStages(db, r, retryDelay, start);
      RetriesHaveOneLeft(After(db, r, retryDelay).actions);
      FewerOpen(db, r, retryDelay);
      OneFewer(m, r.limit);
    }
  }

  lemma RoundStaysInReach(db: Db, r: Round, retryDelay: Ticks, start: Ticks, m: nat)
    requires retryDelay >= 0 && Legal(db.actions, r) && AllDue(db.actions, r.now) && Staged(db.actions, start)
    requires Punctual(r) && start <= r.now && InReach(db.actions, m + 1, r.limit)
    ensures InReach(After(db, r, retryDelay).actions, m, r.limit)
  {
    RoundSize(db, r);
    if |r.sel| == r.limit {
      FullRoundStaysInReach(db, r, retryDelay, start, m);
    } else {
      ShortRoundStaysInReach(db, r, retryDelay, start, m);
    }
  }

  /** Enough rounds for the attempts, and one more than the first attempts need, finish everything. */
  lemma {:induction false} ReachIsDrained(db: Db, rounds: seq<Round>, start: Ticks, retryDelay: Ticks, limit: nat)
    requires retryDelay >= 0 && LegalRun(db, rounds, retryDelay) && EachDue(db, rounds, retryDelay)
    requires Staged(db.actions, start) && AllFrom(rounds, start) && Limited(rounds, limit) && AllPunctual(rounds)
    requires InReach(db.actions, |rounds|, limit)
    ensures TotalLeft(Drain(db, rounds, retryDelay).actions) == 0
    decreases |rounds|
  {
    if rounds != [] {
      RoundStaysInReach(db, rounds[0], retryDelay, start, |rounds| - 1);
      RoundKeepsStages(db, rounds[0], retryDelay, start);
      ReachIsDrained(After(db, rounds[0], retryDelay), rounds[1..], start, retryDelay, limit);
    }
  }

  // ---------------------------------------------------------------- when the clock can tie

  /** What `m` further rounds can finish in whatever order the due query breaks ties. */
  predicate InReachAnyway(actions: seq<QueuedAction>, m: nat, limit: nat) {
    if m == 0 then TotalLeft(actions) == 0
    else (TotalLeft(actions) <= (m - 1) * limit + 1
          || (Unattempted(actions) == 0 && TotalLeft(actions) <= m * limit))
  }

  lemma NoneNewlyUnattempted(db: Db, r: Round, retryDelay: Ticks)
    requires Legal(db.actions, r)
    requires Unattempted(db.actions) == 0 || forall j :: 0 <= j < |db.actions| && Open(db.actions[j]) ==> j in r.sel
    ensures Unattempted(After(db, r, retryDelay).actions) == 0
  {
    var after := After(db, r, retryDelay).actions;
    RoundLength(db, r, retryDelay);
    NoneUnattempted(db.actions);
    forall j | 0 <= j < |after| ensures after[j].status != Queued { RoundKeeps(db, r, retryDelay, j); }
    NoneUnattempted(after);
  }

  /** A full batch without regard to order. */
  lemma FullRoundAnyway(db: Db, r: Round, retryDelay: Ticks, m: nat)
    requires Legal(db.actions, r) && AllDue(db.actions, r.now) && r.limit >= 1
    requires InReachAnyway(db.actions, m + 1, r.limit) && |r.sel| == r.limit
    ensures InReachAnyway(After(db, r, retryDelay).actions, m, r.limit)
  {
    RoundUsesUp(db, r, retryDelay);
    OneFewer(m, r.limit);
    if Unattempted(db.actions) == 0 { NoneNewlyUnattempted(db, r, retryDelay); }
  }

  /** A batch that is not full has taken everything. */
  lemma ShortRoundAnyway(db: Db, r: Round, retryDelay: Ticks, m: nat)
    requires Legal(db.actions, r) && AllDue(db.actions, r.now) && Begun(db.actions)
    requires InReachAnyway(db.actions, m + 1, r.limit) && |r.sel| < r.limit
    ensures InReachAnyway(After(db, r, retryDelay).actions, m, r.limit)
  {
    var after := After(db, r, retryDelay).actions;
    RoundSize(db, r);
    NoneNewlyUnattempted(db, r, retryDelay);
    RoundKeepsBegun(db, r, retryDelay);
    RetriesHaveOneLeft(after);
    FewerOpen(db, r, retryDelay);
    OneFewer(m, r.limit);
    if m == 0 {
      RoundUsesUp(db, r, retryDelay);
      OneLeftIsOpen(db.actions);
    }
  }

  /** Nothing is left without an open action, and no action has fewer than one attempt left while it is open. */
  lemma OneLeftIsOpen(actions: seq<QueuedAction>)
    ensures Count(actions, IsOpen()) <= TotalLeft(actions)
    ensures TotalLeft(actions) > 0 ==> Count(actions, IsOpen()) > 0
    ensures Begun(actions) && Unattempted(actions) == 0 ==> TotalLeft(actions) == Count(actions, IsOpen())
  {
    SumMonotone(actions, actions, Indicator(IsOpen()), LeftWeight());
    if TotalLeft(actions) > 0 {
      var j := SumPositive(actions, LeftWeight());
      SumAtLeast(actions, j, Indicator(IsOpen()));
    }
    if Begun(actions) && Unattempted(actions) == 0 { RetriesHaveOneLeft(actions); }
  }

  lemma RoundAnyway(db: Db, r: Round, retryDelay: Ticks, m: nat)
    requires Legal(db.actions, r) && AllDue(db.actions, r.now) && Begun(db.actions) && r.limit >= 1
    requires InReachAnyway(db.actions, m + 1, r.limit)
    ensures InReachAnyway(After(db, r, retryDelay).actions, m, r.limit)
  {
    RoundSize(db, r);
    if |r.sel| == r.limit {
      FullRoundAnyway(db, r, retryDelay, m);
    } else {
      ShortRoundAnyway(db, r, retryDelay, m);
    }
  }

  /** m rounds of a limit finish everything when all but one of the attempts left fit m - 1 of them, ties or not. */
  lemma {:induction false} DrainedAnyway(db: Db, rounds: seq<Round>, retryDelay: Ticks, limit: nat)
    requires LegalRun(db, rounds, retryDelay) && EachDue(db, rounds, retryDelay)
    requires Begun(db.actions) && Limited(rounds, limit) && limit >= 1
    requires InReachAnyway(db.actions, |rounds|, limit)
    ensures TotalLeft(Drain(db, rounds, retryDelay).actions) == 0
    decreases |rounds|
  {
    if rounds != [] {
      RoundAnyway(db, rounds[0], retryDelay, |rounds| - 1);
      RoundKeepsBegun(db, rounds[0], retryDelay);
      DrainedAnyway(After(db, rounds[0], retryDelay), rounds[1..], retryDelay, limit);
    }
  }

  // ---------------------------------------------------------------- a run that ties defeat

  /** A transient action while the clock stands still at zero, before and after its first attempt. */
  const FRESH: QueuedAction :=
    QueuedAction(0, "asset", "collect_diagnostics", "transient_then_success", Queued, 0, 3, 0, 0, 0, None)
  const TRIED: QueuedAction := Attempt(FRESH, 0, 0)
  const ENDED: QueuedAction := Attempt(TRIED, 0, 0)

  lemma FrozenRow()
    ensures Open(FRESH) && Open(TRIED) && !Open(ENDED) && TRIED.nextAttemptAt == 0 == TRIED.createdAt
    ensures Left(FRESH) == 2 && Left(TRIED) == 1 && Left(ENDED) == 0
  {
    assert "permanent_failure"[0] != "transient_then_success"[0];
  }

  /** With all keys equal any two open rows are a batch of two, and a single open row is one too. */
  lemma FrozenBatch(actions: seq<QueuedAction>, sel: seq<nat>)
    requires |actions| == 3 && forall i :: 0 <= i < 3 ==> actions[i] in {FRESH, TRIED, ENDED}
    requires sel == [0, 1] || (sel == [2] && actions[0] == actions[1] == ENDED)
    requires forall k :: 0 <= k < |sel| ==> Open(actions[sel[k]])
    ensures Legal(actions, Round(0, 2, sel, seq(|sel|, k => 0)))
  {
    FrozenRow();
  }

  lemma FrozenAfter(db: Db, a: QueuedAction, c: QueuedAction, sel: seq<nat>)
    requires db.actions == [a, a, c] && (sel == [0, 1] || sel == [2])
    ensures After(db, Round(0, 2, sel, seq(|sel|, k => 0)), 0).actions
         == if sel == [2] then [a, a, Attempt(c, 0, 0)] else [Attempt(a, 0, 0), Attempt(a, 0, 0), c]
  {
    var ends := seq(|sel|, k => 0);
    AttemptAllRows(db, sel, ends, 0);
    assert sel == [0, 1] ==> sel[0] == 0 && sel[1] == 1;
    assert sel == [2] ==> sel[0] == 2;
  }

  lemma OneMoreRound(db: Db, x: Round, rest: seq<Round>, retryDelay: Ticks)
    requires Legal(db.actions, x) && LegalRun(After(db, x, retryDelay), rest, retryDelay)
    ensures LegalRun(db, [x] + rest, retryDelay)
    ensures Drain(db, [x] + rest, retryDelay) == Drain(After(db, x, retryDelay), rest, retryDelay)
  {
    assert ([x] + rest)[1..] == rest;
  }

  lemma RunOfThree(db: Db, x: Round, y: Round, z: Round)
    requires Legal(db.actions, x) && Legal(After(db, x, 0).actions, y)
    requires Legal(After(After(db, x, 0), y, 0).actions, z)
    ensures LegalRun(db, [x, y, z], 0)
    ensures Drain(db, [x, y, z], 0) == After(After(After(db, x, 0), y, 0), z, 0)
  {
    var one := After(db, x, 0);
    var two := After(one, y, 0);
    OneMoreRound(two, z, [], 0);
    OneMoreRound(one, y, [z], 0);
    OneMoreRound(db, x, [y, z], 0);
    assert [x] + [y, z] == [x, y, z] && [y] + [z] == [y, z] && [z] + [] == [z];
  }

  predicate Frozen(r: Round) { r.now == 0 && forall k :: 0 <= k < |r.ends| ==> r.ends[k] == 0 }

  lemma {:induction false} FrozenLatest(ends: seq<Ticks>)
    requires forall k :: 0 <= k < |ends| ==> ends[k] == 0
    ensures Latest(ends, 0) == 0
  {
    if ends != [] { FrozenLatest(ends[..|ends| - 1]); }
  }

  lemma {:induction false} FrozenClock(rounds: seq<Round>)
    requires forall i :: 0 <= i < |rounds| ==> Frozen(rounds[i])
    ensures Advancing(rounds, 0, 0) && AllPunctual(rounds)
    decreases |rounds|
  {
    if rounds != [] {
      FrozenLatest(rounds[0].ends);
      FrozenClock(rounds[1..]);
    }
  }

  lemma FrozenReach(actions: seq<QueuedAction>)
    requires actions == [FRESH, FRESH, FRESH]
    ensures InReach(actions, 3, 2) && AllDue(actions, 0)
  {
    FrozenRow();
    assert actions == [] + [FRESH] + [FRESH] + [FRESH];
    SumOne([], FRESH, LeftWeight());
    SumOne([] + [FRESH], FRESH, LeftWeight());
    SumOne([] + [FRESH] + [FRESH], FRESH, LeftWeight());
    SumOne([], FRESH, Indicator(IsQueued()));
    SumOne([] + [FRESH], FRESH, Indicator(IsQueued()));
    SumOne([] + [FRESH] + [FRESH], FRESH, Indicator(IsQueued()));
  }

  /**
   * Ties can defeat the due order: three transient actions need six attempts, three rounds of two would do, and with
   * every clock reading equal the due query may still answer so that one action is left.
   */
  lemma TiesCanDefeat(db: Db)
    requires db.actions == [FRESH, FRESH, FRESH]
    ensures InReach(db.actions, 3, 2) && AllDue(db.actions, 0)
    ensures exists rounds :: Defeated(db, rounds)
  {
    FrozenReach(db.actions);
    FrozenIsDefeated(db, Round(0, 2, [0, 1], [0, 0]), Round(0, 2, [2], [0]));
  }

  lemma FrozenIsDefeated(db: Db, pair: Round, last: Round)
    requires db.actions == [FRESH, FRESH, FRESH]
    requires pair == Round(0, 2, [0, 1], [0, 0]) && last == Round(0, 2, [2], [0])
    ensures Defeated(db, [pair, pair, last])
  {
    FrozenClock([pair, pair, last]);
    FrozenRounds(db, pair, last);
  }

  /** Three rounds of two that are legal and on time, and leave something to do. */
  ghost predicate Defeated(db: Db, rounds: seq<Round>) {
    && |rounds| == 3 && Limited(rounds, 2) && AllPunctual(rounds) && Advancing(rounds, 0, 0)
    && LegalRun(db, rounds, 0) && TotalLeft(Drain(db, rounds, 0).actions) > 0
  }

  lemma FrozenRounds(db: Db, pair: Round, last: Round)
    requires db.actions == [FRESH, FRESH, FRESH]
    requires pair == Round(0, 2, [0, 1], [0, 0]) && last == Round(0, 2, [2], [0])
    ensures LegalRun(db, [pair, pair, last], 0) && TotalLeft(Drain(db, [pair, pair, last], 0).actions) > 0
  {
    assert seq(2, k => 0) == [0, 0] && seq(1, k => 0) == [0];
    FrozenRow();
    FrozenBatch(db.actions, [0, 1]);
    FrozenAfter(db, FRESH, FRESH, [0, 1]);
    var one := After(db, pair, 0);
    FrozenBatch(one.actions, [0, 1]);
    FrozenAfter(one, TRIED, FRESH, [0, 1]);
    var two := After(one, pair, 0);
    FrozenBatch(two.actions, [2]);
    FrozenAfter(two, ENDED, FRESH, [2]);
    RunOfThree(db, pair, pair, last);
    SumAtLeast(After(two, last, 0).actions, 2, LeftWeight());
  }

  // ---------------------------------------------------------------- starving one action

  predicate Stamped(actions: seq<QueuedAction>, t: Ticks) {
    forall i :: 0 <= i < |actions| ==> actions[i].createdAt == t && actions[i].nextAttemptAt == t
  }

  function Others(actions: seq<QueuedAction>, x: nat): set<nat> {
    set i | 0 <= i < |actions| && Open(actions[i]) && i != x
  }

  lemma {:induction false} OpenIndices(actions: seq<QueuedAction>)
    ensures |set i | 0 <= i < |actions| && Open(actions[i])| == Count(actions, IsOpen())
  {
    if actions != [] {
      var last := |actions| - 1;
      OpenIndices(actions[..last]);
      assert (set i | 0 <= i < |actions| && Open(actions[i]))
          == (set i | 0 <= i < |actions[..last]| && Open(actions[..last][i])) + (if Open(actions[last]) then {last} else {});
    }
  }

  lemma OthersSize(actions: seq<QueuedAction>, x: nat)
    requires x < |actions| && Open(actions[x])
    ensures |Others(actions, x)| + 1 == Count(actions, IsOpen())
  {
    OpenIndices(actions);
    var all := set i | 0 <= i < |actions| && Open(actions[i]);
    assert all == Others(actions, x) + {x};
  }

  /** A queue in which actions with two attempts left come first. */
  function Priorities(actions: seq<QueuedAction>): (q: seq<Scheduler.Slot>)
    ensures |q| == |actions|
    ensures forall i :: 0 <= i < |q| ==> q[i] == Scheduler.Slot(true, Some(if Left(actions[i]) == 2 then 0 else 1), 0)
  {
    seq(|actions|, i requires 0 <= i < |actions| => Scheduler.Slot(true, Some(if Left(actions[i]) == 2 then 0 else 1), 0))
  }

  /** A batch that leaves x out: either all of it, or all others like it, have two attempts left. */
  predicate Spares(actions: seq<QueuedAction>, x: nat, sel: seq<nat>) {
    && Distinct(sel) && InTable(actions, sel)
    && (forall k :: 0 <= k < |sel| ==> Open(actions[sel[k]]) && sel[k] != x)
    && ((forall k :: 0 <= k < |sel| ==> Left(actions[sel[k]]) == 2)
        || (forall j :: 0 <= j < |actions| && j != x && Left(actions[j]) == 2 ==> j in sel))
  }

  lemma PickOthers(actions: seq<QueuedAction>, x: nat, limit: nat) returns (sel: seq<nat>)
    requires x < |actions| && Open(actions[x]) && Count(actions, IsOpen()) >= limit + 1
    ensures |sel| == limit && Spares(actions, x, sel)
  {
    var q, due := Priorities(actions), Others(actions, x);
    OthersSize(actions, x);
    sel := Scheduler.SelectionExists(q, due, limit);
    Scheduler.SelectionSize(q, due, sel, limit);
    assert forall k :: 0 <= k < |sel| ==> sel[k] in due;
    if j :| 0 <= j < |actions| && j != x && Left(actions[j]) == 2 && j !in sel {
      assert j in due;
      forall k | 0 <= k < |sel| ensures Left(actions[sel[k]]) == 2 {
        assert Scheduler.KeyLe(q[sel[k]], q[j]);
      }
    }
  }

  function StillRound(limit: nat, sel: seq<nat>): Round { Round(0, limit, sel, seq(|sel|, k => 0)) }

  /** While the clock stands still any full batch of open rows is an answer of the due query. */
  lemma StillBatch(actions: seq<QueuedAction>, x: nat, limit: nat, sel: seq<nat>)
    requires Stamped(actions, 0) && |sel| == limit && Spares(actions, x, sel)
    ensures Legal(actions, StillRound(limit, sel)) && Frozen(StillRound(limit, sel))
  {
  }

  lemma RowUsesOne(db: Db, r: Round, retryDelay: Ticks, j: nat)
    requires Legal(db.actions, r) && j < |db.actions|
    ensures |After(db, r, retryDelay).actions| == |db.actions|
    ensures var (a, b) := (db.actions[j], After(db, r, retryDelay).actions[j]);
            if j in r.sel then Left(b) + 1 == Left(a) else b == a
  {
    RoundRow(db, r, retryDelay, j);
    SelectionFacts(db.actions, r);
    if j in r.sel {
      var at :| at in r.ends && After(db, r, retryDelay).actions[j] == Attempt(db.actions[j], at, retryDelay);
      AttemptKeepsDestiny(db.actions[j], at, retryDelay);
    }
  }

  lemma StillStamps(db: Db, r: Round)
    requires Legal(db.actions, r) && Frozen(r) && Stamped(db.actions, 0)
    ensures Stamped(After(db, r, 0).actions, 0)
  {
    var after := After(db, r, 0).actions;
    RoundLength(db, r, 0);
    forall j | 0 <= j < |after| ensures after[j].createdAt == 0 && after[j].nextAttemptAt == 0 {
      RoundRow(db, r, 0, j);
    }
  }

  /** x has two attempts left, there is work for k full rounds besides, and a full batch of others for the next one. */
  predicate Starvable(actions: seq<QueuedAction>, x: nat, k: nat, limit: nat) {
    && x < |actions| && Left(actions[x]) == 2 && Stamped(actions, 0)
    && TotalLeft(actions) >= k * limit + 2 && (k >= 1 ==> Count(actions, IsOpen()) >= limit + 1)
  }

  /** When x alone has two attempts left, all others open have one. */
  lemma OnlyTwo(actions: seq<QueuedAction>, x: nat)
    requires x < |actions| && Left(actions[x]) == 2
    requires forall j :: 0 <= j < |actions| && j != x ==> Left(actions[j]) <= 1
    ensures TotalLeft(actions) == Count(actions, IsOpen()) + 1
  {
    SumSplit(actions, x, LeftWeight());
    SumSplit(actions, x, Indicator(IsOpen()));
    SumPointwise(actions[..x], actions[..x], LeftWeight(), Indicator(IsOpen()));
    SumPointwise(actions[x + 1..], actions[x + 1..], LeftWeight(), Indicator(IsOpen()));
  }

  /** A batch of actions with two attempts left keeps them all open. */
  lemma TwosStayOpen(db: Db, r: Round)
    requires Legal(db.actions, r) && forall k :: 0 <= k < |r.sel| ==> Left(db.actions[r.sel[k]]) == 2
    ensures Count(After(db, r, 0).actions, IsOpen()) == Count(db.actions, IsOpen())
  {
    var after := After(db, r, 0).actions;
    RoundLength(db, r, 0);
    forall j | 0 <= j < |after| ensures Open(after[j]) <==> Open(db.actions[j]) { RowUsesOne(db, r, 0, j); }
    SumPointwise(after, db.actions, Indicator(IsOpen()), Indicator(IsOpen()));
  }

  lemma TwosUsedUp(db: Db, r: Round, x: nat)
    requires Legal(db.actions, r) && x < |db.actions| && x !in r.sel && Left(db.actions[x]) == 2
    requires forall j :: 0 <= j < |db.actions| && j != x && Left(db.actions[j]) == 2 ==> j in r.sel
    ensures var after := After(db, r, 0).actions; TotalLeft(after) == Count(after, IsOpen()) + 1
  {
    var after := After(db, r, 0).actions;
    RoundLength(db, r, 0);
    forall j | 0 <= j < |after| ensures if j == x then Left(after[j]) == 2 else Left(after[j]) <= 1 {
      RowUsesOne(db, r, 0, j);
    }
    OnlyTwo(after, x);
  }

  lemma StarvingStep(db: Db, x: nat, k: nat, limit: nat, sel: seq<nat>)
    requires Starvable(db.actions, x, k + 1, limit) && |sel| == limit && Spares(db.actions, x, sel)
    requires Legal(db.actions, StillRound(limit, sel))
    ensures Starvable(After(db, StillRound(limit, sel), 0).actions, x, k, limit)
  {
    var r := StillRound(limit, sel);
    var after := After(db, r, 0).actions;
    StillStamps(db, r);
    RoundUsesUp(db, r, 0);
    RowUsesOne(db, r, 0, x);
    OneFewer(k, limit);
    if forall k :: 0 <= k < |sel| ==> Left(db.actions[sel[k]]) == 2 {
      TwosStayOpen(db, r);
    } else {
      TwosUsedUp(db, r, x);
    }
  }

  /** A last round cannot end an action that has two attempts left. */
  lemma LastRoundLeavesOpen(db: Db, x: nat, limit: nat) returns (rounds: seq<Round>)
    requires x < |db.actions| && Left(db.actions[x]) == 2
    ensures |rounds| == 1 && LegalRun(db, rounds, 0) && rounds[0].limit == limit && Frozen(rounds[0])
    ensures var end := Drain(db, rounds, 0).actions; x < |end| && Open(end[x])
  {
    var last := RoundExists(db.actions, 0, limit);
    RowUsesOne(db, last, 0, x);
    OneMoreRound(db, last, [], 0);
    rounds := [last] + [];
  }

  /** A full round that passes x over and leaves enough to do for k - 1 more. */
  lemma PassingRound(db: Db, x: nat, k: nat, limit: nat) returns (r: Round)
    requires limit >= 1 && k >= 1 && Starvable(db.actions, x, k, limit)
    ensures Legal(db.actions, r) && Frozen(r) && r.limit == limit && r.sel != []
    ensures Starvable(After(db, r, 0).actions, x, k - 1, limit)
  {
    var sel := PickOthers(db.actions, x, limit);
    r := StillRound(limit, sel);
    StillBatch(db.actions, x, limit, sel);
    StarvingStep(db, x, k - 1, limit, sel);
  }

  predicate StillRounds(rounds: seq<Round>, k: nat, limit: nat) {
    && |rounds| == k + 1 && Limited(rounds, limit)
    && (forall i :: 0 <= i < |rounds| ==> Frozen(rounds[i])) && (forall i :: 0 <= i < k ==> rounds[i].sel != [])
  }

  /** k full rounds can pass x over, and one more cannot end it. */
  lemma {:induction false} Starve(db: Db, x: nat, k: nat, limit: nat) returns (rounds: seq<Round>)
    requires limit >= 1 && Starvable(db.actions, x, k, limit)
    ensures StillRounds(rounds, k, limit) && LegalRun(db, rounds, 0)
    ensures var end := Drain(db, rounds, 0).actions; x < |end| && Open(end[x])
    decreases k
  {
    if k == 0 {
      rounds := LastRoundLeavesOpen(db, x, limit);
    } else {
      var r := PassingRound(db, x, k, limit);
      var rest := Starve(After(db, r, 0), x, k - 1, limit);
      OneMoreRound(db, r, rest, 0);
      rounds := [r] + rest;
    }
  }
}
