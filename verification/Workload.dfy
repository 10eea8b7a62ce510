/** benchmarks/workload.py: the synthetic workload both engines run, and the counters it predicts for them. */
module Workload {
  import opened Util
  import opened Text

  /** `occurredAt` counts the seconds since 2026-01-01T00:00:00Z. */
  datatype SharedEvent = SharedEvent(
    assetId: string, source: string, category: string, severity: int, occurredAt: int, message: string,
    executorMode: string)

  function AssetId(seed: int, group: nat, suffix: string): string {
    "SYN-" + Integer(seed) + "-" + (Padded(group, 6) + "-" + suffix)
  }

  /** The last part of the asset's name at a position of the 20-event cycle. */
  function Suffix(position: nat): string {
    if position <= 1 then "critical"
    else if position == 2 then "warning"
    else if position == 3 then "transient"
    else if position == 4 then "permanent"
    else "normal-" + Padded(position, 2)
  }

  function EventAt(index: nat, seed: int): SharedEvent {
    var group, position := index / 20, index % 20;
    var source := "synthetic-source-" + Integer(seed % 997);
    var asset := AssetId(seed, group, Suffix(position));
    if position == 0 then
      SharedEvent(asset, source, "offline", 92, index, "critical synthetic event " + Decimal(index), "success")
    else if position == 1 then
      SharedEvent(asset, source, "offline", 91, index, "cooldown duplicate synthetic event " + Decimal(index), "success")
    else if position == 2 then
      SharedEvent(asset, source, "degraded", 64, index, "warning synthetic event " + Decimal(index), "success")
    else if position == 3 then
      SharedEvent(asset, source, "offline", 93, index, "transient synthetic event " + Decimal(index),
                  "transient_then_success")
    else if position == 4 then
      SharedEvent(asset, source, "offline", 94, index, "permanent synthetic event " + Decimal(index),
                  "permanent_failure")
    else
      SharedEvent(asset, source, "heartbeat", 15, index, "normal synthetic event " + Decimal(index), "success")
  }

  datatype Counters = Counters(
    events: nat, incidents: nat, actions: nat, suppressions: nat, succeeded: nat, failed: nat, retries: nat,
    permanent: nat, errors: nat)

  /** How many indices below n sit at the given position of the cycle. */
  function At(n: nat, position: nat): nat {
    if n == 0 then 0 else At(n - 1, position) + (if (n - 1) % 20 == position then 1 else 0)
  }

  /** Whole cycles, and whether the last one has got past the position. */
  lemma {:induction false} AtClosed(n: nat, position: nat)
    requires position < 20
    ensures At(n, position) == n / 20 + (if n % 20 > position then 1 else 0)
  {
    if n > 0 {
      AtClosed(n - 1, position);
      NextInCycle(n - 1);
    }
  }

  lemma NextInCycle(n: nat)
    ensures n % 20 < 19 ==> (n + 1) / 20 == n / 20 && (n + 1) % 20 == n % 20 + 1
    ensures n % 20 == 19 ==> (n + 1) / 20 == n / 20 + 1 && (n + 1) % 20 == 0
  {
  }

  function Actions(n: nat): nat { At(n, 0) + At(n, 3) + At(n, 4) }

  lemma ActionsWithinDefault(n: nat)
    ensures Actions(n) <= 10_000 <==> n <= 66_663
  {
    AtClosed(n, 0);
    AtClosed(n, 3);
    AtClosed(n, 4);
    assert n == 20 * (n / 20) + n % 20;
  }

  /** Attempts are counted once per action and once more per retry. */
  lemma AttemptsWithinTenRounds(n: nat)
    ensures Actions(n) + At(n, 3) <= 100_000 <==> n <= 500_000
    ensures Actions(n) + At(n, 3) <= 90_001 <==> n <= 450_003
    ensures n <= 500_000 ==> Actions(n) <= 90_000
  {
    AtClosed(n, 0);
    AtClosed(n, 3);
    AtClosed(n, 4);
    assert n == 20 * (n / 20) + n % 20;
  }

  lemma AttemptsBeyond(n: nat)
    requires n >= 450_004
    ensures Actions(n) + At(n, 3) >= 90_002 && Actions(n) >= 10_001 && At(n, 3) > 0
  {
    AttemptsWithinTenRounds(n);
    AtClosed(n, 0);
    AtClosed(n, 3);
    AtClosed(n, 4);
    assert n / 20 >= 22_500;
  }

  /** The prediction, position by position. */
  function Expected(n: nat): Counters {
    Counters(n, At(n, 0) + At(n, 2) + At(n, 3) + At(n, 4), Actions(n), At(n, 1), At(n, 0) + At(n, 3), At(n, 4),
             At(n, 3), At(n, 4), 0)
  }

  /** What one more event adds to the prediction. */
  function Plus(c: Counters, position: nat): Counters {
    var incident := if position in {0, 2, 3, 4} then 1 else 0;
    var action := if position in {0, 3, 4} then 1 else 0;
    var suppression := if position == 1 then 1 else 0;
    var success := if position in {0, 3} then 1 else 0;
    var failure := if position == 4 then 1 else 0;
    var retry := if position == 3 then 1 else 0;
    Counters(c.events + 1, c.incidents + incident, c.actions + action, c.suppressions + suppression,
             c.succeeded + success, c.failed + failure, c.retries + retry, c.permanent + failure, c.errors)
  }

  lemma ExpectedStep(n: nat)
    ensures Expected(n + 1) == Plus(Expected(n), n % 20)
  {
  }

  const ZERO: Counters := Counters(0, 0, 0, 0, 0, 0, 0, 0, 0)

  function Predicted(n: nat): Counters {
    if n == 0 then ZERO else Plus(Predicted(n - 1), (n - 1) % 20)
  }

  lemma PredictedZero()
    ensures Predicted(0) == ZERO
  {
  }

  lemma PredictedNext(n: nat)
    ensures Predicted(n + 1) == Plus(Predicted(n), n % 20)
  {
  }

  lemma {:induction false} PredictedIsExpected(n: nat)
    ensures Predicted(n) == Expected(n)
  {
    if n > 0 {
      var m := n - 1;
      PredictedIsExpected(m);
      ExpectedStep(m);
      assert Predicted(m + 1) == Plus(Predicted(m), m % 20);
    }
  }

  /** The counting loop counts positions. */
  method ExpectedCounters(count: nat) returns (r: Counters)
    ensures r == Expected(count)
  {
    var incidents: nat, actions: nat, suppressions: nat := 0, 0, 0;
    var succeeded: nat, failed: nat, retries: nat, permanent: nat := 0, 0, 0, 0;
    ghost var c := ZERO;
    PredictedZero();
    for index := 0 to count
      invariant c == Predicted(index)
      invariant c.events == index && c.errors == 0 && c.incidents == incidents && c.actions == actions
      invariant c.suppressions == suppressions && c.succeeded == succeeded && c.failed == failed
      invariant c.retries == retries && c.permanent == permanent
    {
      var position := index % 20;
      PredictedNext(index);
      c := Plus(c, position);
      if position == 0 || position == 2 || position == 3 || position == 4 {
        incidents := incidents + 1;
      }
      if position == 0 || position == 3 || position == 4 {
        actions := actions + 1;
      }
      if position == 1 {
        suppressions := suppressions + 1;
      }
      if position == 0 || position == 3 {
        succeeded := succeeded + 1;
      }
      if position == 4 {
        failed := failed + 1;
        permanent := permanent + 1;
      }
      if position == 3 {
        retries := retries + 1;
      }
    }
    PredictedIsExpected(count);
    r := Counters(count, incidents, actions, suppressions, succeeded, failed, retries, permanent, 0);
  }

  // ---------------------------------------------------------------- late events

  /** Second events of their cycle that come too late to be suppressed. */
  function LateEvents(late: nat -> bool, n: nat): nat {
    if n == 0 then 0 else LateEvents(late, n - 1) + (if (n - 1) % 20 == 1 && late(n - 1) then 1 else 0)
  }

  predicate AllOnTime(late: nat -> bool, n: nat) { forall i: nat :: i < n && i % 20 == 1 ==> !late(i) }

  lemma {:induction false} NoneLate(late: nat -> bool, n: nat)
    ensures LateEvents(late, n) == 0 <==> AllOnTime(late, n)
  {
    if n > 0 { NoneLate(late, n - 1); }
  }

  lemma LateNext(late: nat -> bool, n: nat)
    ensures LateEvents(late, n + 1) == LateEvents(late, n) + (if n % 20 == 1 && late(n) then 1 else 0)
  {
  }

  /** Events that open an incident: those that are predicted to, and second events of their cycle that are late. */
  function Opens(n: nat, late: bool): bool { n % 20 in {0, 2, 3, 4} || (n % 20 == 1 && late) }

  lemma NewCycle(n: nat)
    ensures (n + 1) % 20 == 1 <==> n % 20 == 0
  {
  }

  lemma ModesDiffer()
    ensures "success" != "transient_then_success" && "success" != "permanent_failure"
    ensures "transient_then_success" != "permanent_failure"
  {
    assert "success"[0] != "transient_then_success"[0] && "success"[0] != "permanent_failure"[0];
    assert "transient_then_success"[0] != "permanent_failure"[0];
  }

  // ---------------------------------------------------------------- assets

  lemma SamePrefix(p: string, a: string, b: string)
    requires p + a == p + b
    ensures a == b
  {
    assert a == (p + a)[|p|..] && b == (p + b)[|p|..];
  }

  lemma SuffixTells(p: nat, q: nat)
    requires Suffix(p) == Suffix(q)
    ensures p == q || (p <= 1 && q <= 1)
  {
    assert Suffix(p)[0] == Suffix(q)[0];
    if p >= 5 && q >= 5 {
      SamePrefix("normal-", Padded(p, 2), Padded(q, 2));
      PaddedInjective(p, q, 2);
    }
  }

  lemma SameCycle(m: nat, n: nat, seed: int)
    requires EventAt(m, seed).assetId == EventAt(n, seed).assetId
    ensures m / 20 == n / 20 && (m % 20 == n % 20 || (m % 20 <= 1 && n % 20 <= 1))
  {
    var (g, h, s, t) := (m / 20, n / 20, Suffix(m % 20), Suffix(n % 20));
    SamePrefix("SYN-" + Integer(seed) + "-", Padded(g, 6) + "-" + s, Padded(h, 6) + "-" + t);
    DigitRunUnique(Padded(g, 6), Padded(h, 6), s, t);
    PaddedInjective(g, h, 6);
    SuffixTells(m % 20, n % 20);
  }

  lemma PairOfCycle(m: nat, n: nat)
    requires m < n && m / 20 == n / 20 && (m % 20 == n % 20 || (m % 20 <= 1 && n % 20 <= 1))
    ensures n % 20 == 1 && m == n - 1
  {
    assert m == 20 * (m / 20) + m % 20 && n == 20 * (n / 20) + n % 20;
  }

  lemma FirstOfCycle(n: nat)
    requires n % 20 == 1
    ensures (n - 1) / 20 == n / 20 && (n - 1) % 20 == 0
  {
  }

  /** Two events of the workload share an asset exactly when they are the two critical ones of a cycle. */
  lemma SharedAsset(m: nat, n: nat, seed: int)
    requires m < n
    ensures EventAt(m, seed).assetId == EventAt(n, seed).assetId <==> n % 20 == 1 && m == n - 1
  {
    if EventAt(m, seed).assetId == EventAt(n, seed).assetId {
      SameCycle(m, n, seed);
      PairOfCycle(m, n);
    }
    if n % 20 == 1 && m == n - 1 {
      FirstOfCycle(n);
    }
  }

  // ---------------------------------------------------------------- what the engines see of the cycle

  /** generate_events, without an end */
  function Events(seed: int): nat -> SharedEvent { (i: nat) => EventAt(i, seed) }

  function CategoryAt(position: nat): string {
    if position == 2 then "degraded" else if position <= 4 then "offline" else "heartbeat"
  }

  function SeverityAt(position: nat): int {
    if position == 0 then 92 else if position == 1 then 91 else if position == 2 then 64
    else if position == 3 then 93 else if position == 4 then 94 else 15
  }

  function ModeAt(position: nat): string {
    if position == 3 then "transient_then_success" else if position == 4 then "permanent_failure" else "success"
  }

  /** An event of the cycle, and how its asset relates to those of the events before it. */
  predicate CyclicAt(gen: nat -> SharedEvent, n: nat) {
    && gen(n).category == CategoryAt(n % 20) && gen(n).severity == SeverityAt(n % 20)
    && gen(n).executorMode == ModeAt(n % 20)
    && forall m: nat :: m < n ==> (gen(m).assetId == gen(n).assetId <==> n % 20 == 1 && m == n - 1)
  }

  ghost predicate Cyclic(gen: nat -> SharedEvent) { forall n: nat :: CyclicAt(gen, n) }

  lemma EventsAreCyclic(n: nat, seed: int)
    ensures CyclicAt(Events(seed), n)
  {
    forall m: nat | m < n
      ensures Events(seed)(m).assetId == Events(seed)(n).assetId <==> n % 20 == 1 && m == n - 1
    {
      SharedAsset(m, n, seed);
    }
  }

  lemma WorkloadIsCyclic(seed: int)
    ensures Cyclic(Events(seed))
  {
    forall n: nat ensures CyclicAt(Events(seed), n) { EventsAreCyclic(n, seed); }
  }
}
