/** The queue discipline both engines share: due work ordered by (next attempt, creation), a batch at a time. */
module Scheduler {
  import opened Util

  /** What the ordering of the due query sees of an action. */
  datatype Slot = Slot(active: bool, next: Option<int>, created: int)

  /** ORDER BY next_attempt_at ASC NULLS FIRST, created_at ASC */
  predicate KeyLe(a: Slot, b: Slot) {
    if a.next.None? then b.next.None? ==> a.created <= b.created
    else b.next.Some? && (a.next.value < b.next.value || (a.next.value == b.next.value && a.created <= b.created))
  }

  /** A batch: due rows in key order, as many as the limit allows, nothing due ahead of what was taken. */
  ghost predicate IsSelection(q: seq<Slot>, due: set<nat>, sel: seq<nat>, limit: nat) {
    && (forall k :: 0 <= k < |sel| ==> sel[k] in due)
    && (forall i <- due :: i < |q|)
    && (forall j, k :: 0 <= j < k < |sel| ==> sel[j] != sel[k])
    && (forall j, k :: 0 <= j < k < |sel| && sel[j] < |q| && sel[k] < |q| ==> KeyLe(q[sel[j]], q[sel[k]]))
    && |sel| <= limit
    && (forall i <- due :: i !in sel && i < |q| ==>
          |sel| == limit && forall k :: 0 <= k < |sel| && sel[k] < |q| ==> KeyLe(q[sel[k]], q[i]))
  }

  lemma KeyLeTotal(a: Slot, b: Slot, c: Slot)
    ensures KeyLe(a, b) || KeyLe(b, a)
    ensures KeyLe(a, b) && KeyLe(b, c) ==> KeyLe(a, c)
  {
  }

  lemma {:induction false} LeastDue(q: seq<Slot>, due: set<nat>) returns (m: nat)
    requires due != {} && forall i <- due :: i < |q|
    ensures m in due && forall i <- due :: KeyLe(q[m], q[i])
  {
    var d :| d in due;
    m := d;
    if due != {d} {
      assert due != {d} ==> exists x <- due :: x != d;
      var rest := LeastDue(q, due - {d});
      KeyLeTotal(q[d], q[rest], q[rest]);
      if KeyLe(q[rest], q[d]) { m := rest; }
      forall i <- due ensures KeyLe(q[m], q[i]) { KeyLeTotal(q[d], q[rest], q[i]); }
    }
  }

  /** The part of IsSelection about the batch itself. */
  ghost predicate IsBatch(q: seq<Slot>, due: set<nat>, sel: seq<nat>) {
    && (forall k :: 0 <= k < |sel| ==> sel[k] in due)
    && (forall j, k :: 0 <= j < k < |sel| ==> sel[j] != sel[k])
    && (forall j, k :: 0 <= j < k < |sel| && sel[j] < |q| && sel[k] < |q| ==> KeyLe(q[sel[j]], q[sel[k]]))
  }

  lemma LeastInFrontOfBatch(q: seq<Slot>, due: set<nat>, m: nat, rest: seq<nat>)
    requires m in due && m < |q| && (forall i <- due :: i < |q|) && (forall i <- due :: KeyLe(q[m], q[i]))
    requires IsBatch(q, due - {m}, rest)
    ensures IsBatch(q, due, [m] + rest)
  {
    var sel := [m] + rest;
    forall j, k | 0 <= j < k < |sel| ensures sel[j] != sel[k] && sel[k] in due && KeyLe(q[sel[j]], q[sel[k]]) {
      assert sel[k] == rest[k - 1] && rest[k - 1] in due - {m};
      assert j > 0 ==> sel[j] == rest[j - 1];
    }
  }

  /** The least due row in front of a batch of the others is a batch. */
  lemma LeastInFront(q: seq<Slot>, due: set<nat>, m: nat, rest: seq<nat>, limit: nat)
    requires m in due && m < |q| && (forall i <- due :: i < |q|) && (forall i <- due :: KeyLe(q[m], q[i]))
    requires IsSelection(q, due - {m}, rest, limit)
    ensures IsSelection(q, due, [m] + rest, limit + 1)
  {
    var sel := [m] + rest;
    LeastInFrontOfBatch(q, due, m, rest);
    forall i | i in due && i !in sel
      ensures |sel| == limit + 1 && forall k :: 0 <= k < |sel| ==> KeyLe(q[sel[k]], q[i])
    {
      assert sel[0] == m && i in due - {m} && i !in rest;
    }
  }

  /** The due query always has an answer, whatever the table and the limit. */
  lemma {:induction false} SelectionExists(q: seq<Slot>, due: set<nat>, limit: nat) returns (sel: seq<nat>)
    requires forall i <- due :: i < |q|
    ensures IsSelection(q, due, sel, limit)
    decreases limit
  {
    if limit == 0 || due == {} {
      sel := [];
    } else {
      var m := LeastDue(q, due);
      var rest := SelectionExists(q, due - {m}, limit - 1);
      sel := [m] + rest;
      LeastInFront(q, due, m, rest, limit - 1);
    }
  }

  /** A selection is as long as the limit and the number of due rows allow. */
  lemma SelectionSize(q: seq<Slot>, due: set<nat>, sel: seq<nat>, limit: nat)
    requires IsSelection(q, due, sel, limit)
    ensures |sel| == if |due| < limit then |due| else limit
  {
    var taken := Elements(sel);
    assert taken <= due;
    SubsetSize(taken, due);
    if |sel| < limit {
      assert due <= taken;
      SubsetSize(due, taken);
    }
  }

  function Elements(sel: seq<nat>): (s: set<nat>)
    ensures forall i :: i in s <==> i in sel
    ensures (forall j, k :: 0 <= j < k < |sel| ==> sel[j] != sel[k]) ==> |s| == |sel|
  {
    if sel == [] then {}
    else
      var n := |sel| - 1;
      assert sel == sel[..n] + [sel[n]];
      Elements(sel[..n]) + {sel[n]}
  }

  lemma {:induction false} SubsetSize(a: set<nat>, b: set<nat>)
    requires a <= b
    ensures |a| <= |b| && |b - a| == |b| - |a|
  {
    assert b == a + (b - a);
  }

  /** What can happen to a queue: nothing, the arrival of new work, or the serving of a batch. */
  datatype Move =
    | Idle
    | Arrive(slot: Slot)
    | Serve(sel: seq<nat>, limit: nat, due: set<nat>, after: seq<Slot>)

  /** Serving ends a row or postpones it to after `t`; other rows are untouched. */
  ghost predicate Follows(q: seq<Slot>, m: Move, t: int) {
    m.Serve? ==>
      && IsSelection(q, m.due, m.sel, m.limit)
      && (forall i <- m.due :: i < |q| && q[i].active)
      && |m.after| == |q|
      && forall j :: 0 <= j < |q| ==>
           if j in m.sel then m.after[j].active ==> m.after[j].next.Some? && m.after[j].next.value > t
           else m.after[j] == q[j]
  }

  function After(q: seq<Slot>, m: Move): seq<Slot> {
    match m case Idle => q case Arrive(s) => q + [s] case Serve(_, _, _, after) => after
  }

  predicate Serves(m: Move, i: nat) { m.Serve? && i in m.sel }

  /** A run from instant `t` on in which row `i` stays due until it is served; anything may arrive. */
  ghost predicate RunAfter(q: seq<Slot>, moves: seq<Move>, i: nat, t: int)
    decreases |moves|
  {
    moves != [] ==>
      var m := moves[0];
      && Follows(q, m, t)
      && (m.Serve? ==> i in m.due)
      && (Serves(m, i) || RunAfter(After(q, m), moves[1..], i, t))
  }

  /** Work that arrives after `t` without a due time, or with one that is not after `t`. */
  predicate Straggles(s: Slot, t: int) { s.next.None? || s.next.value <= t }

  function Stragglers(moves: seq<Move>, t: int): nat {
    if moves == [] then 0
    else (if moves[0].Arrive? && Straggles(moves[0].slot, t) then 1 else 0) + Stragglers(moves[1..], t)
  }

  /** What the rounds of a run can serve altogether: the sum of their limits. */
  function Capacity(moves: seq<Move>): nat {
    if moves == [] then 0 else (if moves[0].Serve? then moves[0].limit else 0) + Capacity(moves[1..])
  }

  /** The rows that come before row `i`, or are tied with it. */
  function Ahead(q: seq<Slot>, i: nat): set<nat>
    requires i < |q|
  {
    set j | 0 <= j < |q| && j != i && q[j].active && KeyLe(q[j], q[i])
  }

  lemma TakenWereAhead(q: seq<Slot>, m: Move, i: nat, t: int)
    requires i < |q| && m.Serve? && Follows(q, m, t) && i in m.due && i !in m.sel
    ensures Elements(m.sel) <= Ahead(q, i) && |Elements(m.sel)| == m.limit
  {
    forall j | j in m.sel ensures j in Ahead(q, i) {
      var k :| 0 <= k < |m.sel| && m.sel[k] == j;
    }
  }

  /** A served row that goes on waiting is behind every row that was due by `t`. */
  lemma PostponedIsBehind(q: seq<Slot>, m: Move, i: nat, j: nat, t: int)
    requires i < |q| && j < |q| && (q[i].next.None? || q[i].next.value <= t)
    requires m.Serve? && Follows(q, m, t) && j in m.sel
    ensures m.after[j].active ==> !KeyLe(m.after[j], q[i])
  {
  }

  /** One round that passes row `i` over takes a full batch out of the rows ahead of it and adds none. */
  lemma PassedOver(q: seq<Slot>, m: Move, i: nat, t: int)
    requires i < |q| && (q[i].next.None? || q[i].next.value <= t)
    requires m.Serve? && Follows(q, m, t) && i in m.due && i !in m.sel
    ensures |m.after| == |q| && m.after[i] == q[i]
    ensures |Ahead(m.after, i)| == |Ahead(q, i)| - m.limit
  {
    var taken := Elements(m.sel);
    TakenWereAhead(q, m, i, t);
    forall j | 0 <= j < |q| ensures j in Ahead(m.after, i) <==> j in Ahead(q, i) - taken {
      if j in taken { PostponedIsBehind(q, m, i, j, t); }
    }
    assert Ahead(m.after, i) == Ahead(q, i) - taken;
    SubsetSize(taken, Ahead(q, i));
  }

  /** Only a straggler can come in front of a row that was due by `t`. */
  lemma ArrivalAhead(q: seq<Slot>, s: Slot, i: nat, t: int)
    requires i < |q| && (q[i].next.None? || q[i].next.value <= t)
    ensures |Ahead(q + [s], i)| <= |Ahead(q, i)| + (if Straggles(s, t) then 1 else 0)
  {
    if Straggles(s, t) {
      SubsetSize(Ahead(q + [s], i), Ahead(q, i) + {|q|});
    } else {
      assert Ahead(q + [s], i) == Ahead(q, i);
    }
  }

  /**
   * Fairness: a due row with r rows before or tied with it, and s stragglers still to come, is served by the time the
   * limits of the rounds add up to more than r + s, however much other work arrives and however often rows are
   * postponed. With one limit that is within floor((r + s) / limit) + 1 rounds.
   */
  lemma {:induction false} ServedInTime(q: seq<Slot>, moves: seq<Move>, i: nat, t: int)
    requires i < |q| && q[i].active && (q[i].next.None? || q[i].next.value <= t)
    requires RunAfter(q, moves, i, t)
    requires Capacity(moves) > |Ahead(q, i)| + Stragglers(moves, t)
    ensures exists k :: 0 <= k < |moves| && Serves(moves[k], i)
    decreases |moves|
  {
    assert moves != [];
    var m, rest := moves[0], moves[1..];
    if Serves(m, i) {
      return;
    }
    match m {
      case Serve(_, _, _, _) => PassedOver(q, m, i, t);
      case Arrive(slot) => ArrivalAhead(q, slot, i, t);
      case Idle =>
    }
    ServedInTime(After(q, m), rest, i, t);
    var k :| 0 <= k < |rest| && Serves(rest[k], i);
    assert moves[k + 1] == rest[k];
  }
}
