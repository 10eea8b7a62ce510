/** Small vocabulary shared by every module: options, results, and weighted sums over tables. */
module Util {

  datatype Option<+T> = None | Some(value: T)

  datatype Result<+T, +E> = Ok(value: T) | Err(error: E)

  /** The total weight of a table; tables grow at the end, so the sum unfolds from the end. */
  function Sum<T>(s: seq<T>, w: T -> nat): nat {
    if s == [] then 0 else Sum(s[..|s| - 1], w) + w(s[|s| - 1])
  }

  function Indicator<T>(p: T -> bool): T -> nat {
    x => if p(x) then 1 else 0
  }

  /** SELECT COUNT(*) ... WHERE p */
  function Count<T>(s: seq<T>, p: T -> bool): nat {
    Sum(s, Indicator(p))
  }

  lemma {:induction false} SumAppend<T>(s: seq<T>, t: seq<T>, w: T -> nat)
    ensures Sum(s + t, w) == Sum(s, w) + Sum(t, w)
  {
    if t == [] {
      assert s + t == s;
    } else {
      var last := |t| - 1;
      assert (s + t)[..|s + t| - 1] == s + t[..last];
      SumAppend(s, t[..last], w);
    }
  }

  lemma SumOne<T>(s: seq<T>, x: T, w: T -> nat)
    ensures Sum(s + [x], w) == Sum(s, w) + w(x)
  {
    assert (s + [x])[..|s|] == s;
  }

  lemma SumSplit<T>(s: seq<T>, i: nat, w: T -> nat)
    requires i < |s|
    ensures Sum(s, w) == Sum(s[..i], w) + w(s[i]) + Sum(s[i + 1..], w)
  {
    assert s == s[..i] + [s[i]] + s[i + 1..];
    SumAppend(s[..i] + [s[i]], s[i + 1..], w);
    SumOne(s[..i], s[i], w);
  }

  lemma SumUpdate<T>(s: seq<T>, i: nat, x: T, w: T -> nat)
    requires i < |s|
    ensures Sum(s[i := x], w) + w(s[i]) == Sum(s, w) + w(x)
  {
    var t := s[i := x];
    assert t[..i] == s[..i] && t[i + 1..] == s[i + 1..];
    SumSplit(s, i, w);
    SumSplit(t, i, w);
  }

  /** Tables that agree row by row on their weights have the same total. */
  lemma {:induction false} SumPointwise<T, U>(s: seq<T>, t: seq<U>, w: T -> nat, v: U -> nat)
    requires |s| == |t|
    requires forall i :: 0 <= i < |s| ==> w(s[i]) == v(t[i])
    ensures Sum(s, w) == Sum(t, v)
  {
    if s != [] {
      SumPointwise(s[..|s| - 1], t[..|t| - 1], w, v);
    }
  }

  lemma {:induction false} SumMonotone<T, U>(s: seq<T>, t: seq<U>, w: T -> nat, v: U -> nat)
    requires |s| == |t|
    requires forall i :: 0 <= i < |s| ==> w(s[i]) <= v(t[i])
    ensures Sum(s, w) <= Sum(t, v)
  {
    if s != [] {
      SumMonotone(s[..|s| - 1], t[..|t| - 1], w, v);
    }
  }

  lemma SumAtLeast<T>(s: seq<T>, i: nat, w: T -> nat)
    requires i < |s|
    ensures w(s[i]) <= Sum(s, w)
  {
    SumSplit(s, i, w);
  }

  lemma {:induction false} SumPositive<T>(s: seq<T>, w: T -> nat) returns (i: nat)
    requires Sum(s, w) > 0
    ensures i < |s| && w(s[i]) > 0
  {
    if w(s[|s| - 1]) > 0 {
      i := |s| - 1;
    } else {
      i := SumPositive(s[..|s| - 1], w);
    }
  }
}
