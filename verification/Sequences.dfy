/** Sequences: leaving one position out, and the sum of the elements. */
module Sequences {
  function Without<T>(s: seq<T>, i: nat): (r: seq<T>)
    requires i < |s|
    ensures |r| == |s| - 1
  {
    s[..i] + s[i + 1..]
  }

  /** Every other position is still there. */
  lemma StillThere<T>(s: seq<T>, i: nat, j: nat)
    requires i < |s| && j < |s| && j != i
    ensures Without(s, i)[if j < i then j else j - 1] == s[j]
  {
  }

  function Sum(s: seq<nat>): nat {
    if s == [] then 0 else Sum(s[..|s| - 1]) + s[|s| - 1]
  }

  lemma {:induction false} SumUpdate(s: seq<nat>, i: nat, v: nat)
    requires i < |s|
    ensures Sum(s[i := v]) == Sum(s) - s[i] + v
  {
    var n := |s| - 1;
    if i == n {
      assert s[i := v][..n] == s[..n];
    } else {
      assert s[i := v][..n] == s[..n][i := v];
      SumUpdate(s[..n], i, v);
    }
  }

  lemma {:induction false} SumAtLeast(s: seq<nat>, m: nat)
    requires forall i | 0 <= i < |s| :: m <= s[i]
    ensures |s| * m <= Sum(s)
  {
    if s != [] {
      SumAtLeast(s[..|s| - 1], m);
      assert |s| * m == (|s| - 1) * m + m;
    }
  }

  lemma {:induction false} SumAtMost(s: seq<nat>, m: nat)
    requires forall i | 0 <= i < |s| :: s[i] <= m
    ensures Sum(s) <= |s| * m
  {
    if s != [] {
      SumAtMost(s[..|s| - 1], m);
      assert |s| * m == (|s| - 1) * m + m;
    }
  }

  lemma {:induction false} SumZero(n: nat)
    ensures Sum(seq(n, i => 0)) == 0
  {
    if n > 0 {
      assert seq(n, i => 0)[..n - 1] == seq(n - 1, i => 0);
      SumZero(n - 1);
    }
  }
}
