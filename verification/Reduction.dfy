/** Reduction of a non-empty sequence by a binary operator, and its independence of the
    order of the operands when the operator is associative and commutative. */
module Reduction {
  import opened PlacedLists
  import opened Sequences

  function Reduce<T>(op: (T, T) -> T, s: seq<T>): T
    requires |s| > 0
  {
    if |s| == 1 then s[0] else op(s[0], Reduce(op, s[1..]))
  }

  predicate Assoc<T(==)>(op: (T, T) -> T, x: T, y: T, z: T) { op(op(x, y), z) == op(x, op(y, z)) }

  predicate Comm<T(==)>(op: (T, T) -> T, x: T, y: T) { op(x, y) == op(y, x) }

  ghost predicate Associative<T(!new)>(op: (T, T) -> T) { forall x, y, z :: Assoc(op, x, y, z) }

  ghost predicate Commutative<T(!new)>(op: (T, T) -> T) { forall x, y :: Comm(op, x, y) }

  lemma {:induction false} ReduceConcat<T(!new)>(op: (T, T) -> T, s: seq<T>, t: seq<T>)
    requires Associative(op) && |s| > 0 && |t| > 0
    ensures Reduce(op, s + t) == op(Reduce(op, s), Reduce(op, t))
  {
    if |s| == 1 {
      assert (s + t)[1..] == t;
    } else {
      ReduceConcat(op, s[1..], t);
      assert (s + t)[1..] == s[1..] + t;
      assert Assoc(op, s[0], Reduce(op, s[1..]), Reduce(op, t));
    }
  }

  /** Any operand can be taken out first. */
  lemma {:induction false} PullOut<T(!new)>(op: (T, T) -> T, s: seq<T>, i: nat)
    requires Associative(op) && Commutative(op)
    requires 2 <= |s| && i < |s|
    ensures Reduce(op, s) == op(s[i], Reduce(op, Without(s, i)))
  {
    if i == 0 {
      assert Without(s, 0) == s[1..];
    } else if |s| == 2 {
      assert Without(s, 1) == [s[0]];
      assert Comm(op, s[0], s[1]);
    } else {
      var t := s[1..];
      PullOut(op, t, i - 1);
      var w := Without(t, i - 1);
      assert Without(s, i)[0] == s[0] && Without(s, i)[1..] == w;
      assert Assoc(op, s[0], s[i], Reduce(op, w)) && Comm(op, s[0], s[i]) && Assoc(op, s[i], s[0], Reduce(op, w));
    }
  }

  function Pick<T>(vals: seq<T>, idx: seq<int>): (s: seq<T>)
    requires forall k | 0 <= k < |idx| :: 0 <= idx[k] < |vals|
    ensures |s| == |idx|
  {
    seq(|idx|, k requires 0 <= k < |idx| => vals[idx[k]])
  }

  /** Picking every index once, in any order, picks the same operands. */
  lemma {:induction false} PickAll<T(!new)>(op: (T, T) -> T, vals: seq<T>, idx: seq<int>)
    requires Associative(op) && Commutative(op)
    requires |idx| == |vals| > 0 && (forall k | 0 <= k < |idx| :: 0 <= idx[k] < |vals|)
    requires NoDup(idx) && forall r | 0 <= r < |vals| :: r in idx
    ensures Reduce(op, Pick(vals, idx)) == Reduce(op, vals)
    decreases |idx|
  {
    var n := |vals|;
    var p := Pick(vals, idx);
    assert n - 1 in idx;
    var k :| 0 <= k < |idx| && idx[k] == n - 1;
    if n == 1 {
      assert p == vals;
    } else {
      var idx' := Without(idx, k);
      var vals' := vals[..n - 1];
      DropLargest(idx, k);
      PickWithout(vals, idx, k);
      PickAll(op, vals', idx');
      PullOut(op, p, k);
      PullOut(op, vals, n - 1);
      assert Without(vals, n - 1) == vals';
    }
  }

  lemma PickWithout<T>(vals: seq<T>, idx: seq<int>, k: nat)
    requires (forall j | 0 <= j < |idx| :: 0 <= idx[j] < |vals|) && k < |idx| && |vals| > 0
    requires forall j | 0 <= j < |idx| - 1 :: 0 <= Without(idx, k)[j] < |vals| - 1
    ensures Pick(vals[..|vals| - 1], Without(idx, k)) == Without(Pick(vals, idx), k)
  {
    var t, p := Without(idx, k), Pick(vals, idx);
    forall j | 0 <= j < |t| ensures vals[t[j]] == Without(p, k)[j] {
      assert t[j] == idx[if j < k then j else j + 1];
    }
  }

  lemma DropLargest(idx: seq<int>, k: nat)
    requires k < |idx| && idx[k] == |idx| - 1 && NoDup(idx)
    requires forall j | 0 <= j < |idx| :: 0 <= idx[j] < |idx|
    requires forall r | 0 <= r < |idx| :: r in idx
    ensures var t := Without(idx, k);
            && NoDup(t) && (forall j | 0 <= j < |t| :: 0 <= t[j] < |idx| - 1)
            && (forall r | 0 <= r < |idx| - 1 :: r in t)
  {
    var t := Without(idx, k);
    forall j | 0 <= j < |t| ensures t[j] == idx[if j < k then j else j + 1] {}
    forall r | 0 <= r < |idx| - 1 ensures r in t {
      assert r in idx;
      var j :| 0 <= j < |idx| && idx[j] == r;
      assert t[if j < k then j else j - 1] == r;
    }
  }
}
