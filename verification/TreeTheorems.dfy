/** The value tree AllReduce leaves on every rank, in terms of ranks and of elements. */
module TreeTheorems {
  import opened PlacedLists
  import opened Sequences
  import opened Reduction
  import opened TreeAllReduce
  import opened TreeProof

  /** The ranks of a subtree in the order their contributions are combined. */
  ghost function Visit<V>(g: Cfg<V>, r: nat, i: nat): (s: seq<int>)
    requires ValidTree(g) && r < g.n && i <= |g.down[r]|
    ensures s != []
    decreases Deepest(g.depth) - g.depth[r], i, 0
  {
    if i == 0 then [r]
    else
      assert g.down[r][i - 1] in g.down[r];
      Visit(g, r, i - 1) + Subtree(g, g.down[r][i - 1])
  }

  ghost function Subtree<V>(g: Cfg<V>, r: nat): (s: seq<int>)
    requires ValidTree(g) && r < g.n
    ensures s != []
    decreases Deepest(g.depth) - g.depth[r], |g.down[r]|, 1
  {
    Visit(g, r, |g.down[r]|)
  }

  /** The ancestor of `x` at depth `d`. */
  ghost function Ancestor<V>(g: Cfg<V>, x: nat, d: nat): (a: nat)
    requires ValidTree(g) && x < g.n && d <= g.depth[x]
    ensures a < g.n && g.depth[a] == d
    decreases g.depth[x]
  {
    if g.depth[x] == d then x else Ancestor(g, g.up[x], d)
  }

  ghost predicate Below<V>(g: Cfg<V>, x: int, r: nat)
    requires ValidTree(g) && r < g.n
  {
    0 <= x < g.n && g.depth[r] <= g.depth[x] && Ancestor(g, x, g.depth[r]) == r
  }

  lemma {:induction false} AncestorUp<V>(g: Cfg<V>, x: nat, d: nat)
    requires ValidTree(g) && x < g.n && d < g.depth[x]
    ensures g.up[Ancestor(g, x, d + 1)] == Ancestor(g, x, d)
    decreases g.depth[x]
  {
    if d + 1 < g.depth[x] { AncestorUp(g, g.up[x], d); }
  }

  lemma ChildOf<V>(g: Cfg<V>, x: int, r: nat) returns (i: nat)
    requires ValidTree(g) && r < g.n && Below(g, x, r) && x != r
    ensures i < |g.down[r]| && 0 <= g.down[r][i] < g.n && Below(g, x, g.down[r][i])
  {
    AncestorUp(g, x, g.depth[r]);
    var c := Ancestor(g, x, g.depth[r] + 1);
    assert c in g.down[r];
    i :| 0 <= i < |g.down[r]| && g.down[r][i] == c;
  }

  lemma BelowChild<V>(g: Cfg<V>, x: int, r: nat, i: nat)
    requires ValidTree(g) && r < g.n && i < |g.down[r]| && 0 <= g.down[r][i] < g.n && Below(g, x, g.down[r][i])
    ensures Below(g, x, r) && x != r
    ensures forall j | 0 <= j < |g.down[r]| && j != i && 0 <= g.down[r][j] < g.n :: !Below(g, x, g.down[r][j])
  {
    var c := g.down[r][i];
    assert c in g.down[r];
    AncestorUp(g, x, g.depth[r]);
    forall j | 0 <= j < |g.down[r]| && j != i && 0 <= g.down[r][j] < g.n ensures !Below(g, x, g.down[r][j]) {
      assert g.down[r][j] in g.down[r] && g.down[r][j] != c;
    }
  }

  /** A subtree visits exactly the ranks below its root, each once. */
  lemma {:induction false} VisitOnce<V>(g: Cfg<V>, r: nat, i: nat)
    requires ValidTree(g) && r < g.n && i <= |g.down[r]|
    ensures NoDup(Visit(g, r, i))
    ensures forall x :: x in Visit(g, r, i) <==> x == r || ViaChild(g, x, r, i)
    decreases Deepest(g.depth) - g.depth[r], i, 0
  {
    if i > 0 {
      var c := g.down[r][i - 1];
      assert c in g.down[r];
      VisitOnce(g, r, i - 1);
      SubtreeOnce(g, c);
      var a, b := Visit(g, r, i - 1), Subtree(g, c);
      forall x | x in b ensures x !in a { BelowChild(g, x, r, i - 1); }
      Apart(a, b);
      forall x ensures x in a + b <==> x == r || ViaChild(g, x, r, i) {
        assert x in a + b <==> x in a || x in b;
      }
    }
  }

  ghost predicate ViaChild<V>(g: Cfg<V>, x: int, r: nat, i: nat)
    requires ValidTree(g) && r < g.n && i <= |g.down[r]|
  {
    exists j :: 0 <= j < i && 0 <= g.down[r][j] < g.n && Below(g, x, g.down[r][j])
  }

  lemma {:induction false} SubtreeOnce<V>(g: Cfg<V>, r: nat)
    requires ValidTree(g) && r < g.n
    ensures NoDup(Subtree(g, r)) && forall x :: x in Subtree(g, r) <==> Below(g, x, r)
    decreases Deepest(g.depth) - g.depth[r], |g.down[r]|, 1
  {
    var n := |g.down[r]|;
    VisitOnce(g, r, n);
    forall x ensures x == r || ViaChild(g, x, r, n) <==> Below(g, x, r) {
      if Below(g, x, r) && x != r {
        var i := ChildOf(g, x, r);
      }
      if ViaChild(g, x, r, n) {
        var j :| 0 <= j < n && 0 <= g.down[r][j] < g.n && Below(g, x, g.down[r][j]);
        BelowChild(g, x, r, j);
      }
    }
  }

  lemma OnlyRoot<V>(g: Cfg<V>, a: nat)
    requires ValidTree(g) && a < g.n && a != g.root
    ensures g.depth[a] > 0
  {
    assert 0 <= g.up[a] < g.n;
  }

  /** From the root every rank is visited exactly once. */
  lemma AllVisited<V>(g: Cfg<V>)
    requires ValidTree(g)
    ensures var s := Subtree(g, g.root); NoDup(s) && |s| == g.n && forall x :: x in s <==> 0 <= x < g.n
  {
    SubtreeOnce(g, g.root);
    forall x | 0 <= x < g.n ensures Below(g, x, g.root) {
      var a := Ancestor(g, x, 0);
      if a != g.root { OnlyRoot(g, a); }
    }
    CoversRange(Subtree(g, g.root), g.n);
  }

  // The reduction.

  ghost function Contributions<V>(g: Cfg<V>, k: nat): (s: seq<V>)
    requires ValidCfg(g) && k < g.chunks
    ensures |s| == g.n && forall r: nat | r < g.n :: s[r] == g.pre(r, g.inp[r][k])
  {
    seq(g.n, r requires 0 <= r < g.n => Contribution(g, r, k))
  }

  lemma PickConcat<T>(vals: seq<T>, a: seq<int>, b: seq<int>)
    requires (forall j | 0 <= j < |a| :: 0 <= a[j] < |vals|) && forall j | 0 <= j < |b| :: 0 <= b[j] < |vals|
    ensures forall j | 0 <= j < |a + b| :: 0 <= (a + b)[j] < |vals|
    ensures Pick(vals, a + b) == Pick(vals, a) + Pick(vals, b)
  {
  }

  lemma {:induction false} AccIsReduction<V(!new)>(g: Cfg<V>, r: nat, k: nat, i: nat)
    requires ValidCfg(g) && r < g.n && k < g.chunks && i <= |g.down[r]| && Associative(g.op)
    ensures forall j | 0 <= j < |Visit(g, r, i)| :: 0 <= Visit(g, r, i)[j] < g.n
    ensures Acc(g, r, k, i) == Reduce(g.op, Pick(Contributions(g, k), Visit(g, r, i)))
    decreases Deepest(g.depth) - g.depth[r], i
  {
    var vals := Contributions(g, k);
    if i == 0 {
      assert Pick(vals, [r]) == [Contribution(g, r, k)];
    } else {
      var c := g.down[r][i - 1];
      assert c in g.down[r];
      AccIsReduction(g, r, k, i - 1);
      AccIsReduction(g, c, k, |g.down[c]|);
      var a, b := Visit(g, r, i - 1), Subtree(g, c);
      PickConcat(vals, a, b);
      ReduceConcat(g.op, Pick(vals, a), Pick(vals, b));
    }
  }

  /** The root's chunk is the reduction of all ranks' contributions, the post-operation once. */
  lemma FinalIsReduction<V(!new)>(g: Cfg<V>, k: nat)
    requires ValidCfg(g) && k < g.chunks && Associative(g.op) && Commutative(g.op)
    ensures Final(g, k) == g.post(Reduce(g.op, Contributions(g, k)))
  {
    AccIsReduction(g, g.root, k, |g.down[g.root]|);
    AllVisited(g);
    var s := Subtree(g, g.root);
    assert forall j | 0 <= j < |s| :: s[j] in s;
    PickAll(g.op, Contributions(g, k), s);
  }

  /** On every run, a rank that has finished holds in every chunk the reduction of all ranks'
      inputs with the post-operation applied once: the same value everywhere. */
  lemma AllReduceCorrect<V(!new)>(g: Cfg<V>, run: seq<State<V>>, r: nat, k: nat)
    requires ValidCfg(g) && IsRun(g, run) && r < g.n && k < g.chunks && Associative(g.op) && Commutative(g.op)
    ensures Shaped(g, run[|run| - 1])
    ensures Done(g, run[|run| - 1], r) ==> run[|run| - 1].out[r][k] == g.post(Reduce(g.op, Contributions(g, k)))
  {
    FinishedOutput(g, run, r, k);
    FinalIsReduction(g, k);
  }

  // Every step counts: a run cannot go on for ever.

  /** The steps taken by all ranks together. */
  ghost function Steps<V>(st: State<V>): nat { Sum(st.ups) + Sum(st.downs) }

  lemma StepCounts<V>(g: Cfg<V>, st: State<V>, t: State<V>, r: nat)
    requires ValidCfg(g) && Step(g, st, t, r)
    ensures Steps(t) == Steps(st) + 1
  {
    if MayUp(g, st, r) {
      assert t.ups == st.ups[r := st.ups[r] + 1] && t.downs == st.downs;
      SumUpdate(st.ups, r, st.ups[r] + 1);
    } else {
      assert t.downs == st.downs[r := st.downs[r] + 1] && t.ups == st.ups;
      SumUpdate(st.downs, r, st.downs[r] + 1);
    }
  }

  lemma MoveCounts<V>(g: Cfg<V>, st: State<V>, t: State<V>)
    requires ValidCfg(g) && Moves(g, st, t)
    ensures Steps(t) == Steps(st) + 1
  {
    var r: nat :| Step(g, st, t, r);
    StepCounts(g, st, t, r);
  }

  lemma {:induction false} RunCounts<V>(g: Cfg<V>, run: seq<State<V>>, k: nat)
    requires ValidCfg(g) && IsRun(g, run) && k < |run|
    ensures Steps(run[k]) == k
  {
    if k == 0 {
      SumZero(g.n);
    } else {
      RunCounts(g, run, k - 1);
      MoveCounts(g, run[k - 1], run[k]);
    }
  }

  lemma StepsBound<V>(g: Cfg<V>, st: State<V>)
    requires ValidCfg(g) && Inv(g, st)
    ensures Steps(st) <= 2 * (g.n * g.chunks)
  {
    forall r: nat | r < g.n ensures st.ups[r] <= g.chunks && st.downs[r] <= g.chunks { assert RankOk(g, st, r); }
    SumAtMost(st.ups, g.chunks);
    SumAtMost(st.downs, g.chunks);
  }

  /** No run is longer than two steps per rank and chunk. */
  lemma RunEnds<V>(g: Cfg<V>, run: seq<State<V>>)
    requires ValidCfg(g) && IsRun(g, run)
    ensures |run| <= 2 * (g.n * g.chunks) + 1
  {
    var k := |run| - 1;
    RunCounts(g, run, k);
    RunInv(g, run, k);
    StepsBound(g, run[k]);
  }
}
