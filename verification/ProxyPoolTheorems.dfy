/** What the proxy pool guarantees in every interleaving, from its initial state. */
module ProxyPoolTheorems {
  import opened Arith
  import opened ProxyPool
  import opened PlacedLists
  import opened ProxyLists
  import opened ProxyPoolProof

  /** `ranks` local ranks with `max` operations each, operation `x` at home with rank `x / max`. */
  ghost function PoolCfg(ranks: nat, max: nat): Cfg
    requires max > 0
  {
    Cfg(ranks, max, ranks * max, (x: nat) => x / max)
  }

  /** The loops that chain each rank's operations into its shared free list. */
  method InitPool(ranks: nat, max: nat) returns (next: array<int>, free: array<int>)
    requires max > 0
    ensures next.Length == ranks * max && free.Length == ranks
    ensures forall r: nat | r < ranks :: free[r] == r * max
    ensures forall r: nat, i: nat | r < ranks && i < max :: Chained(next[..], r, i, max)
  {
    next, free := new int[ranks * max], new int[ranks];
    for r := 0 to ranks
      invariant forall q: nat | q < r :: free[q] == q * max
      invariant forall q: nat, i: nat | q < r && i < max :: Chained(next[..], q, i, max)
    {
      free[r] := r * max;
      Row(r, ranks, max);
      for i := 0 to max
        invariant forall q: nat, j: nat | (q < r && j < max) || (q == r && j < i) :: Chained(next[..], q, j, max)
        invariant forall q: nat | q <= r :: free[q] == q * max
      {
        ghost var was := next[..];
        next[r * max + i] := if i + 1 < max then r * max + i + 1 else -1;
        forall q: nat, j: nat | (q < r && j < max) || (q == r && j < i + 1)
          ensures Chained(next[..], q, j, max)
        {
          if (q, j) != (r, i) {
            assert Chained(was, q, j, max);
            Rows(q, j, r, i, max);
          }
        }
      }
    }
  }

  lemma Row(r: nat, ranks: nat, max: nat)
    requires r < ranks
    ensures r * max + max <= ranks * max
  {
    MulMono(r + 1, ranks, max);
    assert (r + 1) * max == r * max + max;
  }

  lemma Rows(q: nat, j: nat, r: nat, i: nat, max: nat)
    requires q <= r && j < max && i < max && (q, j) != (r, i)
    ensures q * max + j != r * max + i
  {
    if q < r { Row(q, r, max); }
  }

  /** Operation `i` of rank `r` points to the next one of the same rank. */
  predicate Chained(next: seq<int>, r: nat, i: nat, max: nat) {
    0 <= r * max + i < |next| && next[r * max + i] == if i + 1 < max then r * max + i + 1 else -1
  }

  ghost predicate Init(ranks: nat, max: nat, st: State)
    requires max > 0
  {
    var g := PoolCfg(ranks, max);
    && Shaped(g, st) && st.pHead == -1 && st.phase == Rest && st.tNext == -1 && st.posted == [] && st.taken == []
    && (forall r: nat, i: nat | r < ranks && i < max :: Chained(st.next, r, i, max))
    && (forall x: nat | x < g.size :: st.own[x] == Shared(g.home(x)))
    && forall r: nat | r < ranks ::
         && st.rank[r] == Rank(Idle, -1, -1, -1, 0) && st.free[r] == r * max && st.bHead[r] == -1
         && st.priv[r] == [] && st.un[r] == [] && st.back[r] == [] && st.given[r] == [] && st.handed[r] == []
         && st.shared[r] == RowOf(r, max)
  }

  lemma HomeOf(max: nat, r: nat, i: nat, x: nat)
    requires i < max
    ensures x == r * max + i ==> x / max == r
    ensures x / max == r ==> x == r * max + x % max && x % max < max
  {
    if x == r * max + i { DivModUnique(x, max, r, i); }
    assert x == max * (x / max) + x % max;
  }

  /** Rank `r`'s operations in index order. */
  ghost function RowOf(r: nat, max: nat): seq<int> { seq(max, i => r * max + i) }

  lemma RowMembers(r: nat, max: nat, x: nat)
    requires max > 0
    ensures x in RowOf(r, max) <==> x / max == r
  {
    if x / max == r {
      HomeOf(max, r, 0, x);
      assert RowOf(r, max)[x % max] == x;
    }
    if x in RowOf(r, max) {
      var i :| 0 <= i < max && RowOf(r, max)[i] == x;
      HomeOf(max, r, i, x);
    }
  }

  lemma RowLinked(next: seq<int>, r: nat, ranks: nat, max: nat)
    requires max > 0 && r < ranks && |next| == ranks * max && forall i: nat | i < max :: Chained(next, r, i, max)
    ensures Linked(next, RowOf(r, max)) && Closed(next, RowOf(r, max))
  {
    Row(r, ranks, max);
    var s := RowOf(r, max);
    forall i | 0 <= i < |s| - 1 ensures next[s[i]] == s[i + 1] { assert Chained(next, r, i, max); }
    assert Chained(next, r, max - 1, max);
  }

  lemma InitShared(ranks: nat, max: nat, st: State, r: nat)
    requires max > 0 && Init(ranks, max, st) && r < ranks
    ensures HasList(st.own, st.next, Shared(r), st.free[r], st.shared[r])
  {
    var s := st.shared[r];
    assert s == RowOf(r, max);
    RowLinked(st.next, r, ranks, max);
    forall x | 0 <= x < |st.own| ensures x in s <==> st.own[x] == Shared(r) { RowMembers(r, max, x); }
    assert forall i | 0 <= i < |s| :: 0 <= s[i] < |st.own|;
  }

  lemma InitInv(ranks: nat, max: nat, st: State)
    requires max > 0 && Init(ranks, max, st)
    ensures Inv(PoolCfg(ranks, max), st) && Drained(PoolCfg(ranks, max), st)
  {
    var g := PoolCfg(ranks, max);
    forall r: nat | r < ranks ensures ListsOk(g, st, r) && PcOk(g, st, r) && FifoOk(g, st, r) {
      InitShared(ranks, max, st, r);
      assert forall x | 0 <= x < g.size :: st.own[x].Shared?;
    }
  }

  lemma ValidPool(ranks: nat, max: nat)
    requires max > 0
    ensures ValidCfg(PoolCfg(ranks, max))
  {
    forall x: nat | x < ranks * max ensures x / max < ranks {
      assert x == max * (x / max) + x % max;
      MulLess(x / max, ranks, max);
    }
  }

  /** Lists to be given back exist only until the thread has been through their rank, and a batch begins
      with something to hand on. */
  ghost predicate Drained(g: Cfg, st: State)
    requires Shaped(g, st)
  {
    && (st.phase.Rest? ==> forall q | 0 <= q < g.ranks :: st.bHead[q] == -1)
    && (st.phase.Ret? ==> forall q | 0 <= q < st.phase.i :: st.bHead[q] == -1)
    && (st.phase.Proc? && !st.phase.moved ==> st.tNext != -1)
  }

  /** The phase after a step of giving back, and whether that step publishes a list. */
  ghost function NextPhase(g: Cfg, st: State): (Phase, bool)
    requires Shaped(g, st) && st.phase.Ret?
  {
    var i := st.phase.i;
    if i == g.ranks then (Rest, false)
    else if st.bHead[i] == -1 then (Ret(i + 1, Look), false)
    else
      match st.phase.sub
      case Look => (Ret(i, Link(st.free[i])), false)
      case Link(was) => (Ret(i, Swap(was)), false)
      case Swap(was) =>
        if was == -1 || st.free[i] == was then (Ret(i + 1, Look), true)
        else if st.free[i] != -1 then (Broken, false) else (Ret(i, Unlink), false)
      case Unlink => (Ret(i, Store), false)
      case Store => (Ret(i + 1, Look), true)
  }

  lemma ReturnIs(g: Cfg, st: State)
    requires Shaped(g, st) && Enabled(g, st, Return)
    ensures var t, next := AfterReturn(g, st), NextPhase(g, st);
            && t.phase == next.0 && t.bHead == (if next.1 then st.bHead[st.phase.i := -1] else st.bHead)
            && t.posted == st.posted && t.taken == st.taken && t.rank == st.rank && t.tNext == st.tNext
  {
  }

  lemma ReturnShaped(g: Cfg, st: State)
    requires Shaped(g, st) && Enabled(g, st, Return)
    ensures Shaped(g, AfterReturn(g, st))
  {
  }

  lemma ReturnDrained(g: Cfg, st: State)
    requires Shaped(g, st) && Enabled(g, st, Return) && Drained(g, st)
    ensures Shaped(g, AfterReturn(g, st)) && Drained(g, AfterReturn(g, st))
  {
    ReturnShaped(g, st);
    ReturnIs(g, st);
  }

  lemma PostDrained(g: Cfg, st: State, a: Action, t: State)
    requires Takes(g, st, a, t) && (a.CutPost? || a.StartPost?)
    ensures Shaped(g, t) && t.phase == st.phase && t.bHead == st.bHead && t.tNext == st.tNext
  {
  }

  lemma RankDrained(g: Cfg, st: State, a: Action, t: State)
    requires Takes(g, st, a, t) && (a.Want? || a.See? || a.Cas? || a.Append?)
    ensures Shaped(g, t) && t.phase == st.phase && t.bHead == st.bHead && t.tNext == st.tNext
  {
  }

  lemma ThreadDrained(g: Cfg, st: State, a: Action, t: State)
    requires Takes(g, st, a, t) && (a.Grab? || a.Resume? || a.Process? || a.EndBatch?)
    ensures Shaped(g, t) && Drained(g, t)
  {
  }

  lemma StepDrained(g: Cfg, st: State, a: Action, t: State)
    requires Takes(g, st, a, t) && Drained(g, st)
    ensures Shaped(g, t) && Drained(g, t)
  {
    if a.Return? {
      ReturnDrained(g, st);
    } else if a.CutPost? || a.StartPost? {
      PostDrained(g, st, a, t);
    } else if a.Grab? || a.Resume? || a.Process? || a.EndBatch? {
      ThreadDrained(g, st, a, t);
    } else {
      RankDrained(g, st, a, t);
    }
  }

  ghost predicate IsRun(ranks: nat, max: nat, run: seq<State>, acts: seq<Action>)
    requires max > 0
  {
    && |run| == |acts| + 1 && Init(ranks, max, run[0])
    && forall k | 0 <= k < |acts| :: Takes(PoolCfg(ranks, max), run[k], acts[k], run[k + 1])
  }

  lemma {:induction false} RunInv(ranks: nat, max: nat, run: seq<State>, acts: seq<Action>)
    requires max > 0 && IsRun(ranks, max, run, acts)
    ensures Inv(PoolCfg(ranks, max), run[|acts|]) && Drained(PoolCfg(ranks, max), run[|acts|])
    decreases |acts|
  {
    if acts == [] {
      InitInv(ranks, max, run[0]);
    } else {
      var k := |acts| - 1;
      RunInv(ranks, max, run[..k + 1], acts[..k]);
      ValidPool(ranks, max);
      StepInv(PoolCfg(ranks, max), run[k], acts[k], run[k + 1]);
      StepDrained(PoolCfg(ranks, max), run[k], acts[k], run[k + 1]);
    }
  }

  /** The list kept at a place. */
  ghost function ListOf(g: Cfg, st: State, p: Place): seq<int>
    requires Shaped(g, st) && (!p.Posted? && !p.Taken? ==> p.r < g.ranks)
  {
    match p
    case Private(r) => st.priv[r]
    case Shared(r) => st.shared[r]
    case Unposted(r) => st.un[r]
    case Back(r) => st.back[r]
    case Posted => st.posted
    case Taken => st.taken
  }

  /** Every operation of every rank is on exactly one of the lists, once, at every moment. */
  lemma Partitioned(ranks: nat, max: nat, run: seq<State>, acts: seq<Action>, x: nat, p: Place)
    requires max > 0 && IsRun(ranks, max, run, acts) && x < ranks * max
    requires !p.Posted? && !p.Taken? ==> p.r < ranks
    ensures var g, st := PoolCfg(ranks, max), run[|acts|];
            && Shaped(g, st)
            && (x in ListOf(g, st, p) <==> p == st.own[x])
            && NoDup(ListOf(g, st, p)) && Linked(st.next, ListOf(g, st, p))
            && (!st.own[x].Posted? && !st.own[x].Taken? ==> st.own[x].r == x / max)
  {
    RunInv(ranks, max, run, acts);
    if !p.Posted? && !p.Taken? { assert ListsOk(PoolCfg(ranks, max), run[|acts|], p.r); }
  }

  /** What reached the progress engine for a rank is a prefix of what that rank appended. */
  lemma HandedInOrder(ranks: nat, max: nat, run: seq<State>, acts: seq<Action>, r: nat)
    requires max > 0 && IsRun(ranks, max, run, acts) && r < ranks
    ensures Shaped(PoolCfg(ranks, max), run[|acts|]) && run[|acts|].handed[r] <= run[|acts|].given[r]
    ensures var g, st := PoolCfg(ranks, max), run[|acts|];
            st.given[r] == st.handed[r] + Log(g, st.op, r, st.taken) + Log(g, st.op, r, st.posted)
                           + Log(g, st.op, r, st.un[r])
  {
    RunInv(ranks, max, run, acts);
    assert FifoOk(PoolCfg(ranks, max), run[|acts|], r);
  }

  /** The thread's compare-and-swap finds what it expected or an emptied list, never anything else. */
  lemma SwapNeverMismatches(ranks: nat, max: nat, run: seq<State>, acts: seq<Action>)
    requires max > 0 && IsRun(ranks, max, run, acts)
    ensures run[|acts|].phase != Broken
  {
    RunInv(ranks, max, run, acts);
  }

  /** A rank waiting for a free operation has one outside its own unposted chain, so the thread can
      give it back. */
  lemma WaitingHasOne(ranks: nat, max: nat, run: seq<State>, acts: seq<Action>, r: nat) returns (x: nat)
    requires max > 0 && IsRun(ranks, max, run, acts) && r < ranks && Shaped(PoolCfg(ranks, max), run[|acts|])
    requires run[|acts|].rank[r].pc.Spin? || run[|acts|].rank[r].pc.Have?
    ensures x < ranks * max && x / max == r
    ensures run[|acts|].own[x] == Shared(r) || run[|acts|].own[x] == Posted || run[|acts|].own[x] == Taken
            || run[|acts|].own[x] == Back(r)
  {
    var g, st := PoolCfg(ranks, max), run[|acts|];
    RunInv(ranks, max, run, acts);
    assert ListsOk(g, st, r) && PcOk(g, st, r);
    x := Missing(st.un[r], r * max, max);
    Row(r, ranks, max);
    HomeOf(max, r, x - r * max, x);
    assert x !in st.priv[r];
  }

  /** A rank whose chain is full can always post part of it, unless all its operations belong to one
      operation count. */
  lemma FullCanPost(ranks: nat, max: nat, run: seq<State>, acts: seq<Action>, r: nat)
    requires max > 0 && IsRun(ranks, max, run, acts) && r < ranks && Shaped(PoolCfg(ranks, max), run[|acts|])
    requires run[|acts|].rank[r].pc.Full?
    ensures var g, st := PoolCfg(ranks, max), run[|acts|];
            var un := st.un[r];
            && |un| == max && Enabled(g, st, CutPost(r, un))
            && (forall i | 0 <= i < |un| :: 0 <= un[i] < |st.op|)
            && (Next(g, st, CutPost(r, un)).rank[r].pc.Failed?
                <==> forall i | 0 <= i < |un| :: st.op[un[i]].count == st.op[un[|un| - 1]].count)
  {
    var g, st := PoolCfg(ranks, max), run[|acts|];
    RunInv(ranks, max, run, acts);
    assert ListsOk(g, st, r) && PcOk(g, st, r);
    assert st.posted != [] ==> st.pEnd in st.posted;
    var un := st.un[r];
    assert forall i | 0 <= i < |un| - 1 :: un[i] != un[|un| - 1];
    assert IsWalk(g, st.next, st.rank[r].first, st.rank[r].last, un);
  }

  /** A rank is full exactly when all its operations are in its unposted chain. */
  lemma FullIff(ranks: nat, max: nat, run: seq<State>, acts: seq<Action>, r: nat)
    requires max > 0 && IsRun(ranks, max, run, acts) && r < ranks
    ensures Shaped(PoolCfg(ranks, max), run[|acts|])
    ensures var st := run[|acts|]; st.rank[r].pc.Full? || st.rank[r].pc.Failed? <==> |st.un[r]| == max
  {
    RunInv(ranks, max, run, acts);
    assert ListsOk(PoolCfg(ranks, max), run[|acts|], r) && PcOk(PoolCfg(ranks, max), run[|acts|], r);
  }

  /** The chain `un` is posted up to its `k`-th operation. */
  ghost predicate PostedUpTo(st: State, r: nat, k: nat, t: State)
    requires r < |st.un| == |t.un|
  {
    k <= |st.un[r]| && t.posted == st.posted + st.un[r][..k] && t.un == st.un[r := st.un[r][k..]]
  }

  /** At the start of a group everything is posted. */
  lemma StartPostsAll(g: Cfg, st: State, r: nat)
    requires Shaped(g, st) && Enabled(g, st, StartPost(r))
    ensures var t := Next(g, st, StartPost(r)); |t.un| == |st.un| && PostedUpTo(st, r, |st.un[r]|, t)
  {
    assert st.un[r][..|st.un[r]|] == st.un[r] && st.un[r][|st.un[r]|..] == [];
  }

  /** A full rank that can post posts everything up to the last operation of another count: what stays behind are
      exactly the trailing operations of the last count. */
  lemma FullPostsUpToCount(ranks: nat, max: nat, run: seq<State>, acts: seq<Action>, r: nat) returns (k: nat)
    requires max > 0 && IsRun(ranks, max, run, acts) && r < ranks && Shaped(PoolCfg(ranks, max), run[|acts|])
    requires var st := run[|acts|];
             && st.rank[r].pc.Full? && Enabled(PoolCfg(ranks, max), st, CutPost(r, st.un[r]))
             && !Next(PoolCfg(ranks, max), st, CutPost(r, st.un[r])).rank[r].pc.Failed?
    ensures var g, st := PoolCfg(ranks, max), run[|acts|];
            var un := st.un[r];
            var t := Next(g, st, CutPost(r, un));
            && 0 < k < |un| && |t.un| == |st.un| && PostedUpTo(st, r, k, t)
            && (forall i | 0 <= i < |un| :: 0 <= un[i] < |st.op|)
            && st.op[un[k - 1]].count != st.op[un[|un| - 1]].count
            && forall i | k <= i < |un| :: st.op[un[i]].count == st.op[un[|un| - 1]].count
  {
    var g, st := PoolCfg(ranks, max), run[|acts|];
    FullCanPost(ranks, max, run, acts, r);
    k := CutAt(g, st.op, st.un[r], |st.un[r]| - 1);
  }
}
