/** A rank that waits for a free operation gets one from the progress thread alone; and a rank that needs
    all its operations for one operation count fails. */
module ProxyPoolProgress {
  import opened Arith
  import opened ProxyPool
  import opened ProxyPoolProof
  import opened ProxyPoolTheorems

  predicate IsThread(a: Action) { a.Grab? || a.Resume? || a.Process? || a.EndBatch? || a.Return? }

  ghost predicate ThreadCanStep(g: Cfg, st: State)
    requires Shaped(g, st)
  {
    exists a :: IsThread(a) && Enabled(g, st, a)
  }

  lemma ReturnEnabled(g: Cfg, st: State)
    requires Inv(g, st) && st.phase.Ret?
    ensures Enabled(g, st, Return)
  {
    var i := st.phase.i;
    if i < g.ranks && st.bHead[i] != -1 {
      assert ListsOk(g, st, i);
      assert st.bEnd[i] in st.back[i];
    }
  }

  lemma ProcessEnabled(g: Cfg, st: State)
    requires ValidCfg(g) && Inv(g, st) && st.phase.Proc? && st.tNext != -1
    ensures Enabled(g, st, Process)
  {
    assert st.tNext in st.taken;
  }

  /** While an operation of rank `r` is posted, with the thread or on its way back, and the rank's shared
      list is empty, the thread can take a step. */
  lemma ThreadMoves(g: Cfg, st: State, r: nat, x: nat)
    requires ValidCfg(g) && Inv(g, st) && Drained(g, st) && r < g.ranks && x < g.size && st.free[r] == -1
    requires st.own[x] == Shared(r) || st.own[x] == Posted || st.own[x] == Taken || st.own[x] == Back(r)
    ensures ThreadCanStep(g, st)
  {
    assert ListsOk(g, st, r);
    if st.phase.Rest? {
      assert st.own[x] == Posted || st.own[x] == Taken;
      assert Enabled(g, st, if st.tNext == -1 then Grab else Resume);
    } else if st.phase.Ret? {
      ReturnEnabled(g, st);
    } else if st.phase.moved {
      assert Enabled(g, st, EndBatch);
    } else {
      ProcessEnabled(g, st);
    }
  }

  /** Steps the thread still has to take in its phase. */
  function PhaseRank(g: Cfg, p: Phase): nat {
    match p
    case Rest => 1
    case Proc(moved) => if moved then 5 * g.ranks + 7 else 0
    case Ret(i, sub) =>
      (if i <= g.ranks then 5 * (g.ranks - i) else 0) + 2
      + (match sub case Look => 4 case Link(_) => 3 case Swap(_) => 2 case Unlink => 1 case Store => 0)
    case Broken => 0
  }

  ghost function Unhanded(st: State): nat { |st.posted| + |st.taken| }

  ghost function Effort(g: Cfg, st: State): nat { (5 * g.ranks + 8) * Unhanded(st) + PhaseRank(g, st.phase) }

  lemma PhaseFalls(g: Cfg, st: State)
    requires Shaped(g, st) && st.phase.Ret?
    ensures PhaseRank(g, NextPhase(g, st).0) < PhaseRank(g, st.phase)
  {
  }

  lemma ReturnFalls(g: Cfg, st: State, t: State)
    requires Takes(g, st, Return, t)
    ensures PhaseRank(g, t.phase) < PhaseRank(g, st.phase) && Unhanded(t) == Unhanded(st) && t.rank == st.rank
  {
    ReturnIs(g, st);
    PhaseFalls(g, st);
  }

  lemma ProcessFalls(g: Cfg, st: State, t: State)
    requires PoolOk(g, st) && Takes(g, st, Process, t)
    ensures Unhanded(st) == Unhanded(t) + 1 && t.phase == Proc(true) && t.rank == st.rank
  {
    assert st.taken != [];
  }

  lemma OtherFalls(g: Cfg, st: State, a: Action, t: State)
    requires PoolOk(g, st) && Takes(g, st, a, t) && (a.Grab? || a.Resume? || a.EndBatch?)
    ensures PhaseRank(g, t.phase) < PhaseRank(g, st.phase) && Unhanded(t) == Unhanded(st) && t.rank == st.rank
  {
    if a.Grab? { assert st.taken == []; }
  }

  /** Every step of the thread brings it closer to having nothing to do. */
  lemma EffortFalls(g: Cfg, st: State, a: Action, t: State)
    requires Inv(g, st) && IsThread(a) && Takes(g, st, a, t)
    ensures Effort(g, t) < Effort(g, st) && t.rank == st.rank
  {
    if a.Return? {
      ReturnFalls(g, st, t);
    } else if a.Process? {
      ProcessFalls(g, st, t);
      OneLess(5 * g.ranks + 8, Unhanded(t));
    } else {
      OtherFalls(g, st, a, t);
    }
  }

  lemma OneLess(w: nat, n: nat)
    ensures w * (n + 1) == w * n + w
  {
  }

  lemma RunInvAt(ranks: nat, max: nat, run: seq<State>, acts: seq<Action>, k: nat)
    requires max > 0 && IsRun(ranks, max, run, acts) && k <= |acts|
    ensures Inv(PoolCfg(ranks, max), run[k]) && Drained(PoolCfg(ranks, max), run[k])
  {
    RunInv(ranks, max, run[..k + 1], acts[..k]);
  }

  /** The run takes a thread step at moment `k`. */
  ghost predicate Eases(g: Cfg, run: seq<State>, k: nat)
    requires k + 1 < |run|
  {
    Effort(g, run[k + 1]) < Effort(g, run[k]) && run[k + 1].rank == run[k].rank
  }

  lemma StepEases(ranks: nat, max: nat, run: seq<State>, acts: seq<Action>, k: nat)
    requires max > 0 && IsRun(ranks, max, run, acts) && k < |acts| && IsThread(acts[k])
    ensures Eases(PoolCfg(ranks, max), run, k)
  {
    RunInvAt(ranks, max, run, acts, k);
    assert Takes(PoolCfg(ranks, max), run[k], acts[k], run[k + 1]);
    EffortFalls(PoolCfg(ranks, max), run[k], acts[k], run[k + 1]);
  }

  lemma {:induction false} EffortBounds(g: Cfg, run: seq<State>, n: nat, m: nat)
    requires n <= m < |run| && forall k | n <= k < m :: Eases(g, run, k)
    ensures m - n + Effort(g, run[m]) <= Effort(g, run[n]) && run[m].rank == run[n].rank
  {
    if n < m {
      EffortBounds(g, run, n, m - 1);
      assert Eases(g, run, m - 1);
    }
  }

  /** Thread steps alone end after a bounded number of them, and leave the ranks where they are. */
  lemma ThreadStops(ranks: nat, max: nat, run: seq<State>, acts: seq<Action>, n: nat)
    requires max > 0 && IsRun(ranks, max, run, acts) && n <= |acts| && forall k | n <= k < |acts| :: IsThread(acts[k])
    ensures |acts| - n <= Effort(PoolCfg(ranks, max), run[n]) && run[|acts|].rank == run[n].rank
  {
    forall k | n <= k < |acts| ensures Eases(PoolCfg(ranks, max), run, k) { StepEases(ranks, max, run, acts, k); }
    EffortBounds(PoolCfg(ranks, max), run, n, |acts|);
  }

  /** A rank that waits at moment `n` is served by the thread alone: however the thread goes on, it stops
      after a bounded number of steps, and when it can do no more the rank's shared list has an operation. */
  lemma WaitingIsServed(ranks: nat, max: nat, run: seq<State>, acts: seq<Action>, n: nat, r: nat)
    requires max > 0 && IsRun(ranks, max, run, acts) && r < ranks && n <= |acts|
    requires |run[n].rank| == ranks && run[n].rank[r].pc.Spin? && forall k | n <= k < |acts| :: IsThread(acts[k])
    ensures |acts| - n <= Effort(PoolCfg(ranks, max), run[n]) && Shaped(PoolCfg(ranks, max), run[|acts|])
    ensures !ThreadCanStep(PoolCfg(ranks, max), run[|acts|]) ==>
              run[|acts|].free[r] != -1 && Enabled(PoolCfg(ranks, max), run[|acts|], See(r))
  {
    var g, st := PoolCfg(ranks, max), run[|acts|];
    ThreadStops(ranks, max, run, acts, n);
    RunInv(ranks, max, run, acts);
    ValidPool(ranks, max);
    var x := WaitingHasOne(ranks, max, run, acts, r);
    if st.free[r] == -1 { ThreadMoves(g, st, r, x); }
  }

  // A run that fails.

  ghost function InitState(ranks: nat, max: nat): State
    requires max > 0
  {
    var none: seq<seq<int>>, no: seq<seq<Op>> := seq(ranks, r => []), seq(ranks, r => []);
    State(seq(ranks * max, x => if (x + 1) % max == 0 then -1 else x + 1), seq(ranks * max, x => Op(0, 0)),
          seq(ranks, r => r * max), -1, -1, seq(ranks, r => Rank(Idle, -1, -1, -1, 0)), Rest, -1,
          seq(ranks, r => -1), seq(ranks, r => -1), seq(ranks * max, (x: nat) => Shared(x / max)),
          none, seq(ranks, (r: nat) => RowOf(r, max)), none, none, [], [], no, no)
  }

  lemma LastOfRow(r: nat, i: nat, max: nat)
    requires i < max
    ensures (r * max + i + 1) % max == 0 <==> i + 1 == max
  {
    if i + 1 == max {
      assert r * max + max == max * (r + 1);
      MulMod(max, r + 1);
    } else {
      DivModUnique(r * max + i + 1, max, r, i + 1);
    }
  }

  lemma InitIs(ranks: nat, max: nat)
    requires max > 0
    ensures Init(ranks, max, InitState(ranks, max))
  {
    var st := InitState(ranks, max);
    forall r: nat, i: nat | r < ranks && i < max ensures Chained(st.next, r, i, max) {
      Row(r, ranks, max);
      LastOfRow(r, i, max);
    }
  }

  lemma Extend(ranks: nat, max: nat, run: seq<State>, acts: seq<Action>, a: Action)
    requires max > 0 && IsRun(ranks, max, run, acts)
    requires Shaped(PoolCfg(ranks, max), run[|acts|]) && Enabled(PoolCfg(ranks, max), run[|acts|], a)
    ensures IsRun(ranks, max, run + [Next(PoolCfg(ranks, max), run[|acts|], a)], acts + [a])
  {
  }

  /** Rank `r` has taken its operations and chained `k` of them, all for the operation count `c`. */
  ghost predicate Chaining(g: Cfg, st: State, r: nat, k: nat, c: int)
    requires Shaped(g, st) && r < g.ranks
  {
    && |st.un[r]| == k && |st.un[r]| + |st.priv[r]| == g.max && st.rank[r].pc == (if k == g.max then Full else Idle)
    && forall i | 0 <= i < k :: 0 <= st.un[r][i] < |st.op| && st.op[st.un[r][i]].count == c
  }

  lemma AppendChains(g: Cfg, st: State, r: nat, k: nat, c: int, id: int)
    requires Inv(g, st) && r < g.ranks && Chaining(g, st, r, k, c) && k < g.max
    ensures Enabled(g, st, Append(r, Op(c, id)))
    ensures var t := Next(g, st, Append(r, Op(c, id))); Shaped(g, t) && Chaining(g, t, r, k + 1, c)
  {
    assert ListsOk(g, st, r);
    assert st.rank[r].free in st.priv[r];
    assert st.un[r] != [] ==> st.rank[r].last in st.un[r];
  }

  lemma TakesOwn(ranks: nat, max: nat, r: nat, c: int) returns (run: seq<State>, acts: seq<Action>)
    requires max > 0 && r < ranks
    ensures IsRun(ranks, max, run, acts)
    ensures Shaped(PoolCfg(ranks, max), run[|acts|]) && Chaining(PoolCfg(ranks, max), run[|acts|], r, 0, c)
  {
    var g, st := PoolCfg(ranks, max), InitState(ranks, max);
    InitIs(ranks, max);
    run, acts := [st], [];
    Extend(ranks, max, run, acts, Want(r));
    run, acts := run + [Next(g, st, Want(r))], acts + [Want(r)];
    Extend(ranks, max, run, acts, See(r));
    run, acts := run + [Next(g, run[1], See(r))], acts + [See(r)];
    Extend(ranks, max, run, acts, Cas(r));
    run, acts := run + [Next(g, run[2], Cas(r))], acts + [Cas(r)];
  }

  lemma {:induction false} FillsUp(ranks: nat, max: nat, r: nat, c: int, k: nat)
    returns (run: seq<State>, acts: seq<Action>)
    requires max > 0 && r < ranks && k <= max
    ensures IsRun(ranks, max, run, acts)
    ensures Shaped(PoolCfg(ranks, max), run[|acts|]) && Chaining(PoolCfg(ranks, max), run[|acts|], r, k, c)
  {
    if k == 0 {
      run, acts := TakesOwn(ranks, max, r, c);
    } else {
      var before, done := FillsUp(ranks, max, r, c, k - 1);
      var g, st, a := PoolCfg(ranks, max), before[|done|], Append(r, Op(c, k));
      RunInv(ranks, max, before, done);
      AppendChains(g, st, r, k - 1, c, k);
      Extend(ranks, max, before, done, a);
      run, acts := before + [Next(g, st, a)], done + [a];
    }
  }

  /** The failure happens: a rank that appends as many operations as it has, all for one operation count,
      reaches the post that fails. */
  lemma OneCountFails(ranks: nat, max: nat, r: nat, c: int) returns (run: seq<State>, acts: seq<Action>)
    requires max > 0 && r < ranks
    ensures IsRun(ranks, max, run, acts) && Shaped(PoolCfg(ranks, max), run[|acts|])
    ensures var g, st := PoolCfg(ranks, max), run[|acts|];
            st.rank[r].pc.Full? && Enabled(g, st, CutPost(r, st.un[r]))
            && Next(g, st, CutPost(r, st.un[r])).rank[r].pc.Failed?
  {
    run, acts := FillsUp(ranks, max, r, c, max);
    FullCanPost(ranks, max, run, acts, r);
  }
}
