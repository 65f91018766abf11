/** The ring AllReduce theorems for the work elements of the host, over the ring of `RingSetup`. */
module RingInstance {
  import opened Arith
  import PlacedLists
  import opened Reduction
  import opened RingProgram
  import W = RingWork
  import S = RingSetup
  import opened RingAllReduce
  import opened RingCorrectness
  import opened RingTheorems

  function CfgOf<T>(w: W.Work, cap: nat, inPlace: bool, inp: seq<seq<T>>, out0: seq<seq<T>>,
                    op: (T, T) -> T, pre: (nat, T) -> T, post: T -> T): Cfg<T>
    requires W.Sized(w)
  {
    Cfg(W.ShapeOf(w), w.offset, w.count,
        (l: nat, c: nat, s: nat) => W.Lo(w, l, c, s), (l: nat, c: nat, s: nat) => W.Hi(w, l, c, s),
        cap, inPlace, inp, out0, op, pre, post)
  }

  ghost predicate Buffers<T>(w: W.Work, inPlace: bool, inp: seq<seq<T>>, out0: seq<seq<T>>) {
    && |inp| == |out0| == w.n
    && (forall i | 0 <= i < w.n :: |inp[i]| >= w.offset + w.count && |out0[i]| >= w.offset + w.count)
    && (inPlace ==> out0 == inp)
  }

  /** A configuration that runs the blocks of a work element, as every `CfgOf` of it does. */
  ghost predicate BlocksOf<T>(w: W.Work, cfg: Cfg<T>)
    requires W.Sized(w)
  {
    cfg.h == W.ShapeOf(w) && forall l: nat, c: nat, s: nat :: BlockIs(w, cfg, l, c, s)
  }

  ghost predicate BlockIs<T>(w: W.Work, cfg: Cfg<T>, l: nat, c: nat, s: nat)
    requires W.Sized(w)
  {
    cfg.lo(l, c, s) == W.Lo(w, l, c, s) && cfg.hi(l, c, s) == W.Hi(w, l, c, s)
  }

  /** Loops, chunks and slices of every work element, the short last loop included, tile its
      element range. */
  lemma WorkIsTiled<T>(w: W.Work, cap: nat, inPlace: bool, inp: seq<seq<T>>, out0: seq<seq<T>>,
                       op: (T, T) -> T, pre: (nat, T) -> T, post: T -> T)
    requires W.ValidWork(w) && Buffers(w, inPlace, inp, out0)
    ensures ValidCfg(CfgOf(w, cap, inPlace, inp, out0, op, pre, post))
    ensures BlocksOf(w, CfgOf(w, cap, inPlace, inp, out0, op, pre, post))
  {
    var cfg := CfgOf(w, cap, inPlace, inp, out0, op, pre, post);
    forall l: nat, c: nat, s: nat, pos | IsBlock(cfg.h, l, c, s) && InBlock(cfg, l, c, s, pos)
      ensures cfg.first <= pos < cfg.first + cfg.count
    {
      var _, _ := W.BlockParts(w, l, c, s, pos);
    }
    forall l: nat, c: nat, s: nat, l': nat, c': nat, s': nat, pos |
      && IsBlock(cfg.h, l, c, s) && InBlock(cfg, l, c, s, pos)
      && IsBlock(cfg.h, l', c', s') && InBlock(cfg, l', c', s', pos)
      ensures l == l' && c == c' && s == s'
    {
      W.BlockUnique(w, l, c, s, l', c', s', pos);
    }
    forall pos | cfg.first <= pos < cfg.first + cfg.count
      ensures Covered(cfg, pos)
    {
      var l, c, s := W.FindBlock(w, pos);
      assert IsBlock(cfg.h, l, c, s) && InBlock(cfg, l, c, s, pos);
    }
  }

  // ---- step counts ----

  /** Steps the host announces to the network proxy for one work element. */
  function CollSteps(w: W.Work, stepPerSlice: nat): nat
    requires W.Sized(w)
  {
    W.Loops(w) * (w.n - 1) * 2 * (w.slices * stepPerSlice)
  }

  lemma Distribute(a: nat, b: nat, s: nat)
    ensures (a + b) * s == a * s + b * s
  {
  }

  /** Number of an operation when a loop has `width` of them. */
  function NumberOf(width: nat, slices: nat, p: Pc): nat { (p.l * width + p.j) * slices + p.s }

  lemma NumberNext(width: nat, slices: nat, p: Pc)
    ensures p.s + 1 == slices ==> NumberOf(width, slices, Pc(p.l, p.j + 1, 0)) == NumberOf(width, slices, p) + 1
    ensures p.j + 1 == width ==>
              NumberOf(width, slices, Pc(p.l, p.j + 1, 0)) == NumberOf(width, slices, Pc(p.l + 1, 0, 0))
  {
    Distribute(p.l * width + p.j, 1, slices);
    Distribute(p.l, 1, width);
  }

  /** Number of the send made at a program position. */
  lemma {:induction false} SendNumber(h: Shape, m: nat)
    requires Valid(h)
    ensures m == NumberOf(2 * h.n - 2, h.slices, SendAt(h, m))
  {
    if m > 0 {
      SendNumber(h, m - 1);
      NumberNext(2 * h.n - 2, h.slices, SendAt(h, m - 1));
    }
  }

  lemma {:induction false} OpsClosed(h: Shape, q: nat)
    requires Valid(h)
    ensures q == NumberOf(2 * h.n - 1, h.slices, At(h, q))
  {
    if q > 0 {
      OpsClosed(h, q - 1);
      NumberNext(2 * h.n - 1, h.slices, At(h, q - 1));
    }
  }

  /** A rank that has finished has sent and received exactly the announced number of steps. */
  lemma StepsAsAnnounced<T>(w: W.Work, cfg: Cfg<T>, run: seq<State<T>>, k: nat, i: nat, stepPerSlice: nat)
    requires W.ValidWork(w) && cfg.h == W.ShapeOf(w)
    requires ValidCfg(cfg) && IsRun(cfg, run) && k < |run| && i < cfg.h.n
    requires Shaped(cfg, run[k]) && Done(cfg, run[k], i)
    ensures run[k].rank[i].sent * stepPerSlice == CollSteps(w, stepPerSlice)
    ensures run[k].rank[i].rcvd * stepPerSlice == CollSteps(w, stepPerSlice)
  {
    RunInv(cfg, run, k);
    assert GoodRank(cfg, run[k], i);
    var r := run[k].rank[i];
    SendAtSent(cfg.h, r.ops);
    SendNumber(cfg.h, r.sent);
    LeadAt(cfg.h, r.ops);
    assert r.sent == r.rcvd == W.Loops(w) * (2 * w.n - 2) * w.slices;
    StepProduct(W.Loops(w), w.n - 1, w.slices, stepPerSlice);
  }

  lemma StepProduct(loops: nat, m: nat, s: nat, t: nat)
    ensures loops * (2 * m) * s * t == loops * m * 2 * (s * t)
  {
    calc {
      loops * (2 * m) * s * t;
      (loops * m * 2) * s * t;
      (loops * m * 2) * (s * t);
    }
  }

  // ---- the kernel and the runs ----

  lemma {:induction false} LoopsGrow(h: Shape, q: nat, q': nat)
    requires Valid(h) && q <= q'
    ensures At(h, q).l <= At(h, q').l && (q < q' && At(h, q').j == At(h, q').s == 0 ==> At(h, q).l < At(h, q').l)
  {
    if q < q' { LoopsGrow(h, q, q' - 1); }
  }

  lemma RankTracks<T>(cfg: Cfg<T>, run: seq<State<T>>, k: nat, i: nat)
    requires ValidCfg(cfg) && IsRun(cfg, run) && k < |run| && i < cfg.h.n
    ensures Shaped(cfg, run[k]) && Tracks(cfg.h, run[k].rank[i])
  {
    RunInv(cfg, run, k);
    assert GoodRank(cfg, run[k], i);
  }

  /** A rank has made all `n` operations of the program exactly when it is past the last loop. */
  lemma EndsTogether(h: Shape, r: Rank, n: nat)
    requires Valid(h) && Tracks(h, r) && At(h, n) == Pc(h.loops, 0, 0)
    ensures r.ops <= n && (r.pc.l >= h.loops <==> r.ops == n)
  {
    if n < r.ops {
      LoopsGrow(h, n, r.ops);
      assert false;
    }
    LoopsGrow(h, r.ops, n);
  }

  /** A rank of a run executes the kernel's slice operations (`W.RunSlices`), one after the other: the next one
      has the kind and the positions of the kernel's next slice, and the rank has finished when the kernel has. */
  lemma {:induction false} RunFollowsKernel<T>(w: W.Work, cfg: Cfg<T>, run: seq<State<T>>, k: nat, i: nat,
                                               ops: seq<W.SliceOp>)
    requires W.ValidWork(w) && ValidCfg(cfg) && BlocksOf(w, cfg) && IsRun(cfg, run) && k < |run| && i < cfg.h.n
    requires W.AreOps(w, i, ops) && At(cfg.h, |ops|) == Pc(W.Loops(w), 0, 0)
    ensures Shaped(cfg, run[k])
    ensures Done(cfg, run[k], i) <==> run[k].rank[i].ops == |ops|
    ensures !Done(cfg, run[k], i) ==> NextIs(cfg, run[k].rank[i], i, ops)
  {
    RankTracks(cfg, run, k, i);
    EndsTogether(cfg.h, run[k].rank[i], |ops|);
    var p := run[k].rank[i].pc;
    assert BlockIs(w, cfg, p.l, ChunkAt(cfg.h.n, i, p.j), p.s);
  }

  /** The slice operation a rank is about to make is the kernel's next one. */
  ghost predicate NextIs<T>(cfg: Cfg<T>, r: Rank, i: nat, ops: seq<W.SliceOp>)
    requires Valid(cfg.h) && i < cfg.h.n && InProgram(cfg.h, r.pc)
  {
    var p := r.pc;
    var c := ChunkAt(cfg.h.n, i, p.j);
    r.ops < |ops| && ops[r.ops] == W.SliceOp(KindAt(cfg.h.n, p.j), cfg.lo(p.l, c, p.s), cfg.hi(p.l, c, p.s))
  }

  // ---- every run ends ----

  function TotalOps<T>(st: State<T>, m: nat): nat
    requires m <= |st.rank|
  {
    if m == 0 then 0 else TotalOps(st, m - 1) + st.rank[m - 1].ops
  }

  lemma {:induction false} TotalAdvance<T>(st: State<T>, st': State<T>, i: nat, m: nat)
    requires m <= |st.rank| == |st'.rank| && i < |st.rank|
    requires forall k | 0 <= k < |st.rank| :: st'.rank[k].ops == st.rank[k].ops + if k == i then 1 else 0
    ensures TotalOps(st', m) == TotalOps(st, m) + if i < m then 1 else 0
  {
    if m > 0 { TotalAdvance(st, st', i, m - 1); }
  }

  lemma {:induction false} TotalBound<T>(st: State<T>, m: nat, b: nat)
    requires m <= |st.rank| && forall k | 0 <= k < m :: st.rank[k].ops <= b
    ensures TotalOps(st, m) <= m * b
  {
    if m > 0 {
      TotalBound(st, m - 1, b);
      assert m * b == (m - 1) * b + b;
    }
  }

  lemma MoveLength<T>(cfg: Cfg<T>, st: State<T>, st': State<T>)
    requires Valid(cfg.h) && Shaped(cfg, st) && Moves(cfg, st, st')
    ensures Shaped(cfg, st') && TotalOps(st', cfg.h.n) == TotalOps(st, cfg.h.n) + 1
  {
    var i :| Step(cfg, st, st', i);
    TotalAdvance(st, st', i, cfg.h.n);
  }

  lemma {:induction false} RunLength<T>(cfg: Cfg<T>, run: seq<State<T>>, k: nat)
    requires ValidCfg(cfg) && IsRun(cfg, run) && k < |run|
    ensures Shaped(cfg, run[k]) && TotalOps(run[k], cfg.h.n) == k
  {
    if k == 0 {
      TotalBound(run[0], cfg.h.n, 0);
    } else {
      RunLength(cfg, run, k - 1);
      MoveLength(cfg, run[k - 1], run[k]);
    }
  }

  /** No run is longer than the slice operations of all ranks together; with `NoDeadlock`, a run
      that is continued as long as possible ends with every rank finished. */
  lemma RunEnds<T>(cfg: Cfg<T>, run: seq<State<T>>)
    requires ValidCfg(cfg) && IsRun(cfg, run)
    ensures |run| - 1 <= cfg.h.n * (cfg.h.loops * (2 * cfg.h.n - 1) * cfg.h.slices)
  {
    var st := run[|run| - 1];
    var b := cfg.h.loops * (2 * cfg.h.n - 1) * cfg.h.slices;
    RunLength(cfg, run, |run| - 1);
    RunInv(cfg, run, |run| - 1);
    forall k | 0 <= k < cfg.h.n
      ensures st.rank[k].ops <= b
    {
      assert GoodRank(cfg, st, k);
      OpsClosed(cfg.h, st.rank[k].ops);
      OpsBound(cfg.h, st.rank[k].pc);
    }
    TotalBound(st, cfg.h.n, b);
  }

  lemma OpsBound(h: Shape, p: Pc)
    requires Valid(h) && InProgram(h, p) && p.l <= h.loops && (p.l == h.loops ==> p.j == 0 && p.s == 0)
    ensures NumberOf(2 * h.n - 1, h.slices, p) <= h.loops * (2 * h.n - 1) * h.slices
  {
    var per := 2 * h.n - 1;
    var a := p.l * per + p.j;
    if p.l < h.loops {
      MulMono(p.l + 1, h.loops, per);
      assert (p.l + 1) * per == p.l * per + per;
      MulMono(a + 1, h.loops * per, h.slices);
      Distribute(a, 1, h.slices);
    }
  }

  // ---- in terms of user ranks ----

  /** The ranks' values in ring order. */
  function InRingOrder<T>(next: seq<int>, vals: seq<T>): (s: seq<T>)
    requires S.ValidLinks(next) && |vals| == |next|
    ensures |s| == |next|
  {
    seq(|next|, i requires 0 <= i < |next| => vals[S.Hop(next, 0, i)])
  }

  /** Reducing in ring order or in rank order is the same. */
  lemma RingOrderReduces<T(!new)>(op: (T, T) -> T, next: seq<int>, vals: seq<T>)
    requires Associative(op) && Commutative(op)
    requires S.ValidLinks(next) && |vals| == |next| && S.IsRing(next, 0)
    ensures Reduce(op, InRingOrder(next, vals)) == Reduce(op, vals)
  {
    var idx := S.Ring(next, 0);
    assert InRingOrder(next, vals) == Pick(vals, idx);
    forall r | 0 <= r < |vals| ensures r in idx {
      assert S.Visits(next, 0, r);
      var k: nat :| k < |next| && S.Hop(next, 0, k) == r;
      assert idx[k] == r;
    }
    PlacedLists.NoneTwice(idx);
    PickAll(op, vals, idx);
  }

  /** The result in terms of user ranks: `vals[r]` is the contribution of rank `r` at `pos`, and the
      rank with ring index `i` is the one `i` links after rank 0. */
  lemma AllReduceByRank<T(!new)>(cfg: Cfg<T>, next: seq<int>, vals: seq<T>, run: seq<State<T>>, k: nat, i: nat,
                                 pos: nat)
    requires ValidCfg(cfg) && Associative(cfg.op) && Commutative(cfg.op)
    requires IsRun(cfg, run) && k < |run| && i < cfg.h.n
    requires Shaped(cfg, run[k]) && Done(cfg, run[k], i)
    requires cfg.first <= pos < cfg.first + cfg.count && HasPos(cfg, pos)
    requires |next| == |vals| == cfg.h.n && S.ValidLinks(next) && S.IsRing(next, 0)
    requires forall j: nat | j < cfg.h.n :: vals[S.Hop(next, 0, j)] == cfg.pre(j, cfg.inp[j][pos])
    ensures pos < |run[k].out[i]| && run[k].out[i][pos] == cfg.post(Reduce(cfg.op, vals))
  {
    AllReduceCorrect(cfg, run, k, i, pos);
    assert Contributions(cfg, pos) == InRingOrder(next, vals);
    RingOrderReduces(cfg.op, next, vals);
  }
}
