/** The reduction kernel as it runs: every thread loads its elements from all sources and stores the result
    to all destinations, in any interleaving with the other threads. */
module ReduceCopyRun {
  import opened Arith
  import opened ReduceCopy
  import opened ReduceCopyTheorems
  import opened Reduction

  /** The reduction of the sources at one position: own pre-operations, then the operator from the first
      source on. */
  function Reduced<T>(op: (T, T) -> T, pre: (nat, T) -> T, srcs: seq<nat>, bufs: seq<seq<T>>, e: nat, n: nat): T
    requires 0 < n <= |srcs| && forall s | 0 <= s < |srcs| :: srcs[s] < |bufs| && e < |bufs[srcs[s]]|
  {
    var v := pre(n - 1, bufs[srcs[n - 1]][e]);
    if n == 1 then v else op(Reduced(op, pre, srcs, bufs, e, n - 1), v)
  }

  /** Buffers and the positions of sources and destinations among them; a destination may be a source. */
  datatype Work<!T> = Work(op: (T, T) -> T, pre: (nat, T) -> T, post: T -> T, srcs: seq<nat>, dsts: seq<nat>, len: nat)

  ghost predicate ValidWork<T>(w: Work<T>, bufs: seq<seq<T>>) {
    && w.srcs != [] && (forall s | 0 <= s < |w.srcs| :: w.srcs[s] < |bufs|)
    && (forall d | 0 <= d < |w.dsts| :: w.dsts[d] < |bufs|) && forall b | 0 <= b < |bufs| :: |bufs[b]| >= w.len
  }

  ghost function Value<T>(w: Work<T>, bufs: seq<seq<T>>, e: nat): T
    requires ValidWork(w, bufs) && e < w.len
  {
    w.post(Reduced(w.op, w.pre, w.srcs, bufs, e, |w.srcs|))
  }

  // The threads.

  /** An element as handled at a place of a pass. */
  datatype Job = Job(pass: nat, place: Place, e: nat)

  /** `job` says which elements each thread handles. */
  datatype Cfg<!T> = Cfg(w: Work<T>, job: Job -> bool)

  ghost predicate OneJob<T>(g: Cfg<T>, e: nat) { exists x :: g.job(x) && x.e == e }

  /** Every element is some thread's, once. */
  ghost predicate OneEach<T>(g: Cfg<T>) {
    && (forall x | g.job(x) :: x.e < g.w.len)
    && (forall x, y | g.job(x) && g.job(y) && x.e == y.e :: x == y)
    && forall e: nat | e < g.w.len :: OneJob(g, e)
  }

  /** A thread's registers for one element: sources read, the value so far, destinations written. */
  datatype Regs<T> = Regs(read: nat, acc: T, wrote: nat)

  datatype State<T> = State(bufs: seq<seq<T>>, regs: map<Job, Regs<T>>)

  datatype Action = Load(x: Job) | Store(x: Job)

  function Read<T>(st: State<T>, x: Job): nat { if x in st.regs then st.regs[x].read else 0 }

  function Wrote<T>(st: State<T>, x: Job): nat { if x in st.regs then st.regs[x].wrote else 0 }

  /** Buffers keep their number and lengths. */
  ghost predicate Sized<T>(bufs0: seq<seq<T>>, bufs: seq<seq<T>>) {
    |bufs| == |bufs0| && forall b | 0 <= b < |bufs0| :: |bufs[b]| == |bufs0[b]|
  }

  /** An element's sources are read one after the other before anything is stored. */
  ghost predicate Enabled<T>(g: Cfg<T>, st: State<T>, a: Action) {
    && ValidWork(g.w, st.bufs) && g.job(a.x) && a.x.e < g.w.len
    && match a
       case Load(x) => Read(st, x) < |g.w.srcs|
       case Store(x) => x in st.regs && Read(st, x) == |g.w.srcs| && Wrote(st, x) < |g.w.dsts|
  }

  ghost function Next<T>(g: Cfg<T>, st: State<T>, a: Action): State<T>
    requires Enabled(g, st, a)
  {
    var x := a.x;
    match a
    case Load(_) =>
      var n := Read(st, x);
      var v := g.w.pre(n, st.bufs[g.w.srcs[n]][x.e]);
      st.(regs := st.regs[x := Regs(n + 1, if x in st.regs then g.w.op(st.regs[x].acc, v) else v, 0)])
    case Store(_) =>
      var r, d := st.regs[x], g.w.dsts[Wrote(st, x)];
      State(st.bufs[d := st.bufs[d][x.e := g.w.post(r.acc)]], st.regs[x := r.(wrote := r.wrote + 1)])
  }

  ghost predicate Step<T>(g: Cfg<T>, st: State<T>, t: State<T>) { exists a :: Enabled(g, st, a) && t == Next(g, st, a) }

  ghost predicate IsRun<T>(g: Cfg<T>, bufs0: seq<seq<T>>, run: seq<State<T>>) {
    && run != [] && run[0] == State(bufs0, map[])
    && forall k | 0 < k < |run| :: Step(g, run[k - 1], run[k])
  }

  /** Every thread has stored all its elements everywhere. */
  ghost predicate AllStored<T>(g: Cfg<T>, st: State<T>) {
    forall x | g.job(x) :: Read(st, x) == |g.w.srcs| && Wrote(st, x) == |g.w.dsts|
  }

  // What holds at every moment.

  ghost predicate RegsOk<T>(g: Cfg<T>, bufs0: seq<seq<T>>, st: State<T>, x: Job)
    requires ValidWork(g.w, bufs0) && x in st.regs
  {
    var r := st.regs[x];
    && x.e < g.w.len && 0 < r.read <= |g.w.srcs| && r.wrote <= |g.w.dsts| && (r.wrote > 0 ==> r.read == |g.w.srcs|)
    && r.acc == Reduced(g.w.op, g.w.pre, g.w.srcs, bufs0, x.e, r.read)
  }

  /** What buffer `b` holds for the element of job `x`. */
  ghost predicate ElemOk<T>(g: Cfg<T>, bufs0: seq<seq<T>>, st: State<T>, x: Job, b: nat)
    requires ValidWork(g.w, bufs0) && Sized(bufs0, st.bufs) && b < |bufs0| && x.e < g.w.len
  {
    Wrote(st, x) <= |g.w.dsts|
    && st.bufs[b][x.e] == if b in g.w.dsts[..Wrote(st, x)] then Value(g.w, bufs0, x.e) else bufs0[b][x.e]
  }

  ghost predicate Inv<T>(g: Cfg<T>, bufs0: seq<seq<T>>, st: State<T>) {
    && ValidWork(g.w, bufs0) && OneEach(g) && Sized(bufs0, st.bufs)
    && (forall x | x in st.regs :: g.job(x) && RegsOk(g, bufs0, st, x))
    && (forall x: Job, b: nat | g.job(x) && b < |bufs0| :: ElemOk(g, bufs0, st, x, b))
    && forall b: nat, e: nat | b < |bufs0| && g.w.len <= e < |bufs0[b]| :: st.bufs[b][e] == bufs0[b][e]
  }

  lemma InitInv<T>(g: Cfg<T>, bufs0: seq<seq<T>>)
    requires ValidWork(g.w, bufs0) && OneEach(g)
    ensures Inv(g, bufs0, State(bufs0, map[]))
  {
  }

  /** Until a thread stores an element, its sources are the original ones: nobody else writes there. */
  lemma LoadInv<T>(g: Cfg<T>, bufs0: seq<seq<T>>, st: State<T>, x: Job)
    requires Inv(g, bufs0, st) && Enabled(g, st, Load(x))
    ensures Inv(g, bufs0, Next(g, st, Load(x)))
  {
    var n := Read(st, x);
    assert ElemOk(g, bufs0, st, x, g.w.srcs[n]);
    assert Wrote(st, x) == 0;
    var t := Next(g, st, Load(x));
    assert RegsOk(g, bufs0, t, x);
    forall y: Job, b: nat | g.job(y) && b < |bufs0| ensures ElemOk(g, bufs0, t, y, b) {
      assert ElemOk(g, bufs0, st, y, b);
    }
    forall y | y in t.regs && y != x ensures g.job(y) && RegsOk(g, bufs0, t, y) { assert RegsOk(g, bufs0, st, y); }
  }

  lemma StoreElem<T>(g: Cfg<T>, bufs0: seq<seq<T>>, st: State<T>, x: Job, y: Job, b: nat)
    requires Inv(g, bufs0, st) && Enabled(g, st, Store(x)) && g.job(y) && b < |bufs0|
    ensures var t := Next(g, st, Store(x)); Sized(bufs0, t.bufs) && ElemOk(g, bufs0, t, y, b)
  {
    var k := Wrote(st, x);
    assert RegsOk(g, bufs0, st, x) && ElemOk(g, bufs0, st, y, b);
    assert g.w.dsts[..k + 1] == g.w.dsts[..k] + [g.w.dsts[k]];
  }

  lemma StoreInv<T>(g: Cfg<T>, bufs0: seq<seq<T>>, st: State<T>, x: Job)
    requires Inv(g, bufs0, st) && Enabled(g, st, Store(x))
    ensures Inv(g, bufs0, Next(g, st, Store(x)))
  {
    assert RegsOk(g, bufs0, st, x);
    var t := Next(g, st, Store(x));
    forall y: Job, b: nat | g.job(y) && b < |bufs0| ensures Sized(bufs0, t.bufs) && ElemOk(g, bufs0, t, y, b) {
      StoreElem(g, bufs0, st, x, y, b);
    }
    forall y | y in t.regs ensures g.job(y) && RegsOk(g, bufs0, t, y) { assert RegsOk(g, bufs0, st, y); }
  }

  lemma StepInv<T>(g: Cfg<T>, bufs0: seq<seq<T>>, st: State<T>, t: State<T>)
    requires Inv(g, bufs0, st) && Step(g, st, t)
    ensures Inv(g, bufs0, t)
  {
    var a :| Enabled(g, st, a) && t == Next(g, st, a);
    match a
    case Load(x) => LoadInv(g, bufs0, st, x);
    case Store(x) => StoreInv(g, bufs0, st, x);
  }

  lemma {:induction false} RunInv<T>(g: Cfg<T>, bufs0: seq<seq<T>>, run: seq<State<T>>, k: nat)
    requires ValidWork(g.w, bufs0) && OneEach(g) && IsRun(g, bufs0, run) && k < |run|
    ensures Inv(g, bufs0, run[k])
  {
    if k == 0 {
      InitInv(g, bufs0);
    } else {
      RunInv(g, bufs0, run, k - 1);
      assert Step(g, run[k - 1], run[k]);
      StepInv(g, bufs0, run[k - 1], run[k]);
    }
  }

  /** Every destination holds the reduction of the original sources, and nothing else has changed. */
  ghost predicate ReducedInto<T>(w: Work<T>, bufs0: seq<seq<T>>, bufs: seq<seq<T>>)
    requires ValidWork(w, bufs0)
  {
    && Sized(bufs0, bufs)
    && forall b: nat, e: nat | b < |bufs0| && e < |bufs0[b]| ::
         bufs[b][e] == if b in w.dsts && e < w.len then Value(w, bufs0, e) else bufs0[b][e]
  }

  lemma StoredIsReduced<T>(g: Cfg<T>, bufs0: seq<seq<T>>, st: State<T>)
    requires Inv(g, bufs0, st) && AllStored(g, st)
    ensures ReducedInto(g.w, bufs0, st.bufs)
  {
    forall b: nat, e: nat | b < |bufs0| && e < |bufs0[b]|
      ensures st.bufs[b][e] == if b in g.w.dsts && e < g.w.len then Value(g.w, bufs0, e) else bufs0[b][e]
    {
      if e < g.w.len {
        assert OneJob(g, e);
        var x :| g.job(x) && x.e == e;
        assert ElemOk(g, bufs0, st, x, b);
        assert g.w.dsts[..Wrote(st, x)] == g.w.dsts;
      }
    }
  }

  /** Threads do not wait for each other: whatever is not stored yet can be loaded or stored next. */
  lemma NobodyWaits<T>(g: Cfg<T>, bufs0: seq<seq<T>>, run: seq<State<T>>, x: Job)
    requires ValidWork(g.w, bufs0) && OneEach(g) && IsRun(g, bufs0, run) && g.job(x)
    ensures var st := run[|run| - 1];
            Enabled(g, st, Load(x)) || Enabled(g, st, Store(x))
            || (Read(st, x) == |g.w.srcs| && Wrote(st, x) == |g.w.dsts|)
  {
    var st := run[|run| - 1];
    RunInv(g, bufs0, run, |run| - 1);
    if x in st.regs { assert RegsOk(g, bufs0, st, x); }
  }

  // The threads of the kernel.

  /** Element `x.e` is handled at `x.place` in pass `x.pass`. */
  ghost predicate IsJob(passes: seq<Pass>, size: nat, bytes: nat, x: Job)
    requires forall j | 0 <= j < |passes| :: ValidPass(passes[j])
  {
    x.e * size + size <= bytes && x.pass < |passes| && HandlesIn(passes, bytes, x.pass, x.place, x.e * size)
  }

  ghost function KernelCfg<T>(passes: seq<Pass>, size: nat, bytes: nat, w: Work<T>): Cfg<T>
    requires forall j | 0 <= j < |passes| :: ValidPass(passes[j])
  {
    Cfg(w, (x: Job) => IsJob(passes, size, bytes, x))
  }

  lemma InLength(size: nat, len: nat, e: nat)
    requires size > 0
    ensures e * size + size <= len * size <==> e < len
  {
    assert (e + 1) * size == e * size + size;
    if e < len { MulMono(e + 1, len, size); } else { MulMono(len, e, size); }
  }

  /** Over all warps, hunks, passes and renumberings, the jobs are the elements, each once. */
  lemma JobsAreElements<T>(passes: seq<Pass>, warps: nat, lanes: nat, size: nat, w: Work<T>)
    requires ValidPasses(passes, warps, lanes, size)
    ensures OneEach(KernelCfg(passes, size, w.len * size, w))
  {
    var bytes := w.len * size;
    var g := KernelCfg(passes, size, bytes, w);
    MulMod(size, w.len);
    forall x | g.job(x) ensures x.e < w.len { InLength(size, w.len, x.e); }
    forall x, y | g.job(x) && g.job(y) && x.e == y.e ensures x == y {
      var k, p := EveryElementOnce(passes, warps, lanes, size, bytes, x.e);
    }
    forall e: nat | e < w.len ensures OneJob(g, e) {
      InLength(size, w.len, e);
      var k, p := EveryElementOnce(passes, warps, lanes, size, bytes, e);
      assert g.job(Job(k, p, e));
    }
  }

  /** The reduction kernel: however the threads interleave, once all have stored what is theirs, every
      destination holds the element-wise reduction of the original sources, also where a destination is a
      source, and nothing else has changed. */
  lemma ReduceCopyCorrect<T>(passes: seq<Pass>, warps: nat, lanes: nat, size: nat, w: Work<T>,
                             bufs0: seq<seq<T>>, run: seq<State<T>>)
    requires ValidPasses(passes, warps, lanes, size) && ValidWork(w, bufs0)
    requires IsRun(KernelCfg(passes, size, w.len * size, w), bufs0, run)
    requires AllStored(KernelCfg(passes, size, w.len * size, w), run[|run| - 1])
    ensures ReducedInto(w, bufs0, run[|run| - 1].bufs)
  {
    var g := KernelCfg(passes, size, w.len * size, w);
    JobsAreElements(passes, warps, lanes, size, w);
    RunInv(g, bufs0, run, |run| - 1);
    StoredIsReduced(g, bufs0, run[|run| - 1]);
  }

  /** What the sources contribute to element `e`. */
  ghost function Sources<T>(w: Work<T>, bufs: seq<seq<T>>, e: nat): (s: seq<T>)
    requires ValidWork(w, bufs) && e < w.len
    ensures |s| == |w.srcs| && forall i: nat | i < |s| :: s[i] == w.pre(i, bufs[w.srcs[i]][e])
  {
    seq(|w.srcs|, i requires 0 <= i < |w.srcs| => w.pre(i, bufs[w.srcs[i]][e]))
  }

  lemma {:induction false} ReducedIsReduce<T(!new)>(w: Work<T>, bufs: seq<seq<T>>, e: nat, n: nat)
    requires ValidWork(w, bufs) && e < w.len && Associative(w.op) && 0 < n <= |w.srcs|
    ensures Reduced(w.op, w.pre, w.srcs, bufs, e, n) == Reduce(w.op, Sources(w, bufs, e)[..n])
  {
    var s := Sources(w, bufs, e);
    if n == 1 {
      assert s[..1] == [s[0]];
    } else {
      ReducedIsReduce(w, bufs, e, n - 1);
      assert s[..n] == s[..n - 1] + [s[n - 1]];
      ReduceConcat(w.op, s[..n - 1], [s[n - 1]]);
    }
  }

  /** The result in terms of the sources alone, for an associative operator. */
  lemma DestinationsHold<T(!new)>(passes: seq<Pass>, warps: nat, lanes: nat, size: nat, w: Work<T>,
                                  bufs0: seq<seq<T>>, run: seq<State<T>>, d: nat, e: nat)
    requires ValidPasses(passes, warps, lanes, size) && ValidWork(w, bufs0) && Associative(w.op)
    requires IsRun(KernelCfg(passes, size, w.len * size, w), bufs0, run)
    requires AllStored(KernelCfg(passes, size, w.len * size, w), run[|run| - 1])
    requires d in w.dsts && e < w.len
    ensures Sized(bufs0, run[|run| - 1].bufs)
    ensures run[|run| - 1].bufs[d][e] == w.post(Reduce(w.op, Sources(w, bufs0, e)))
  {
    ReduceCopyCorrect(passes, warps, lanes, size, w, bufs0, run);
    ReducedIsReduce(w, bufs0, e, |w.srcs|);
    var bufs := run[|run| - 1].bufs;
    assert d < |bufs0| && e < |bufs0[d]|;
    assert bufs[d][e] == Value(w, bufs0, e);
    assert Sources(w, bufs0, e)[..|w.srcs|] == Sources(w, bufs0, e);
  }
}
