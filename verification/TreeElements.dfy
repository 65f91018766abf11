/** Tree AllReduce over elements: the ranks' buffers cut into chunks, and what the chunk theorems say of every
    element. */
module TreeElements {
  import opened Arith
  import opened Reduction
  import opened TreeAllReduce
  import opened TreeProof
  import opened TreeTheorems

  // Chunks and elements.

  /** Cut points: chunk `k` is the stretch from `lo[k]` to `lo[k + 1]`, and together they are all of `count`. */
  ghost predicate IsCutting(lo: seq<nat>, count: nat) {
    |lo| > 0 && lo[0] == 0 && lo[|lo| - 1] == count && Monotone(lo)
  }

  ghost predicate Monotone(lo: seq<nat>) { forall j, k | 0 <= j <= k < |lo| :: lo[j] <= lo[k] }

  datatype Call = Call(at: int, len: int)

  /** The loop both phases run over a channel's part of the buffer. */
  method ChunkLoop(base: int, count: nat, chunk: nat) returns (calls: seq<Call>)
    requires chunk > 0
    ensures |calls| == DivUp(count, chunk)
    ensures forall k: nat | k < |calls| :: calls[k] == Call(base + k * chunk, Min(chunk, count - k * chunk))
  {
    calls := [];
    var off := 0;
    while off < count
      invariant off == |calls| * chunk && (calls != [] ==> (|calls| - 1) * chunk < count)
      invariant forall k: nat | k < |calls| :: calls[k] == Call(base + k * chunk, Min(chunk, count - k * chunk))
      decreases count - off
    {
      assert (|calls| + 1) * chunk == |calls| * chunk + chunk;
      calls := calls + [Call(base + off, Min(chunk, count - off))];
      off := off + chunk;
    }
    EndsAt(count, chunk, |calls|);
  }

  lemma EndsAt(count: nat, chunk: nat, n: nat)
    requires chunk > 0 && count <= n * chunk && (n > 0 ==> (n - 1) * chunk < count)
    ensures n == DivUp(count, chunk)
  {
    DivUpAtMost(count, chunk, n);
    var q := DivUp(count, chunk);
    if q < n { MulMono(q, n - 1, chunk); }
  }

  /** Where the chunks of the loop are cut. */
  ghost function Cuts(count: nat, chunk: nat): (lo: seq<nat>)
    requires chunk > 0
    ensures |lo| == DivUp(count, chunk) + 1
  {
    seq(DivUp(count, chunk) + 1, k requires 0 <= k <= DivUp(count, chunk) => CutPoint(count, chunk, k))
  }

  ghost function CutPoint(count: nat, chunk: nat, k: nat): nat {
    MulMono(0, k, chunk);
    Min(k * chunk, count)
  }

  /** The calls of the loop are the chunks of a cutting. */
  lemma LoopCuts(base: int, count: nat, chunk: nat, calls: seq<Call>)
    requires chunk > 0 && |calls| == DivUp(count, chunk)
    requires forall k: nat | k < |calls| :: calls[k] == Call(base + k * chunk, Min(chunk, count - k * chunk))
    ensures var lo := Cuts(count, chunk);
            && IsCutting(lo, count)
            && forall k: nat | k < |calls| :: calls[k].at == base + lo[k] && calls[k].len == lo[k + 1] - lo[k] > 0
  {
    var lo, n := Cuts(count, chunk), DivUp(count, chunk);
    forall j, k | 0 <= j <= k < |lo| ensures lo[j] <= lo[k] { MulMono(j, k, chunk); }
    forall k: nat | k < n ensures calls[k].at == base + lo[k] && calls[k].len == lo[k + 1] - lo[k] > 0 {
      MulMono(k, n - 1, chunk);
      assert (k + 1) * chunk == k * chunk + chunk;
    }
  }

  lemma {:induction false} FindChunk(lo: seq<nat>, e: nat, n: nat) returns (k: nat)
    requires n < |lo| && lo[0] == 0 && e < lo[n]
    ensures k < n && lo[k] <= e < lo[k + 1]
  {
    if lo[n - 1] <= e { k := n - 1; } else { k := FindChunk(lo, e, n - 1); }
  }

  /** Every element belongs to exactly one chunk. */
  lemma ChunkOf(lo: seq<nat>, count: nat, e: nat) returns (k: nat)
    requires IsCutting(lo, count) && e < count
    ensures k < |lo| - 1 && forall j | 0 <= j < |lo| - 1 :: lo[j] <= e < lo[j + 1] <==> j == k
  {
    k := FindChunk(lo, e, |lo| - 1);
  }

  /** Combining chunks is combining their elements. */
  function Lift<T>(op: (T, T) -> T): (seq<T>, seq<T>) -> seq<T> {
    (a: seq<T>, b: seq<T>) => seq(if |a| < |b| then |a| else |b|, i requires 0 <= i < |a| && i < |b| => op(a[i], b[i]))
  }

  lemma LiftLaws<T(!new)>(op: (T, T) -> T)
    requires Associative(op) && Commutative(op)
    ensures Associative(Lift(op)) && Commutative(Lift(op))
  {
    var f := Lift(op);
    forall x, y, z ensures Assoc(f, x, y, z) {
      var a, b := f(f(x, y), z), f(x, f(y, z));
      forall i | 0 <= i < |a| ensures a[i] == b[i] { assert Assoc(op, x[i], y[i], z[i]); }
      assert a == b;
    }
    forall x, y ensures Comm(f, x, y) {
      var a, b := f(x, y), f(y, x);
      forall i | 0 <= i < |a| ensures a[i] == b[i] { assert Comm(op, x[i], y[i]); }
      assert a == b;
    }
  }

  function Column<T>(vecs: seq<seq<T>>, i: nat): (s: seq<T>)
    requires forall r | 0 <= r < |vecs| :: i < |vecs[r]|
    ensures |s| == |vecs|
  {
    seq(|vecs|, r requires 0 <= r < |vecs| => vecs[r][i])
  }

  /** Element `i` of the reduced chunks is the reduction of the elements `i`. */
  lemma {:induction false} LiftReduce<T>(op: (T, T) -> T, vecs: seq<seq<T>>, m: nat, i: nat)
    requires vecs != [] && (forall r | 0 <= r < |vecs| :: |vecs[r]| == m) && i < m
    ensures |Reduce(Lift(op), vecs)| == m && Reduce(Lift(op), vecs)[i] == Reduce(op, Column(vecs, i))
  {
    if |vecs| > 1 {
      LiftReduce(op, vecs[1..], m, i);
      assert Column(vecs, i)[1..] == Column(vecs[1..], i);
    }
  }

  // The tree at either granularity.

  function MapAt<T>(f: (nat, T) -> T): (nat, seq<T>) -> seq<T> {
    (r: nat, a: seq<T>) => seq(|a|, i requires 0 <= i < |a| => f(r, a[i]))
  }

  function Map<T>(f: T -> T): seq<T> -> seq<T> {
    (a: seq<T>) => seq(|a|, i requires 0 <= i < |a| => f(a[i]))
  }

  ghost function Cut<T>(lo: seq<nat>, buf: seq<T>): seq<seq<T>> {
    seq(if lo == [] then 0 else |lo| - 1, k requires 0 <= k < |lo| - 1 =>
      if lo[k] <= lo[k + 1] <= |buf| then buf[lo[k]..lo[k + 1]] else [])
  }

  ghost function CutAll<T>(lo: seq<nat>, bufs: seq<seq<T>>): seq<seq<seq<T>>> {
    seq(|bufs|, r requires 0 <= r < |bufs| => Cut(lo, bufs[r]))
  }

  /** The tree that works on chunks, for the tree `g` of single elements. */
  ghost function InChunks<T>(g: Cfg<T>, lo: seq<nat>): Cfg<seq<T>> {
    Cfg(g.n, g.root, if lo == [] then 0 else |lo| - 1, g.cap, g.up, g.down, g.depth, g.inPlace,
        CutAll(lo, g.inp), CutAll(lo, g.out0),
        Lift(g.op), MapAt(g.pre), Map(g.post))
  }

  lemma InChunksValid<T>(g: Cfg<T>, lo: seq<nat>)
    requires ValidCfg(g)
    ensures ValidCfg(InChunks(g, lo))
  {
  }

  lemma CutAt<T>(lo: seq<nat>, buf: seq<T>, k: nat)
    requires IsCutting(lo, |buf|) && k + 1 < |lo|
    ensures lo[k] <= lo[k + 1] <= |buf| && Cut(lo, buf)[k] == buf[lo[k]..lo[k + 1]]
  {
  }

  /** Element `e` of the contribution of a chunk is the contribution of element `e`. */
  lemma PreAt<T>(pre: (nat, T) -> T, r: nat, buf: seq<T>, from: nat, to: nat, e: nat)
    requires from <= e < to <= |buf|
    ensures var a := MapAt(pre)(r, buf[from..to]); |a| == to - from && a[e - from] == pre(r, buf[e])
  {
  }

  /** `col` is element `i` of each of the vectors of length `m`. */
  ghost predicate IsColumn<T>(vecs: seq<seq<T>>, m: nat, i: nat, col: seq<T>) {
    vecs != [] && i < m && (forall r | 0 <= r < |vecs| :: |vecs[r]| == m) && col == Column(vecs, i)
  }

  lemma ContributionAt<T>(g: Cfg<T>, lo: seq<nat>, r: nat, k: nat, e: nat, from: nat, to: nat)
    requires ValidCfg(g) && IsCutting(lo, g.chunks) && r < g.n
    requires k + 1 < |lo| && from == lo[k] && to == lo[k + 1] && from <= e < to
    ensures e < g.chunks && |InChunks(g, lo).inp| == g.n && |InChunks(g, lo).inp[r]| == |lo| - 1
    ensures var a := InChunks(g, lo).pre(r, InChunks(g, lo).inp[r][k]);
            |a| == to - from && a[e - from] == Contribution(g, r, e)
  {
    assert |g.inp[r]| == g.chunks;
    CutAt(lo, g.inp[r], k);
    PreAt(g.pre, r, g.inp[r], from, to, e);
  }

  lemma ColumnIs<T>(g: Cfg<T>, lo: seq<nat>, c: Cfg<seq<T>>, k: nat, e: nat, from: nat, to: nat)
    requires ValidCfg(g) && IsCutting(lo, g.chunks) && ValidCfg(c) && c == InChunks(g, lo)
    requires k + 1 < |lo| && from == lo[k] && to == lo[k + 1] && from <= e < to
    ensures e < g.chunks && IsColumn(Contributions(c, k), to - from, e - from, Contributions(g, e))
  {
    forall r: nat | r < g.n
      ensures var a := Contribution(c, r, k);
              e < g.chunks && |a| == to - from && a[e - from] == Contribution(g, r, e)
    {
      ContributionAt(g, lo, r, k, e, from, to);
    }
  }

  lemma PostAt<T>(post: T -> T, a: seq<T>, i: nat)
    requires i < |a|
    ensures |Map(post)(a)| == |a| && Map(post)(a)[i] == post(a[i])
  {
  }

  /** Reducing chunks and post-processing the result does so element by element. */
  lemma ReducedAt<T>(op: (T, T) -> T, post: T -> T, vecs: seq<seq<T>>, m: nat, i: nat, col: seq<T>)
    requires IsColumn(vecs, m, i, col)
    ensures var out := Map(post)(Reduce(Lift(op), vecs)); i < |out| && out[i] == post(Reduce(op, col))
  {
    LiftReduce(op, vecs, m, i);
    PostAt(post, Reduce(Lift(op), vecs), i);
  }

  /** The result of a chunk that starts at `from`, at element `e`. */
  ghost predicate HoldsAt<T>(g: Cfg<T>, from: nat, e: nat, out: seq<T>)
    requires ValidCfg(g) && e < g.chunks
  {
    0 <= e - from < |out| && out[e - from] == g.post(Reduce(g.op, Contributions(g, e)))
  }

  lemma ElementResult<T>(g: Cfg<T>, vecs: seq<seq<T>>, from: nat, to: nat, e: nat)
    requires ValidCfg(g) && e < g.chunks && from <= e < to && IsColumn(vecs, to - from, e - from, Contributions(g, e))
    ensures HoldsAt(g, from, e, Map(g.post)(Reduce(Lift(g.op), vecs)))
  {
    ReducedAt(g.op, g.post, vecs, to - from, e - from, Contributions(g, e));
  }

  lemma ChunkAt<T>(g: Cfg<T>, lo: seq<nat>, c: Cfg<seq<T>>, k: nat, e: nat, from: nat, to: nat)
    requires ValidCfg(g) && IsCutting(lo, g.chunks) && ValidCfg(c) && c == InChunks(g, lo)
    requires k + 1 < |lo| && from == lo[k] && to == lo[k + 1] && from <= e < to
    ensures e < g.chunks && HoldsAt(g, from, e, Map(g.post)(Reduce(Lift(g.op), Contributions(c, k))))
  {
    ColumnIs(g, lo, c, k, e, from, to);
    ElementResult(g, Contributions(c, k), from, to, e);
  }

  lemma ChunkResult<T(!new)>(g: Cfg<T>, lo: seq<nat>, c: Cfg<seq<T>>, run: seq<State<seq<T>>>, r: nat, k: nat)
    requires Associative(g.op) && Commutative(g.op) && c == InChunks(g, lo) && ValidCfg(c) && IsRun(c, run)
    requires r < g.n && k + 1 < |lo|
    ensures Shaped(c, run[|run| - 1])
    ensures Done(c, run[|run| - 1], r) ==>
              run[|run| - 1].out[r][k] == Map(g.post)(Reduce(Lift(g.op), Contributions(c, k)))
  {
    LiftLaws(g.op);
    AllReduceCorrect(c, run, r, k);
  }

  /** On every run of the chunked tree, over every tree and every cutting, a rank that has finished holds at
      every element the reduction of all ranks' elements, post-processed once. */
  lemma AllReduceElements<T(!new)>(g: Cfg<T>, lo: seq<nat>, c: Cfg<seq<T>>, run: seq<State<seq<T>>>, r: nat, k: nat,
                                   e: nat)
    requires ValidCfg(g) && Associative(g.op) && Commutative(g.op) && IsCutting(lo, g.chunks)
    requires c == InChunks(g, lo) && ValidCfg(c) && IsRun(c, run) && r < g.n && k + 1 < |lo| && lo[k] <= e < lo[k + 1]
    ensures Shaped(c, run[|run| - 1]) && e < g.chunks
    ensures Done(c, run[|run| - 1], r) ==> HoldsAt(g, lo[k], e, run[|run| - 1].out[r][k])
  {
    ChunkResult(g, lo, c, run, r, k);
    ChunkAt(g, lo, c, k, e, lo[k], lo[k + 1]);
  }
}
