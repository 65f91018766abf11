/** The work of one channel of a ring AllReduce: how its element range is split into loops,
    chunks and slices, and the sequence of primitive calls each rank makes. */
module RingWork {
  import opened Arith
  import opened Slicing
  import opened RingProgram

  /** `offset`, `count`, `chunk` and `lastChunk` are the work element's workOffset, workCount,
      chunkCount and lastChunkCount, `loop` the loopCount of the kernel; `slices` is SlicePerChunk and
      `room` the elements that fit into the buffer steps of one slice. */
  datatype Work = Work(n: nat, offset: nat, count: nat, chunk: nat, lastChunk: nat, loop: nat, slices: nat, room: nat)

  predicate Sized(w: Work) {
    w.n >= 2 && w.chunk > 0 && w.slices > 0 && w.loop == w.n * w.chunk && w.loop > 0
  }

  /** The host's choice of the chunk length of a short last loop: the least multiple of the alignment with
      which `n` chunks cover what is left. */
  function LastChunkCount(n: nat, count: nat, chunk: nat, align: nat): (r: nat)
    requires n > 0 && chunk > 0 && align > 0
    ensures n * chunk > 0 && r * n >= count % (n * chunk)
    ensures r % align == 0 && (r > 0 ==> (r - align) * n < count % (n * chunk))
  {
    MulMono(1, chunk, n);
    var rem := count % (n * chunk);
    LeastCover(rem, n, align);
    DivUp(DivUp(rem, n), align) * align
  }

  /** A short last loop never needs a longer chunk than the buffers were sized for, as long as
      the regular chunk is a whole number of alignment units. */
  lemma LastChunkFits(n: nat, count: nat, chunk: nat, align: nat)
    requires n > 0 && chunk > 0 && align > 0 && chunk % align == 0
    ensures LastChunkCount(n, count, chunk, align) <= chunk
  {
    MulMono(1, chunk, n);
    var per := DivUp(count % (n * chunk), n);
    DivUpAtMost(count % (n * chunk), n, chunk);
    var k := chunk / align;
    assert chunk == align * k;
    DivUpAtMost(per, align, k);
    MulMono(DivUp(per, align), k, align);
  }

  /** A work element the host can issue: `lastChunk` is large enough for the short loop. */
  predicate ValidWork(w: Work) {
    Sized(w) && w.lastChunk * w.n >= w.count % w.loop
  }

  function Loops(w: Work): nat
    requires Sized(w)
  {
    DivUp(w.count, w.loop)
  }

  function Remaining(w: Work, l: nat): int
    requires Sized(w)
  {
    w.count - l * w.loop
  }

  function ChunkLen(w: Work, l: nat): nat
    requires Sized(w)
  {
    if Remaining(w, l) < w.loop then w.lastChunk else w.chunk
  }

  /** Element count passed to the primitive; negative past the end of the work. */
  function RawCount(w: Work, l: nat, c: nat): int
    requires Sized(w)
  {
    Min(ChunkLen(w, l), Remaining(w, l) - c * ChunkLen(w, l))
  }

  function Nelem(w: Work, l: nat, c: nat): nat
    requires Sized(w)
  {
    Max(RawCount(w, l, c), 0)
  }

  function ChunkBase(w: Work, l: nat, c: nat): nat
    requires Sized(w)
  {
    w.offset + l * w.loop + c * ChunkLen(w, l)
  }

  /** First position of slice `s` of chunk `c` of loop `l`. */
  function Lo(w: Work, l: nat, c: nat, s: nat): nat
    requires Sized(w)
  {
    ChunkBase(w, l, c) + SliceOff(Nelem(w, l, c), w.slices, w.room, s)
  }

  function Hi(w: Work, l: nat, c: nat, s: nat): (h: nat)
    requires Sized(w)
    ensures Lo(w, l, c, s) <= h
  {
    SlicesTile(Nelem(w, l, c), w.slices, w.room);
    Lo(w, l, c, s + 1)
  }

  predicate IsBlock(w: Work, l: nat, c: nat, s: nat)
    requires Sized(w)
  {
    l < Loops(w) && c < w.n && s < w.slices
  }

  predicate InBlock(w: Work, l: nat, c: nat, s: nat, pos: nat)
    requires Sized(w)
  {
    Lo(w, l, c, s) <= pos < Hi(w, l, c, s)
  }

  /** Writes `d` as whole multiples of `m` and a rest. */
  lemma Split(d: nat, m: nat, k: nat) returns (q: nat, r: nat)
    requires d < m * k
    ensures m > 0 && d == q * m + r && r < m && q < k
  {
    q, r := d / m, d % m;
    assert d == m * q + r;
    MulLess(q, k, m);
  }

  /** The parts of a two-digit number are determined by it. */
  lemma SplitUnique(m: nat, q: nat, r: nat, q': nat, r': nat)
    requires q * m + r == q' * m + r' && r < m && r' < m
    ensures q == q' && r == r'
  {
    assert (q + 1) * m == q * m + m && (q' + 1) * m == q' * m + m;
    MulLess(q, q' + 1, m);
    MulLess(q', q + 1, m);
  }

  lemma ShortLoop(count: nat, loop: nat, l: nat)
    requires 0 <= count - l * loop < loop
    ensures count - l * loop == count % loop
  {
    DivModUnique(count, loop, l, count - l * loop);
  }

  lemma FindLoop(w: Work, d: nat) returns (l: nat, e: nat)
    requires ValidWork(w) && d < w.count
    ensures l < Loops(w) && d == l * w.loop + e
    ensures e < Remaining(w, l) && e < w.n * ChunkLen(w, l)
  {
    l, e := Split(d, w.loop, Loops(w));
    if Remaining(w, l) < w.loop { ShortLoop(w.count, w.loop, l); }
  }

  /** Every position of the work range lies in some block. */
  lemma FindBlock(w: Work, pos: nat) returns (l: nat, c: nat, s: nat)
    requires ValidWork(w) && w.offset <= pos < w.offset + w.count
    ensures IsBlock(w, l, c, s) && InBlock(w, l, c, s, pos)
  {
    var e, x;
    l, e := FindLoop(w, pos - w.offset);
    c, x := Split(e, ChunkLen(w, l), w.n);
    SlicesTile(Nelem(w, l, c), w.slices, w.room);
    s := FindSlice(Nelem(w, l, c), w.slices, w.room, x, w.slices);
  }

  lemma ChunkInLoop(n: nat, chunk: nat, len: nat, rem: int, c: nat, x: nat)
    requires c < n && x < len && x < rem - c * len
    requires rem >= n * chunk ==> len == chunk
    ensures c * len + x < n * chunk
  {
    if rem >= n * chunk {
      MulMono(c, n - 1, len);
      assert (n - 1) * len == n * len - len;
    }
  }

  /** Where a position of a block lies in its loop and its chunk. */
  lemma BlockParts(w: Work, l: nat, c: nat, s: nat, pos: nat) returns (e: nat, x: nat)
    requires Sized(w) && IsBlock(w, l, c, s) && InBlock(w, l, c, s, pos)
    ensures pos == w.offset + (l * w.loop + e) && e < w.loop
    ensures e == c * ChunkLen(w, l) + x && x < ChunkLen(w, l)
    ensures SliceOff(Nelem(w, l, c), w.slices, w.room, s) <= x < SliceOff(Nelem(w, l, c), w.slices, w.room, s + 1)
    ensures w.offset <= pos < w.offset + w.count
  {
    SlicesTile(Nelem(w, l, c), w.slices, w.room);
    x := pos - ChunkBase(w, l, c);
    MulMono(0, l, w.loop);
    MulMono(0, c, ChunkLen(w, l));
    e := c * ChunkLen(w, l) + x;
    ChunkInLoop(w.n, w.chunk, ChunkLen(w, l), Remaining(w, l), c, x);
  }

  /** Two blocks that share a position are the same block. */
  lemma BlockUnique(w: Work, l: nat, c: nat, s: nat, l': nat, c': nat, s': nat, pos: nat)
    requires Sized(w)
    requires IsBlock(w, l, c, s) && InBlock(w, l, c, s, pos)
    requires IsBlock(w, l', c', s') && InBlock(w, l', c', s', pos)
    ensures l == l' && c == c' && s == s'
  {
    var e, x := BlockParts(w, l, c, s, pos);
    var e', x' := BlockParts(w, l', c', s', pos);
    SplitUnique(w.loop, l, e, l', e');
    SplitUnique(ChunkLen(w, l), c, x, c', x');
    SliceUnique(Nelem(w, l, c), w.slices, w.room, x, s, s');
  }

  // ---- the program of one rank ----

  /** One primitive call: kind, buffer offset and (possibly negative) element count. */
  datatype Prim = Prim(kind: Kind, offset: int, nelem: int)

  /** The call for operation `j` of loop `l` works on exactly the block ranges of its chunk: every slice that
      the primitive cuts from its element count, laid at its offset, is that block. */
  ghost predicate Serves(w: Work, ix: nat, l: nat, j: nat, call: Prim)
    requires Sized(w) && ix < w.n && j <= 2 * w.n - 2
  {
    var c := ChunkAt(w.n, ix, j);
    call.kind == KindAt(w.n, j) && OnChunk(w, l, c, call) && forall s: nat | s < w.slices :: SliceIs(w, l, c, call, s)
  }

  /** Chunk `c` of a loop, of the regular length or, when less than a whole loop is left, of the short one, and
      never beyond the work. */
  ghost predicate OnChunk(w: Work, l: nat, c: nat, call: Prim) {
    var rest := w.count - l * w.loop;
    var len := if rest < w.loop then w.lastChunk else w.chunk;
    call.offset == w.offset + l * w.loop + c * len && call.nelem == if len < rest - c * len then len else rest - c * len
  }

  ghost predicate SliceIs(w: Work, l: nat, c: nat, call: Prim, s: nat)
    requires Sized(w)
  {
    var nelem := Max(call.nelem, 0);
    && call.offset + SliceOff(nelem, w.slices, w.room, s) == Lo(w, l, c, s)
    && call.offset + SliceOff(nelem, w.slices, w.room, s + 1) == Hi(w, l, c, s)
  }

  ghost predicate ServesAll(w: Work, ix: nat, l: nat, calls: seq<Prim>)
    requires Sized(w) && ix < w.n
  {
    |calls| <= 2 * w.n - 1 && forall j: nat | j < |calls| :: Serves(w, ix, l, j, calls[j])
  }

  ghost predicate AllServed(w: Work, ix: nat, calls: seq<seq<Prim>>)
    requires Sized(w) && ix < w.n
  {
    forall l: nat | l < |calls| :: |calls[l]| == 2 * w.n - 1 && ServesAll(w, ix, l, calls[l])
  }

  lemma EachServed(w: Work, ix: nat, calls: seq<seq<Prim>>)
    requires Sized(w) && ix < w.n && AllServed(w, ix, calls)
    ensures forall l: nat | l < |calls| :: |calls[l]| == 2 * w.n - 1
    ensures forall l: nat, j: nat | l < |calls| && j < |calls[l]| :: Serves(w, ix, l, j, calls[l][j])
  {
    forall l: nat, j: nat | l < |calls| && j < |calls[l]| ensures Serves(w, ix, l, j, calls[l][j]) {
      assert ServesAll(w, ix, l, calls[l]);
    }
  }

  lemma NextLoop(w: Work, l: nat)
    requires Sized(w)
    ensures l * w.loop < w.count <==> l < Loops(w)
    ensures (l + 1) * w.loop == l * w.loop + w.loop
  {
    if l < Loops(w) { MulMono(l, Loops(w) - 1, w.loop); } else { MulMono(Loops(w), l, w.loop); }
  }

  function ModRanks(n: nat, r: nat): nat {
    r - (if r >= n then n else 0)
  }

  /** The body of the ring kernel: the calls of every loop, in order, serve the blocks of the work. */
  method RunRing(w: Work, ringIx: nat) returns (calls: seq<seq<Prim>>)
    requires Sized(w) && ringIx < w.n
    ensures |calls| == Loops(w)
    ensures forall l: nat | l < |calls| :: |calls[l]| == 2 * w.n - 1
    ensures forall l: nat, j: nat | l < |calls| && j < |calls[l]| :: Serves(w, ringIx, l, j, calls[l][j])
  {
    var nranks, chunkCount := w.n, w.chunk;
    var loopCount := w.loop;
    calls := [];
    var elemOffset := 0;
    while elemOffset < w.count
      invariant elemOffset == |calls| * loopCount && |calls| <= Loops(w)
      invariant elemOffset < w.count ==> chunkCount == w.chunk
      invariant AllServed(w, ringIx, calls)
      decreases w.count - elemOffset
    {
      NextLoop(w, |calls|);
      var remCount := w.count - elemOffset;
      if remCount < loopCount { chunkCount := w.lastChunk; }
      var body := RunLoop(w, ringIx, |calls|, elemOffset, remCount, chunkCount);
      calls := calls + [body];
      elemOffset := elemOffset + loopCount;
    }
    NextLoop(w, |calls|);
    EachServed(w, ringIx, calls);
  }

  lemma CallServes(w: Work, ix: nat, l: nat, j: nat, call: Prim)
    requires Sized(w) && ix < w.n && j <= 2 * w.n - 2 && call.kind == KindAt(w.n, j)
    requires var c := ChunkAt(w.n, ix, j); call.offset == ChunkBase(w, l, c) && call.nelem == RawCount(w, l, c)
    ensures Serves(w, ix, l, j, call)
  {
    forall s: nat | s < w.slices ensures SliceIs(w, l, ChunkAt(w.n, ix, j), call, s) {}
  }

  lemma OneMore(w: Work, ix: nat, l: nat, calls: seq<Prim>, call: Prim)
    requires Sized(w) && ix < w.n && |calls| < 2 * w.n - 1 && ServesAll(w, ix, l, calls)
    requires Serves(w, ix, l, |calls|, call)
    ensures ServesAll(w, ix, l, calls + [call])
  {
    var more := calls + [call];
    forall j: nat | j < |more| ensures Serves(w, ix, l, j, more[j]) {
      if j < |calls| { assert Serves(w, ix, l, j, calls[j]); }
    }
  }

  /** A call for one chunk of a loop. */
  method Call(w: Work, ghost ix: nat, ghost l: nat, calls0: seq<Prim>, kind: Kind, elemOffset: nat, chunk: nat,
              chunkCount: nat, remCount: int)
    returns (calls: seq<Prim>)
    requires Sized(w) && ix < w.n && |calls0| < 2 * w.n - 1 && ServesAll(w, ix, l, calls0)
    requires kind == KindAt(w.n, |calls0|) && chunk == ChunkAt(w.n, ix, |calls0|)
    requires elemOffset == l * w.loop && remCount == Remaining(w, l) && chunkCount == ChunkLen(w, l)
    ensures |calls| == |calls0| + 1 && ServesAll(w, ix, l, calls)
  {
    var chunkOffset := chunk * chunkCount;
    var offset := w.offset + elemOffset + chunkOffset;
    var nelem := if chunkCount < remCount - chunkOffset then chunkCount else remCount - chunkOffset;
    CallServes(w, ix, l, |calls0|, Prim(kind, offset, nelem));
    OneMore(w, ix, l, calls0, Prim(kind, offset, nelem));
    calls := calls0 + [Prim(kind, offset, nelem)];
  }

  /** One iteration of the outer loop. */
  method RunLoop(w: Work, ringIx: nat, ghost l: nat, elemOffset: nat, remCount: int, chunkCount: nat)
    returns (calls: seq<Prim>)
    requires Sized(w) && ringIx < w.n
    requires elemOffset == l * w.loop && remCount == Remaining(w, l) && chunkCount == ChunkLen(w, l)
    ensures |calls| == 2 * w.n - 1 && ServesAll(w, ringIx, l, calls)
  {
    var n := w.n;
    // step 0: push data to the next rank
    calls := Call(w, ringIx, l, [], Send, elemOffset, ModRanks(n, ringIx + n - 1), chunkCount, remCount);
    // reduce and copy to the next rank
    var j := 2;
    while j < n
      invariant 2 <= j <= n && |calls| == j - 1 && ServesAll(w, ringIx, l, calls)
    {
      calls := Call(w, ringIx, l, calls, RecvReduceSend, elemOffset, ModRanks(n, ringIx + n - j), chunkCount, remCount);
      j := j + 1;
    }
    // reduce into the final value, keep it and push it on
    calls := Call(w, ringIx, l, calls, RecvReduceCopySend, elemOffset, ringIx, chunkCount, remCount);
    // copy to the next rank
    j := 1;
    while j < n - 1
      invariant 1 <= j <= n - 1 && |calls| == n - 1 + j && ServesAll(w, ringIx, l, calls)
    {
      calls := Call(w, ringIx, l, calls, RecvCopySend, elemOffset, ModRanks(n, ringIx + n - j), chunkCount, remCount);
      j := j + 1;
    }
    // final copy from buffer to destination
    calls := Call(w, ringIx, l, calls, Recv, elemOffset, ModRanks(n, ringIx + 1), chunkCount, remCount);
  }

  // ---- slice by slice ----

  /** One slice operation: its kind and the positions from `lo` up to `hi` it works on. */
  datatype SliceOp = SliceOp(kind: Kind, lo: int, hi: int)

  function ShapeOf(w: Work): Shape
    requires Sized(w)
  {
    Shape(w.n, w.slices, Loops(w))
  }

  /** What the ring program does at position `p`. */
  function OpAt(w: Work, ix: nat, p: Pc): SliceOp
    requires Sized(w) && ix < w.n && InProgram(ShapeOf(w), p)
  {
    var c := ChunkAt(w.n, ix, p.j);
    SliceOp(KindAt(w.n, p.j), Lo(w, p.l, c, p.s), Hi(w, p.l, c, p.s))
  }

  ghost predicate AreOps(w: Work, ix: nat, ops: seq<SliceOp>)
    requires Sized(w) && ix < w.n
  {
    forall q: nat | q < |ops| :: ops[q] == OpAt(w, ix, At(ShapeOf(w), q))
  }

  function Shifted(call: Prim, cut: (int, int)): SliceOp {
    SliceOp(call.kind, call.offset + cut.0, call.offset + cut.0 + cut.1)
  }

  lemma CutIsOp(w: Work, ix: nat, p: Pc, call: Prim, cuts: seq<(int, int)>)
    requires Sized(w) && ix < w.n && InProgram(ShapeOf(w), p) && Serves(w, ix, p.l, p.j, call)
    requires |cuts| == w.slices && CutAs(cuts, Max(call.nelem, 0), w.slices, w.room)
    ensures Shifted(call, cuts[p.s]) == OpAt(w, ix, p)
  {
    assert SliceIs(w, p.l, ChunkAt(w.n, ix, p.j), call, p.s);
  }

  lemma AddOp(w: Work, ix: nat, ops: seq<SliceOp>, o: SliceOp, p: Pc)
    requires Sized(w) && ix < w.n && AreOps(w, ix, ops) && p == At(ShapeOf(w), |ops|) && o == OpAt(w, ix, p)
    ensures AreOps(w, ix, ops + [o]) && At(ShapeOf(w), |ops + [o]|) == Succ(ShapeOf(w), p)
  {
  }

  /** The slices of one call. */
  method RunCall(w: Work, ghost ix: nat, ops0: seq<SliceOp>, ghost l: nat, ghost j: nat, call: Prim, worker: bool)
    returns (ops: seq<SliceOp>)
    requires Sized(w) && ix < w.n && AreOps(w, ix, ops0) && j <= 2 * w.n - 2
    requires At(ShapeOf(w), |ops0|) == Pc(l, j, 0) && Serves(w, ix, l, j, call)
    ensures AreOps(w, ix, ops) && At(ShapeOf(w), |ops|) == if j < 2 * w.n - 2 then Pc(l, j + 1, 0) else Pc(l + 1, 0, 0)
  {
    var cuts := CutSlices(call.nelem, w.slices, w.room, worker);
    ops := ops0;
    for s := 0 to w.slices
      invariant AreOps(w, ix, ops)
      invariant At(ShapeOf(w), |ops|) ==
                if s < w.slices then Pc(l, j, s) else if j < 2 * w.n - 2 then Pc(l, j + 1, 0) else Pc(l + 1, 0, 0)
    {
      CutIsOp(w, ix, Pc(l, j, s), call, cuts);
      AddOp(w, ix, ops, Shifted(call, cuts[s]), Pc(l, j, s));
      ops := ops + [Shifted(call, cuts[s])];
    }
  }

  /** The whole kernel, down to its slices, for worker and other threads alike: the `q`-th slice operation is
      the one the ring program has at its `q`-th position, and the kernel ends where the program does. */
  method RunSlices(w: Work, ringIx: nat, worker: bool) returns (ops: seq<SliceOp>)
    requires Sized(w) && ringIx < w.n
    ensures forall q: nat | q < |ops| ::
              var p := At(ShapeOf(w), q);
              var c := ChunkAt(w.n, ringIx, p.j);
              ops[q] == SliceOp(KindAt(w.n, p.j), Lo(w, p.l, c, p.s), Hi(w, p.l, c, p.s))
    ensures At(ShapeOf(w), |ops|) == Pc(Loops(w), 0, 0)
  {
    var calls := RunRing(w, ringIx);
    ops := [];
    for l := 0 to |calls|
      invariant AreOps(w, ringIx, ops) && At(ShapeOf(w), |ops|) == Pc(l, 0, 0)
    {
      for j := 0 to |calls[l]|
        invariant AreOps(w, ringIx, ops)
        invariant At(ShapeOf(w), |ops|) == if j < |calls[l]| then Pc(l, j, 0) else Pc(l + 1, 0, 0)
      {
        ops := RunCall(w, ringIx, ops, l, j, calls[l][j], worker);
      }
    }
  }
}
