/** How the threads of a block share the packs of a reduction: warps stride over hunks, hunks over
    unrolled packs, and warps are renumbered after every pass. */
module ReduceCopy {
  import opened Arith

  /** A pass: `unroll` packs of `pack` bytes per thread and hunk, warps of `lanes` threads. */
  datatype Pass = Pass(unroll: nat, lanes: nat, warps: nat, pack: nat)

  predicate ValidPass(p: Pass) { p.lanes > 0 && p.warps > 0 && p.pack > 0 }

  function HunkBytes(p: Pass): nat { p.unroll * p.lanes * p.pack }

  /** Packs handled by the pass when `ahead` bytes are left: whole hunks, and with `unroll` 1 every
      whole pack. */
  function Packs(p: Pass, ahead: nat): nat
    requires ValidPass(p)
  {
    if p.unroll == 1 then Quot(ahead, p.pack)
    else if HunkBytes(p) == 0 then 0
    else Quot(ahead, HunkBytes(p)) * (p.unroll * p.lanes)
  }

  /** Hunks counted by the pass, as in the source: the divisor is never zero. */
  function Hunks(p: Pass, ahead: nat): nat
    requires ValidPass(p)
  {
    var hunk := HunkBytes(p);
    var whole := Quot(ahead, hunk + if hunk == 0 then 1 else 0);
    if p.unroll == 1 && p.pack <= ahead - whole * hunk then whole + 1 else whole
  }

  /** Number of the pack that lane `lane` handles as the `u`-th of hunk `q`. */
  function PackNo(p: Pass, q: nat, u: nat, lane: nat): nat { (q * p.unroll + u) * p.lanes + lane }

  /** A thread takes the `i`-th hunk of its warp. */
  ghost predicate Takes(p: Pass, ahead: nat, warp: nat, lane: nat, i: nat)
    requires ValidPass(p)
  {
    if p.unroll == 1 then PackNo(p, warp + i * p.warps, 0, lane) < Packs(p, ahead)
    else warp + i * p.warps < Hunks(p, ahead)
  }

  // Division facts.

  lemma QuotientLess(x: nat, y: nat, q: nat)
    requires y > 0
    ensures q < x / y <==> (q + 1) * y <= x
  {
    var d := x / y;
    assert x == y * d + x % y;
    if q < d { MulMono(q + 1, d, y); }
    if (q + 1) * y <= x { MulLess(q, d, y) by { assert (q + 1) * y == q * y + y; } }
  }

  lemma Parts(x: nat, y: nat) returns (q: nat, r: nat)
    requires y > 0
    ensures q == x / y && r < y && x == y * q + r
  {
    QuotBounds(x, y);
    q, r := x / y, x % y;
  }

  lemma PacksInHunks(lanes: nat, pack: nat, before: nat, rest: nat, n: nat, r: nat)
    requires pack > 0 && r < pack && pack * before + rest == pack * n + r && rest < lanes * pack
    ensures before <= n < before + lanes && (pack <= rest <==> before < n)
  {
    assert pack * (n - before) == pack * n - pack * before;
    MulLess(before, n + 1, pack) by { assert pack * (n + 1) == pack * n + pack; }
    MulLess(n - before, lanes, pack);
    if before < n { MulMono(1, n - before, pack); }
  }

  /** Whole packs after `whole` hunks of `lanes` packs: the rest fits in one more hunk. */
  lemma HunkOfPacks(lanes: nat, pack: nat, ahead: nat)
    requires lanes > 0 && pack > 0 && lanes * pack > 0
    ensures var whole := ahead / (lanes * pack);
            && whole * lanes <= ahead / pack < whole * lanes + lanes
            && (pack <= ahead - whole * (lanes * pack) <==> whole * lanes < ahead / pack)
  {
    var hunk := lanes * pack;
    var whole, rest := Parts(ahead, hunk);
    var n, r := Parts(ahead, pack);
    Regroup(lanes, pack, whole);
    PacksInHunks(lanes, pack, whole * lanes, rest, n, r);
  }

  lemma Regroup(lanes: nat, pack: nat, whole: nat)
    ensures (lanes * pack) * whole == pack * (whole * lanes) == whole * (lanes * pack)
  {
  }

  lemma HunkOrder(lanes: nat, whole: nat, n: nat, q: nat, lane: nat)
    requires lane < lanes && whole * lanes <= n < whole * lanes + lanes
    ensures q < whole ==> q * lanes + lane < n
    ensures q * lanes + lane < n ==> q <= whole && (q == whole ==> whole * lanes < n)
  {
    if q < whole {
      MulMono(q + 1, whole, lanes);
      assert (q + 1) * lanes == q * lanes + lanes;
    }
    if q * lanes + lane < n {
      assert (whole + 1) * lanes == whole * lanes + lanes;
      MulLess(q, whole + 1, lanes);
    }
  }

  /** With unroll 1 the hunks are the whole ones and one more for the packs left over. */
  lemma HunksOfSingles(p: Pass, ahead: nat) returns (whole: nat)
    requires ValidPass(p) && p.unroll == 1
    ensures whole * p.lanes <= Packs(p, ahead) < whole * p.lanes + p.lanes
    ensures Hunks(p, ahead) == whole + if whole * p.lanes < Packs(p, ahead) then 1 else 0
  {
    var hunk := p.lanes * p.pack;
    MulMono(1, p.lanes, p.pack);
    assert HunkBytes(p) == hunk;
    HunkOfPacks(p.lanes, p.pack, ahead);
    whole := Quot(ahead, hunk);
  }

  /** Hunks counted by a pass: as many whole ones as fit, and with unroll 1 as many as the whole packs need. */
  lemma HunksAre(p: Pass, ahead: nat)
    requires ValidPass(p)
    ensures p.unroll > 1 ==> Hunks(p, ahead) * HunkBytes(p) <= ahead < Hunks(p, ahead) * HunkBytes(p) + HunkBytes(p)
    ensures p.unroll == 1 ==> Hunks(p, ahead) == DivUp(ahead / p.pack, p.lanes)
  {
    if p.unroll == 1 {
      var whole := HunksOfSingles(p, ahead);
      CeilIs(Packs(p, ahead), p.lanes, whole);
    } else if p.unroll > 1 {
      MulMono(1, p.unroll * p.lanes, p.pack) by { MulMono(1, p.unroll, p.lanes); }
      var q, rest := Parts(ahead, HunkBytes(p));
    }
  }

  lemma CeilIs(n: nat, lanes: nat, whole: nat)
    requires lanes > 0 && whole * lanes <= n < whole * lanes + lanes
    ensures DivUp(n, lanes) == whole + if whole * lanes < n then 1 else 0
  {
    var q := DivUp(n, lanes);
    assert (q + 1) * lanes == q * lanes + lanes;
    if q < whole { MulMono(q + 1, whole, lanes); }
    assert (whole + 1) * lanes == whole * lanes + lanes;
    DivUpAtMost(n, lanes, if whole * lanes < n then whole + 1 else whole);
    if whole * lanes < n && q <= whole { MulMono(q, whole, lanes); }
  }

  /** Hunk `q` is complete below the last one and has packs up to it. */
  lemma SingleHunks(p: Pass, ahead: nat, q: nat, lane: nat)
    requires ValidPass(p) && p.unroll == 1 && lane < p.lanes
    ensures q + 1 < Hunks(p, ahead) ==> PackNo(p, q, 0, lane) < Packs(p, ahead)
    ensures PackNo(p, q, 0, lane) < Packs(p, ahead) ==> q < Hunks(p, ahead)
  {
    var whole := HunksOfSingles(p, ahead);
    HunkOrder(p.lanes, whole, Packs(p, ahead), q, lane);
  }

  /** The thread's loop test is the test on pack numbers. */
  lemma LoopTest(p: Pass, ahead: nat, q: nat, lane: nat)
    requires ValidPass(p) && p.unroll == 1
    ensures p.pack <= ahead - (q * HunkBytes(p) + lane * p.pack) <==> PackNo(p, q, 0, lane) < Packs(p, ahead)
  {
    var m := q * p.lanes + lane;
    QuotientLess(ahead, p.pack, m);
    assert (m + 1) * p.pack == q * (p.lanes * p.pack) + lane * p.pack + p.pack;
  }

  /** The renumbered warp. */
  lemma Rotated(warps: nat, hunks: nat, warp: nat, i: nat, n: int)
    requires warps > 0 && n == hunks - warp - i * warps
    ensures 0 <= -n < warps ==> -n == (warp - hunks) % warps
    ensures 0 < n <= warps ==> warps - n == (warp - hunks) % warps
  {
    if 0 <= -n < warps { DivModUnique(warp - hunks, warps, 0 - i, -n); }
    if 0 < n <= warps {
      assert warps * (0 - i - 1) == -(i * warps) - warps;
      DivModUnique(warp - hunks, warps, 0 - i - 1, warps - n);
    }
  }

  /** The packs of one hunk. */
  method HunkPacks(p: Pass, start: nat) returns (offs: seq<nat>)
    ensures |offs| == p.unroll && forall u | 0 <= u < p.unroll :: offs[u] == start + u * (p.lanes * p.pack)
  {
    offs := [];
    var at, stride := start, p.lanes * p.pack;
    for u := 0 to p.unroll
      invariant |offs| == u && at == start + u * stride
      invariant forall v | 0 <= v < u :: offs[v] == start + v * stride
    {
      offs := offs + [at];
      assert (u + 1) * stride == u * stride + stride;
      at := at + stride;
    }
  }

  /** Byte offset, within the pass, of a thread's `u`-th pack of its `i`-th hunk. */
  function Offset(p: Pass, warp: nat, lane: nat, i: nat, u: nat): nat {
    PackNo(p, warp + i * p.warps, u, lane) * p.pack
  }

  /** Where a thread's `i`-th hunk starts for it. */
  function HunkStart(p: Pass, warp: nat, lane: nat, i: nat): nat {
    (warp + i * p.warps) * HunkBytes(p) + lane * p.pack
  }

  lemma OffsetIs(p: Pass, warp: nat, lane: nat, i: nat, u: nat)
    ensures Offset(p, warp, lane, i, u) == HunkStart(p, warp, lane, i) + u * (p.lanes * p.pack)
  {
    var q := warp + i * p.warps;
    assert (q * p.unroll + u) * p.lanes == q * (p.unroll * p.lanes) + u * p.lanes;
  }

  lemma NextStart(p: Pass, warp: nat, lane: nat, i: nat)
    ensures HunkStart(p, warp, lane, i + 1) == HunkStart(p, warp, lane, i) + p.warps * HunkBytes(p)
    ensures (i + 1) * p.warps == i * p.warps + p.warps
  {
    var q := warp + i * p.warps;
    assert warp + (i + 1) * p.warps == q + p.warps;
    assert (q + p.warps) * HunkBytes(p) == q * HunkBytes(p) + p.warps * HunkBytes(p);
  }

  /** A thread that skips a hunk skips all later ones. */
  lemma TakesDown(p: Pass, ahead: nat, warp: nat, lane: nat, i: nat, j: nat)
    requires ValidPass(p) && i <= j && Takes(p, ahead, warp, lane, j)
    ensures Takes(p, ahead, warp, lane, i)
  {
    MulMono(i, j, p.warps);
    MulMono((warp + i * p.warps) * p.unroll, (warp + j * p.warps) * p.unroll, p.lanes) by {
      MulMono(warp + i * p.warps, warp + j * p.warps, p.unroll);
    }
  }

  /** Hunks left when a thread is about to take one, and when it is not. */
  lemma HunksLeft(p: Pass, ahead: nat, warp: nat, lane: nat, i: nat)
    requires ValidPass(p) && lane < p.lanes
    ensures var n := Hunks(p, ahead) - warp - i * p.warps;
            if Takes(p, ahead, warp, lane, i) then n > 0 else n <= 1 && (p.unroll != 1 ==> n <= 0)
  {
    if p.unroll == 1 { SingleHunks(p, ahead, warp + i * p.warps, lane); }
  }

  lemma StrideEnd(warps: nat, hunks: nat, warp: nat, i: nat)
    requires warp < warps && (i > 0 ==> hunks - warp - (i - 1) * warps > 0)
    ensures -(hunks - warp - i * warps) < warps
  {
    assert (i - 1) * warps == i * warps - warps;
  }

  /** What the thread has left after its hunks determines its new number. */
  lemma PassEnd(p: Pass, ahead: nat, warp: nat, lane: nat, i: nat)
    requires ValidPass(p) && warp < p.warps && lane < p.lanes && !Takes(p, ahead, warp, lane, i)
    requires i > 0 ==> Takes(p, ahead, warp, lane, i - 1)
    ensures var n := Hunks(p, ahead) - warp - i * p.warps;
            -n < p.warps && n <= 1 && (p.unroll != 1 ==> n <= 0)
  {
    HunksLeft(p, ahead, warp, lane, i);
    if i > 0 { HunksLeft(p, ahead, warp, lane, i - 1); }
    StrideEnd(p.warps, Hunks(p, ahead), warp, i);
  }

  ghost predicate PacksOf(p: Pass, warp: nat, lane: nat, behind: nat, i: nat, one: seq<nat>) {
    |one| == p.unroll && forall u: nat | u < p.unroll :: one[u] == behind + Offset(p, warp, lane, i, u)
  }

  method TakeHunk(p: Pass, warp: nat, lane: nat, ghost behind: nat, ghost i: nat, at: nat) returns (one: seq<nat>)
    requires at == behind + HunkStart(p, warp, lane, i)
    ensures PacksOf(p, warp, lane, behind, i, one)
  {
    one := HunkPacks(p, at);
    forall u: nat | u < p.unroll ensures one[u] == behind + Offset(p, warp, lane, i, u) {
      OffsetIs(p, warp, lane, i, u);
    }
  }

  /** One pass of one thread: the packs it handles, hunk by hunk, and its new warp number. */
  method ThreadPass(p: Pass, warp: nat, lane: nat, behind: nat, ahead: nat) returns (packs: seq<seq<nat>>, warp': int)
    requires ValidPass(p) && warp < p.warps && lane < p.lanes
    ensures forall i: nat :: i < |packs| <==> Takes(p, ahead, warp, lane, i)
    ensures forall i: nat | i < |packs| :: PacksOf(p, warp, lane, behind, i, packs[i])
    ensures warp' == (warp - Hunks(p, ahead)) % p.warps
  {
    packs := [];
    ghost var i := 0;
    var at := behind + warp * HunkBytes(p) + lane * p.pack;
    var left := ahead - (warp * HunkBytes(p) + lane * p.pack);
    var hunks, stride := Hunks(p, ahead) - warp, p.warps * HunkBytes(p);
    while if p.unroll == 1 then p.pack <= left else 0 < hunks
      invariant i == |packs| && at == behind + HunkStart(p, warp, lane, i)
                && left == ahead - HunkStart(p, warp, lane, i)
      invariant hunks == Hunks(p, ahead) - warp - i * p.warps && (i > 0 ==> Takes(p, ahead, warp, lane, i - 1))
      invariant forall j: nat | j < |packs| :: PacksOf(p, warp, lane, behind, j, packs[j])
      decreases if p.unroll == 1 then left else hunks
    {
      StepTaken(p, ahead, warp, lane, i, left, hunks);
      NextStart(p, warp, lane, i);
      var one := TakeHunk(p, warp, lane, behind, i, at);
      packs := packs + [one];
      at, left, hunks := at + stride, left - stride, hunks - p.warps;
      i := i + 1;
    }
    LoopEnds(p, ahead, warp, lane, i, left, hunks);
    if p.unroll == 1 && hunks > 0 { hunks := hunks - p.warps; }
    warp' := -hunks;
  }

  lemma StepTaken(p: Pass, ahead: nat, warp: nat, lane: nat, i: nat, left: int, hunks: int)
    requires ValidPass(p) && left == ahead - HunkStart(p, warp, lane, i)
             && hunks == Hunks(p, ahead) - warp - i * p.warps
    requires if p.unroll == 1 then p.pack <= left else 0 < hunks
    ensures Takes(p, ahead, warp, lane, i) && (p.unroll == 1 ==> p.warps * HunkBytes(p) > 0)
  {
    if p.unroll == 1 {
      LoopTest(p, ahead, warp + i * p.warps, lane);
      MulMono(1, p.lanes, p.pack);
      MulMono(1, HunkBytes(p), p.warps);
    }
  }

  lemma LoopEnds(p: Pass, ahead: nat, warp: nat, lane: nat, i: nat, left: int, hunks: int)
    requires ValidPass(p) && warp < p.warps && lane < p.lanes
    requires left == ahead - HunkStart(p, warp, lane, i) && hunks == Hunks(p, ahead) - warp - i * p.warps
    requires !(if p.unroll == 1 then p.pack <= left else 0 < hunks) && (i > 0 ==> Takes(p, ahead, warp, lane, i - 1))
    ensures forall j: nat :: j < i <==> Takes(p, ahead, warp, lane, j)
    ensures (if p.unroll == 1 && hunks > 0 then p.warps - hunks else -hunks) == (warp - Hunks(p, ahead)) % p.warps
  {
    if p.unroll == 1 { LoopTest(p, ahead, warp + i * p.warps, lane); }
    assert !Takes(p, ahead, warp, lane, i);
    forall j: nat ensures j < i <==> Takes(p, ahead, warp, lane, j) {
      if j < i {
        TakesDown(p, ahead, warp, lane, j, i - 1);
      } else if Takes(p, ahead, warp, lane, j) {
        TakesDown(p, ahead, warp, lane, i, j);
      }
    }
    PassEnd(p, ahead, warp, lane, i);
    Rotated(p.warps, Hunks(p, ahead), warp, i, hunks);
  }
}
