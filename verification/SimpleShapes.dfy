/** The step numbers the Simple protocol gives to its slices: each operation rounds the saved step
    up to its own chunk and then advances slice by slice. */
module SimpleShapes {
  import opened Arith
  import opened SimpleFifo

  /** One use of a connection: `calls` primitive calls of `spc` slices of `sps` steps each. */
  datatype Use = Use(spc: nat, sps: nat, calls: nat)

  predicate Proper(n: nat, u: Use) { u.spc > 0 && 0 < u.sps <= n && n % u.sps == 0 }

  predicate ProperUses(n: nat, uses: seq<Use>) {
    n > 0 && forall o | 0 <= o < |uses| :: Proper(n, uses[o])
  }

  function Chunk(u: Use): (c: nat)
    requires u.spc > 0 && u.sps > 0
    ensures c > 0 && c % u.sps == 0
  {
    MulMono(1, u.spc, u.sps);
    MulMod(u.sps, u.spc);
    u.spc * u.sps
  }

  /** Step at which operation `o` starts. */
  function Start(n: nat, uses: seq<Use>, o: nat): nat
    requires ProperUses(n, uses) && o < |uses|
    decreases o, 1
  {
    RoundUp(End(n, uses, o), Chunk(uses[o]))
  }

  /** Step saved by the operations before `o`. */
  function End(n: nat, uses: seq<Use>, o: nat): nat
    requires ProperUses(n, uses) && o <= |uses|
    decreases o, 0
  {
    if o == 0 then 0 else Start(n, uses, o - 1) + uses[o - 1].calls * uses[o - 1].spc * uses[o - 1].sps
  }

  /** `x` is the least multiple of `m` from `from` on. */
  ghost predicate LeastMultiple(from: nat, m: nat, x: nat)
    requires m > 0
  {
    from <= x && x % m == 0 && forall y: nat | from <= y < x :: y % m != 0
  }

  lemma RoundUpIsLeast(from: nat, m: nat)
    requires m > 0
    ensures LeastMultiple(from, m, RoundUp(from, m))
  {
    var x := RoundUp(from, m);
    forall y: nat | from <= y < x ensures y % m != 0 {
      if y % m == 0 { ModInjective(x, y, m); }
    }
  }

  function Base(n: nat, uses: seq<Use>, o: nat, t: nat): nat
    requires ProperUses(n, uses)
  {
    if o < |uses| then Start(n, uses, o) + t * uses[o].sps else 0
  }

  function LayoutOf(n: nat, uses: seq<Use>): Layout
    requires ProperUses(n, uses)
  {
    Layout(n, |uses|,
           (o: nat) => if o < |uses| then uses[o].calls * uses[o].spc else 0,
           (o: nat) => if o < |uses| then uses[o].sps else 0,
           (o: nat, t: nat) => Base(n, uses, o, t))
  }

  /** One operation on a connection: every call advances the step once per slice. */
  method RunUse(u: Use, start: nat) returns (mine: seq<nat>, step: nat)
    ensures |mine| == u.calls * u.spc && step == start + |mine| * u.sps
    ensures forall t | 0 <= t < |mine| :: mine[t] == start + t * u.sps
  {
    mine, step := [], start;
    var call := 0;
    while call < u.calls
      invariant 0 <= call <= u.calls && |mine| == call * u.spc
      invariant step == start + |mine| * u.sps
      invariant forall t | 0 <= t < |mine| :: mine[t] == start + t * u.sps
    {
      var slice := 0;
      while slice < u.spc
        invariant 0 <= slice <= u.spc && |mine| == call * u.spc + slice
        invariant step == start + |mine| * u.sps
        invariant forall t | 0 <= t < |mine| :: mine[t] == start + t * u.sps
      {
        mine := mine + [step];
        assert |mine| * u.sps == (|mine| - 1) * u.sps + u.sps;
        step := step + u.sps;
        slice := slice + 1;
      }
      assert (call + 1) * u.spc == call * u.spc + u.spc;
      call := call + 1;
    }
  }

  /** The steps of one operation, from the step that was saved to the one it saves: the first is the least
      multiple of its whole chunk from there on, the others follow one slice width apart. */
  ghost predicate Follows(u: Use, saved: nat, mine: seq<nat>, later: nat) {
    && |mine| == u.calls * u.spc && u.spc * u.sps > 0 && later >= |mine| * u.sps
    && LeastMultiple(saved, u.spc * u.sps, later - |mine| * u.sps)
    && forall t | 0 <= t < |mine| :: mine[t] == later - |mine| * u.sps + t * u.sps
  }

  /** The loop an end runs over its operations: load the saved step, round it up, advance it once
      per slice, save it. */
  method AssignSteps(n: nat, uses: seq<Use>) returns (steps: seq<seq<nat>>, saved: seq<nat>)
    requires ProperUses(n, uses)
    ensures |steps| == |uses| && |saved| == |uses| + 1 && saved[0] == 0
    ensures forall o | 0 <= o < |uses| :: Follows(uses[o], saved[o], steps[o], saved[o + 1])
    ensures forall o: nat, t: nat | o < |uses| && t < |steps[o]| :: steps[o][t] == LayoutOf(n, uses).base(o, t)
  {
    steps, saved := [], [0];
    var o := 0;
    while o < |uses|
      invariant 0 <= o <= |uses| && |steps| == o && |saved| == o + 1 && saved[0] == 0
      invariant saved[o] == End(n, uses, o)
      invariant forall o' | 0 <= o' < o :: Follows(uses[o'], saved[o'], steps[o'], saved[o' + 1])
      invariant forall o': nat, t: nat | o' < o && t < |steps[o']| :: steps[o'][t] == Base(n, uses, o', t)
    {
      var start := RoundUp(saved[o], Chunk(uses[o]));
      RoundUpIsLeast(saved[o], Chunk(uses[o]));
      var mine, step := RunUse(uses[o], start);
      assert Follows(uses[o], saved[o], mine, step);
      steps, saved := steps + [mine], saved + [step];
      o := o + 1;
    }
  }

  /** A slice whose step is a multiple of its width, with the width dividing the slot count, does
      not run over the end of the buffer. */
  lemma AlignedFits(n: nat, w: nat, b: nat)
    requires 0 < w <= n && n % w == 0 && b % w == 0
    ensures b % n + w <= n
  {
    var q, r := b / n, b % n;
    assert b == n * q + r;
    var k := n / w;
    assert n == w * k;
    assert n * q == w * (k * q);
    var j := b / w;
    assert b == w * j;
    assert r == w * (j - k * q);
    MulLess(j - k * q, k, w);
    MulMono(j - k * q, k - 1, w);
    assert (k - 1) * w == k * w - w;
  }

  /** Slices placed one after the other stay inside the buffer exactly when their width divides
      the number of slots. */
  lemma FitsIff(n: nat, w: nat)
    requires 0 < w <= n
    ensures (forall t: nat :: SliceFits(n, w, t)) <==> n % w == 0
  {
    if n % w == 0 {
      forall t: nat ensures SliceFits(n, w, t) {
        MulMod(w, t);
        AlignedFits(n, w, t * w);
      }
    } else {
      var t := n / w;
      assert n == w * t + n % w;
      DivModUnique(t * w, n, 0, t * w);
      assert !SliceFits(n, w, t);
    }
  }

  predicate SliceFits(n: nat, w: nat, t: nat)
    requires n > 0
  {
    (t * w) % n + w <= n
  }

  lemma BaseAligned(n: nat, uses: seq<Use>, o: nat, t: nat)
    requires ProperUses(n, uses) && o < |uses|
    ensures Base(n, uses, o, t) % uses[o].sps == 0
  {
    var u := uses[o];
    var c := Chunk(u);
    var s := Start(n, uses, o);
    assert s % c == 0;
    var k := s / c;
    assert s == c * k;
    assert s + t * u.sps == (u.spc * k + t) * u.sps;
    MulMod(u.sps, u.spc * k + t);
  }

  lemma SliceIsGood(n: nat, uses: seq<Use>, o: nat, t: nat)
    requires ProperUses(n, uses) && IsSlice(LayoutOf(n, uses), o, t)
    ensures GoodSlice(LayoutOf(n, uses), o, t)
  {
    BaseAligned(n, uses, o, t);
    AlignedFits(n, uses[o].sps, Base(n, uses, o, t));
    assert (t + 1) * uses[o].sps == t * uses[o].sps + uses[o].sps;
  }

  lemma NextStarts(n: nat, uses: seq<Use>, o: nat)
    requires ProperUses(n, uses) && o + 1 < |uses|
    ensures var y := LayoutOf(n, uses); y.base(o, y.slices(o)) <= y.base(o + 1, 0)
  {
    EndBelowStart(n, uses, o);
  }

  lemma EndBelowStart(n: nat, uses: seq<Use>, o: nat)
    requires ProperUses(n, uses) && o + 1 < |uses|
    ensures Base(n, uses, o, uses[o].calls * uses[o].spc) == End(n, uses, o + 1) <= Base(n, uses, o + 1, 0)
  {
  }

  lemma AllGood(n: nat, uses: seq<Use>, y: Layout)
    requires ProperUses(n, uses) && y == LayoutOf(n, uses)
    ensures forall o: nat, t: nat | IsSlice(y, o, t) :: GoodSlice(y, o, t)
  {
    forall o: nat, t: nat | IsSlice(y, o, t) ensures GoodSlice(y, o, t) { SliceIsGood(n, uses, o, t); }
  }

  lemma AllFollow(n: nat, uses: seq<Use>, y: Layout)
    requires ProperUses(n, uses) && y == LayoutOf(n, uses)
    ensures y.n > 0 && y.base(0, 0) == 0 && forall o: nat | o + 1 < y.nops :: y.base(o, y.slices(o)) <= y.base(o + 1, 0)
  {
    forall o: nat | o + 1 < y.nops ensures y.base(o, y.slices(o)) <= y.base(o + 1, 0) { NextStarts(n, uses, o); }
  }

  /** The shapes of any operation sequence whose slice widths divide the slot count make a layout
      the protocol is safe on. */
  lemma UsesAreValid(n: nat, uses: seq<Use>)
    requires ProperUses(n, uses)
    ensures ValidLayout(LayoutOf(n, uses))
  {
    AllGood(n, uses, LayoutOf(n, uses));
    AllFollow(n, uses, LayoutOf(n, uses));
  }
}
