/** Over all threads and passes, every byte of a reduction is handled exactly once. */
module ReduceCopyTheorems {
  import opened Arith
  import opened ReduceCopy

  /** A thread's place in a pass: warp, lane, hunk number and pack within the hunk. */
  datatype Place = Place(warp: nat, lane: nat, i: nat, u: nat)

  predicate InPass(p: Pass, x: Place) { x.warp < p.warps && x.lane < p.lanes && x.u < p.unroll }

  function PackOf(p: Pass, x: Place): nat { PackNo(p, x.warp + x.i * p.warps, x.u, x.lane) }

  /** Who handles pack `m`. */
  function Owner(p: Pass, m: nat): Place
    requires ValidPass(p) && p.unroll > 0
  {
    var row := Quot(m, p.lanes);
    var q := Quot(row, p.unroll);
    Place(q % p.warps, m % p.lanes, Quot(q, p.warps), row % p.unroll)
  }

  lemma Digits(x: nat, y: nat, q: nat, r: nat)
    requires y > 0 && r < y
    ensures x == q * y + r <==> q == x / y && r == x % y
  {
    assert x == y * (x / y) + x % y;
    if x == q * y + r { DivModUnique(x, y, q, r); }
  }

  /** Every pack has exactly one place. */
  lemma OnePlace(p: Pass, m: nat, x: Place)
    requires ValidPass(p) && p.unroll > 0 && InPass(p, x)
    ensures PackOf(p, x) == m <==> x == Owner(p, m)
  {
    var row0 := Quot(m, p.lanes);
    var q := x.warp + x.i * p.warps;
    var row := q * p.unroll + x.u;
    Digits(m, p.lanes, row, x.lane);
    Digits(row0, p.unroll, q, x.u);
    Digits(Quot(row0, p.unroll), p.warps, x.i, x.warp);
  }

  lemma OwnerInPass(p: Pass, m: nat)
    requires ValidPass(p) && p.unroll > 0
    ensures InPass(p, Owner(p, m)) && PackOf(p, Owner(p, m)) == m
  {
    OnePlace(p, m, Owner(p, m));
  }

  lemma DigitBelow(y: nat, n: nat, q: nat, r: nat)
    requires r < y
    ensures q < n <==> q * y + r < n * y
  {
    if q < n {
      MulMono(q + 1, n, y);
      assert (q + 1) * y == q * y + y;
    } else {
      MulMono(n, q, y);
    }
  }

  lemma RowsBelow(unroll: nat, lanes: nat, hunks: nat, q: nat, u: nat, lane: nat)
    requires u < unroll && lane < lanes
    ensures q < hunks <==> (q * unroll + u) * lanes + lane < hunks * (unroll * lanes)
  {
    assert hunks * (unroll * lanes) == (hunks * unroll) * lanes;
    DigitBelow(unroll, hunks, q, u);
    DigitBelow(lanes, hunks * unroll, q * unroll + u, lane);
  }

  /** A place is used by the pass exactly when its pack is among the pass's packs. */
  lemma TakenIff(p: Pass, ahead: nat, x: Place)
    requires ValidPass(p) && InPass(p, x)
    ensures Takes(p, ahead, x.warp, x.lane, x.i) <==> PackOf(p, x) < Packs(p, ahead)
  {
    if p.unroll > 1 {
      MulMono(1, p.unroll, p.lanes);
      MulMono(1, p.unroll * p.lanes, p.pack);
      RowsBelow(p.unroll, p.lanes, Hunks(p, ahead), x.warp + x.i * p.warps, x.u, x.lane);
    }
  }

  /** Place `x` is used and its pack holds byte `y` of the pass. */
  ghost predicate Handles(p: Pass, ahead: nat, x: Place, y: nat)
    requires ValidPass(p)
  {
    && InPass(p, x) && Takes(p, ahead, x.warp, x.lane, x.i)
    && Offset(p, x.warp, x.lane, x.i, x.u) <= y < Offset(p, x.warp, x.lane, x.i, x.u) + p.pack
  }

  /** Exactly the bytes of the pass's packs are handled, each at exactly one place. */
  lemma PassOnce(p: Pass, ahead: nat, y: nat, x: Place)
    requires ValidPass(p)
    ensures Handles(p, ahead, x, y) <==> y < Packs(p, ahead) * p.pack && p.unroll > 0 && x == Owner(p, Quot(y, p.pack))
  {
    var m := Quot(y, p.pack);
    assert y == p.pack * m + y % p.pack;
    MulLess2(m, Packs(p, ahead), p.pack, y);
    if p.unroll > 0 { OwnerInPass(p, m); }
    if InPass(p, x) {
      OnePlace(p, m, x);
      TakenIff(p, ahead, x);
      InPack(PackOf(p, x), p.pack, y);
    }
  }

  lemma InPack(k: nat, pack: nat, y: nat)
    requires pack > 0
    ensures k * pack <= y < k * pack + pack <==> k == y / pack
  {
    assert y == pack * (y / pack) + y % pack;
    if k * pack <= y < k * pack + pack { DivModUnique(y, pack, k, y - k * pack); }
  }

  lemma MulLess2(m: nat, n: nat, pack: nat, y: nat)
    requires pack > 0 && m == y / pack
    ensures y < n * pack <==> m < n
  {
    assert y == pack * m + y % pack;
    if m < n {
      MulMono(m + 1, n, pack);
      assert (m + 1) * pack == m * pack + pack;
    } else {
      MulMono(n, m, pack);
    }
  }

  // Renumbering.

  function Rotate(warps: nat, hunks: nat, warp: int): (w: nat)
    requires warps > 0
    ensures w < warps
  {
    (warp - hunks) % warps
  }

  lemma ShiftsBack(m: nat, d: nat, x: nat, w: nat)
    requires x < m && w < m
    ensures (x - d) % m == w <==> x == (w + d) % m
  {
    var k, l := (x - d) / m, (w + d) / m;
    if (x - d) % m == w {
      assert x - d == m * k + w;
      DivModUnique(w + d, m, 0 - k, x);
    }
    if x == (w + d) % m {
      assert w + d == m * l + x;
      DivModUnique(x - d, m, 0 - l, w);
    }
  }

  /** Renumbering is a permutation of the warps. */
  lemma RotateOnto(warps: nat, hunks: nat, w: nat) returns (v: nat)
    requires w < warps
    ensures v < warps && forall x: nat | x < warps :: Rotate(warps, hunks, x) == w <==> x == v
  {
    v := (w + hunks) % warps;
    forall x: nat | x < warps ensures Rotate(warps, hunks, x) == w <==> x == v { ShiftsBack(warps, hunks, x, w); }
  }

  // The passes of one reduction.

  /** Bytes left before pass `k`. */
  function Ahead(passes: seq<Pass>, bytes: nat, k: nat): nat
    requires k <= |passes| && forall j | 0 <= j < |passes| :: ValidPass(passes[j])
  {
    if k == 0 then bytes
    else
      var ahead := Ahead(passes, bytes, k - 1);
      Consumed(passes[k - 1], ahead);
      ahead - Packs(passes[k - 1], ahead) * passes[k - 1].pack
  }

  lemma Consumed(p: Pass, ahead: nat)
    requires ValidPass(p)
    ensures Packs(p, ahead) * p.pack <= ahead
  {
    if p.unroll == 1 {
      assert ahead == p.pack * (ahead / p.pack) + ahead % p.pack;
    } else if HunkBytes(p) != 0 {
      var h := ahead / HunkBytes(p);
      assert ahead == HunkBytes(p) * h + ahead % HunkBytes(p);
      assert h * (p.unroll * p.lanes) * p.pack == HunkBytes(p) * h;
    }
  }

  /** The number a thread's warp has in pass `k`, from its number in the first pass. */
  function WarpIn(passes: seq<Pass>, bytes: nat, warps: nat, k: nat, warp: nat): (w: nat)
    requires k <= |passes| && (forall j | 0 <= j < |passes| :: ValidPass(passes[j])) && warp < warps
    ensures w < warps
  {
    if k == 0 then warp
    else Rotate(warps, Hunks(passes[k - 1], Ahead(passes, bytes, k - 1)), WarpIn(passes, bytes, warps, k - 1, warp))
  }

  lemma {:induction false} WarpOnto(passes: seq<Pass>, bytes: nat, warps: nat, k: nat, w: nat) returns (v: nat)
    requires k <= |passes| && (forall j | 0 <= j < |passes| :: ValidPass(passes[j])) && w < warps
    ensures v < warps && forall x: nat | x < warps :: WarpIn(passes, bytes, warps, k, x) == w <==> x == v
  {
    if k == 0 {
      v := w;
    } else {
      var u := RotateOnto(warps, Hunks(passes[k - 1], Ahead(passes, bytes, k - 1)), w);
      v := WarpOnto(passes, bytes, warps, k - 1, u);
    }
  }

  /** All passes of a block use the same warps; packs are whole elements; the last pass takes single
      elements one pack at a time. */
  ghost predicate ValidPasses(passes: seq<Pass>, warps: nat, lanes: nat, size: nat) {
    && size > 0 && passes != []
    && (forall j | 0 <= j < |passes| ::
          ValidPass(passes[j]) && passes[j].warps == warps && passes[j].lanes == lanes && passes[j].pack % size == 0)
    && passes[|passes| - 1].unroll == 1 && passes[|passes| - 1].pack == size
  }

  lemma {:induction false} WholeElements(passes: seq<Pass>, warps: nat, lanes: nat, size: nat, bytes: nat, k: nat)
    requires ValidPasses(passes, warps, lanes, size) && bytes % size == 0 && k <= |passes|
    ensures Ahead(passes, bytes, k) % size == 0
  {
    if k > 0 {
      WholeElements(passes, warps, lanes, size, bytes, k - 1);
      var a := Ahead(passes, bytes, k - 1);
      Consumed(passes[k - 1], a);
      TakeMultiples(a, Packs(passes[k - 1], a), passes[k - 1].pack, size);
    }
  }

  lemma TakeMultiples(a: nat, n: nat, b: nat, size: nat)
    requires size > 0 && a % size == 0 && b % size == 0 && n * b <= a
    ensures (a - n * b) % size == 0
  {
    var x, y := a / size, b / size;
    assert a == size * x && b == size * y;
    assert n * b == size * (n * y);
    assert size * (x - n * y) == size * x - size * (n * y);
    MulMod(size, x - n * y);
  }

  lemma SinglesTakeAll(p: Pass, ahead: nat)
    requires ValidPass(p) && p.unroll == 1 && ahead % p.pack == 0
    ensures Packs(p, ahead) * p.pack == ahead
  {
    assert ahead == p.pack * (ahead / p.pack) + ahead % p.pack;
  }

  /** Nothing is left after the last pass. */
  lemma AllConsumed(passes: seq<Pass>, warps: nat, lanes: nat, size: nat, bytes: nat)
    requires ValidPasses(passes, warps, lanes, size) && bytes % size == 0
    ensures Ahead(passes, bytes, |passes|) == 0
  {
    var k := |passes| - 1;
    WholeElements(passes, warps, lanes, size, bytes, k);
    SinglesTakeAll(passes[k], Ahead(passes, bytes, k));
  }

  lemma {:induction false} AheadFalls(passes: seq<Pass>, bytes: nat, j: nat, k: nat)
    requires j <= k <= |passes| && forall i | 0 <= i < |passes| :: ValidPass(passes[i])
    ensures Ahead(passes, bytes, k) <= Ahead(passes, bytes, j)
  {
    if j < k { AheadFalls(passes, bytes, j, k - 1); }
  }

  /** A thread handles byte `b` in pass `k`, at the place its renumbered warp has there. */
  ghost predicate HandlesIn(passes: seq<Pass>, bytes: nat, k: nat, x: Place, b: nat)
    requires k < |passes| && forall j | 0 <= j < |passes| :: ValidPass(passes[j])
  {
    && x.warp < passes[k].warps && b >= bytes - Ahead(passes, bytes, k)
    && Handles(passes[k], Ahead(passes, bytes, k), x.(warp := WarpIn(passes, bytes, passes[k].warps, k, x.warp)),
               b - (bytes - Ahead(passes, bytes, k)))
  }

  lemma {:induction false} PassOf(passes: seq<Pass>, bytes: nat, b: nat, n: nat) returns (k: nat)
    requires n <= |passes| && (forall j | 0 <= j < |passes| :: ValidPass(passes[j]))
             && b < bytes - Ahead(passes, bytes, n)
    ensures k < n && bytes - Ahead(passes, bytes, k) <= b < bytes - Ahead(passes, bytes, k + 1)
  {
    if bytes - Ahead(passes, bytes, n - 1) <= b { k := n - 1; } else { k := PassOf(passes, bytes, b, n - 1); }
  }

  lemma HandledInPass(passes: seq<Pass>, bytes: nat, b: nat, k: nat, warps: nat) returns (x: Place)
    requires k < |passes| && (forall j | 0 <= j < |passes| :: ValidPass(passes[j]) && passes[j].warps == warps)
    requires bytes - Ahead(passes, bytes, k) <= b < bytes - Ahead(passes, bytes, k + 1)
    ensures forall y: Place :: HandlesIn(passes, bytes, k, y, b) <==> y == x
  {
    var p, ahead := passes[k], Ahead(passes, bytes, k);
    AheadFalls(passes, bytes, 0, k);
    var at := b - (bytes - ahead);
    assert at < Packs(p, ahead) * p.pack;
    var owner := Owner(p, Quot(at, p.pack));
    OwnerInPass(p, Quot(at, p.pack));
    var v := WarpOnto(passes, bytes, warps, k, owner.warp);
    x := owner.(warp := v);
    forall y: Place ensures HandlesIn(passes, bytes, k, y, b) <==> y == x {
      if y.warp < warps { PassOnce(p, ahead, at, y.(warp := WarpIn(passes, bytes, warps, k, y.warp))); }
    }
  }

  /** Every byte of the reduction is handled by exactly one thread, once, in exactly one pass. */
  lemma EveryByteOnce(passes: seq<Pass>, warps: nat, lanes: nat, size: nat, bytes: nat, b: nat)
    returns (k: nat, x: Place)
    requires ValidPasses(passes, warps, lanes, size) && bytes % size == 0 && b < bytes
    ensures k < |passes|
    ensures forall j: nat, y: Place | j < |passes| :: HandlesIn(passes, bytes, j, y, b) <==> j == k && y == x
  {
    AllConsumed(passes, warps, lanes, size, bytes);
    k := PassOf(passes, bytes, b, |passes|);
    x := HandledInPass(passes, bytes, b, k, warps);
    forall j: nat, y: Place | j < |passes| && j != k ensures !HandlesIn(passes, bytes, j, y, b) {
      NotInOther(passes, bytes, b, k, j, y);
    }
  }

  lemma NotInOther(passes: seq<Pass>, bytes: nat, b: nat, k: nat, j: nat, y: Place)
    requires k < |passes| && j < |passes| && j != k && forall i | 0 <= i < |passes| :: ValidPass(passes[i])
    requires bytes - Ahead(passes, bytes, k) <= b < bytes - Ahead(passes, bytes, k + 1)
    ensures !HandlesIn(passes, bytes, j, y, b)
  {
    var p, ahead := passes[j], Ahead(passes, bytes, j);
    if y.warp < p.warps && b >= bytes - ahead {
      PassOnce(p, ahead, b - (bytes - ahead), y.(warp := WarpIn(passes, bytes, p.warps, j, y.warp)));
      if j < k { AheadFalls(passes, bytes, j + 1, k); } else { AheadFalls(passes, bytes, k + 1, j); }
    }
  }

  /** The passes of the library: large packs when the pointers are aligned, then single elements, each
      first unrolled and then one by one. */
  function LibraryPasses(bigUnroll: nat, unroll: nat, size: nat, aligned: bool, warps: nat, lanes: nat): seq<Pass>
    requires size > 0
  {
    (if aligned && size < 16 then [Pass(bigUnroll, lanes, warps, 16), Pass(1, lanes, warps, 16)] else [])
    + [Pass(unroll * (16 / size) / 2, lanes, warps, size), Pass(1, lanes, warps, size)]
  }

  lemma LibraryPassesValid(bigUnroll: nat, unroll: nat, size: nat, aligned: bool, warps: nat, lanes: nat)
    requires size > 0 && 16 % size == 0 && warps > 0 && lanes > 0
    ensures ValidPasses(LibraryPasses(bigUnroll, unroll, size, aligned, warps, lanes), warps, lanes, size)
  {
    MulMod(size, 1);
  }

  // Whole elements.

  /** No multiple of the element size lies strictly inside an element. */
  lemma MultipleBetween(size: nat, e: nat, b: nat, m: int)
    requires size > 0 && m % size == 0 && e * size <= b < e * size + size
    ensures m <= b <==> m <= e * size
  {
    var q := m / size;
    assert m == size * q;
    if m <= b {
      assert (e + 1) * size == e * size + size;
      MulLess(q, e + 1, size);
      MulMono(q, e, size);
    }
  }

  lemma Multiples(size: nat, a: nat, k: nat)
    requires size > 0 && a % size == 0
    ensures (k * a) % size == 0 && (k * a + a) % size == 0
  {
    var q := a / size;
    assert a == size * q && k * a == size * (k * q) && k * a + a == size * (k * q + q);
    MulMod(size, k * q);
    MulMod(size, k * q + q);
  }

  lemma SumMultiple(size: nat, a: int, b: int)
    requires size > 0 && a % size == 0 && b % size == 0
    ensures (a + b) % size == 0 && (a - b) % size == 0
  {
    var x, y := a / size, b / size;
    assert a == size * x && b == size * y && a + b == size * (x + y) && a - b == size * (x - y);
    MulMod(size, x + y);
    MulMod(size, x - y);
  }

  /** A pack starts and ends between elements, so it holds all bytes of an element or none. */
  lemma PackWhole(size: nat, base: nat, pack: nat, k: nat, e: nat, b: nat)
    requires size > 0 && base % size == 0 && pack % size == 0 && e * size <= b < e * size + size
    ensures base <= b <==> base <= e * size
    ensures base + k * pack <= b < base + k * pack + pack <==> base + k * pack <= e * size < base + k * pack + pack
  {
    Multiples(size, pack, k);
    SumMultiple(size, base, k * pack);
    SumMultiple(size, base, k * pack + pack);
    MultipleBetween(size, e, b, base);
    MultipleBetween(size, e, b, base + k * pack);
    MultipleBetween(size, e, b, base + (k * pack + pack));
  }

  /** All bytes of an element are handled at the place that handles its first. */
  lemma ElementTogether(passes: seq<Pass>, warps: nat, lanes: nat, size: nat, bytes: nat, k: nat, x: Place, e: nat,
                        b: nat)
    requires ValidPasses(passes, warps, lanes, size) && bytes % size == 0 && k < |passes|
    requires e * size <= b < e * size + size
    ensures HandlesIn(passes, bytes, k, x, b) <==> HandlesIn(passes, bytes, k, x, e * size)
  {
    var p, ahead := passes[k], Ahead(passes, bytes, k);
    AheadFalls(passes, bytes, 0, k);
    WholeElements(passes, warps, lanes, size, bytes, k);
    SumMultiple(size, bytes, ahead);
    if x.warp < p.warps {
      var y := x.(warp := WarpIn(passes, bytes, p.warps, k, x.warp));
      PackWhole(size, bytes - ahead, p.pack, PackNo(p, y.warp + y.i * p.warps, y.u, y.lane), e, b);
    }
  }

  /** Every element is handled by exactly one thread, in exactly one pass, with all its bytes. */
  lemma EveryElementOnce(passes: seq<Pass>, warps: nat, lanes: nat, size: nat, bytes: nat, e: nat)
    returns (k: nat, x: Place)
    requires ValidPasses(passes, warps, lanes, size) && bytes % size == 0 && e * size + size <= bytes
    ensures k < |passes|
    ensures forall j: nat, y: Place, b: nat | j < |passes| && e * size <= b < e * size + size ::
              HandlesIn(passes, bytes, j, y, b) <==> j == k && y == x
  {
    k, x := EveryByteOnce(passes, warps, lanes, size, bytes, e * size);
    forall j: nat, y: Place, b: nat | j < |passes| && e * size <= b < e * size + size
      ensures HandlesIn(passes, bytes, j, y, b) <==> j == k && y == x
    {
      ElementTogether(passes, warps, lanes, size, bytes, j, y, e, b);
    }
  }
}
