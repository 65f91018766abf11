/** Renumbering the warps after every pass keeps their work even: over any number of passes the hunks go round
    the warps in turn. */
module ReduceCopyFair {
  import opened Arith
  import opened ReduceCopy
  import opened ReduceCopyTheorems

  /** How many of `hunks` hunks warp `w` takes, every `warps`-th from its own number on. */
  function Turns(warps: nat, hunks: nat, w: nat): nat
    requires warps > 0
  {
    if w < hunks then Quot(hunks - 1 - w, warps) + 1 else 0
  }

  lemma TurnsAre(warps: nat, hunks: nat, w: nat)
    requires warps > 0
    ensures hunks <= w + Turns(warps, hunks, w) * warps
    ensures Turns(warps, hunks, w) > 0 ==> w + (Turns(warps, hunks, w) - 1) * warps < hunks
  {
    if w < hunks {
      var x, q := hunks - 1 - w, Quot(hunks - 1 - w, warps);
      assert x == warps * q + x % warps;
      assert (q + 1) * warps == warps * q + warps;
    }
  }

  lemma TurnsUnique(warps: nat, hunks: nat, w: nat, n: nat)
    requires warps > 0 && hunks <= w + n * warps && (n > 0 ==> w + (n - 1) * warps < hunks)
    ensures n == Turns(warps, hunks, w)
  {
    var m := Turns(warps, hunks, w);
    TurnsAre(warps, hunks, w);
    if n < m { MulMono(n, m - 1, warps); } else if m < n { MulMono(m, n - 1, warps); }
  }

  /** A thread's warp is about to take its `i`-th hunk exactly when that is one of its turns. */
  lemma TurnsTaken(warps: nat, hunks: nat, w: nat, i: nat)
    requires warps > 0
    ensures i < Turns(warps, hunks, w) <==> w + i * warps < hunks
  {
    var m := Turns(warps, hunks, w);
    TurnsAre(warps, hunks, w);
    if i < m { MulMono(i, m - 1, warps); } else { MulMono(m, i, warps); }
  }

  /** After `a` hunks the renumbered warp goes on where its turns left off. */
  lemma TurnsSplit(warps: nat, a: nat, b: nat, w: nat)
    requires w < warps
    ensures Turns(warps, a + b, w) == Turns(warps, a, w) + Turns(warps, b, Rotate(warps, a, w))
  {
    var x := Turns(warps, a, w);
    TurnsAre(warps, a, w);
    var u := w + x * warps - a;
    if x > 0 { assert (x - 1) * warps == x * warps - warps; }
    DivModUnique(w - a, warps, 0 - x, u);
    var y := Turns(warps, b, u);
    TurnsAre(warps, b, u);
    assert (x + y) * warps == x * warps + y * warps;
    if y > 0 {
      assert (x + y - 1) * warps == x * warps + (y - 1) * warps;
    } else if x > 0 {
      assert (x - 1) * warps == x * warps - warps;
    }
    TurnsUnique(warps, a + b, w, x + y);
  }

  /** Hunks of the first `k` passes. */
  function AllHunks(passes: seq<Pass>, bytes: nat, k: nat): nat
    requires k <= |passes| && forall j | 0 <= j < |passes| :: ValidPass(passes[j])
  {
    if k == 0 then 0 else AllHunks(passes, bytes, k - 1) + Hunks(passes[k - 1], Ahead(passes, bytes, k - 1))
  }

  /** Hunks that the warp first numbered `w` takes in the first `k` passes. */
  function Taken(passes: seq<Pass>, bytes: nat, warps: nat, k: nat, w: nat): nat
    requires k <= |passes| && (forall j | 0 <= j < |passes| :: ValidPass(passes[j])) && w < warps
  {
    if k == 0 then 0
    else
      Taken(passes, bytes, warps, k - 1, w)
      + Turns(warps, Hunks(passes[k - 1], Ahead(passes, bytes, k - 1)), WarpIn(passes, bytes, warps, k - 1, w))
  }

  lemma RotateTwice(warps: nat, a: nat, b: nat, w: nat)
    requires w < warps
    ensures Rotate(warps, b, Rotate(warps, a, w)) == Rotate(warps, a + b, w)
  {
    var q := (w - a) / warps;
    assert w - a == warps * q + (w - a) % warps;
    ModShift((w - a) % warps - b, warps, q);
  }

  lemma {:induction false} WarpInIs(passes: seq<Pass>, bytes: nat, warps: nat, k: nat, w: nat)
    requires k <= |passes| && (forall j | 0 <= j < |passes| :: ValidPass(passes[j])) && w < warps
    ensures WarpIn(passes, bytes, warps, k, w) == Rotate(warps, AllHunks(passes, bytes, k), w)
  {
    if k == 0 {
      DivModUnique(w, warps, 0, w);
    } else {
      WarpInIs(passes, bytes, warps, k - 1, w);
      RotateTwice(warps, AllHunks(passes, bytes, k - 1), Hunks(passes[k - 1], Ahead(passes, bytes, k - 1)), w);
    }
  }

  /** All passes together deal their hunks out to the warps in turn, as one pass would. */
  lemma {:induction false} InTurn(passes: seq<Pass>, bytes: nat, warps: nat, k: nat, w: nat)
    requires k <= |passes| && (forall j | 0 <= j < |passes| :: ValidPass(passes[j])) && w < warps
    ensures Taken(passes, bytes, warps, k, w) == Turns(warps, AllHunks(passes, bytes, k), w)
  {
    if k > 0 {
      InTurn(passes, bytes, warps, k - 1, w);
      WarpInIs(passes, bytes, warps, k - 1, w);
      TurnsSplit(warps, AllHunks(passes, bytes, k - 1), Hunks(passes[k - 1], Ahead(passes, bytes, k - 1)), w);
    }
  }

  lemma TurnsEven(warps: nat, hunks: nat, v: nat, w: nat)
    requires v < warps && w < warps
    ensures Turns(warps, hunks, v) <= Turns(warps, hunks, w) + 1
  {
    var x, y := Turns(warps, hunks, v), Turns(warps, hunks, w);
    TurnsAre(warps, hunks, v);
    TurnsAre(warps, hunks, w);
    assert (y + 1) * warps == y * warps + warps;
    if y + 1 < x { MulMono(y + 1, x - 1, warps); }
  }

  /** No warp ever takes more than one hunk more than another, over any number of passes. */
  lemma EvenWarps(passes: seq<Pass>, bytes: nat, warps: nat, k: nat, v: nat, w: nat)
    requires k <= |passes| && (forall j | 0 <= j < |passes| :: ValidPass(passes[j])) && v < warps && w < warps
    ensures Taken(passes, bytes, warps, k, v) <= Taken(passes, bytes, warps, k, w) + 1
  {
    InTurn(passes, bytes, warps, k, v);
    InTurn(passes, bytes, warps, k, w);
    TurnsEven(warps, AllHunks(passes, bytes, k), v, w);
  }
}
