/** The rounds the barrier's doubling mask gives, for any number of ranks. */
module BootstrapRounds {
  import opened Arith
  import opened Bootstrap

  /** Rounds until the mask reaches `n`. */
  function Rounds(n: nat, j: nat): (r: nat)
    requires j == 0 || Pow2(j - 1) < n
    ensures r >= j && Pow2(r) >= n && forall i: nat | j <= i < r :: Pow2(i) < n
    decreases n - Pow2(j)
  {
    if Pow2(j) < n then Rounds(n, j + 1) else j
  }

  function RoundsOf(n: nat): (r: nat)
    ensures Pow2(r) >= n && forall i: nat | i < r :: Pow2(i) < n
  {
    Rounds(n, 0)
  }

  /** Source and destination for a mask. */
  function Peers(rank: nat, n: nat, mask: nat): (nat, nat)
    requires rank < n
  {
    ((rank - mask + n) % n, (rank + mask) % n)
  }

  /** The peers of the rounds so far. */
  ghost predicate PeersAt(peers: seq<(nat, nat)>, rank: nat, n: nat)
    requires rank < n
  {
    forall j: nat | j < |peers| :: peers[j] == ((rank - Pow2(j) + n) % n, (rank + Pow2(j)) % n)
  }

  lemma AddPeers(peers: seq<(nat, nat)>, rank: nat, n: nat, p: (nat, nat))
    requires rank < n && PeersAt(peers, rank, n) && p == Peers(rank, n, Pow2(|peers|))
    ensures PeersAt(peers + [p], rank, n)
  {
    forall j: nat | j < |peers| + 1 ensures (peers + [p])[j] == ((rank - Pow2(j) + n) % n, (rank + Pow2(j)) % n) {
      if j < |peers| { assert (peers + [p])[j] == peers[j]; }
    }
  }

  /** The loop over the mask, as the peers it talks to. */
  method MaskLoop(rank: nat, n: nat) returns (peers: seq<(nat, nat)>)
    requires rank < n
    ensures |peers| == RoundsOf(n) && PeersAt(peers, rank, n)
  {
    peers := [];
    var mask := 1;
    while mask < n
      invariant mask == Pow2(|peers|) && |peers| <= RoundsOf(n) && PeersAt(peers, rank, n)
      decreases n - mask
    {
      var p := Peers(rank, n, mask);
      AddPeers(peers, rank, n, p);
      peers := peers + [p];
      mask := 2 * mask;
    }
  }

  /** The rank `i` before `r`, around the end, and the rank `d` after it. */
  function Back(n: nat, r: nat, i: nat): (b: nat)
    requires n > 0
    ensures b < n
  {
    (r - i) % n
  }

  function Forth(n: nat, r: nat, d: nat): (b: nat)
    requires n > 0
    ensures b < n
  {
    (r + d) % n
  }

  function BarrierCfg(n: nat, limit: nat, tag: int): Cfg
    requires n > 0
  {
    Cfg(n, RoundsOf(n), limit, tag,
        (r: nat, i: nat) => Back(n, r, i), (r: nat, j: nat) => Forth(n, r, Pow2(j)))
  }

  /** Going back by `d` undoes going forward by `d`. */
  lemma Undo(n: nat, r: nat, s: nat, d: nat)
    requires r < n && s < n
    ensures Forth(n, s, d) == r <==> Back(n, r, d) == s
  {
    var p, q := (s + d) / n, (r - d) / n;
    assert s + d == n * p + (s + d) % n && r - d == n * q + (r - d) % n;
    if (s + d) % n == r { DivModUnique(r - d, n, -p, s); }
    if (r - d) % n == s { DivModUnique(s + d, n, -q, r); }
  }

  lemma BackAdds(n: nat, r: nat, a: nat, b: nat)
    requires r < n
    ensures Back(n, Back(n, r, a), b) == Back(n, r, a + b)
  {
    var q, x := (r - a) / n, (r - a) % n;
    assert r - a == n * q + x;
    ModShift(x - b, n, q);
  }

  lemma DistinctSources(n: nat, r: nat, i: nat, j: nat)
    requires r < n && i < n && j < n && Back(n, r, i) == Back(n, r, j)
    ensures i == j
  {
    ModInjective(r - i, r - j, n);
  }

  lemma EveryoneReached(n: nat, limit: nat, tag: int, r: nat, q: nat)
    requires r < n && q < n
    ensures Reaches(BarrierCfg(n, limit, tag), r, q)
  {
    var g, i := BarrierCfg(n, limit, tag), Back(n, r, q);
    Returns(n, r, q);
    assert i < Pow2(g.rounds) && g.back(r, i) == q;
  }

  lemma Returns(n: nat, r: nat, q: nat)
    requires r < n && q < n
    ensures Back(n, r, Back(n, r, q)) == q
  {
    var k := (r - q) / n;
    assert r - q == n * k + (r - q) % n;
    DivModUnique(r - (r - q) % n, n, k, q);
  }

  lemma SourcesDiffer(n: nat, r: nat, i: nat, j: nat)
    requires r < n && i < RoundsOf(n) && j < RoundsOf(n) && Back(n, r, Pow2(i)) == Back(n, r, Pow2(j))
    ensures i == j
  {
    DistinctSources(n, r, Pow2(i), Pow2(j));
    if i < j { PowGrows(i, j); }
    if j < i { PowGrows(j, i); }
  }

  lemma BackIs(n: nat, limit: nat, tag: int, r: nat, i: nat)
    requires r < n
    ensures BarrierCfg(n, limit, tag).back(r, i) < n && (i == 0 ==> BarrierCfg(n, limit, tag).back(r, i) == r)
  {
    if i == 0 { DivModUnique(r, n, 0, r); }
  }

  lemma MaskAdds(n: nat, limit: nat, tag: int, r: nat, a: nat, b: nat)
    requires r < n
    ensures Adds(BarrierCfg(n, limit, tag), r, a, b)
  {
    BackAdds(n, r, a, b);
  }

  lemma MaskCycle(n: nat, limit: nat, tag: int)
    requires n > 0
    ensures CycleOk(BarrierCfg(n, limit, tag))
  {
    var g := BarrierCfg(n, limit, tag);
    forall r: nat, i: nat | r < g.n ensures g.back(r, i) < g.n { BackIs(n, limit, tag, r, i); }
    forall r: nat | r < g.n ensures g.back(r, 0) == r { BackIs(n, limit, tag, r, 0); }
    forall r: nat, a: nat, b: nat | r < g.n ensures Adds(g, r, a, b) { MaskAdds(n, limit, tag, r, a, b); }
    forall r: nat, q: nat | r < g.n && q < g.n ensures Reaches(g, r, q) { EveryoneReached(n, limit, tag, r, q); }
  }

  lemma MaskPeers(n: nat, limit: nat, tag: int, r: nat, s: nat, j: nat)
    requires r < n && s < n
    ensures var g := BarrierCfg(n, limit, tag); g.dst(r, j) < n && (g.dst(s, j) == r <==> Src(g, r, j) == s)
  {
    Undo(n, r, s, Pow2(j));
  }

  lemma MaskDiffers(n: nat, limit: nat, tag: int, r: nat, i: nat, j: nat)
    requires r < n && i < RoundsOf(n) && j < RoundsOf(n)
    ensures var g := BarrierCfg(n, limit, tag); Src(g, r, i) == Src(g, r, j) ==> i == j
  {
    if Back(n, r, Pow2(i)) == Back(n, r, Pow2(j)) { SourcesDiffer(n, r, i, j); }
  }

  lemma MaskLinks(n: nat, limit: nat, tag: int)
    requires n > 0
    ensures LinksOk(BarrierCfg(n, limit, tag))
  {
    var g := BarrierCfg(n, limit, tag);
    forall r: nat, j: nat | r < g.n && j < g.rounds ensures g.dst(r, j) < g.n { MaskPeers(n, limit, tag, r, r, j); }
    forall r: nat, s: nat, j: nat | r < g.n && s < g.n && j < g.rounds ensures g.dst(s, j) == r <==> Src(g, r, j) == s {
      MaskPeers(n, limit, tag, r, s, j);
    }
    forall r: nat, i: nat, j: nat | r < g.n && i < g.rounds && j < g.rounds && Src(g, r, i) == Src(g, r, j)
      ensures i == j
    {
      MaskDiffers(n, limit, tag, r, i, j);
    }
  }

  lemma PeersAre(n: nat, limit: nat, tag: int, rank: nat, j: nat)
    requires rank < n
    ensures var g := BarrierCfg(n, limit, tag); Peers(rank, n, Pow2(j)) == (Src(g, rank, j), g.dst(rank, j))
  {
    ModShift(rank - Pow2(j), n, 1);
  }

  /** The doubling mask gives a barrier the theorems hold for, power of two or not, and the peers of
      the loop are those of the barrier. */
  lemma MaskIsValid(n: nat, limit: nat, tag: int, rank: nat, j: nat)
    requires rank < n && j < RoundsOf(n)
    ensures var g := BarrierCfg(n, limit, tag);
            ValidCfg(g) && Peers(rank, n, Pow2(j)) == (Src(g, rank, j), g.dst(rank, j))
  {
    MaskCycle(n, limit, tag);
    MaskLinks(n, limit, tag);
    PeersAre(n, limit, tag, rank, j);
  }
}
