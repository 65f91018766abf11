/** Building a ring from the ranks' successor links, and the ring index each rank derives from
    its own copy of the ring. */
module RingSetup {
  import opened Arith
  import opened PlacedLists
  import opened RingProgram

  predicate ValidLinks(next: seq<int>) {
    |next| > 0 && forall r | 0 <= r < |next| :: 0 <= next[r] < |next|
  }

  /** The rank `k` links after `r`. */
  function Hop(next: seq<int>, r: nat, k: nat): (t: nat)
    requires ValidLinks(next) && r < |next|
    ensures t < |next|
  {
    if k == 0 then r else next[Hop(next, r, k - 1)]
  }



  ghost predicate Visits(next: seq<int>, rank: nat, r: int)
    requires ValidLinks(next) && rank < |next|
  {
    exists k: nat :: k < |next| && Hop(next, rank, k) == r
  }

  /** Following the links from `rank` returns to it after visiting every rank. */
  ghost predicate IsRing(next: seq<int>, rank: nat)
    requires ValidLinks(next) && rank < |next|
  {
    && Hop(next, rank, |next|) == rank
    && forall r | 0 <= r < |next| :: Visits(next, rank, r)
  }

  method Contains(ring: seq<int>, r: int) returns (found: bool)
    ensures found == (r in ring)
  {
    found := false;
    var j := 0;
    while j < |ring|
      invariant j <= |ring|
      invariant !found && r !in ring[..j]
    {
      if ring[j] == r { found := true; return; }
      j := j + 1;
    }
  }

  lemma NotVisited(next: seq<int>, rank: nat, ring: seq<int>, r: int)
    requires ValidLinks(next) && rank < |next| == |ring| && r !in ring
    requires forall i | 0 <= i < |ring| :: ring[i] == Hop(next, rank, i)
    ensures !Visits(next, rank, r)
  {
    forall k: nat | k < |next| ensures Hop(next, rank, k) != r { assert ring[k] in ring; }
  }

  /** The ring of one channel as seen by `rank`; refused unless the links close over all ranks. */
  method BuildRing(next: seq<int>, rank: nat) returns (ok: bool, ring: seq<int>)
    requires ValidLinks(next) && rank < |next|
    ensures ok <==> IsRing(next, rank)
    ensures |ring| == |next| && forall i | 0 <= i < |ring| :: ring[i] == Hop(next, rank, i)
  {
    var n := |next|;
    var current: int := rank;
    ring := [];
    var i := 0;
    while i < n
      invariant i <= n && |ring| == i
      invariant current == Hop(next, rank, i)
      invariant forall k | 0 <= k < i :: ring[k] == Hop(next, rank, k)
    {
      ring := ring + [current];
      current := next[current];
      i := i + 1;
    }
    ok := false;
    if current != rank { return; }
    i := 0;
    while i < n
      invariant i <= n
      invariant forall r | 0 <= r < i :: Visits(next, rank, r)
    {
      var found := Contains(ring, i);
      if !found {
        NotVisited(next, rank, ring, i);
        return;
      }
      ghost var k :| 0 <= k < |ring| && ring[k] == i;
      assert Hop(next, rank, k) == i;
      i := i + 1;
    }
    ok := true;
  }

  // ---- a ring visits every rank once ----

  function Ring(next: seq<int>, rank: nat): (s: seq<int>)
    requires ValidLinks(next) && rank < |next|
    ensures |s| == |next|
  {
    seq(|next|, k requires 0 <= k < |next| => Hop(next, rank, k))
  }

  lemma HopUnique(next: seq<int>, rank: nat, a: nat, b: nat)
    requires ValidLinks(next) && rank < |next| && IsRing(next, rank)
    requires a < |next| && b < |next| && Hop(next, rank, a) == Hop(next, rank, b)
    ensures a == b
  {
    var s := Ring(next, rank);
    forall r | 0 <= r < |s| ensures r in s {
      assert Visits(next, rank, r);
      var k: nat :| k < |next| && Hop(next, rank, k) == r;
      assert s[k] == r;
    }
    NoneTwice(s);
    assert s[a] == s[b];
  }

  lemma {:induction false} HopShift(next: seq<int>, r: nat, k: nat)
    requires ValidLinks(next) && r < |next|
    ensures Hop(next, next[r], k) == Hop(next, r, k + 1)
  {
    if k > 0 { HopShift(next, r, k - 1); }
  }

  /** If the links form a ring seen from one rank, they do seen from its successor. */
  lemma RingFromNext(next: seq<int>, r: nat)
    requires ValidLinks(next) && r < |next| && IsRing(next, r)
    ensures IsRing(next, next[r])
  {
    var n := |next|;
    HopShift(next, r, n);
    forall t | 0 <= t < n
      ensures Visits(next, next[r], t)
    {
      assert Visits(next, r, t);
      var k: nat :| k < n && Hop(next, r, k) == t;
      var k' := if k == 0 then n - 1 else k - 1;
      HopShift(next, r, k');
      assert Hop(next, next[r], k') == t;
    }
  }

  // ---- ring index ----

  /** Position of rank 0 in the ring of `r`. */
  ghost function ZeroAt(next: seq<int>, r: nat): (k: nat)
    requires ValidLinks(next) && r < |next| && IsRing(next, r)
    ensures k < |next| && Hop(next, r, k) == 0
  {
    assert Visits(next, r, 0);
    var k: nat :| k < |next| && Hop(next, r, k) == 0; k
  }

  /** Ring index of `r`: its distance from rank 0 along the links. */
  ghost function Index(next: seq<int>, r: nat): (i: nat)
    requires ValidLinks(next) && r < |next| && IsRing(next, r)
    ensures i < |next|
  {
    var k := ZeroAt(next, r);
    if k == 0 then 0 else |next| - k
  }

  lemma Wrap(a: nat, n: nat)
    requires a < 2 * n
    ensures a % n == if a < n then a else a - n
  {
    DivModUnique(a, n, if a < n then 0 else 1, if a < n then a else a - n);
  }

  /** `s` read from position `k` on, around the end. */
  ghost predicate Rotated(s: seq<int>, k: nat, t: seq<int>) {
    k < |s| == |t| && forall i | 0 <= i < |t| :: t[i] == if i + k < |s| then s[i + k] else s[i + k - |s|]
  }

  /** The scan for rank 0 and for the own rank, and the rotation of the ring: the ranks in ring order from
      the own one, and the index as the distance back to rank 0. */
  method SetupChannel(ringRanks: seq<int>, rank: int) returns (index: int, userRanks: seq<int>)
    requires rank in ringRanks && 0 in ringRanks
    ensures exists k: nat :: Rotated(ringRanks, k, userRanks)
    ensures |userRanks| == |ringRanks| && userRanks[0] == rank
    ensures 0 <= index < |userRanks| && userRanks[if index == 0 then 0 else |userRanks| - index] == 0
  {
    var nranks := |ringRanks|;
    var ixZero, ixRank := 0, 0;
    var i := 0;
    while i < nranks
      invariant i <= nranks && 0 <= ixZero < nranks && 0 <= ixRank < nranks
      invariant 0 in ringRanks[..i] ==> ringRanks[ixZero] == 0
      invariant rank in ringRanks[..i] ==> ringRanks[ixRank] == rank
    {
      if ringRanks[i] == 0 { ixZero := i; }
      if ringRanks[i] == rank { ixRank := i; }
      i := i + 1;
    }
    assert ringRanks[..nranks] == ringRanks;
    Wrap(ixRank - ixZero + nranks, nranks);
    index := (ixRank - ixZero + nranks) % nranks;
    userRanks := [];
    i := 0;
    while i < nranks
      invariant i <= nranks && |userRanks| == i
      invariant forall j | 0 <= j < i ::
                  userRanks[j] == ringRanks[if j + ixRank < nranks then j + ixRank else j + ixRank - nranks]
    {
      Wrap(i + ixRank, nranks);
      userRanks := userRanks + [ringRanks[(i + ixRank) % nranks]];
      i := i + 1;
    }
    assert Rotated(ringRanks, ixRank, userRanks);
  }

  /** What `rank` computes from its own ring is its ring index. */
  method SetupFromLinks(next: seq<int>, rank: nat) returns (ok: bool, index: int, userRanks: seq<int>)
    requires ValidLinks(next) && rank < |next|
    ensures ok <==> IsRing(next, rank)
    ensures ok ==> index == Index(next, rank)
    ensures ok ==> |userRanks| == |next| && forall i | 0 <= i < |next| :: userRanks[i] == Hop(next, rank, i)
  {
    var ring;
    ok, ring := BuildRing(next, rank);
    index, userRanks := 0, [];
    if ok {
      ghost var z := ZeroAt(next, rank);
      assert ring[z] == 0 && ring[0] == rank;
      index, userRanks := SetupChannel(ring, rank);
      ghost var k: nat :| Rotated(ring, k, userRanks);
      HopUnique(next, rank, k, 0);
      HopUnique(next, rank, z, if index == 0 then 0 else |ring| - index);
    }
  }

  /** Neighbours on the ring have neighbouring indices, although each derives its index from its
      own rotation of the ring; rank 0 has index 0. */
  lemma IndexNext(next: seq<int>, r: nat)
    requires ValidLinks(next) && r < |next| && IsRing(next, r)
    ensures IsRing(next, next[r])
    ensures Index(next, next[r]) == Next(|next|, Index(next, r))
    ensures r == 0 ==> Index(next, r) == 0
  {
    var n := |next|;
    RingFromNext(next, r);
    var k, k' := ZeroAt(next, r), ZeroAt(next, next[r]);
    HopShift(next, r, k');
    if k > 0 {
      HopShift(next, r, k - 1);
      HopUnique(next, next[r], k', k - 1);
    } else {
      HopShift(next, r, n - 1);
      HopUnique(next, next[r], k', n - 1);
    }
    if r == 0 { HopUnique(next, r, k, 0); }
  }

  /** Index `i` belongs to the rank `i` links after rank 0. */
  lemma {:induction false} IndexOfHop(next: seq<int>, i: nat)
    requires ValidLinks(next) && IsRing(next, 0) && i < |next|
    ensures IsRing(next, Hop(next, 0, i)) && Index(next, Hop(next, 0, i)) == i
  {
    if i == 0 {
      IndexNext(next, 0);
    } else {
      IndexOfHop(next, i - 1);
      IndexNext(next, Hop(next, 0, i - 1));
    }
  }
}
