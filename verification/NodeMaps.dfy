/** Which node every rank is on, and the numbering of ranks within nodes. */
module NodeMaps {
  import opened PlacedLists

  /** No rank below `r` reports the same first rank. */
  ghost predicate IsNew(first: seq<int>, r: nat)
    requires r < |first|
  {
    forall p | 0 <= p < r :: first[p] != first[r]
  }

  /** The numbers given to the first ranks: `firsts` are the first ranks met, each node number is where its first
      rank stands among them. */
  ghost predicate Numbered(first: seq<int>, node: seq<nat>, firsts: seq<int>) {
    && |node| <= |first| && |firsts| <= |node| && NoDup(firsts) && (node != [] ==> firsts != [])
    && forall q | 0 <= q < |node| :: node[q] < |firsts| && firsts[node[q]] == first[q]
  }

  ghost predicate AllUsed(node: seq<nat>, nodes: nat) { forall n: nat | n < nodes :: n in node }

  /** A new first rank gets a number above all given before. */
  ghost predicate AboveAll(first: seq<int>, node: seq<nat>, r: nat)
    requires r < |node| <= |first|
  {
    IsNew(first, r) ==> forall q: nat | q < r :: node[q] < node[r]
  }

  ghost predicate InOrder(first: seq<int>, node: seq<nat>)
    requires |node| <= |first|
  {
    forall r: nat | r < |node| :: AboveAll(first, node, r)
  }

  lemma OrderOne(first: seq<int>, node: seq<nat>, n: nat)
    requires |node| < |first| && InOrder(first, node)
    requires IsNew(first, |node|) ==> forall q: nat | q < |node| :: node[q] < n
    ensures InOrder(first, node + [n])
  {
    forall r: nat | r < |node + [n]| ensures AboveAll(first, node + [n], r) {
      if r < |node| { assert AboveAll(first, node, r); }
    }
  }

  lemma UsedOne(node: seq<nat>, nodes: nat, n: nat)
    requires AllUsed(node, nodes) && n <= nodes
    ensures AllUsed(node + [n], if n == nodes then nodes + 1 else nodes)
  {
    forall m: nat | m <= nodes && (m < nodes || n == nodes) ensures m in node + [n] {
      if m < nodes { assert m in node; }
    }
  }

  lemma KnownFirst(first: seq<int>, node: seq<nat>, firsts: seq<int>, n: nat)
    requires Numbered(first, node, firsts) && AllUsed(node, |firsts|) && InOrder(first, node)
    requires |node| < |first| && n < |firsts| && firsts[n] == first[|node|]
    ensures Numbered(first, node + [n], firsts) && AllUsed(node + [n], |firsts|) && InOrder(first, node + [n])
  {
    assert n in node;
    var q :| 0 <= q < |node| && node[q] == n;
    assert !IsNew(first, |node|);
    UsedOne(node, |firsts|, n);
    OrderOne(first, node, n);
  }

  lemma NewFirst(first: seq<int>, node: seq<nat>, firsts: seq<int>)
    requires Numbered(first, node, firsts) && AllUsed(node, |firsts|) && InOrder(first, node) && |node| < |first|
    requires forall m | 0 <= m < |firsts| :: firsts[m] != first[|node|]
    ensures Numbered(first, node + [|firsts|], firsts + [first[|node|]])
    ensures AllUsed(node + [|firsts|], |firsts| + 1) && InOrder(first, node + [|firsts|])
  {
    UsedOne(node, |firsts|, |firsts|);
    OrderOne(first, node, |firsts|);
  }

  /** Ranks that report the same first rank share a node; nodes are numbered in the order of their lowest ranks. */
  method AssignNodes(first: seq<int>) returns (node: seq<nat>, nodes: nat)
    ensures |node| == |first| && (forall r | 0 <= r < |node| :: node[r] < nodes)
    ensures forall q, r | 0 <= q < |node| && 0 <= r < |node| :: node[q] == node[r] <==> first[q] == first[r]
    ensures AllUsed(node, nodes) && nodes <= |first| && (first != [] ==> nodes > 0) && InOrder(first, node)
  {
    node, nodes := [], 0;
    var firsts: seq<int> := [];
    for r := 0 to |first|
      invariant |node| == r && |firsts| == nodes && Numbered(first, node, firsts)
      invariant AllUsed(node, nodes) && InOrder(first, node)
    {
      var n := 0;
      while n < nodes && firsts[n] != first[r]
        invariant 0 <= n <= nodes && forall m | 0 <= m < n :: firsts[m] != first[r]
      {
        n := n + 1;
      }
      if n == nodes {
        NewFirst(first, node, firsts);
        firsts := firsts + [first[r]];
        nodes := nodes + 1;
      } else {
        KnownFirst(first, node, firsts, n);
      }
      node := node + [n];
    }
  }

  /** Ranks below `r` on node `n`. */
  function Count(node: seq<nat>, r: nat, n: nat): (c: nat)
    requires r <= |node|
    ensures c <= r
  {
    if r == 0 then 0 else Count(node, r - 1, n) + if node[r - 1] == n then 1 else 0
  }

  /** The two numberings are inverse to each other, on the ranks below `n`. */
  ghost predicate InverseUpto(node: seq<nat>, local: seq<nat>, ranks: seq<seq<int>>, n: nat) {
    && |local| == |node| && n <= |node|
    && (forall r | 0 <= r < n :: node[r] < |ranks| && local[r] < |ranks[node[r]]| && ranks[node[r]][local[r]] == r)
    && forall m, l | 0 <= m < |ranks| && 0 <= l < |ranks[m]| ::
         0 <= ranks[m][l] < n && node[ranks[m][l]] == m && local[ranks[m][l]] == l
  }

  predicate Rising(s: seq<int>) { forall i, j | 0 <= i < j < |s| :: s[i] < s[j] }

  ghost predicate Inverse(node: seq<nat>, local: seq<nat>, ranks: seq<seq<int>>) {
    InverseUpto(node, local, ranks, |node|)
  }

  lemma AddRank(node: seq<nat>, local: seq<nat>, ranks: seq<seq<int>>, r: nat)
    requires InverseUpto(node, local, ranks, r) && r < |node| && node[r] < |ranks| && local[r] == |ranks[node[r]]|
    ensures InverseUpto(node, local, ranks[node[r] := ranks[node[r]] + [r]], r + 1)
  {
  }

  /** First pass: number the ranks of every node in rank order. */
  method LocalNumbers(node: seq<nat>, nodes: nat) returns (local: seq<nat>, counts: seq<nat>)
    requires forall r | 0 <= r < |node| :: node[r] < nodes
    ensures |local| == |node| && forall r | 0 <= r < |node| :: local[r] == Count(node, r, node[r])
    ensures |counts| == nodes && forall n: nat | n < nodes :: counts[n] == Count(node, |node|, n)
  {
    counts, local := seq(nodes, n => 0), [];
    for r := 0 to |node|
      invariant |local| == r && |counts| == nodes
      invariant forall n: nat | n < nodes :: counts[n] == Count(node, r, n)
      invariant forall q | 0 <= q < r :: local[q] == Count(node, q, node[q])
    {
      local := local + [counts[node[r]]];
      counts := counts[node[r] := counts[node[r]] + 1];
    }
  }

  method Largest(counts: seq<nat>) returns (most: nat)
    ensures (forall n | 0 <= n < |counts| :: counts[n] <= most) && (most > 0 ==> most in counts)
  {
    most := 0;
    for n := 0 to |counts|
      invariant (forall m | 0 <= m < n :: counts[m] <= most) && (most > 0 ==> most in counts)
    {
      if most < counts[n] { most := counts[n]; }
    }
  }

  /** Last pass: list the ranks of every node. */
  method ListRanks(node: seq<nat>, nodes: nat, local: seq<nat>) returns (ranks: seq<seq<int>>)
    requires forall r | 0 <= r < |node| :: node[r] < nodes
    requires |local| == |node| && forall r | 0 <= r < |node| :: local[r] == Count(node, r, node[r])
    ensures |ranks| == nodes && Inverse(node, local, ranks) && (forall n | 0 <= n < nodes :: Rising(ranks[n]))
            && forall n: nat | n < nodes :: |ranks[n]| == Count(node, |node|, n)
  {
    ranks := seq(nodes, n => []);
    for r := 0 to |node|
      invariant |ranks| == nodes && forall n: nat | n < nodes :: |ranks[n]| == Count(node, r, n)
      invariant InverseUpto(node, local, ranks, r) && forall n | 0 <= n < nodes :: Rising(ranks[n])
    {
      AddRank(node, local, ranks, r);
      ranks := ranks[node[r] := ranks[node[r]] + [r]];
    }
  }

  /** The counting and filling loops together. */
  method NumberRanks(node: seq<nat>, nodes: nat) returns (local: seq<nat>, ranks: seq<seq<int>>, most: nat)
    requires forall r | 0 <= r < |node| :: node[r] < nodes
    ensures |ranks| == nodes && Inverse(node, local, ranks) && forall n | 0 <= n < nodes :: Rising(ranks[n])
    ensures (forall n | 0 <= n < nodes :: |ranks[n]| <= most)
            && (most > 0 ==> exists n :: 0 <= n < nodes && |ranks[n]| == most)
  {
    var counts;
    local, counts := LocalNumbers(node, nodes);
    most := Largest(counts);
    ranks := ListRanks(node, nodes, local);
    assert forall n: nat | n < nodes :: |ranks[n]| == counts[n];
  }
}
