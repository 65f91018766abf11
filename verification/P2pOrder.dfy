/** The send and receive order of point-to-point tasks. */
module P2pOrder {
  import opened Arith
  import opened PlacedLists
  import opened P2pDeltas
  import opened NodeMaps

  datatype Topo = Topo(nodes: nat, steps: nat, node: seq<nat>, local: seq<nat>, ranks: seq<seq<int>>)

  ghost predicate ValidTopo(t: Topo) {
    && t.nodes > 0 && t.steps > 0 && |t.ranks| == t.nodes && Inverse(t.node, t.local, t.ranks)
    && forall n | 0 <= n < t.nodes :: |t.ranks[n]| <= t.steps
  }

  /** Steps per node: the largest node, rounded to fuse along node boundaries. */
  function AlignPower(x: nat, y: nat): nat
    requires x > 0 && y > 0
  {
    if x > y then RoundUp(x, y) else (if y / x == 0 then 0 else y / (y / x))
  }

  lemma StepsSuffice(x: nat, y: nat)
    requires x > 0 && y > 0
    ensures AlignPower(x, y) >= x
  {
    if x <= y {
      var q := y / x;
      assert y == x * q + y % x;
      MulLess(0, q, x);
      assert y == q * (y / q) + y % q;
      MulLess(x, y / q + 1, q) by { assert q * (y / q + 1) == q * (y / q) + q; }
    }
  }

  lemma SmallSteps(x: nat)
    requires 0 < x <= 8
    ensures AlignPower(x, 8) == if x <= 2 then x else if x <= 4 then 4 else 8
  {
    assert 8 / 1 == 8 && 8 / 2 == 4 && 8 / 3 == 2 && 8 / 4 == 2 && 8 / 5 == 1 && 8 / 6 == 1 && 8 / 7 == 1 && 8 / 8 == 1;
  }

  lemma LargeSteps(x: nat, z: nat)
    requires 8 < x <= z < RoundUp(x, 8)
    ensures z % 8 != 0
  {
    if z % 8 == 0 { ModInjective(z, RoundUp(x, 8), 8); }
  }

  /** With the library's constant, 1, the steps are the largest node; with 8 they are the least number from there
      on that is a multiple of 8 or divides it. */
  lemma StepsFuse(x: nat, z: nat)
    requires x > 0
    ensures AlignPower(x, 1) == x <= AlignPower(x, 8)
    ensures Fuses(AlignPower(x, 8)) && (x <= z < AlignPower(x, 8) ==> !Fuses(z))
  {
    if x == 1 { assert 1 / 1 == 1; }
    if x <= 8 {
      SmallSteps(x);
      assert 8 % 1 == 0 && 8 % 2 == 0 && 8 % 4 == 0 && 8 % 3 == 2 && 8 % 5 == 3 && 8 % 6 == 2 && 8 % 7 == 1;
    } else if x <= z < RoundUp(x, 8) {
      LargeSteps(x, z);
      DivModUnique(8, z, 0, 8);
    }
  }

  predicate Fuses(z: nat) { z > 0 && (z % 8 == 0 || 8 % z == 0) }

  function RankAt(t: Topo, n: int, l: int): int
    requires 0 <= n < |t.ranks| && 0 <= l
  {
    if l < |t.ranks[n]| then t.ranks[n][l] else -1
  }

  function SendAt(t: Topo, a: nat, delta: int, step: int): int
    requires t.nodes > 0 && t.steps > 0 && |t.ranks| == t.nodes && a < |t.node| && a < |t.local|
  {
    RankAt(t, (t.node[a] + delta) % t.nodes, (t.local[a] + step) % t.steps)
  }

  function RecvAt(t: Topo, b: nat, delta: int, step: int): int
    requires t.nodes > 0 && t.steps > 0 && |t.ranks| == t.nodes && b < |t.node| && b < |t.local|
  {
    RankAt(t, (t.node[b] + t.nodes - delta) % t.nodes, (t.local[b] - step + t.steps) % t.steps)
  }

  /** One node's worth of steps. */
  method FillNode(t: Topo, a: nat, delta: int) returns (send: seq<int>, recv: seq<int>)
    requires ValidTopo(t) && a < |t.node|
    ensures |send| == |recv| == t.steps
    ensures forall s: nat | s < t.steps :: send[s] == SendAt(t, a, delta, s) && recv[s] == RecvAt(t, a, delta, s)
  {
    send, recv := [], [];
    for step := 0 to t.steps
      invariant |send| == |recv| == step
      invariant forall s: nat | s < step :: send[s] == SendAt(t, a, delta, s) && recv[s] == RecvAt(t, a, delta, s)
    {
      recv := recv + [RecvAt(t, a, delta, step)];
      send := send + [SendAt(t, a, delta, step)];
    }
  }

  /** The loops that fill both orders for rank `a`. */
  method FillOrder(t: Topo, a: nat) returns (send: seq<int>, recv: seq<int>)
    requires ValidTopo(t) && a < |t.node|
    ensures AllFilled(t, a, send, recv)
  {
    var deltas := ScheduleDeltas(t.nodes);
    DeltasOnce(t.nodes);
    CoversRange(deltas, t.nodes);
    send, recv := [], [];
    for k := 0 to |deltas|
      invariant |send| == |recv| == k * t.steps
      invariant forall j: nat, step: nat | j < k && step < t.steps :: Filled(t, a, send, recv, j, step)
    {
      var s, r := FillNode(t, a, deltas[k]);
      FillMore(t, a, send, recv, s, r, k);
      send, recv := send + s, recv + r;
    }
  }

  ghost predicate Filled(t: Topo, a: nat, send: seq<int>, recv: seq<int>, k: nat, step: nat)
    requires ValidTopo(t) && a < |t.node|
  {
    && k < |Deltas(t.nodes)| && 0 <= k * t.steps + step < |send| == |recv|
    && send[k * t.steps + step] == SendAt(t, a, Deltas(t.nodes)[k], step)
    && recv[k * t.steps + step] == RecvAt(t, a, Deltas(t.nodes)[k], step)
  }

  ghost predicate AllFilled(t: Topo, a: nat, send: seq<int>, recv: seq<int>)
    requires ValidTopo(t) && a < |t.node|
  {
    && |send| == |recv| == t.nodes * t.steps && |Deltas(t.nodes)| == t.nodes
    && forall k: nat, step: nat | k < t.nodes && step < t.steps :: Filled(t, a, send, recv, k, step)
  }

  lemma FilledOld(t: Topo, a: nat, send: seq<int>, recv: seq<int>, s: seq<int>, r: seq<int>, k: nat, step: nat)
    requires ValidTopo(t) && a < |t.node| && |s| == |r| && Filled(t, a, send, recv, k, step)
    ensures Filled(t, a, send + s, recv + r, k, step)
  {
    var i := k * t.steps + step;
    assert (send + s)[i] == send[i] && (recv + r)[i] == recv[i];
  }

  lemma FilledNew(t: Topo, a: nat, send: seq<int>, recv: seq<int>, s: seq<int>, r: seq<int>, k: nat, step: nat)
    requires ValidTopo(t) && a < |t.node| && k < |Deltas(t.nodes)| && |send| == |recv| == k * t.steps
    requires |s| == |r| == t.steps && step < t.steps
    requires s[step] == SendAt(t, a, Deltas(t.nodes)[k], step) && r[step] == RecvAt(t, a, Deltas(t.nodes)[k], step)
    ensures Filled(t, a, send + s, recv + r, k, step)
  {
    var i := |send| + step;
    assert (send + s)[i] == s[step] && (recv + r)[i] == r[step];
  }

  lemma FillMore(t: Topo, a: nat, send: seq<int>, recv: seq<int>, s: seq<int>, r: seq<int>, k: nat)
    requires ValidTopo(t) && a < |t.node| && k < |Deltas(t.nodes)| && |send| == |recv| == k * t.steps
             && |s| == |r| == t.steps
    requires forall j: nat, step: nat | j < k && step < t.steps :: Filled(t, a, send, recv, j, step)
    requires forall step: nat | step < t.steps ::
               s[step] == SendAt(t, a, Deltas(t.nodes)[k], step) && r[step] == RecvAt(t, a, Deltas(t.nodes)[k], step)
    ensures |send + s| == (k + 1) * t.steps
    ensures forall j: nat, step: nat | j < k + 1 && step < t.steps :: Filled(t, a, send + s, recv + r, j, step)
  {
    assert (k + 1) * t.steps == k * t.steps + t.steps;
    forall j: nat, step: nat | j < k + 1 && step < t.steps
      ensures Filled(t, a, send + s, recv + r, j, step)
    {
      if j < k { FilledOld(t, a, send, recv, s, r, j, step); } else { FilledNew(t, a, send, recv, s, r, k, step); }
    }
  }

  /** Going forward by `d` from `x` reaches `y` exactly when going back from `y` reaches `x`. */
  lemma ThereAndBack(n: nat, x: nat, y: nat, d: int)
    requires x < n && y < n
    ensures (x + d) % n == y <==> (y - d + n) % n == x
  {
    var p, q := (x + d) / n, (y - d + n) / n;
    assert x + d == n * p + (x + d) % n && y - d + n == n * q + (y - d + n) % n;
    if (x + d) % n == y {
      assert y - d + n == x + n * (1 - p) by { assert n * (1 - p) == n - n * p; }
      DivModUnique(y - d + n, n, 1 - p, x);
    }
    if (y - d + n) % n == x {
      assert x + d == y + n * (1 - q) by { assert n * (1 - q) == n - n * q; }
      DivModUnique(x + d, n, 1 - q, y);
    }
  }

  lemma RankIs(t: Topo, n: int, l: int, b: nat)
    requires ValidTopo(t) && 0 <= n < t.nodes && 0 <= l && b < |t.node|
    ensures RankAt(t, n, l) == b <==> n == t.node[b] && l == t.local[b]
  {
  }

  /** Rank `a` sends to `b` at a position exactly when `b` receives from `a` there. */
  lemma Mirrored(t: Topo, a: nat, b: nat, delta: int, step: int)
    requires ValidTopo(t) && a < |t.node| && b < |t.node|
    ensures SendAt(t, a, delta, step) == b <==> RecvAt(t, b, delta, step) == a
  {
    assert t.local[a] < t.steps && t.local[b] < t.steps;
    ThereAndBack(t.nodes, t.node[a], t.node[b], delta);
    ThereAndBack(t.steps, t.local[a], t.local[b], step);
    RankIs(t, (t.node[a] + delta) % t.nodes, (t.local[a] + step) % t.steps, b);
    RankIs(t, (t.node[b] + t.nodes - delta) % t.nodes, (t.local[b] - step + t.steps) % t.steps, a);
  }

  /** The distance and the step at which `a` sends to `b`. */
  lemma SendIs(t: Topo, a: nat, b: nat, delta: nat, step: nat)
    requires ValidTopo(t) && a < |t.node| && b < |t.node| && delta < t.nodes && step < t.steps
    ensures SendAt(t, a, delta, step) == b
            <==> delta == (t.node[b] - t.node[a] + t.nodes) % t.nodes
                 && step == (t.local[b] - t.local[a] + t.steps) % t.steps
  {
    assert t.local[a] < t.steps && t.local[b] < t.steps;
    ThereAndBack(t.nodes, delta, t.node[b], t.node[a]);
    ThereAndBack(t.steps, step, t.local[b], t.local[a]);
    RankIs(t, (t.node[a] + delta) % t.nodes, (t.local[a] + step) % t.steps, b);
  }

  /** `b` is sent to, or received from, at distance number `k` and step `step` and nowhere else. */
  ghost predicate OnlySend(t: Topo, a: nat, b: nat, k: nat, step: nat)
    requires ValidTopo(t) && a < |t.node| && |Deltas(t.nodes)| == t.nodes
  {
    forall j: nat, s: nat | j < t.nodes && s < t.steps ::
      SendAt(t, a, Deltas(t.nodes)[j], s) == b <==> j == k && s == step
  }

  ghost predicate OnlyRecv(t: Topo, a: nat, b: nat, k: nat, step: nat)
    requires ValidTopo(t) && a < |t.node| && |Deltas(t.nodes)| == t.nodes
  {
    forall j: nat, s: nat | j < t.nodes && s < t.steps ::
      RecvAt(t, a, Deltas(t.nodes)[j], s) == b <==> j == k && s == step
  }

  /** Every rank is sent to at exactly one position. */
  lemma SendsOnce(t: Topo, a: nat, b: nat) returns (k: nat, step: nat)
    requires ValidTopo(t) && a < |t.node| && b < |t.node|
    ensures k < |Deltas(t.nodes)| == t.nodes && step < t.steps
    ensures OnlySend(t, a, b, k, step)
  {
    var ds := Deltas(t.nodes);
    DeltasOnce(t.nodes);
    CoversRange(ds, t.nodes);
    var d := (t.node[b] - t.node[a] + t.nodes) % t.nodes;
    step := (t.local[b] - t.local[a] + t.steps) % t.steps;
    assert d in ds;
    k :| 0 <= k < |ds| && ds[k] == d;
    forall j: nat, s: nat | j < t.nodes && s < t.steps
      ensures SendAt(t, a, ds[j], s) == b <==> j == k && s == step
    {
      assert ds[j] in ds;
      SendIs(t, a, b, ds[j], s);
    }
  }

  /** And received from at exactly one. */
  lemma ReceivesOnce(t: Topo, a: nat, b: nat) returns (k: nat, step: nat)
    requires ValidTopo(t) && a < |t.node| && b < |t.node|
    ensures k < |Deltas(t.nodes)| == t.nodes && step < t.steps
    ensures OnlyRecv(t, a, b, k, step)
  {
    k, step := SendsOnce(t, b, a);
    forall j: nat, s: nat | j < t.nodes && s < t.steps
      ensures RecvAt(t, a, Deltas(t.nodes)[j], s) == b <==> j == k && s == step
    {
      Mirrored(t, b, a, Deltas(t.nodes)[j], s);
    }
  }

  /** A position of the orders as distance and step. */
  lemma Position(t: Topo, i: nat) returns (k: nat, step: nat)
    requires t.steps > 0 && i < t.nodes * t.steps
    ensures k < t.nodes && step < t.steps && i == k * t.steps + step
  {
    k, step := Quot(i, t.steps), i % t.steps;
    assert i == t.steps * k + step;
    MulLess(k, t.nodes, t.steps);
  }

  lemma SamePosition(steps: nat, k: nat, s: nat, k': nat, s': nat)
    requires s < steps && s' < steps
    ensures k * steps + s == k' * steps + s' <==> k == k' && s == s'
  {
    if k * steps + s == k' * steps + s' {
      DivModUnique(k * steps + s, steps, k, s);
      DivModUnique(k * steps + s, steps, k', s');
    }
  }

  /** The orders two ranks fill on their own fit together: at every position one sends to the other exactly when
      the other receives from it. */
  lemma OrdersFit(t: Topo, a: nat, sendA: seq<int>, recvA: seq<int>, b: nat, sendB: seq<int>, recvB: seq<int>, i: nat)
    requires ValidTopo(t) && a < |t.node| && b < |t.node| && i < |sendA|
    requires AllFilled(t, a, sendA, recvA) && AllFilled(t, b, sendB, recvB)
    ensures sendA[i] == b <==> recvB[i] == a
  {
    var k, step := Position(t, i);
    AtPosition(t, a, sendA, recvA, k, step, i);
    AtPosition(t, b, sendB, recvB, k, step, i);
    Mirrored(t, a, b, Deltas(t.nodes)[k], step);
  }

  lemma SendAtOne(t: Topo, a: nat, send: seq<int>, recv: seq<int>, b: nat, x: nat, k: nat, step: nat)
    requires ValidTopo(t) && a < |t.node| && AllFilled(t, a, send, recv) && x < |send| && step < t.steps
    requires OnlySend(t, a, b, k, step)
    ensures send[x] == b <==> x == k * t.steps + step
  {
    var m, v := Position(t, x);
    SamePosition(t.steps, m, v, k, step);
    AtPosition(t, a, send, recv, m, v, x);
  }

  lemma RecvAtOne(t: Topo, a: nat, send: seq<int>, recv: seq<int>, b: nat, x: nat, k: nat, step: nat)
    requires ValidTopo(t) && a < |t.node| && AllFilled(t, a, send, recv) && x < |recv| && step < t.steps
    requires OnlyRecv(t, a, b, k, step)
    ensures recv[x] == b <==> x == k * t.steps + step
  {
    var m, v := Position(t, x);
    SamePosition(t.steps, m, v, k, step);
    AtPosition(t, a, send, recv, m, v, x);
  }

  lemma InOrders(nodes: nat, steps: nat, k: nat, s: nat) returns (i: nat)
    requires k < nodes && s < steps
    ensures i == k * steps + s < nodes * steps
  {
    MulMono(0, k, steps);
    i := k * steps + s;
    MulMono(k + 1, nodes, steps);
    assert (k + 1) * steps == k * steps + steps;
  }

  lemma SendPosition(t: Topo, a: nat, send: seq<int>, recv: seq<int>, b: nat) returns (i: nat)
    requires ValidTopo(t) && a < |t.node| && b < |t.node| && AllFilled(t, a, send, recv)
    ensures i < |send| && forall x: nat | x < |send| :: send[x] == b <==> x == i
  {
    var k, s := SendsOnce(t, a, b);
    i := InOrders(t.nodes, t.steps, k, s);
    forall x: nat | x < |send| ensures send[x] == b <==> x == i { SendAtOne(t, a, send, recv, b, x, k, s); }
  }

  lemma RecvPosition(t: Topo, a: nat, send: seq<int>, recv: seq<int>, b: nat) returns (j: nat)
    requires ValidTopo(t) && a < |t.node| && b < |t.node| && AllFilled(t, a, send, recv)
    ensures j < |recv| && forall x: nat | x < |recv| :: recv[x] == b <==> x == j
  {
    var k, s := ReceivesOnce(t, a, b);
    j := InOrders(t.nodes, t.steps, k, s);
    forall x: nat | x < |recv| ensures recv[x] == b <==> x == j { RecvAtOne(t, a, send, recv, b, x, k, s); }
  }

  /** And every rank stands at exactly one position of the order of sends and one of the order of receives. */
  lemma OrderOnce(t: Topo, a: nat, send: seq<int>, recv: seq<int>, b: nat) returns (i: nat, j: nat)
    requires ValidTopo(t) && a < |t.node| && b < |t.node| && AllFilled(t, a, send, recv)
    ensures i < |send| && forall x: nat | x < |send| :: send[x] == b <==> x == i
    ensures j < |recv| && forall x: nat | x < |recv| :: recv[x] == b <==> x == j
  {
    i := SendPosition(t, a, send, recv, b);
    j := RecvPosition(t, a, send, recv, b);
  }

  lemma AtPosition(t: Topo, a: nat, send: seq<int>, recv: seq<int>, k: nat, step: nat, x: nat)
    requires ValidTopo(t) && a < |t.node| && AllFilled(t, a, send, recv)
    requires k < t.nodes && step < t.steps && x == k * t.steps + step
    ensures x < |send| && send[x] == SendAt(t, a, Deltas(t.nodes)[k], step)
    ensures recv[x] == RecvAt(t, a, Deltas(t.nodes)[k], step)
  {
    FilledAt(t, a, send, recv, k, step);
  }

  lemma FilledAt(t: Topo, a: nat, send: seq<int>, recv: seq<int>, k: nat, step: nat)
    requires ValidTopo(t) && a < |t.node| && AllFilled(t, a, send, recv) && k < t.nodes && step < t.steps
    ensures Filled(t, a, send, recv, k, step)
  {
  }
}
