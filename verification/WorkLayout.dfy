/** Where a kernel plan's works go in the work FIFO: the first works of the channels side by side,
    every further work behind them in channel order. */
module WorkLayout {
  import opened Arith

  /** The works of one plan, channel by channel. */
  type Plan = seq<seq<int>>

  /** Channels below `c` that have work. */
  function Below(plan: Plan, c: nat): (n: nat)
    requires c <= |plan|
    ensures n <= c
  {
    if c == 0 then 0 else Below(plan, c - 1) + (if plan[c - 1] == [] then 0 else 1)
  }

  /** Works below channel `c` other than first ones. */
  function Extra(plan: Plan, c: nat): nat
    requires c <= |plan|
  {
    if c == 0 then 0 else Extra(plan, c - 1) + (if plan[c - 1] == [] then 0 else |plan[c - 1]| - 1)
  }

  function Heads(plan: Plan): nat { Below(plan, |plan|) }

  function Total(plan: Plan): nat { Heads(plan) + Extra(plan, |plan|) }

  predicate IsWork(plan: Plan, c: nat, i: nat) { c < |plan| && i < |plan[c]| }

  /** Position of work `i` of channel `c` behind the head of the plan. */
  function Ix(plan: Plan, c: nat, i: nat): nat
    requires IsWork(plan, c, i)
  {
    if i == 0 then Below(plan, c) else Heads(plan) + Extra(plan, c) + i - 1
  }

  lemma {:induction false} CountsGrow(plan: Plan, c: nat, d: nat)
    requires c <= d <= |plan|
    ensures Below(plan, c) <= Below(plan, d) && Extra(plan, c) <= Extra(plan, d)
    ensures c < d && plan[c] != [] ==>
              Below(plan, c) + 1 <= Below(plan, d) && Extra(plan, c) + |plan[c]| - 1 <= Extra(plan, d)
    decreases d
  {
    if c < d { CountsGrow(plan, c, d - 1); }
  }

  lemma IxInPlan(plan: Plan, c: nat, i: nat)
    requires IsWork(plan, c, i)
    ensures Ix(plan, c, i) < Total(plan)
    ensures i == 0 ==> Ix(plan, c, i) < Heads(plan)
    ensures i > 0 ==> Heads(plan) <= Ix(plan, c, i)
  {
    CountsGrow(plan, c, |plan|);
  }

  /** No two works share a place. */
  lemma IxInjective(plan: Plan, c: nat, i: nat, d: nat, j: nat)
    requires IsWork(plan, c, i) && IsWork(plan, d, j) && (c, i) != (d, j)
    ensures Ix(plan, c, i) != Ix(plan, d, j)
  {
    IxInPlan(plan, c, i);
    IxInPlan(plan, d, j);
    if c < d {
      CountsGrow(plan, c, d);
    } else if d < c {
      CountsGrow(plan, d, c);
    }
  }

  /** A channel's works are laid out in increasing order. */
  lemma IxAscends(plan: Plan, c: nat, i: nat, j: nat)
    requires i < j && IsWork(plan, c, j)
    ensures IsWork(plan, c, i) && Ix(plan, c, i) < Ix(plan, c, j)
  {
    IxInPlan(plan, c, i);
    IxInPlan(plan, c, j);
  }

  /** Sum of the queue lengths, as counted before the upload. */
  function Count(plan: Plan, c: nat): nat
    requires c <= |plan|
  {
    if c == 0 then 0 else Count(plan, c - 1) + |plan[c - 1]|
  }

  lemma {:induction false} TotalIsCount(plan: Plan, c: nat)
    requires c <= |plan|
    ensures Count(plan, c) == Below(plan, c) + Extra(plan, c)
    ensures c == |plan| ==> Total(plan) == Count(plan, c)
  {
    if c > 0 { TotalIsCount(plan, c - 1); }
  }

  /** `2^32` comparison and minimum of rolling counters; `wrap` 0 stands for unbounded counters. */
  predicate RollingLess(wrap: nat, a: int, b: int) {
    if wrap == 0 then a < b else (a - b) % wrap > wrap / 2 - 1
  }

  function RollingMin(wrap: nat, a: int, b: int): int {
    if wrap == 0 then Min(a, b) else if (b - a) % wrap <= wrap / 2 - 1 then a else b
  }

  function Wrap(wrap: nat, x: int): int { if wrap == 0 then x else x % wrap }

  lemma WrapShift(wrap: nat, x: int, y: int)
    requires wrap > 0
    ensures (x % wrap + y) % wrap == (x + y) % wrap
  {
    var q, r := x / wrap, x % wrap;
    assert x + y == r + y + wrap * q;
    ModShift(r + y, wrap, q);
  }

  lemma WrapMinus(wrap: nat, x: int, y: int)
    requires wrap > 0
    ensures (x % wrap - y % wrap) % wrap == (x - y) % wrap
  {
    var q, r := y / wrap, y % wrap;
    WrapShift(wrap, x, -r);
    assert x - r == x - y + wrap * q;
    ModShift(x - y, wrap, q);
  }

  lemma SmallMod(x: int, w: nat)
    requires w > 0 && 0 <= x + w && x < w
    ensures x % w == if x < 0 then x + w else x
  {
    if x < 0 { DivModUnique(x, w, -1, x + w); } else { DivModUnique(x, w, 0, x); }
  }

  /** On wrapped counters less than half the modulus apart the rolling comparison is the true one. */
  lemma RollingLessTrue(wrap: nat, a: int, b: int)
    requires wrap > 0 && wrap % 2 == 0 && -(wrap / 2) <= a - b < wrap / 2
    ensures RollingLess(wrap, a % wrap, b % wrap) <==> a < b
  {
    WrapMinus(wrap, a, b);
    SmallMod(a - b, wrap);
  }

  lemma RollingMinTrue(wrap: nat, a: int, b: int)
    requires wrap > 0 && wrap % 2 == 0 && -(wrap / 2) < a - b < wrap / 2
    ensures RollingMin(wrap, a % wrap, b % wrap) == Min(a, b) % wrap
  {
    WrapMinus(wrap, b, a);
    SmallMod(b - a, wrap);
  }

  /** Exactly when the rolling comparison of two wrapped counters agrees with the true one. */
  lemma RollingLessWrong(wrap: nat, a: int, b: int)
    requires wrap > 0 && wrap % 2 == 0 && 0 <= a - b + wrap && a - b < wrap
    ensures (RollingLess(wrap, a % wrap, b % wrap) <==> a < b) <==> -(wrap / 2) <= a - b < wrap / 2
  {
    WrapMinus(wrap, a, b);
    SmallMod(a - b, wrap);
  }

  lemma WrapInjective(wrap: nat, a: int, b: int)
    requires wrap > 0 && 0 < a - b + wrap && a - b < wrap
    ensures a % wrap == b % wrap <==> a == b
  {
    if a % wrap == b % wrap { ModInjective(a, b, wrap); }
  }

  /** Head of a plan: rounded up to the wrap boundary when its first works would cross it. */
  function Head(depth: nat, sent: int, heads: nat): int
    requires depth > 0
  {
    if (sent + heads - 1) % depth < sent % depth then (sent + depth - 1) - (sent + depth - 1) % depth else sent
  }

  lemma HeadFits(depth: nat, sent: int, heads: nat)
    requires depth > 0
    ensures sent <= Head(depth, sent, heads) < sent + depth
    ensures heads <= depth ==> Head(depth, sent, heads) % depth + heads <= depth
    ensures 0 < heads <= depth ==> (Head(depth, sent, heads) == sent <==> sent % depth + heads <= depth)
    ensures Head(depth, sent, heads) == sent || Head(depth, sent, heads) % depth == 0
  {
    var q, r := sent / depth, sent % depth;
    assert sent == depth * q + r;
    var a := sent + depth - 1;
    assert a - a % depth == depth * (a / depth);
    MulMod(depth, a / depth);
    if (sent + heads - 1) % depth >= r && r + heads > depth && heads <= depth {
      assert depth * (q + 1) == depth * q + depth;
      DivModUnique(sent + heads - 1, depth, q + 1, r + heads - 1 - depth);
    }
    if 0 < heads && r + heads <= depth { DivModUnique(sent + heads - 1, depth, q, r + heads - 1); }
  }
}
