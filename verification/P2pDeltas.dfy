/** The order in which point-to-point tasks visit the nodes: 0, half way round, then outwards from
    both, without repeating any distance. */
module P2pDeltas {
  import opened Arith
  import opened PlacedLists

  /** The four distances considered for `d`. */
  function Four(n: nat, d: nat): (f: seq<int>)
    requires n > 0
    ensures |f| == 4
  {
    [d, (n - d) % n, n / 2 - d, (n - (n / 2 - d)) % n]
  }

  /** The index after `index`, skipping repeated distances. */
  function NextIndex(f: seq<int>, index: nat): nat
    requires |f| == 4
  {
    var i1 := index + 1;
    var i2 := if i1 == 1 && f[1] == f[0] then i1 + 1 else i1;
    var i3 := if i2 == 2 && f[2] == f[0] then i2 + 1 else i2;
    var i4 := if i3 == 3 && f[3] == f[2] then i3 + 1 else i3;
    if i4 == 3 && f[3] == f[1] then i4 + 1 else i4
  }

  /** The distances scheduled for `d` from `index` on. */
  function Emit(f: seq<int>, index: nat): seq<int>
    requires |f| == 4
    decreases 4 - index
  {
    if index >= 4 then [] else [f[index]] + Emit(f, NextIndex(f, index))
  }

  /** The distances scheduled for every `e < d`, one block after the other. */
  function Blocks(block: nat -> seq<int>, d: nat): seq<int> {
    if d == 0 then [] else Blocks(block, d - 1) + block(d - 1)
  }

  function Block(n: nat): nat -> seq<int>
    requires n > 0
  {
    (d: nat) => Emit(Four(n, d), 0)
  }

  function Deltas(n: nat): seq<int>
    requires n > 0
  {
    Blocks(Block(n), n / 4 + 1)
  }

  /** The distances of one `d`, in the order the jumps visit them. */
  method ScheduleFour(f: seq<int>) returns (out: seq<int>)
    requires |f| == 4
    ensures out == Emit(f, 0)
  {
    out := [];
    var index := 0;
    while index < 4
      invariant out + Emit(f, index) == Emit(f, 0)
      decreases 4 - index
    {
      out := out + [f[index]];
      index := NextIndex(f, index);
    }
  }

  /** The loop over `d`. */
  method ScheduleDeltas(n: nat) returns (deltas: seq<int>)
    requires n > 0
    ensures deltas == Deltas(n)
  {
    deltas := [];
    for d := 0 to n / 4 + 1
      invariant deltas == Blocks(Block(n), d)
    {
      var more := ScheduleFour(Four(n, d));
      deltas := deltas + more;
    }
  }

  function Least(a: int, b: int): int { if a <= b then a else b }

  /** Which `d` a distance belongs to. */
  function Class(n: nat, x: int): int {
    var y := Least(x, n - x);
    Least(y, n / 2 - y)
  }

  lemma Reduced(n: nat, x: nat)
    requires n > 0 && x < n
    ensures (n - x) % n == if x == 0 then 0 else n - x
  {
    if x == 0 { DivModUnique(n, n, 1, 0); } else { DivModUnique(n - x, n, 0, n - x); }
  }

  lemma FourValues(n: nat, d: nat)
    requires n > 0 && d <= n / 4
    ensures Four(n, d) == [d, if d == 0 then 0 else n - d, n / 2 - d, if n == 1 then 0 else n - (n / 2 - d)]
  {
    Reduced(n, d);
    Reduced(n, n / 2 - d);
  }

  /** A distance has class `d` exactly when it is one of the four. */
  lemma ClassIsFour(n: nat, d: nat, x: int)
    requires n > 0 && d <= n / 4
    ensures x in Four(n, d) <==> 0 <= x < n && Class(n, x) == d
  {
    FourValues(n, d);
    var f := [d, if d == 0 then 0 else n - d, n / 2 - d, if n == 1 then 0 else n - (n / 2 - d)];
    assert x in f <==> x == f[0] || x == f[1] || x == f[2] || x == f[3];
  }

  lemma EmitShape(f: seq<int>)
    requires |f| == 4
    ensures Emit(f, 3) == [f[3]]
    ensures Emit(f, 2) == [f[2]] + (if f[3] == f[2] || f[3] == f[1] then [] else Emit(f, 3))
    ensures Emit(f, 1) == [f[1]] + (if f[2] != f[0] then Emit(f, 2)
                                    else if f[3] == f[2] || f[3] == f[1] then [] else Emit(f, 3))
    ensures Emit(f, 0) == [f[0]] + (if f[1] != f[0] then Emit(f, 1)
                                    else if f[2] != f[0] then Emit(f, 2)
                                    else if f[3] == f[2] || f[3] == f[1] then [] else Emit(f, 3))
  {
    assert Emit(f, 4) == [] && Emit(f, 5) == [];
  }

  /** The sequence without what repeats something before it. */
  ghost function FirstOnly(f: seq<int>): seq<int> {
    if f == [] then []
    else
      var k := |f| - 1;
      FirstOnly(f[..k]) + (if f[k] in f[..k] then [] else [f[k]])
  }

  lemma FirstOfFour(f: seq<int>)
    requires |f| == 4
    ensures FirstOnly(f) == [f[0]] + (if f[1] == f[0] then [] else [f[1]])
                            + (if f[2] == f[0] || f[2] == f[1] then [] else [f[2]])
                            + (if f[3] == f[0] || f[3] == f[1] || f[3] == f[2] then [] else [f[3]])
  {
    var one, two, three := [f[0]], [f[0], f[1]], [f[0], f[1], f[2]];
    assert f[..3] == three && three[..2] == two && two[..1] == one && one[..0] == [];
    assert FirstOnly(one) == one;
    assert FirstOnly(two) == one + (if f[1] == f[0] then [] else [f[1]]);
    assert FirstOnly(three) == FirstOnly(two) + (if f[2] == f[0] || f[2] == f[1] then [] else [f[2]]);
  }

  /** The jumps leave out exactly what repeats, and keep the order, provided the other two pairs differ. */
  lemma EmitInOrder(f: seq<int>)
    requires |f| == 4 && (f[1] == f[2] ==> f[1] == f[0]) && (f[3] == f[0] ==> f[3] == f[2])
    ensures Emit(f, 0) == FirstOnly(f)
  {
    EmitShape(f);
    FirstOfFour(f);
  }

  /** Skipping loses none of the four, and repeats none provided the other two pairs differ. */
  lemma EmitIsFour(f: seq<int>)
    requires |f| == 4
    ensures forall x :: x in Emit(f, 0) <==> x in f
    ensures (f[1] == f[2] ==> f[1] == f[0]) && (f[3] == f[0] ==> f[3] == f[2]) ==> NoDup(Emit(f, 0))
  {
    EmitShape(f);
    assert f == [f[0], f[1], f[2], f[3]];
  }

  /** Exactly the distances of class `d` are scheduled for `d`, each once. */
  lemma EmitIsClass(n: nat, d: nat)
    requires n > 0 && d <= n / 4
    ensures NoDup(Emit(Four(n, d), 0))
    ensures forall x :: x in Emit(Four(n, d), 0) <==> 0 <= x < n && Class(n, x) == d
    ensures Emit(Four(n, d), 0) == FirstOnly([d, (n - d) % n, n / 2 - d, (n - (n / 2 - d)) % n])
  {
    FourValues(n, d);
    EmitInOrder(Four(n, d));
    EmitIsFour(Four(n, d));
    forall x ensures x in Four(n, d) <==> 0 <= x < n && Class(n, x) == d { ClassIsFour(n, d, x); }
  }

  /** Blocks that hold exactly the distances of their class, each once, join without repetition. */
  lemma {:induction false} BlocksDistinct(block: nat -> seq<int>, cls: int -> int, n: nat, d: nat)
    requires forall e: nat | e < d :: NoDup(block(e)) && forall x :: x in block(e) <==> 0 <= x < n && cls(x) == e
    requires forall x | 0 <= x < n :: cls(x) >= 0
    ensures NoDup(Blocks(block, d)) && forall x :: x in Blocks(block, d) <==> 0 <= x < n && cls(x) < d
  {
    if d > 0 {
      BlocksDistinct(block, cls, n, d - 1);
      Apart(Blocks(block, d - 1), block(d - 1));
      forall x ensures x in Blocks(block, d) <==> 0 <= x < n && cls(x) < d {
        assert x in Blocks(block, d) <==> x in Blocks(block, d - 1) || x in block(d - 1);
      }
    }
  }

  /** Every distance from 0 to n - 1 is visited exactly once. */
  lemma DeltasOnce(n: nat)
    requires n > 0
    ensures NoDup(Deltas(n)) && forall x :: x in Deltas(n) <==> 0 <= x < n
  {
    var block, cls := Block(n), (x: int) => Class(n, x);
    forall e: nat | e < n / 4 + 1
      ensures NoDup(block(e)) && forall x :: x in block(e) <==> 0 <= x < n && cls(x) == e
    {
      EmitIsClass(n, e);
    }
    forall x | 0 <= x < n ensures 0 <= cls(x) <= n / 4 {}
    BlocksDistinct(block, cls, n, n / 4 + 1);
  }
}
