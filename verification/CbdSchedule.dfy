/** Byte-balanced scheduling of collectives: every channel of a plan takes collectives in order until it
    has its share of the bytes; a collective left over starts the next channel. */
module CbdSchedule {
  import opened Arith
  import opened Sequences

  datatype Coll = Coll(count: nat, typeSize: nat, align: nat)

  predicate ValidColl(x: Coll) { x.count > 0 && x.typeSize > 0 && x.align > 0 }

  function Bytes(x: Coll): nat { x.count * x.typeSize }

  /** `count` elements, `bytes` bytes, from `offset` on are for channel `chan`. */
  datatype Elem = Elem(chan: nat, offset: nat, count: nat, bytes: nat)

  function Total(queue: seq<Coll>): nat {
    if queue == [] then 0 else Total(queue[..|queue| - 1]) + Bytes(queue[|queue| - 1])
  }

  /** A channel's share: an equal part of the total, rounded up to 16 bytes. */
  function Share(total: nat, usable: nat): nat
    requires usable > 0
  {
    DivUp(DivUp(total, usable), 16) * 16
  }

  /** The share is the least multiple of 16 with which the usable channels hold the total. */
  lemma SharesSuffice(total: nat, usable: nat)
    requires usable > 0
    ensures total <= Share(total, usable) * usable && Share(total, usable) % 16 == 0
    ensures Share(total, usable) > 0 ==> (Share(total, usable) - 16) * usable < total
  {
    LeastCover(total, usable, 16);
  }

  /** Consecutive, non-empty elements on increasing channels that cover the first `n` positions. */
  ghost predicate Tiles(elems: seq<Elem>, n: nat) {
    if elems == [] then n == 0
    else
      var k := |elems| - 1;
      && elems[k].count > 0 && n == elems[k].offset + elems[k].count && Tiles(elems[..k], elems[k].offset)
      && (k > 0 ==> elems[k - 1].chan < elems[k].chan)
  }

  lemma {:induction false} Within(elems: seq<Elem>, n: nat, j: nat)
    requires Tiles(elems, n) && j < |elems|
    ensures elems[j].offset + elems[j].count <= n
  {
    var k := |elems| - 1;
    if j < k { Within(elems[..k], elems[k].offset, j); }
  }

  /** Every position of the collective is in exactly one element. */
  lemma {:induction false} TiledOnce(elems: seq<Elem>, n: nat, e: nat) returns (i: nat)
    requires Tiles(elems, n) && e < n
    ensures i < |elems|
    ensures forall j | 0 <= j < |elems| :: elems[j].offset <= e < elems[j].offset + elems[j].count <==> j == i
    decreases |elems|
  {
    var k := |elems| - 1;
    if elems[k].offset <= e {
      i := k;
      forall j | 0 <= j < k ensures elems[j].offset + elems[j].count <= e { Within(elems[..k], elems[k].offset, j); }
    } else {
      i := TiledOnce(elems[..k], elems[k].offset, e);
      assert forall j | 0 <= j < k :: elems[..k][j] == elems[j];
    }
  }

  /** How much of the remaining elements a channel with `room` bytes left takes. */
  function Portion(x: Coll, room: nat, left: nat): nat
    requires ValidColl(x)
  {
    var enq := Min(room, left * x.typeSize);
    Min(DivUp(DivUp(enq, x.typeSize), x.align) * x.align, left)
  }

  lemma UpTo(x: nat, y: nat)
    requires y > 0
    ensures x <= DivUp(x, y) * y < x + y
  {
    var q := DivUp(x, y);
    if q > 0 { assert y * (q - 1) == q * y - y; }
  }

  /** Whole elements, then whole alignment units: less than one unit more than asked for. */
  lemma RoundElems(enq: nat, ts: nat, al: nat)
    requires enq > 0 && ts > 0 && al > 0
    ensures var a := DivUp(DivUp(enq, ts), al) * al; enq <= a * ts < enq + al * ts
  {
    var e := DivUp(enq, ts);
    UpTo(enq, ts);
    UpTo(e, al);
    var a := DivUp(e, al) * al;
    MulMono(e, a, ts);
    MulMono(a, e + al - 1, ts);
    assert (e + al - 1) * ts == e * ts + al * ts - ts;
  }

  lemma AskedFills(room: nat, left: nat, ts: nat, al: nat, enq: nat, a: nat)
    requires ts > 0 && enq == Min(room, left * ts) > 0 && enq <= a * ts < enq + al * ts
    ensures a > 0 && (a < left ==> room <= a * ts) && Min(a, left) * ts < room + al * ts
  {
    MulLess(0, a, ts);
    if a < left {
      MulMono(a + 1, left, ts);
      assert (a + 1) * ts == a * ts + ts;
    } else {
      MulMono(left, a, ts);
    }
  }

  /** A portion fills the channel or ends the collective, and exceeds the room by less than one
      alignment unit. */
  lemma PortionFills(x: Coll, room: nat, left: nat)
    requires ValidColl(x) && room > 0 && left > 0
    ensures 0 < Portion(x, room, left) <= left
    ensures Portion(x, room, left) == left || room <= Portion(x, room, left) * x.typeSize
    ensures Portion(x, room, left) == left || Portion(x, room, left) % x.align == 0
    ensures Portion(x, room, left) * x.typeSize < room + x.align * x.typeSize
  {
    var ts, al := x.typeSize, x.align;
    MulMono(1, left, ts);
    var enq := Min(room, left * ts);
    RoundElems(enq, ts, al);
    MulMod(al, DivUp(DivUp(enq, ts), al));
    AskedFills(room, left, ts, al, enq, DivUp(DivUp(enq, ts), al) * al);
  }

  // Scheduling one collective.

  ghost predicate Priced(x: Coll, elems: seq<Elem>) {
    forall i | 0 <= i < |elems| :: elems[i].bytes == elems[i].count * x.typeSize
  }

  /** The channel counters account for the elements on the first `c` channels; no channel that had room
      exceeds its share by a whole alignment unit. */
  ghost predicate Charged(max: nat, unit: nat, bytes0: seq<nat>, bytes: seq<nat>, elems: seq<Elem>, c: nat) {
    && c <= |bytes| == |bytes0|
    && (forall d | c <= d < |bytes| :: bytes[d] == bytes0[d])
    && (forall d | 0 <= d < c :: bytes0[d] <= bytes[d] && (bytes[d] == bytes0[d] || bytes[d] < max + unit))
    && forall i | 0 <= i < |elems| ::
         elems[i].chan < c && bytes0[elems[i].chan] < max
         && bytes[elems[i].chan] == bytes0[elems[i].chan] + elems[i].bytes
  }

  lemma PriceOne(x: Coll, elems: seq<Elem>, e: Elem)
    requires Priced(x, elems) && e.bytes == e.count * x.typeSize
    ensures Priced(x, elems + [e])
  {
    var more := elems + [e];
    forall i | 0 <= i < |more| ensures more[i].bytes == more[i].count * x.typeSize {
      assert more[i] == if i < |elems| then elems[i] else e;
    }
  }

  /** All channels full means nothing is left. */
  lemma NoneLeft(max: nat, bytes: seq<nat>, sum: nat, left: nat)
    requires (forall c | 0 <= c < |bytes| :: max <= bytes[c]) && Sum(bytes) + left == sum <= |bytes| * max
    ensures left == 0
  {
    SumAtLeast(bytes, max);
  }

  /** What a channel takes, from its room and what is left. */
  method TakePortion(x: Coll, room: nat, left: nat) returns (count: nat, enq: nat)
    requires ValidColl(x) && room > 0 && left > 0
    ensures 0 < count <= left && enq == count * x.typeSize && (count == left || room <= enq)
    ensures count == left || count % x.align == 0
    ensures enq < room + x.align * x.typeSize && 0 <= left * x.typeSize - enq == (left - count) * x.typeSize
  {
    PortionFills(x, room, left);
    count := Portion(x, room, left);
    enq := count * x.typeSize;
    MulMono(count, left, x.typeSize);
  }

  /** Where the loop over the channels stands. */
  datatype Stand = Stand(elems: seq<Elem>, bytes: seq<nat>, left: nat, leftBytes: nat, offset: nat)

  /** What is scheduled is consecutive and accounted for, and every channel passed is full unless
      nothing is left. */
  ghost predicate Balanced(count: nat, max: nat, unit: nat, bytes0: seq<nat>, sum: nat, s: Stand, c: nat) {
    && c <= |s.bytes| && s.offset + s.left == count && Tiles(s.elems, s.offset)
    && Charged(max, unit, bytes0, s.bytes, s.elems, c) && Sum(s.bytes) + s.leftBytes == sum
    && (s.left > 0 ==> forall d | 0 <= d < c :: max <= s.bytes[d])
  }

  /** No channel has any bytes before the ones in front of it have their share. */
  ghost predicate InFront(max: nat, bytes: seq<nat>) {
    forall c, d | 0 <= c < d < |bytes| && bytes[d] > 0 :: max <= bytes[c]
  }

  /** All elements but the one that ends the collective are whole alignment units. */
  ghost predicate Units(x: Coll, elems: seq<Elem>, left: nat)
    requires x.align > 0
  {
    forall i | 0 <= i < |elems| && (i + 1 < |elems| || left > 0) :: elems[i].count % x.align == 0
  }

  /** Bytes and elements agree. */
  ghost predicate Exact(x: Coll, s: Stand)
    requires x.align > 0
  {
    s.leftBytes == s.left * x.typeSize && Priced(x, s.elems) && Units(x, s.elems, s.left)
  }

  /** Bytes of the elements placed on channel `c`. */
  function On(elems: seq<Elem>, c: nat): nat {
    if elems == [] then 0
    else On(elems[..|elems| - 1], c) + if elems[|elems| - 1].chan == c then elems[|elems| - 1].bytes else 0
  }

  /** The counters grew by exactly what was placed on their channels. */
  ghost predicate Accounted(bytes0: seq<nat>, bytes: seq<nat>, elems: seq<Elem>) {
    |bytes| == |bytes0| && forall d: nat | d < |bytes| :: bytes[d] == bytes0[d] + On(elems, d)
  }

  lemma FillAccounted(bytes0: seq<nat>, s: Stand, c: nat, count: nat, enq: nat)
    requires Accounted(bytes0, s.bytes, s.elems) && c < |s.bytes| && count <= s.left && enq <= s.leftBytes
    ensures var t := Filled(s, c, count, enq); Accounted(bytes0, t.bytes, t.elems)
  {
    var e := Elem(c, s.offset, count, enq);
    assert (s.elems + [e])[..|s.elems|] == s.elems;
  }

  function Filled(s: Stand, c: nat, count: nat, enq: nat): Stand
    requires c < |s.bytes| && count <= s.left && enq <= s.leftBytes
  {
    Stand(s.elems + [Elem(c, s.offset, count, enq)], s.bytes[c := s.bytes[c] + enq], s.left - count, s.leftBytes - enq,
          s.offset + count)
  }

  lemma FillTiled(s: Stand, c: nat, count: nat, enq: nat)
    requires Tiles(s.elems, s.offset) && c < |s.bytes| && 0 < count <= s.left && enq <= s.leftBytes
    requires forall i | 0 <= i < |s.elems| :: s.elems[i].chan < c
    ensures var t := Filled(s, c, count, enq); Tiles(t.elems, t.offset)
  {
    var e := Elem(c, s.offset, count, enq);
    assert (s.elems + [e])[..|s.elems|] == s.elems;
  }

  lemma FillSum(s: Stand, c: nat, count: nat, enq: nat)
    requires c < |s.bytes| && count <= s.left && enq <= s.leftBytes
    ensures var t := Filled(s, c, count, enq); Sum(t.bytes) + t.leftBytes == Sum(s.bytes) + s.leftBytes
  {
    SumUpdate(s.bytes, c, s.bytes[c] + enq);
  }

  lemma FillCharged(max: nat, unit: nat, bytes0: seq<nat>, s: Stand, c: nat, count: nat, enq: nat)
    requires Charged(max, unit, bytes0, s.bytes, s.elems, c) && c < |s.bytes| && s.bytes[c] < max
    requires 0 < count <= s.left && enq <= s.leftBytes && s.bytes[c] + enq < max + unit
    ensures var t := Filled(s, c, count, enq); Charged(max, unit, bytes0, t.bytes, t.elems, c + 1)
  {
  }

  lemma FillBalanced(n: nat, max: nat, unit: nat, bytes0: seq<nat>, sum: nat, s: Stand, c: nat, count: nat, enq: nat,
                     t: Stand)
    requires Balanced(n, max, unit, bytes0, sum, s, c) && c < |s.bytes| && s.bytes[c] < max && 0 < count <= s.left
             && enq <= s.leftBytes
    requires (count < s.left ==> max - s.bytes[c] <= enq) && s.bytes[c] + enq < max + unit
             && t == Filled(s, c, count, enq)
    ensures Balanced(n, max, unit, bytes0, sum, t, c + 1)
  {
    FillTiled(s, c, count, enq);
    FillSum(s, c, count, enq);
    FillCharged(max, unit, bytes0, s, c, count, enq);
  }

  lemma FillExact(x: Coll, s: Stand, c: nat, count: nat, enq: nat)
    requires x.align > 0 && Exact(x, s) && c < |s.bytes| && 0 < count <= s.left && enq <= s.leftBytes
    requires count == s.left || count % x.align == 0
    requires enq == count * x.typeSize && s.left * x.typeSize - enq == (s.left - count) * x.typeSize
    ensures Exact(x, Filled(s, c, count, enq))
  {
    PriceOne(x, s.elems, Elem(c, s.offset, count, enq));
  }

  lemma FillFront(max: nat, s: Stand, c: nat, count: nat, enq: nat)
    requires InFront(max, s.bytes) && c < |s.bytes| && count <= s.left && enq <= s.leftBytes && s.bytes[c] < max
    requires forall d | 0 <= d < c :: max <= s.bytes[d]
    ensures InFront(max, Filled(s, c, count, enq).bytes)
  {
  }

  /** A channel with room takes its portion; a full one is passed over. */
  method FillChannel(x: Coll, max: nat, ghost unit: nat, ghost bytes0: seq<nat>, ghost sum: nat, s: Stand, c: nat)
    returns (t: Stand)
    requires ValidColl(x) && unit == x.align * x.typeSize && Balanced(x.count, max, unit, bytes0, sum, s, c)
             && Exact(x, s)
    requires c < |s.bytes| && s.leftBytes > 0 && Accounted(bytes0, s.bytes, s.elems) && InFront(max, s.bytes)
    ensures Balanced(x.count, max, unit, bytes0, sum, t, c + 1) && Exact(x, t) && Accounted(bytes0, t.bytes, t.elems)
    ensures InFront(max, t.bytes)
  {
    if max <= s.bytes[c] { return s; }
    MulLess(0, s.left, x.typeSize);
    var count, enq := TakePortion(x, max - s.bytes[c], s.left);
    t := Filled(s, c, count, enq);
    FillBalanced(x.count, max, unit, bytes0, sum, s, c, count, enq, t);
    FillExact(x, s, c, count, enq);
    FillAccounted(bytes0, s, c, count, enq);
    FillFront(max, s, c, count, enq);
  }

  /** Schedule `x` on the channels whose counters are `bytes0`, as long as they have room. */
  method AddColl(x: Coll, max: nat, bytes0: seq<nat>) returns (elems: seq<Elem>, bytes: seq<nat>)
    requires ValidColl(x) && Sum(bytes0) + Bytes(x) <= |bytes0| * max && InFront(max, bytes0)
    ensures InFront(max, bytes)
    ensures Tiles(elems, x.count) && Priced(x, elems) && Units(x, elems, 0) && Accounted(bytes0, bytes, elems)
    ensures Charged(max, x.align * x.typeSize, bytes0, bytes, elems, |bytes0|) && Sum(bytes) == Sum(bytes0) + Bytes(x)
  {
    ghost var unit, sum := x.align * x.typeSize, Sum(bytes0) + Bytes(x);
    var s, c := Stand([], bytes0, x.count, Bytes(x), 0), 0;
    while c < |bytes0| && s.leftBytes > 0
      invariant 0 <= c <= |bytes0| == |s.bytes| && Balanced(x.count, max, unit, bytes0, sum, s, c) && Exact(x, s)
      invariant Accounted(bytes0, s.bytes, s.elems) && InFront(max, s.bytes)
    {
      s := FillChannel(x, max, unit, bytes0, sum, s, c);
      c := c + 1;
    }
    AllServed(x, max, unit, bytes0, sum, s, c);
    elems, bytes := s.elems, s.bytes;
  }

  lemma AllServed(x: Coll, max: nat, unit: nat, bytes0: seq<nat>, sum: nat, s: Stand, c: nat)
    requires ValidColl(x) && Balanced(x.count, max, unit, bytes0, sum, s, c) && Exact(x, s) && |s.bytes| == |bytes0|
    requires sum <= |bytes0| * max && (c == |bytes0| || s.leftBytes == 0)
    ensures s.left == 0 && s.leftBytes == 0 && Charged(max, unit, bytes0, s.bytes, s.elems, |bytes0|)
  {
    if s.leftBytes == 0 {
      ZeroProduct(s.left, x.typeSize);
    } else if s.left > 0 {
      NoneLeft(max, s.bytes, sum, s.leftBytes);
    }
    ChargedOn(max, unit, bytes0, s.bytes, s.elems, c);
  }

  lemma ZeroProduct(a: nat, k: nat)
    requires k > 0 && a * k == 0
    ensures a == 0
  {
    if a > 0 { MulMono(1, a, k); }
  }

  lemma ChargedOn(max: nat, unit: nat, bytes0: seq<nat>, bytes: seq<nat>, elems: seq<Elem>, c: nat)
    requires Charged(max, unit, bytes0, bytes, elems, c)
    ensures Charged(max, unit, bytes0, bytes, elems, |bytes0|)
  {
  }

  // Whole plans.

  lemma {:induction false} TotalSplit(a: seq<Coll>, b: seq<Coll>)
    ensures Total(a + b) == Total(a) + Total(b)
    decreases |b|
  {
    if b == [] {
      assert a + b == a;
    } else {
      TotalSplit(a, b[..|b| - 1]);
      assert (a + b)[..|a + b| - 1] == a + b[..|b| - 1];
    }
  }

  lemma TotalNext(queue: seq<Coll>, i: nat)
    requires i < |queue|
    ensures Total(queue[..i + 1]) == Total(queue[..i]) + Bytes(queue[i]) && Total(queue[..i + 1]) <= Total(queue)
  {
    assert queue[..i + 1][..i] == queue[..i];
    assert queue == queue[..i + 1] + queue[i + 1..];
    TotalSplit(queue[..i + 1], queue[i + 1..]);
  }

  /** Bytes a plan places on channel `c`. */
  function Load(work: seq<seq<Elem>>, c: nat): nat {
    if work == [] then 0 else Load(work[..|work| - 1], c) + On(work[|work| - 1], c)
  }

  /** No channel is given a whole alignment unit, `unit` bounding those of the plan, more than its share. */
  ghost predicate WithinShare(max: nat, unit: nat, work: seq<seq<Elem>>, usable: nat) {
    forall c: nat | c < usable :: Load(work, c) == 0 || Load(work, c) < max + unit
  }

  /** Stated with the total and the number of channels alone: no channel is given more than an equal part by a
      whole alignment unit and 16 bytes, and none has any bytes before the ones in front of it have an equal part. */
  ghost predicate Even(total: nat, unit: nat, work: seq<seq<Elem>>, usable: nat) {
    && (forall c: nat | c < usable :: Load(work, c) * usable < total + usable * (16 + unit))
    && forall c: nat, d: nat | c < d < usable && Load(work, d) > 0 :: total <= Load(work, c) * usable
  }

  lemma ShareIsEven(total: nat, unit: nat, work: seq<seq<Elem>>, bytes: seq<nat>, usable: nat)
    requires usable > 0 && |bytes| == usable && Loads(work, bytes) && InFront(Share(total, usable), bytes)
    requires WithinShare(Share(total, usable), unit, work, usable)
    ensures Even(total, unit, work, usable)
  {
    var max := Share(total, usable);
    SharesSuffice(total, usable);
    forall c: nat | c < usable ensures Load(work, c) * usable < total + usable * (16 + unit) {
      BelowPart(total, usable, max, unit, Load(work, c));
    }
    forall c: nat, d: nat | c < d < usable && Load(work, d) > 0 ensures total <= Load(work, c) * usable {
      assert bytes[d] == Load(work, d) && bytes[c] == Load(work, c);
      MulMono(max, bytes[c], usable);
    }
  }

  lemma BelowPart(total: nat, usable: nat, max: nat, unit: nat, load: nat)
    requires usable > 0 && (max > 0 ==> (max - 16) * usable < total) && (load == 0 || load < max + unit)
    ensures load * usable < total + usable * (16 + unit)
  {
    MulMono(load, max + unit, usable);
    assert (max + unit) * usable == max * usable + unit * usable && (max - 16) * usable == max * usable - 16 * usable;
    assert usable * (16 + unit) == 16 * usable + unit * usable;
    MulMono(0, unit, usable);
  }

  ghost predicate Loads(work: seq<seq<Elem>>, bytes: seq<nat>) {
    forall c: nat | c < |bytes| :: bytes[c] == Load(work, c)
  }

  lemma AddLoad(max: nat, unit: nat, unit': nat, work: seq<seq<Elem>>, bytes0: seq<nat>, bytes: seq<nat>,
                elems: seq<Elem>)
    requires Accounted(bytes0, bytes, elems) && Charged(max, unit', bytes0, bytes, elems, |bytes0|) && unit' <= unit
    requires Loads(work, bytes0) && WithinShare(max, unit, work, |bytes0|)
    ensures Loads(work + [elems], bytes) && WithinShare(max, unit, work + [elems], |bytes|)
  {
    assert (work + [elems])[..|work|] == work;
    forall c: nat | c < |bytes| ensures bytes[c] == Load(work + [elems], c) {
      assert bytes[c] == bytes0[c] + On(elems, c);
    }
  }

  /** The elements cover the collective, on the usable channels, in whole alignment units up to the last. */
  ghost predicate Placed(x: Coll, usable: nat, elems: seq<Elem>) {
    && Tiles(elems, x.count) && Priced(x, elems) && (forall k | 0 <= k < |elems| :: elems[k].chan < usable)
    && x.align > 0 && Units(x, elems, 0)
  }

  ghost predicate Covered(queue: seq<Coll>, usable: nat, work: seq<seq<Elem>>) {
    |work| <= |queue| && forall j | 0 <= j < |work| :: Placed(queue[j], usable, work[j])
  }

  lemma {:induction false} AddCovered(queue: seq<Coll>, usable: nat, work: seq<seq<Elem>>, elems: seq<Elem>)
    requires Covered(queue, usable, work) && |work| < |queue| && Placed(queue[|work|], usable, elems)
    ensures Covered(queue, usable, work + [elems])
  {
    var more := work + [elems];
    assert more[|work|] == elems && forall j | 0 <= j < |work| :: more[j] == work[j];
  }

  /** One plan: the share is taken from what is still queued, and the budget ends the plan after
      `cut` collectives.  Every scheduled collective is covered completely, and the load stays balanced. */
  method SchedulePlan(queue: seq<Coll>, usable: nat, cut: nat, ghost unit: nat) returns (work: seq<seq<Elem>>)
    requires usable > 0 && cut <= |queue| && forall i | 0 <= i < |queue| :: ValidColl(queue[i])
    requires forall i | 0 <= i < cut :: queue[i].align * queue[i].typeSize <= unit
    ensures |work| == cut && Covered(queue, usable, work)
    ensures Even(Total(queue), unit, work, usable)
  {
    var max := Share(Total(queue), usable);
    SharesSuffice(Total(queue), usable);
    SumZero(usable);
    var bytes: seq<nat> := seq(usable, c => 0);
    work := [];
    for i := 0 to cut
      invariant |work| == i && |bytes| == usable && Sum(bytes) == Total(queue[..i])
      invariant Covered(queue, usable, work) && Loads(work, bytes) && WithinShare(max, unit, work, usable)
      invariant InFront(max, bytes)
    {
      TotalNext(queue, i);
      var elems, bytes' := AddColl(queue[i], max, bytes);
      AddLoad(max, unit, queue[i].align * queue[i].typeSize, work, bytes, bytes', elems);
      AddCovered(queue, usable, work, elems);
      work, bytes := work + [elems], bytes';
    }
    ShareIsEven(Total(queue), unit, work, bytes, usable);
  }

  /** The largest alignment unit of the first `n` collectives. */
  ghost function LargestUnit(queue: seq<Coll>, n: nat): (u: nat)
    requires n <= |queue|
    ensures forall i | 0 <= i < n :: queue[i].align * queue[i].typeSize <= u
  {
    if n == 0 then 0 else Max(LargestUnit(queue, n - 1), queue[n - 1].align * queue[n - 1].typeSize)
  }

  /** Any sequence of budget cuts: the queue is served by one plan after the other, and every
      collective is covered completely in the plan that takes it. */
  method ScheduleAll(queue: seq<Coll>, usable: nat, cuts: seq<nat>) returns (work: seq<seq<Elem>>, rest: seq<Coll>)
    requires usable > 0 && forall i | 0 <= i < |queue| :: ValidColl(queue[i])
    ensures |work| + |rest| == |queue| && rest == queue[|work|..]
    ensures forall i | 0 <= i < |work| :: Placed(queue[i], usable, work[i])
  {
    work, rest := [], queue;
    for p := 0 to |cuts|
      invariant |work| + |rest| == |queue| && rest == queue[|work|..]
      invariant forall i | 0 <= i < |work| :: Placed(queue[i], usable, work[i])
    {
      var cut := if cuts[p] < |rest| then cuts[p] else |rest|;
      var more := SchedulePlan(rest, usable, cut, LargestUnit(rest, cut));
      assert forall i | 0 <= i < cut :: rest[i] == queue[|work| + i];
      work, rest := work + more, rest[cut..];
    }
  }
}
