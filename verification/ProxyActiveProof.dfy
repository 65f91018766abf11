/** Free pool, active list and waiting chains stay a partition of all elements, whatever is appended
    and removed, and every slot serves its operations in the order they arrived. */
module ProxyActiveProof {
  import opened PlacedLists
  import opened ProxyActive

  lemma {:induction false} FlatConcat(subs: seq<seq<Op>>, a: seq<int>, b: seq<int>)
    ensures Flat(subs, a + b) == Flat(subs, a) + Flat(subs, b)
    decreases |b|
  {
    if b == [] {
      assert a + b == a;
    } else {
      var c, x := b[..|b| - 1], b[|b| - 1];
      var last := if 0 <= x < |subs| then subs[x] else [];
      FlatConcat(subs, a, c);
      assert (a + b)[..|a + b| - 1] == a + c && (a + b)[|a + b| - 1] == x;
      assert Flat(subs, a) + Flat(subs, c) + last == Flat(subs, a) + (Flat(subs, c) + last);
    }
  }

  lemma {:induction false} FlatSame(subs: seq<seq<Op>>, subs': seq<seq<Op>>, q: seq<int>)
    requires |subs| <= |subs'| && forall i | 0 <= i < |q| :: 0 <= q[i] < |subs| && subs'[q[i]] == subs[q[i]]
    ensures Flat(subs', q) == Flat(subs, q)
    decreases |q|
  {
    if q != [] {
      FlatSame(subs, subs', q[..|q| - 1]);
    }
  }

  lemma FlatOne(subs: seq<seq<Op>>, x: int)
    requires 0 <= x < |subs|
    ensures Flat(subs, [x]) == subs[x]
  {
    assert [x][..0] == [];
  }

  /** Slot `s` keeps its elements and what they hold. */
  ghost predicate SameQueue(st: St, t: St, s: nat)
    requires Shaped(st) && Shaped(t)
  {
    && SameFor(st.own, st.peer, t.own, t.peer, InQueue(s)) && |t.queue| == |st.queue| && s < |st.queue|
    && (forall x | 0 <= x < |st.own| && st.own[x] == InQueue(s) ::
          t.slot[x] == st.slot[x] && t.subs[x] == st.subs[x] && t.ready[x] == st.ready[x])
    && t.append[s] == st.append[s] && t.queue[s] == st.queue[s]
    && t.arrived[s] == st.arrived[s] && t.finished[s] == st.finished[s]
  }

  lemma KeepQueue(st: St, t: St, s: nat)
    requires Shaped(st) && Shaped(t) && SameQueue(st, t, s) && QueueOk(st, s)
    ensures QueueOk(t, s)
  {
    var q := st.queue[s];
    Keep(st.own, st.peer, t.own, t.peer, InQueue(s), if q == [] then -1 else q[0], q);
    KeepArrivals(st, t, s);
  }

  lemma KeepArrivals(st: St, t: St, s: nat)
    requires Shaped(st) && Shaped(t) && s < |st.queue| == |t.queue| && ArrivalsOk(st, s) && |st.subs| <= |t.subs|
    requires forall x | x in st.queue[s] :: 0 <= x < |st.subs| && t.subs[x] == st.subs[x]
    requires t.queue[s] == st.queue[s] && t.arrived[s] == st.arrived[s] && t.finished[s] == st.finished[s]
    ensures ArrivalsOk(t, s)
  {
    assert forall i | 0 <= i < |st.queue[s]| :: st.queue[s][i] in st.queue[s];
    FlatSame(st.subs, t.subs, st.queue[s]);
  }

  // Refilling the pool.

  lemma GrowQueue(st: St, n: nat, s: nat)
    requires Shaped(st) && n > 0 && st.pool == -1 && s < |st.queue| && QueueOk(st, s)
    ensures Shaped(Grow(st, n)) && QueueOk(Grow(st, n), s)
  {
    var t, q := Grow(st, n), st.queue[s];
    assert forall i | 0 <= i < |q| :: q[i] in q;
    KeepArrivals(st, t, s);
  }

  lemma GrowFree(st: St, n: nat)
    requires Shaped(st) && n > 0 && st.pool == -1 && HasList(st.own, st.next, Free, st.pool, st.free)
    ensures var t := Grow(st, n); HasList(t.own, t.next, Free, t.pool, t.free)
  {
    var t, e := Grow(st, n), |st.next|;
    forall x | 0 <= x < |t.own| ensures x in t.free <==> t.own[x] == Free {
      if e <= x { assert t.free[x - e] == x; }
    }
  }

  lemma GrowInv(st: St, n: nat)
    requires Inv(st) && n > 0
    ensures Inv(Grow(st, n)) && HasFree(Grow(st, n)) && (NoneHeld(st) ==> NoneHeld(Grow(st, n)))
  {
    var t := Grow(st, n);
    if st.pool == -1 {
      GrowFree(st, n);
      forall s: nat | s < |t.queue| ensures QueueOk(t, s) {
        assert QueueOk(st, s);
        GrowQueue(st, n, s);
      }
    } else {
      assert st.pool in st.free;
    }
  }

  // Taking an element.

  lemma HeadsInQueues(st: St)
    requires Inv(st)
    ensures forall k | 0 <= k < |st.order| ::
              var x := Heads(st.queue, st.order)[k]; 0 <= x < |st.own| && st.own[x] == InQueue(st.order[k])
  {
    forall k | 0 <= k < |st.order|
      ensures var x := Heads(st.queue, st.order)[k]; 0 <= x < |st.own| && st.own[x] == InQueue(st.order[k])
    {
      var s := st.order[k];
      assert QueueOk(st, s);
      assert st.queue[s][0] in st.queue[s];
    }
  }

  lemma TakeFree(st: St)
    requires Inv(st) && HasFree(st)
    ensures var t := Take(st);
            HasList(t.own, t.next, Free, t.pool, t.free) && Fresh(t, st.pool) && st.own[st.pool] == Free
  {
    var t, x := Take(st), st.pool;
    assert x in st.free;
    ListRest(st.own, st.next, Free, st.free);
    MoveAway(st.own, Free, [x], st.free[1..], Held);
    Relink(st.next, t.next, st.free[1..]);
  }

  lemma TakeQueue(st: St, s: nat)
    requires Inv(st) && HasFree(st) && st.own[st.pool] == Free && s < |st.queue|
    ensures QueueOk(Take(st), s)
  {
    var t, x := Take(st), st.pool;
    assert QueueOk(st, s);
    OtherPlace(st.own, st.peer, [x], Free, Held, t.peer, InQueue(s));
    KeepQueue(st, t, s);
  }

  lemma TakeInv(st: St)
    requires Inv(st) && HasFree(st)
    ensures Inv(Take(st)) && Fresh(Take(st), st.pool)
  {
    var t := Take(st);
    TakeFree(st);
    HeadsInQueues(st);
    assert ActiveOk(t);
    forall s: nat | s < |t.queue| ensures QueueOk(t, s) { TakeQueue(st, s); }
  }

  // Appending to the active list.

  lemma PutFree(st: St, x: int, s: nat, own': seq<Place>, next': seq<int>)
    requires Shaped(st) && 0 <= x < |st.own| && st.own[x] == Held && HasList(st.own, st.next, Free, st.pool, st.free)
    requires own' == Move(st.own, [x], InQueue(s)) && |next'| == |st.next|
    requires forall y | 0 <= y < |st.own| && next'[y] != st.next[y] :: st.own[y].InQueue?
    ensures HasList(own', next', Free, st.pool, st.free)
  {
    assert SameFor(st.own, st.next, own', next', Free);
    Keep(st.own, st.next, own', next', Free, st.pool, st.free);
  }

  lemma ActiveKeepsQueue(st: St, x: int, o: Op, s: nat)
    requires Fresh(st, x) && o.slot < |st.queue| && s < |st.queue| && s != o.slot
    ensures SameQueue(st, PutActive(st, x, o), s)
  {
  }

  lemma BehindKeepsQueue(st: St, x: int, o: Op, s: nat)
    requires Fresh(st, x) && o.slot < |st.queue| && s < |st.queue| && s != o.slot
    requires 0 <= st.append[o.slot] < |st.own| && st.own[st.append[o.slot]] == InQueue(o.slot)
    ensures SameQueue(st, PutBehind(st, x, o), s)
  {
  }

  lemma PutQueues(st: St, x: int, o: Op, t: St, s: nat)
    requires Inv(st) && Fresh(st, x) && o.slot < |st.queue| && s < |st.queue| && s != o.slot
    requires t == PutActive(st, x, o) || (st.queue[o.slot] != [] && t == PutBehind(st, x, o))
    ensures QueueOk(t, s)
  {
    assert QueueOk(st, s) && QueueOk(st, o.slot);
    if t == PutActive(st, x, o) {
      ActiveKeepsQueue(st, x, o, s);
    } else {
      var q := st.queue[o.slot];
      assert q[|q| - 1] in q;
      BehindKeepsQueue(st, x, o, s);
    }
    KeepQueue(st, t, s);
  }

  lemma PutFlat(subs: seq<seq<Op>>, subs': seq<seq<Op>>, q: seq<int>, x: int, o: Op, done: seq<Op>)
    requires 0 <= x < |subs| && subs' == subs[x := [o]] && x !in q && forall i | 0 <= i < |q| :: 0 <= q[i] < |subs|
    ensures done + Flat(subs, q) + [o] == done + Flat(subs', q + [x])
  {
    assert forall i | 0 <= i < |q| :: q[i] in q;
    FlatConcat(subs', q, [x]);
    FlatSame(subs, subs', q);
    FlatOne(subs', x);
    assert done + Flat(subs, q) + [o] == done + (Flat(subs, q) + [o]);
  }

  lemma PutLinks(st: St, x: int, o: Op, t: St)
    requires Inv(st) && Fresh(st, x) && o.slot < |st.queue|
    requires if st.queue[o.slot] == [] then t == PutActive(st, x, o) else t == PutBehind(st, x, o)
    ensures var q := st.queue[o.slot] + [x]; At(t.own, InQueue(o.slot), q) && Linked(t.peer, q) && Closed(t.peer, q)
  {
    var s := o.slot;
    var q := st.queue[s];
    assert QueueOk(st, s);
    MoveOnto(st.own, Held, InQueue(s), [x], q, q + [x]);
    assert st.peer[x := -1] == st.peer;
    assert q != [] ==> q[|q| - 1] in q;
    AppendChain(st.peer, t.peer, q, x);
  }

  lemma PutElems(st: St, x: int, o: Op, t: St)
    requires Shaped(st) && Fresh(st, x) && o.slot < |st.queue| && ChainOk(st, o.slot) && ElemsOk(st, o.slot)
    requires t == PutActive(st, x, o) || t == PutBehind(st, x, o)
    ensures Shaped(t) && ElemsOk(t, o.slot)
  {
    var q := st.queue[o.slot];
    assert HeadOf(t.queue, o.slot) == if q == [] then x else q[0];
  }

  lemma PutOwnQueue(st: St, x: int, o: Op, t: St)
    requires Inv(st) && Fresh(st, x) && o.slot < |st.queue|
    requires if st.queue[o.slot] == [] then t == PutActive(st, x, o) else t == PutBehind(st, x, o)
    ensures QueueOk(t, o.slot)
  {
    var s := o.slot;
    var q := st.queue[s];
    assert QueueOk(st, s);
    PutLinks(st, x, o, t);
    PutElems(st, x, o, t);
    assert x !in q && forall i | 0 <= i < |q| :: q[i] in q;
    PutFlat(st.subs, t.subs, q, x, o, st.finished[s]);
  }

  lemma HeadsAppend(queue: seq<seq<int>>, order: seq<int>, s: nat, x: int)
    requires s < |queue| && s !in order && queue[s] == []
    ensures Heads(queue[s := [x]], order + [s]) == Heads(queue, order) + [x]
  {
    forall k | 0 <= k < |order| ensures order[k] != s { assert order[k] in order; }
  }

  lemma PutActiveList(st: St, x: int, o: Op)
    requires Inv(st) && Fresh(st, x) && o.slot < |st.queue| && st.queue[o.slot] == []
    ensures var t := PutActive(st, x, o); ActiveOk(t) && HasList(t.own, t.next, Free, t.pool, t.free)
  {
    var t, h := PutActive(st, x, o), Heads(st.queue, st.order);
    HeadsInQueues(st);
    HeadsAppend(st.queue, st.order, o.slot, x);
    assert st.queue[o.slot] + [x] == [x];
    assert st.next[x := -1] == st.next;
    HeadsDistinct(st);
    forall k | 0 <= k < |h| ensures h[k] != x {}
    AppendChain(st.next, t.next, h, x);
    PutFree(st, x, o.slot, t.own, t.next);
  }

  lemma HeadsDistinct(st: St)
    requires Inv(st)
    ensures NoDup(Heads(st.queue, st.order))
  {
    HeadsInQueues(st);
    var h := Heads(st.queue, st.order);
    forall i, j | 0 <= i < j < |h| ensures h[i] != h[j] { assert st.own[h[i]] != st.own[h[j]]; }
  }

  lemma PutActiveInv(st: St, x: int, o: Op)
    requires Inv(st) && Fresh(st, x) && o.slot < |st.queue| && st.queue[o.slot] == []
    ensures Inv(PutActive(st, x, o))
  {
    var t := PutActive(st, x, o);
    PutActiveList(st, x, o);
    forall s: nat | s < |t.queue| ensures QueueOk(t, s) {
      if s == o.slot { PutOwnQueue(st, x, o, t); } else { PutQueues(st, x, o, t, s); }
    }
    forall s | 0 <= s < |t.queue| ensures s in t.order <==> t.queue[s] != [] {
      assert s in st.order <==> st.queue[s] != [];
    }
  }

  lemma PutBehindInv(st: St, x: int, o: Op)
    requires Inv(st) && Fresh(st, x) && o.slot < |st.queue| && st.queue[o.slot] != []
    ensures Inv(PutBehind(st, x, o))
  {
    var t := PutBehind(st, x, o);
    forall s: nat | s < |t.queue| ensures QueueOk(t, s) {
      if s == o.slot { PutOwnQueue(st, x, o, t); } else { PutQueues(st, x, o, t, s); }
    }
    PutFree(st, x, o.slot, t.own, t.next);
    assert Heads(t.queue, t.order) == Heads(st.queue, st.order);
    forall s | 0 <= s < |t.queue| ensures s in t.order <==> t.queue[s] != [] {
      assert s in st.order <==> st.queue[s] != [];
    }
  }

  // Joining a group, and starting to run.

  lemma JoinArrivals(st: St, o: Op)
    requires Shaped(st) && o.slot < |st.queue| && st.queue[o.slot] != [] && ChainOk(st, o.slot)
             && ArrivalsOk(st, o.slot)
    ensures ArrivalsOk(Join(st, o), o.slot)
  {
    var t, s := Join(st, o), o.slot;
    var q := st.queue[s];
    var x, front := q[|q| - 1], q[..|q| - 1];
    assert forall i | 0 <= i < |q| :: q[i] in q;
    FlatSame(st.subs, t.subs, front);
    assert st.finished[s] + (Flat(st.subs, front) + st.subs[x]) + [o]
           == st.finished[s] + (Flat(st.subs, front) + (st.subs[x] + [o]));
  }

  lemma JoinInv(st: St, o: Op)
    requires Inv(st) && o.slot < |st.queue| && st.queue[o.slot] != []
    ensures Inv(Join(st, o))
  {
    var t := Join(st, o);
    assert QueueOk(st, o.slot);
    JoinArrivals(st, o);
    var q := st.queue[o.slot];
    assert q[|q| - 1] in q;
    forall s: nat | s < |t.queue| ensures QueueOk(t, s) {
      assert QueueOk(st, s);
      if s != o.slot { KeepQueue(st, t, s); }
    }
  }

  lemma CanRemove(st: St, k: nat)
    requires Inv(st) && k < |st.order|
    ensures Removable(st, k)
  {
    var q := st.queue[st.order[k]];
    assert QueueOk(st, st.order[k]);
    assert forall i | 0 <= i < |q| :: q[i] in q;
    HeadsInQueues(st);
  }

  /** The element at the head of an active slot starts to run. */
  ghost function Run(st: St, k: nat): St
    requires Removable(st, k)
  {
    st.(ready := st.ready[Heads(st.queue, st.order)[k] := false])
  }

  lemma RunQueue(st: St, k: nat, s: nat)
    requires Inv(st) && Removable(st, k) && s < |st.queue|
    ensures QueueOk(Run(st, k), s)
  {
    HeadsInQueues(st);
    assert QueueOk(st, s);
    assert ElemsOk(Run(st, k), s);
  }

  lemma RunInv(st: St, k: nat)
    requires Inv(st) && Removable(st, k)
    ensures Inv(Run(st, k))
  {
    forall s: nat | s < |st.queue| ensures QueueOk(Run(st, k), s) { RunQueue(st, k, s); }
  }

  // Removing a finished element.

  /** What the head of the `k`-th active slot, the one behind it and the other heads are. */
  ghost predicate HeadFacts(st: St, k: nat)
    requires Removable(st, k)
  {
    var s, h := st.order[k], Heads(st.queue, st.order);
    var q := st.queue[s];
    && st.own[q[0]] == InQueue(s) && h[k] == q[0] && NoDup(h)
    && (|q| > 1 ==> st.own[q[1]] == InQueue(s) && q[1] !in h && q[1] != q[0])
    && forall j | 0 <= j < |h| :: st.own[h[j]].InQueue?
  }

  lemma RemoveFacts(st: St, k: nat)
    requires Inv(st) && Removable(st, k)
    ensures HeadFacts(st, k)
  {
    HeadsInQueues(st);
    HeadsDistinct(st);
    var s, h := st.order[k], Heads(st.queue, st.order);
    var q := st.queue[s];
    assert QueueOk(st, s);
    assert q[0] in q && (|q| > 1 ==> q[1] in q);
    forall j | 0 <= j < |h| && |q| > 1 ensures h[j] != q[1] {
      assert j == k ==> h[j] == q[0];
    }
  }

  lemma FreeGains(own: seq<Place>, next: seq<int>, next': seq<int>, pool: int, free: seq<int>, x: int)
    requires HasList(own, next, Free, pool, free) && |next'| == |next| && 0 <= x < |next| && next'[x] == pool
    requires forall y | 0 <= y < |own| && own[y] == Free :: next'[y] == next[y]
    ensures Linked(next', [x] + free) && Closed(next', [x] + free)
  {
    forall i | 0 <= i < |free| ensures next'[free[i]] == next[free[i]] { assert free[i] in free; }
    if free != [] { JoinChains(next, next', [x], free); } else { assert [x] + free == [x]; }
  }

  lemma UnlinkedFree(st: St, k: nat, free: seq<int>)
    requires Removable(st, k) && HeadFacts(st, k) && HasList(st.own, st.next, Free, st.pool, free)
    ensures var q := st.queue[st.order[k]];
            var next' := Unlinked(st.next, st.pool, Heads(st.queue, st.order), k, q);
            Linked(next', [q[0]] + free) && Closed(next', [q[0]] + free)
  {
    var q, h := st.queue[st.order[k]], Heads(st.queue, st.order);
    FreeGains(st.own, st.next, Unlinked(st.next, st.pool, h, k, q), st.pool, free, q[0]);
  }

  lemma RemoveFree(st: St, k: nat)
    requires Inv(st) && Removable(st, k) && HeadFacts(st, k)
    ensures var t := Remove(st, k); HasList(t.own, t.next, Free, t.pool, t.free)
  {
    var x := st.queue[st.order[k]][0];
    MoveOnto(st.own, InQueue(st.order[k]), Free, [x], st.free, [x] + st.free);
    UnlinkedFree(st, k, st.free);
  }

  lemma RemoveFlat(subs: seq<seq<Op>>, q: seq<int>, done: seq<Op>)
    requires q != [] && 0 <= q[0] < |subs|
    ensures done + Flat(subs, q) == done + subs[q[0]] + Flat(subs, q[1..])
  {
    assert q == [q[0]] + q[1..];
    FlatConcat(subs, [q[0]], q[1..]);
    FlatOne(subs, q[0]);
    assert done + (subs[q[0]] + Flat(subs, q[1..])) == done + subs[q[0]] + Flat(subs, q[1..]);
  }

  lemma RemoveChain(st: St, k: nat)
    requires Removable(st, k) && HeadFacts(st, k) && ChainOk(st, st.order[k])
    ensures Shaped(Remove(st, k)) && ChainOk(Remove(st, k), st.order[k])
  {
    var s := st.order[k];
    var q := st.queue[s];
    ListRest(st.own, st.peer, InQueue(s), q);
    MoveAway(st.own, InQueue(s), [q[0]], q[1..], Free);
  }

  lemma RemoveElems(st: St, k: nat)
    requires Removable(st, k) && HeadFacts(st, k) && ChainOk(st, st.order[k]) && ElemsOk(st, st.order[k])
    ensures Shaped(Remove(st, k)) && ElemsOk(Remove(st, k), st.order[k])
  {
    assert HeadOf(st.queue, st.order[k]) == st.queue[st.order[k]][0];
  }

  lemma RemoveOwnQueue(st: St, k: nat)
    requires Removable(st, k) && HeadFacts(st, k) && QueueOk(st, st.order[k])
    ensures Shaped(Remove(st, k)) && QueueOk(Remove(st, k), st.order[k])
  {
    RemoveChain(st, k);
    RemoveElems(st, k);
    RemoveFlat(st.subs, st.queue[st.order[k]], st.finished[st.order[k]]);
  }

  lemma RemoveOtherQueue(st: St, k: nat, s: nat)
    requires Removable(st, k) && HeadFacts(st, k) && s < |st.queue| && s != st.order[k] && QueueOk(st, s)
    ensures Shaped(Remove(st, k)) && QueueOk(Remove(st, k), s)
  {
    var t, x := Remove(st, k), st.queue[st.order[k]][0];
    OtherPlace(st.own, st.peer, [x], InQueue(st.order[k]), Free, t.peer, InQueue(s));
    KeepQueue(st, t, s);
  }

  lemma ReplaceHead(st: St, k: nat)
    requires Removable(st, k) && OrderOk(st) && |st.queue[st.order[k]]| > 1
    ensures Heads(Remove(st, k).queue, Remove(st, k).order) == Heads(st.queue, st.order)[k := st.queue[st.order[k]][1]]
  {
    assert forall i | 0 <= i < |st.order| && i != k :: st.order[i] != st.order[k];
  }

  lemma RemoveReplaces(st: St, k: nat)
    requires Removable(st, k) && HeadFacts(st, k) && ActiveOk(st) && OrderOk(st) && |st.queue[st.order[k]]| > 1
    ensures ActiveOk(Remove(st, k)) && OrderOk(Remove(st, k))
  {
    var t, h, q := Remove(st, k), Heads(st.queue, st.order), st.queue[st.order[k]];
    ReplaceHead(st, k);
    ReplaceNode(st.next, t.next, h, k, q[1]);
  }

  lemma RemoveDrops(st: St, k: nat)
    requires Removable(st, k) && HeadFacts(st, k) && ActiveOk(st) && OrderOk(st) && |st.queue[st.order[k]]| == 1
    ensures ActiveOk(Remove(st, k)) && OrderOk(Remove(st, k))
  {
    var t, h := Remove(st, k), Heads(st.queue, st.order);
    DropHead(st, k);
    assert forall i | 0 <= i < |h| && i != k && i + 1 != k :: t.next[h[i]] == st.next[h[i]];
    DropNode(st.next, t.next, h, k);
  }

  lemma DropOrder(queue: seq<seq<int>>, order: seq<int>, k: nat)
    requires NoDup(order) && k < |order|
    requires forall j | 0 <= j < |order| :: 0 <= order[j] < |queue| && queue[order[j]] != []
    requires forall s | 0 <= s < |queue| && queue[s] != [] :: s in order
    ensures var l, rest := order[..k] + order[k + 1..], queue[order[k] := []];
            && NoDup(l) && (forall j | 0 <= j < |l| :: 0 <= l[j] < |rest| && rest[l[j]] != [])
            && forall s | 0 <= s < |rest| && rest[s] != [] :: s in l
  {
    WithoutOne(order, k);
    var l := order[..k] + order[k + 1..];
    forall j | 0 <= j < |l| ensures l[j] == order[if j < k then j else j + 1] {}
  }

  lemma LastLeaves(st: St, k: nat)
    requires Removable(st, k) && |st.queue[st.order[k]]| == 1
    ensures Remove(st, k).order == st.order[..k] + st.order[k + 1..]
    ensures Remove(st, k).queue == st.queue[st.order[k] := []]
  {
    assert st.queue[st.order[k]][1..] == [];
  }

  lemma DropHead(st: St, k: nat)
    requires Removable(st, k) && OrderOk(st) && |st.queue[st.order[k]]| == 1
    ensures OrderOk(Remove(st, k))
    ensures var h := Heads(st.queue, st.order); Heads(Remove(st, k).queue, Remove(st, k).order) == h[..k] + h[k + 1..]
  {
    LastLeaves(st, k);
    HeadsDrop(st.queue, st.order, k);
    DropOrder(st.queue, st.order, k);
  }

  lemma HeadsDrop(queue: seq<seq<int>>, order: seq<int>, k: nat)
    requires NoDup(order) && k < |order| && 0 <= order[k] < |queue|
    ensures var h := Heads(queue, order);
            Heads(queue[order[k] := []], order[..k] + order[k + 1..]) == h[..k] + h[k + 1..]
  {
    var l, h := order[..k] + order[k + 1..], Heads(queue, order);
    var m, h' := h[..k] + h[k + 1..], Heads(queue[order[k] := []], l);
    forall i | 0 <= i < |l| ensures h'[i] == m[i] {
      var j := if i < k then i else i + 1;
      assert l[i] == order[j] && m[i] == h[j];
    }
  }

  lemma WithoutOne(s: seq<int>, k: nat)
    requires NoDup(s) && k < |s|
    ensures NoDup(s[..k] + s[k + 1..]) && forall x :: x in s[..k] + s[k + 1..] <==> x in s && x != s[k]
  {
    var l := s[..k] + s[k + 1..];
    forall i | 0 <= i < |l| ensures l[i] == s[if i < k then i else i + 1] {}
    forall x ensures x in l <==> x in s && x != s[k] {
      if x in s && x != s[k] {
        var i :| 0 <= i < |s| && s[i] == x;
        assert l[if i < k then i else i - 1] == x;
      }
    }
  }

  lemma RemoveInv(st: St, k: nat)
    requires Inv(st) && Removable(st, k)
    ensures Inv(Remove(st, k)) && (NoneHeld(st) ==> NoneHeld(Remove(st, k)))
  {
    var t := Remove(st, k);
    RemoveFacts(st, k);
    RemoveFree(st, k);
    if |st.queue[st.order[k]]| > 1 { RemoveReplaces(st, k); } else { RemoveDrops(st, k); }
    forall s: nat | s < |t.queue| ensures QueueOk(t, s) {
      assert QueueOk(st, s);
      if s == st.order[k] { RemoveOwnQueue(st, k); } else { RemoveOtherQueue(st, k, s); }
    }
  }
}
