/** The progress thread's operations on its lists, as they work in memory. */
module ProxyProgress {
  import opened PlacedLists
  import opened ProxyActive
  import opened ProxyActiveProof

  /** What appending an operation makes of the lists, and whether it succeeds. */
  ghost function Appended(st: St, alloc: nat, maxSubs: nat, o: Op): (St, bool)
    requires Inv(st) && alloc > 0 && o.slot < |st.queue|
  {
    var x := st.append[o.slot];
    var g := Grow(st, alloc);
    Taken(st, alloc);
    AppendInRange(st, o.slot);
    if x == -1 then (PutActive(Take(g), g.pool, o), true)
    else if !(o.shared && st.count[x] == o.count) then (PutBehind(Take(g), g.pool, o), true)
    else if |st.subs[x]| >= maxSubs then (st, false)
    else (Join(st, o), st.kind[x] == o.kind && st.ready[x])
  }

  lemma AppendInRange(st: St, s: nat)
    requires Inv(st) && s < |st.queue|
    ensures st.append[s] == -1 <==> st.queue[s] == []
    ensures st.append[s] != -1 ==> 0 <= st.append[s] < |st.own| && st.append[s] in st.queue[s]
  {
    assert QueueOk(st, s);
    var q := st.queue[s];
    assert q != [] ==> q[|q| - 1] in q;
  }

  /** Only `x` is in someone's hands. */
  ghost predicate OnlyHeld(st: St, x: int) { forall y | 0 <= y < |st.own| && y != x :: st.own[y] != Held }

  lemma TakeHeld(st: St)
    requires HasFree(st) && NoneHeld(st)
    ensures OnlyHeld(Take(st), st.pool)
  {
  }

  lemma PutWhole(st: St, x: int, o: Op)
    requires Fresh(st, x) && o.slot < |st.queue| && OnlyHeld(st, x)
    ensures NoneHeld(PutActive(st, x, o)) && NoneHeld(PutBehind(st, x, o))
  {
    assert forall y | 0 <= y < |st.own| :: Move(st.own, [x], InQueue(o.slot))[y] != Held;
  }

  /** Taking an element out of the pool, refilled if need be. */
  lemma Taken(st: St, alloc: nat)
    requires Inv(st) && alloc > 0
    ensures var g := Grow(st, alloc);
            HasFree(g) && Inv(Take(g)) && Fresh(Take(g), g.pool) && (NoneHeld(st) ==> OnlyHeld(Take(g), g.pool))
  {
    GrowInv(st, alloc);
    TakeInv(Grow(st, alloc));
    if NoneHeld(st) { TakeHeld(Grow(st, alloc)); }
  }

  /** Appending keeps the partition and the order of arrival, also when it fails. */
  lemma AppendedInv(st: St, alloc: nat, maxSubs: nat, o: Op)
    requires Inv(st) && alloc > 0 && o.slot < |st.queue|
    ensures Inv(Appended(st, alloc, maxSubs, o).0)
    ensures NoneHeld(st) ==> NoneHeld(Appended(st, alloc, maxSubs, o).0)
  {
    var g := Grow(st, alloc);
    Taken(st, alloc);
    AppendInRange(st, o.slot);
    var x := st.append[o.slot];
    if NoneHeld(st) { PutWhole(Take(g), g.pool, o); }
    if x == -1 {
      PutActiveInv(Take(g), g.pool, o);
    } else if !(o.shared && st.count[x] == o.count) {
      PutBehindInv(Take(g), g.pool, o);
    } else if |st.subs[x]| < maxSubs {
      JoinInv(st, o);
    }
  }

  // What an arriving operation does to the elements.

  /** The operation belongs to the group of the last element of its slot. */
  ghost predicate InGroup(st: St, o: Op)
    requires Shaped(st) && o.slot < |st.queue|
  {
    var q := st.queue[o.slot];
    q != [] && 0 <= q[|q| - 1] < |st.count| && o.shared && st.count[q[|q| - 1]] == o.count
  }

  /** One more part for the last element of the slot, refused when it is full; an error when its parameters
      differ or it is running.  No element enters or leaves a list. */
  ghost predicate Joined(st: St, o: Op, maxSubs: nat, t: St, ok: bool)
    requires Shaped(st) && Shaped(t) && o.slot < |st.queue| && InGroup(st, o)
  {
    var q := st.queue[o.slot];
    var x := q[|q| - 1];
    if |st.subs[x]| < maxSubs then
      && t == st.(subs := st.subs[x := st.subs[x] + [o]], arrived := t.arrived)
      && (ok <==> st.kind[x] == o.kind && st.ready[x])
    else t == st && !ok
  }

  /** A new element for the operation alone, last in the chain of its slot, and last in the active list if it is
      the only one there; all elements in chains are as they were. */
  ghost predicate Entered(st: St, o: Op, t: St)
    requires Shaped(st) && Shaped(t) && o.slot < |st.queue|
  {
    var q := st.queue[o.slot];
    && |t.queue| == |st.queue| && (forall s | 0 <= s < |st.queue| && s != o.slot :: t.queue[s] == st.queue[s])
    && |t.queue[o.slot]| == |q| + 1 && t.queue[o.slot][..|q|] == q
    && t.order == (if q == [] then st.order + [o.slot] else st.order) && |st.own| <= |t.own|
    && (forall x | 0 <= x < |st.own| && st.own[x].InQueue? ::
          t.own[x] == st.own[x] && t.subs[x] == st.subs[x] && t.count[x] == st.count[x] && t.kind[x] == st.kind[x]
          && t.ready[x] == st.ready[x])
    && NewOne(st, o, t, t.queue[o.slot][|q|])
  }

  ghost predicate NewOne(st: St, o: Op, t: St, x: int)
    requires Shaped(st) && Shaped(t)
  {
    && 0 <= x < |t.own| && (x < |st.own| ==> st.own[x] == Free) && t.own[x] == InQueue(o.slot)
    && t.subs[x] == [o] && t.count[x] == o.count && t.kind[x] == o.kind && t.ready[x]
  }

  ghost predicate Arrived(st: St, o: Op, maxSubs: nat, t: St, ok: bool)
    requires Shaped(st) && Shaped(t) && o.slot < |st.queue|
  {
    if InGroup(st, o) then Joined(st, o, maxSubs, t, ok) else Entered(st, o, t) && ok
  }

  /** Element `x` of `u` is new, and the elements in chains are as in `st`. */
  ghost predicate Spare(st: St, u: St, x: int)
    requires Shaped(st)
  {
    && Fresh(u, x) && (x < |st.own| ==> st.own[x] == Free)
    && u.queue == st.queue && u.order == st.order && |st.own| <= |u.own|
    && (forall y | 0 <= y < |st.own| && st.own[y].InQueue? ::
          u.own[y] == st.own[y] && u.subs[y] == st.subs[y] && u.count[y] == st.count[y] && u.kind[y] == st.kind[y]
          && u.ready[y] == st.ready[y])
  }

  lemma TakenKeeps(st: St, alloc: nat)
    requires Inv(st) && alloc > 0
    ensures var g := Grow(st, alloc); HasFree(g) && Spare(st, Take(g), g.pool)
  {
    Taken(st, alloc);
    var g := Grow(st, alloc);
    GrowInv(st, alloc);
    assert g.pool in g.free;
  }

  lemma ActiveEnters(st: St, u: St, x: int, o: Op)
    requires Shaped(st) && Spare(st, u, x) && o.slot < |st.queue| && st.queue[o.slot] == []
    ensures Shaped(PutActive(u, x, o)) && Entered(st, o, PutActive(u, x, o))
  {
  }

  lemma BehindEnters(st: St, u: St, x: int, o: Op)
    requires Shaped(st) && Spare(st, u, x) && o.slot < |st.queue| && st.queue[o.slot] != []
    ensures Shaped(PutBehind(u, x, o)) && Entered(st, o, PutBehind(u, x, o))
  {
  }

  lemma GroupIs(st: St, o: Op)
    requires Inv(st) && o.slot < |st.queue|
    ensures var x := st.append[o.slot];
            && (InGroup(st, o) <==> x != -1 && 0 <= x < |st.count| && o.shared && st.count[x] == o.count)
            && (x == -1 <==> st.queue[o.slot] == [])
            && (x != -1 ==> x == st.queue[o.slot][|st.queue[o.slot]| - 1] && 0 <= x < |st.own|)
  {
    AppendInRange(st, o.slot);
    assert QueueOk(st, o.slot);
  }

  /** An arriving operation joins the group of its slot exactly when it is one of it, and else enters alone. */
  lemma AppendArrives(st: St, alloc: nat, maxSubs: nat, o: Op)
    requires Inv(st) && alloc > 0 && o.slot < |st.queue|
    ensures var (t, ok) := Appended(st, alloc, maxSubs, o); Shaped(t) && Arrived(st, o, maxSubs, t, ok)
  {
    GroupIs(st, o);
    TakenKeeps(st, alloc);
    var g := Grow(st, alloc);
    if st.queue[o.slot] == [] { ActiveEnters(st, Take(g), g.pool, o); } else { BehindEnters(st, Take(g), g.pool, o); }
  }

  /** What the progress function of an element reports. */
  datatype Fate = Waits | Runs | Done

  ghost function Active(st: St): seq<int> { Heads(st.queue, st.order) }

  /** The pointer to position `k` of a list. */
  ghost function Node(h: seq<int>, k: int): int { if 0 <= k < |h| then h[k] else -1 }

  /** The element at position `k` of the active list made progress and the pass moved on to position
      `j`: its slot lost its head exactly when that was done, and what the pass has not reached is
      as it was. */
  ghost predicate Stepped(st: St, k: nat, fate: int -> Fate, t: St, j: nat) {
    && k < |st.order| && j <= |t.order| && t.order[j..] == st.order[k + 1..] && Active(t)[j..] == Active(st)[k + 1..]
    && 0 <= st.order[k] < |st.queue| && st.queue[st.order[k]] != []
    && t.queue == AfterHead(st.queue, st.order[k], fate) && t.arrived == st.arrived
  }

  ghost function AfterHead(queue: seq<seq<int>>, r: int, fate: int -> Fate): seq<seq<int>>
    requires 0 <= r < |queue| && queue[r] != []
  {
    queue[r := if fate(queue[r][0]).Done? then queue[r][1..] else queue[r]]
  }

  lemma StayStepped(st: St, k: nat, fate: int -> Fate, t: St)
    requires Inv(st) && k < |st.order| && !fate(Active(st)[k]).Done?
    requires t.order == st.order && t.queue == st.queue && t.arrived == st.arrived
    ensures Stepped(st, k, fate, t, k + 1)
  {
    var r := st.order[k];
    assert st.queue[r := st.queue[r]] == st.queue;
  }

  /** The active list `h'` from which the head of chain `q` was taken at position `k` of `h`. */
  ghost predicate Shortened(h: seq<int>, k: nat, q: seq<int>, h': seq<int>) {
    var j := if |q| > 1 then k + 1 else k;
    && k < |h| && j <= |h'| && h'[j..] == h[k + 1..] && Node(h', j) == Node(h, k + 1)
    && Node(h', j - 1) == if |q| > 1 then q[1] else Node(h, k - 1)
  }

  lemma RemoveHeads(st: St, k: nat)
    requires Inv(st) && Removable(st, k)
    ensures Shortened(Active(st), k, st.queue[st.order[k]], Active(Remove(st, k)))
  {
    HeadsAfter(st, k);
    IsShortened(Active(st), k, st.queue[st.order[k]], Active(Remove(st, k)));
  }

  lemma IsShortened(h: seq<int>, k: nat, q: seq<int>, h': seq<int>)
    requires k < |h| && h' == if |q| > 1 then h[k := q[1]] else h[..k] + h[k + 1..]
    ensures Shortened(h, k, q, h')
  {
    if |q| > 1 { AroundReplaced(h, k, q[1]); } else { AroundDropped(h, k); }
  }

  lemma HeadsAfter(st: St, k: nat)
    requires Inv(st) && Removable(st, k)
    ensures |Active(st)| == |st.order|
    ensures var h, q := Active(st), st.queue[st.order[k]];
            Active(Remove(st, k)) == if |q| > 1 then h[k := q[1]] else h[..k] + h[k + 1..]
  {
    if |st.queue[st.order[k]]| > 1 { ReplaceHead(st, k); } else { DropHead(st, k); }
  }

  lemma AroundReplaced(h: seq<int>, k: nat, y: int)
    requires k < |h|
    ensures var h' := h[k := y]; h'[k + 1..] == h[k + 1..] && Node(h', k + 1) == Node(h, k + 1) && Node(h', k) == y
  {
  }

  lemma AroundDropped(h: seq<int>, k: nat)
    requires k < |h|
    ensures var h' := h[..k] + h[k + 1..];
            k <= |h'| && h'[k..] == h[k + 1..] && Node(h', k) == Node(h, k + 1) && Node(h', k - 1) == Node(h, k - 1)
  {
  }

  lemma RemoveStepped(st: St, k: nat, fate: int -> Fate)
    requires Inv(st) && Removable(st, k) && fate(Active(st)[k]).Done?
    ensures Stepped(st, k, fate, Remove(st, k), if |st.queue[st.order[k]]| > 1 then k + 1 else k)
  {
    RemoveHeads(st, k);
    var o := st.order;
    if |st.queue[o[k]]| == 1 { assert (o[..k] + o[k + 1..])[k..] == o[k + 1..]; }
  }

  lemma RemovePass(st: St, k: nat, fate: int -> Fate) returns (t: St, j: nat)
    requires Inv(st) && k < |st.order| && fate(Active(st)[k]).Done?
    ensures Removable(st, k) && t == Remove(st, k) && Stepped(st, k, fate, t, j)
            && Node(Active(t), j) == Node(Active(st), k + 1)
    ensures var q := st.queue[st.order[k]]; Node(Active(t), j - 1) == if |q| > 1 then q[1] else Node(Active(st), k - 1)
  {
    CanRemove(st, k);
    RemoveStepped(st, k, fate);
    RemoveHeads(st, k);
    t, j := Remove(st, k), if |st.queue[st.order[k]]| > 1 then k + 1 else k;
  }

  ghost function Rest(q: seq<int>): seq<int> { if q == [] then [] else q[1..] }

  /** The queues after a pass over the first `n` active slots: exactly the heads that were done have
      left, and what waits behind them is untouched. */
  ghost predicate PassedQueues(queue0: seq<seq<int>>, order0: seq<int>, queue: seq<seq<int>>, n: nat, fate: int -> Fate)
    requires n <= |order0|
  {
    && |queue| == |queue0|
    && forall s | 0 <= s < |queue0| ::
         queue[s] == if s in order0[..n] && fate(HeadOf(queue0, s)).Done? then Rest(queue0[s]) else queue0[s]
  }

  ghost predicate Passed(st0: St, st: St, n: nat, fate: int -> Fate)
    requires n <= |st0.order|
  {
    PassedQueues(st0.queue, st0.order, st.queue, n, fate) && st.arrived == st0.arrived
  }

  lemma SplitOrder(order: seq<int>, n: nat)
    requires NoDup(order) && n < |order|
    ensures order[n] !in order[..n] && forall s :: s in order[..n + 1] <==> s in order[..n] || s == order[n]
  {
    assert order[..n + 1] == order[..n] + [order[n]];
    forall i | 0 <= i < n ensures order[..n][i] != order[n] {}
  }

  lemma PassQueue(queue0: seq<seq<int>>, order0: seq<int>, queue: seq<seq<int>>, n: nat, fate: int -> Fate)
    requires NoDup(order0) && n < |order0| && PassedQueues(queue0, order0, queue, n, fate)
    requires 0 <= order0[n] < |queue0| && queue0[order0[n]] != []
    ensures queue[order0[n]] == queue0[order0[n]]
    ensures var r := order0[n];
            PassedQueues(queue0, order0, AfterHead(queue, r, fate), n + 1, fate)
  {
    SplitOrder(order0, n);
  }

  lemma SameRest(a: seq<int>, k: nat, b: seq<int>, n: nat)
    requires k < |a| && n <= |b| && a[k..] == b[n..]
    ensures n < |b| && a[k] == b[n] && a[k + 1..] == b[n + 1..]
  {
    assert |a[k..]| == |b[n..]|;
    assert a[k] == a[k..][0] && b[n] == b[n..][0];
    assert a[k + 1..] == a[k..][1..] && b[n + 1..] == b[n..][1..];
  }

  lemma NextActive(st: St, k: nat)
    requires Inv(st) && k < |st.order|
    ensures 0 <= Active(st)[k] < |st.next| && st.next[Active(st)[k]] == Node(Active(st), k + 1)
  {
    HeadsInQueues(st);
  }

  /** A pass that has run the elements `ran` and stands at position `k`. */
  ghost predicate Passing(st0: St, st: St, k: nat, ran: seq<int>, fate: int -> Fate) {
    && k <= |st.order| && |ran| <= |st0.order| && Passed(st0, st, |ran|, fate)
    && st.order[k..] == st0.order[|ran|..] && ran + Active(st)[k..] == Active(st0)
  }

  lemma RunOn(ran: seq<int>, h: seq<int>, k: nat, all: seq<int>)
    requires k < |h| && ran + h[k..] == all
    ensures ran + [h[k]] + h[k + 1..] == all
  {
    assert h[k..] == [h[k]] + h[k + 1..];
  }

  lemma PassOne(st0: St, st: St, k: nat, ran: seq<int>, fate: int -> Fate, t: St, j: nat)
    requires NoDup(st0.order) && Passing(st0, st, k, ran, fate) && Stepped(st, k, fate, t, j)
    requires forall i | 0 <= i < |st0.order| :: 0 <= st0.order[i] < |st0.queue| && st0.queue[st0.order[i]] != []
    ensures Passing(st0, t, j, ran + [Active(st)[k]], fate) && |t.order| - j < |st.order| - k
  {
    SameRest(st.order, k, st0.order, |ran|);
    PassQueue(st0.queue, st0.order, st.queue, |ran|, fate);
    RunOn(ran, Active(st), k, Active(st0));
    assert |t.order[j..]| == |st.order[k + 1..]|;
  }

  lemma PassEnds(st0: St, st: St, k: nat, ran: seq<int>, fate: int -> Fate)
    requires Inv(st) && Passing(st0, st, k, ran, fate) && Node(Active(st), k) == -1
    ensures |ran| == |st0.order| && ran == Active(st0)
  {
    HeadsInQueues(st);
    assert |st.order[k..]| == |st0.order[|ran|..]|;
    assert Active(st)[k..] == [];
  }

  /** The memory itself. */
  datatype Mem = Mem(next: seq<int>, peer: seq<int>, slot: seq<int>, count: seq<int>, kind: seq<int>,
                     subs: seq<seq<Op>>, ready: seq<bool>, pool: int, active: int, append: seq<int>)

  ghost function MemOf(st: St): Mem {
    Mem(st.next, st.peer, st.slot, st.count, st.kind, st.subs, st.ready, st.pool, st.active, st.append)
  }

  class Progress {
    const alloc: nat
    const maxSubs: nat
    var mem: Mem
    ghost var view: St

    ghost predicate Valid()
      reads this
    {
      alloc > 0 && Inv(view) && mem == MemOf(view)
    }

    constructor (alloc: nat, maxSubs: nat, slots: nat)
      requires alloc > 0
      ensures Valid() && this.alloc == alloc && this.maxSubs == maxSubs && |view.queue| == slots && view.free == []
      ensures forall s | 0 <= s < slots :: view.queue[s] == [] && view.arrived[s] == view.finished[s] == []
    {
      this.alloc, this.maxSubs := alloc, maxSubs;
      mem := Mem([], [], [], [], [], [], [], -1, -1, seq(slots, i => -1));
      view := St([], [], [], [], [], [], [], -1, -1, seq(slots, i => -1), [], [], [],
                 seq(slots, i => []), seq(slots, i => []), seq(slots, i => []));
    }

    /** An empty pool is refilled with fresh elements, chained one after the other. */
    method Refill()
      requires Valid()
      modifies this
      ensures Valid() && view == Grow(old(view), alloc) && HasFree(view)
    {
      GrowInv(view, alloc);
      if mem.pool == -1 {
        var e, n := |mem.next|, alloc;
        var chain: seq<int> := [];
        for i := 0 to n
          invariant |chain| == i && forall j | 0 <= j < i :: chain[j] == if j + 1 < n then e + j + 1 else -1
          invariant mem == old(mem) && view == old(view)
        {
          chain := chain + [if i + 1 < n then e + i + 1 else -1];
        }
        assert chain == seq(n, i => if i + 1 < n then e + i + 1 else -1);
        var m := mem;
        mem := Mem(m.next + chain, m.peer + seq(n, i => -1), m.slot + seq(n, i => -1), m.count + seq(n, i => 0),
                   m.kind + seq(n, i => 0), m.subs + seq(n, i => []), m.ready + seq(n, i => false), e, m.active,
                   m.append);
        view := Grow(view, n);
      }
    }

    /** Take an element from the pool, refilling the pool first when it is empty. */
    method AllocateArgs() returns (x: int)
      requires Valid()
      modifies this
      ensures HasFree(Grow(old(view), alloc)) && x == Grow(old(view), alloc).pool
              && view == Take(Grow(old(view), alloc))
      ensures Valid() && Fresh(view, x)
    {
      Refill();
      TakeInv(view);
      x := mem.pool;
      mem := mem.(pool := mem.next[x], next := mem.next[x := -1], peer := mem.peer[x := -1]);
      view := Take(view);
    }

    /** The end of the active list. */
    method LastActive() returns (last: int)
      requires Valid() && mem.active != -1
      ensures view.order != [] && last == Active(view)[|view.order| - 1] && 0 <= last < |mem.next|
    {
      ghost var k := 0;
      NextActive(view, 0);
      last := mem.active;
      while mem.next[last] != -1
        invariant 0 <= k < |view.order| && last == Active(view)[k] && 0 <= last < |mem.next|
        decreases |view.order| - k
      {
        NextActive(view, k);
        last := mem.next[last];
        k := k + 1;
        NextActive(view, k);
      }
      NextActive(view, k);
      HeadsInQueues(view);
    }

    method AppendActive(o: Op)
      requires Valid() && o.slot < |view.queue| && view.queue[o.slot] == []
      modifies this
      ensures var g := Grow(old(view), alloc);
              HasFree(g) && Fresh(Take(g), g.pool) && view == PutActive(Take(g), g.pool, o)
      ensures Valid()
    {
      var x := AllocateArgs();
      PutActiveInv(view, x, o);
      var m := Filled(mem, x, o);
      if m.active == -1 {
        m := m.(active := x);
      } else {
        var last := LastActive();
        m := m.(next := m.next[last := x]);
      }
      mem := m.(append := m.append[o.slot := x]);
      view := PutActive(view, x, o);
    }

    method AppendBehind(o: Op)
      requires Valid() && o.slot < |view.queue| && view.queue[o.slot] != []
      modifies this
      ensures var g := Grow(old(view), alloc);
              HasFree(g) && Fresh(Take(g), g.pool) && view == PutBehind(Take(g), g.pool, o)
      ensures Valid()
    {
      var prev := mem.append[o.slot];
      var x := AllocateArgs();
      ghost var t := BehindStep(view, x, o, mem);
      var m := Filled(mem, x, o);
      mem := m.(peer := m.peer[prev := x], append := m.append[o.slot := x]);
      view := t;
    }

    /** Append an operation: to the group of the last element of its slot, behind it, or as a new
        active element. */
    method ProxyAppend(o: Op) returns (ok: bool)
      requires Valid() && o.slot < |view.queue|
      modifies this
      ensures (view, ok) == Appended(old(view), alloc, maxSubs, o) && Valid()
      ensures Arrived(old(view), o, maxSubs, view, ok)
    {
      AppendArrives(view, alloc, maxSubs, o);
      AppendInRange(view, o.slot);
      ok := true;
      var x := mem.append[o.slot];
      if x == -1 {
        AppendActive(o);
      } else if o.shared && mem.count[x] == o.count {
        if |mem.subs[x]| >= maxSubs {
          ok := false;
        } else {
          JoinInv(view, o);
          mem := mem.(subs := mem.subs[x := mem.subs[x] + [o]]);
          view := Join(view, o);
          ok := mem.kind[x] == o.kind && mem.ready[x];
        }
      } else {
        AppendBehind(o);
      }
    }

    /** The pointer changes that take an element out of the active list. */
    static method Unlink(m0: Mem, x: int, prev0: int) returns (m: Mem, op: int, prev: int)
      requires 0 <= x < |m0.next| == |m0.peer| == |m0.slot| && (prev0 == -1 || 0 <= prev0 < |m0.next|)
      requires (m0.peer[x] == -1 || 0 <= m0.peer[x] < |m0.next|) && 0 <= m0.slot[x] < |m0.append|
      ensures m == UnlinkedMem(m0, x, prev0) && op == m0.next[x]
              && prev == if m0.peer[x] == -1 then prev0 else m0.peer[x]
    {
      m, op, prev := m0, m0.next[x], prev0;
      var waiting := m.peer[x];
      if waiting != -1 {
        if prev != -1 { m := m.(next := m.next[prev := waiting]); } else { m := m.(active := waiting); }
        m := m.(next := m.next[waiting := op]);
        prev := waiting;
      } else {
        m := m.(append := m.append[m.slot[x] := -1]);
        if prev != -1 { m := m.(next := m.next[prev := op]); } else { m := m.(active := op); }
      }
      m := m.(next := m.next[x := m.pool], pool := x);
    }

    /** Take a finished element out of the active list; `k` is its position there.  The next in its
        chain replaces it, otherwise its slot becomes idle. */
    method RemoveOp(op0: int, prev0: int, ghost k: nat) returns (op: int, prev: int)
      requires Valid() && k < |view.order| && op0 == Active(view)[k] && prev0 == Node(Active(view), k - 1)
      modifies this
      ensures Removable(old(view), k) && view == Remove(old(view), k) && Valid()
      ensures op == Node(Active(old(view)), k + 1)
      ensures var q := old(view).queue[old(view).order[k]]; prev == if |q| > 1 then q[1] else prev0
    {
      ghost var t := RemoveStep(view, k, mem);
      mem, op, prev := Unlink(mem, op0, prev0);
      view := t;
    }

    /** An element that is not done may start to run. */
    method StayOne(op0: int, fate: int -> Fate, ghost k: nat)
      requires Valid() && k < |view.order| && op0 == Active(view)[k] && !fate(op0).Done?
      modifies this
      ensures Valid() && Stepped(old(view), k, fate, view, k + 1) && Active(view) == Active(old(view))
      ensures 0 <= op0 < |mem.next| && mem.next[op0] == Node(Active(view), k + 1)
      ensures 0 <= op0 < |old(mem).ready|
      ensures mem == old(mem).(ready := if fate(op0).Runs? then old(mem).ready[op0 := false] else old(mem).ready)
    {
      NextActive(view, k);
      CanRemove(view, k);
      if fate(op0).Runs? {
        RunInv(view, k);
        mem := mem.(ready := mem.ready[op0 := false]);
        view := Run(view, k);
      }
      StayStepped(old(view), k, fate, view);
    }

    /** The current element makes progress; the pass moves on to the next one. */
    method ProgressOne(op0: int, prev0: int, fate: int -> Fate, ghost k: nat) returns (op: int, prev: int, ghost j: nat)
      requires Valid() && k < |view.order| && op0 == Active(view)[k] && prev0 == Node(Active(view), k - 1)
      modifies this
      ensures Valid() && Stepped(old(view), k, fate, view, j)
      ensures op == Node(Active(view), j) && prev == Node(Active(view), j - 1)
    {
      if fate(op0).Done? {
        ghost var t;
        t, j := RemovePass(view, k, fate);
        op, prev := RemoveOp(op0, prev0, k);
      } else {
        j := k + 1;
        StayOne(op0, fate, k);
        prev, op := op0, mem.next[op0];
      }
    }

    /** One pass: every active element makes progress exactly once, and of every slot exactly the
        head leaves if it is done. */
    method ProgressOps(fate: int -> Fate) returns (ran: seq<int>)
      requires Valid()
      modifies this
      ensures ran == Active(old(view))
      ensures Valid() && Passed(old(view), view, |old(view).order|, fate)
    {
      ran := [];
      var prev, op := -1, mem.active;
      ghost var k: nat := 0;
      while op != -1
        invariant Valid() && Passing(old(view), view, k, ran, fate)
        invariant op == Node(Active(view), k) && prev == Node(Active(view), k - 1)
        decreases |view.order| - k
      {
        ghost var st, k0, ran0 := view, k, ran;
        ran := ran + [op];
        op, prev, k := ProgressOne(op, prev, fate, k);
        PassOne(old(view), st, k0, ran0, fate, view, k);
      }
      PassEnds(old(view), view, k, ran, fate);
    }
  }

  ghost function UnlinkedMem(m: Mem, x: int, prev: int): Mem
    requires 0 <= x < |m.next| == |m.peer| == |m.slot| && (prev == -1 || 0 <= prev < |m.next|)
    requires (m.peer[x] == -1 || 0 <= m.peer[x] < |m.next|) && 0 <= m.slot[x] < |m.append|
  {
    var nx, w := m.next[x], m.peer[x];
    var repl := if w != -1 then w else nx;
    var linked := if prev != -1 then m.next[prev := repl] else m.next;
    m.(next := (if w != -1 then linked[w := nx] else linked)[x := m.pool], pool := x,
       active := if prev != -1 then m.active else repl,
       append := if w != -1 then m.append else m.append[m.slot[x] := -1])
  }

  /** The pointers an element is unlinked by are those of its neighbours in the lists. */
  ghost predicate Neighbours(st: St, k: nat)
    requires Removable(st, k)
  {
    var x, prev, q, m := Active(st)[k], Node(Active(st), k - 1), st.queue[st.order[k]], MemOf(st);
    && 0 <= x < |m.next| == |m.peer| == |m.slot| && (prev == -1 || 0 <= prev < |m.next|)
    && m.peer[x] == (if |q| > 1 then q[1] else -1) && (m.peer[x] == -1 || 0 <= m.peer[x] < |m.next|)
    && 0 <= m.slot[x] < |m.append| && m.next[x] == Node(Active(st), k + 1)
    && MemOf(Remove(st, k)) == UnlinkedMem(m, x, prev)
  }

  lemma RemoveMem(st: St, k: nat)
    requires Inv(st) && Removable(st, k)
    ensures Neighbours(st, k)
  {
    RemoveFacts(st, k);
    NextActive(st, k);
    assert QueueOk(st, st.order[k]);
  }

  lemma RemoveStep(st: St, k: nat, m: Mem) returns (t: St)
    requires Inv(st) && k < |st.order| && m == MemOf(st)
    ensures Removable(st, k) && t == Remove(st, k) && Inv(t)
    ensures var x, prev, q := Active(st)[k], Node(Active(st), k - 1), st.queue[st.order[k]];
            && 0 <= x < |m.next| == |m.peer| == |m.slot| && (prev == -1 || 0 <= prev < |m.next|)
            && m.peer[x] == (if |q| > 1 then q[1] else -1) && (m.peer[x] == -1 || 0 <= m.peer[x] < |m.next|)
            && 0 <= m.slot[x] < |m.append| && m.next[x] == Node(Active(st), k + 1)
            && MemOf(t) == UnlinkedMem(m, x, prev)
  {
    CanRemove(st, k);
    RemoveInv(st, k);
    RemoveMem(st, k);
    t := Remove(st, k);
  }

  /** An element filled in for its first operation. */
  function Filled(m: Mem, x: int, o: Op): Mem
    requires 0 <= x < |m.slot| && |m.slot| == |m.count| == |m.kind| == |m.subs| == |m.ready|
  {
    m.(slot := m.slot[x := o.slot], count := m.count[x := o.count], kind := m.kind[x := o.kind],
       subs := m.subs[x := [o]], ready := m.ready[x := true])
  }

  lemma BehindStep(st: St, x: int, o: Op, m: Mem) returns (t: St)
    requires Inv(st) && Fresh(st, x) && o.slot < |st.queue| && st.queue[o.slot] != [] && m == MemOf(st)
    ensures t == PutBehind(st, x, o) && Inv(t)
    ensures 0 <= x < |m.slot| && |m.slot| == |m.count| == |m.kind| == |m.subs| == |m.ready| && o.slot < |m.append|
            && 0 <= m.append[o.slot] < |m.peer|
    ensures var f := Filled(m, x, o);
            MemOf(t) == f.(peer := f.peer[m.append[o.slot] := x], append := f.append[o.slot := x])
  {
    AppendInRange(st, o.slot);
    PutBehindInv(st, x, o);
    t := PutBehind(st, x, o);
  }

  // Whole histories of the lists.

  datatype Event = Arrive(o: Op) | Starts(k: nat) | Finishes(k: nat)

  ghost predicate Possible(st: St, e: Event) {
    match e
    case Arrive(o) => o.slot < |st.queue|
    case Starts(k) => k < |st.order|
    case Finishes(k) => k < |st.order|
  }

  ghost function After(st: St, alloc: nat, maxSubs: nat, e: Event): St
    requires Inv(st) && alloc > 0 && Possible(st, e)
  {
    match e
    case Arrive(o) => Appended(st, alloc, maxSubs, o).0
    case Starts(k) => CanRemove(st, k); Run(st, k)
    case Finishes(k) => CanRemove(st, k); Remove(st, k)
  }

  ghost predicate Empty(st: St) {
    && Shaped(st) && st.next == [] && st.free == [] && st.order == [] && st.pool == -1 && st.active == -1
    && forall s | 0 <= s < |st.queue| ::
         st.queue[s] == [] && st.arrived[s] == [] && st.finished[s] == [] && st.append[s] == -1
  }

  /** The states of a history that starts with no element allocated. */
  ghost predicate History(run: seq<St>, events: seq<Event>, alloc: nat, maxSubs: nat)
    requires alloc > 0
  {
    && |run| == |events| + 1 && Empty(run[0])
    && forall i | 0 <= i < |events| ::
         Inv(run[i]) && Possible(run[i], events[i]) ==> run[i + 1] == After(run[i], alloc, maxSubs, events[i])
  }

  ghost predicate AllPossible(run: seq<St>, events: seq<Event>)
    requires |run| == |events| + 1
  {
    forall i | 0 <= i < |events| :: Possible(run[i], events[i])
  }

  lemma AfterInv(st: St, alloc: nat, maxSubs: nat, e: Event)
    requires Inv(st) && alloc > 0 && Possible(st, e)
    ensures Inv(After(st, alloc, maxSubs, e)) && (NoneHeld(st) ==> NoneHeld(After(st, alloc, maxSubs, e)))
  {
    match e
    case Arrive(o) => AppendedInv(st, alloc, maxSubs, o);
    case Starts(k) =>
      CanRemove(st, k);
      RunInv(st, k);
    case Finishes(k) =>
      CanRemove(st, k);
      RemoveInv(st, k);
  }

  lemma {:induction false} HistoryInv(run: seq<St>, events: seq<Event>, alloc: nat, maxSubs: nat)
    requires alloc > 0 && History(run, events, alloc, maxSubs) && AllPossible(run, events)
    ensures Inv(run[|events|]) && NoneHeld(run[|events|])
    decreases |events|
  {
    if events != [] {
      var k := |events| - 1;
      HistoryInv(run[..k + 1], events[..k], alloc, maxSubs);
      AfterInv(run[k], alloc, maxSubs, events[k]);
    }
  }

  /** Element `x` is in exactly one place: the free list or the chain of one slot. */
  ghost predicate InOnePlace(st: St, x: int) {
    if x in st.free then forall s | 0 <= s < |st.queue| :: x !in st.queue[s]
    else exists s ::
        0 <= s < |st.queue| && x in st.queue[s] && forall t | 0 <= t < |st.queue| && x in st.queue[t] :: t == s
  }

  lemma OnePlace(st: St, x: int)
    requires Inv(st) && NoneHeld(st) && 0 <= x < |st.own|
    ensures InOnePlace(st, x)
  {
    forall s: nat | s < |st.queue| ensures x in st.queue[s] <==> st.own[x] == InQueue(s) { assert QueueOk(st, s); }
    if x !in st.free { assert x in st.queue[st.own[x].s]; }
  }

  /** In every history: each allocated element is free or in the chain of exactly one slot; an append
      pointer is the tail of its own slot's chain, whose head is in the active list; a slot finished
      a prefix of what arrived there; and only the head of a chain may be running. */
  lemma ServedInOrder(run: seq<St>, events: seq<Event>, alloc: nat, maxSubs: nat, s: nat, x: int)
    requires alloc > 0 && History(run, events, alloc, maxSubs) && AllPossible(run, events)
    ensures var st := run[|events|];
            Inv(st) && (0 <= x < |st.own| ==> InOnePlace(st, x)) && (s < |st.queue| ==>
              && st.finished[s] <= st.arrived[s]
              && (st.append[s] != -1 ==>
                    && st.queue[s] != [] && st.append[s] == st.queue[s][|st.queue[s]| - 1]
                    && st.queue[s][0] in Active(st))
              && (0 <= x < |st.own| && x in st.queue[s] && !st.ready[x] ==> x == st.queue[s][0]))
  {
    HistoryInv(run, events, alloc, maxSubs);
    var st := run[|events|];
    if 0 <= x < |st.own| { OnePlace(st, x); }
    if s < |st.queue| {
      assert QueueOk(st, s);
      if st.queue[s] != [] {
        var k :| 0 <= k < |st.order| && st.order[k] == s;
        assert Active(st)[k] == st.queue[s][0];
      }
    }
  }
}
