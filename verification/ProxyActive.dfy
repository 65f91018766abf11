/** The progress thread's lists of proxy arguments: a pool of free ones, the active list, and behind
    every active one the chain of those waiting for the same connection slot. */
module ProxyActive {
  import opened PlacedLists

  /** An operation: the append slot of its connection, whether that is shared, its operation count,
      and the parameters that must agree within a group. */
  datatype Op = Op(slot: nat, shared: bool, count: int, kind: int, id: int)

  datatype Place = Free | Held | InQueue(s: nat)

  /** The memory first; then what it stands for: the place of each element, the free list, the slots
      in the order of the active list, the queue of each slot, and the operations that arrived and
      finished on it. */
  datatype St = St(
    next: seq<int>, peer: seq<int>, slot: seq<int>, count: seq<int>, kind: seq<int>, subs: seq<seq<Op>>,
    ready: seq<bool>,
    pool: int, active: int, append: seq<int>,
    own: seq<Place>, free: seq<int>, order: seq<int>, queue: seq<seq<int>>, arrived: seq<seq<Op>>,
    finished: seq<seq<Op>>)

  ghost predicate Shaped(st: St) {
    && |st.next| == |st.peer| == |st.slot| == |st.count| == |st.kind| == |st.subs| == |st.ready| == |st.own|
    && |st.append| == |st.queue| == |st.arrived| == |st.finished|
  }

  ghost function HeadOf(queue: seq<seq<int>>, s: int): int {
    if 0 <= s < |queue| && queue[s] != [] then queue[s][0] else -1
  }

  /** The active list: the first element of every slot that has any. */
  ghost function Heads(queue: seq<seq<int>>, order: seq<int>): seq<int> {
    seq(|order|, k requires 0 <= k < |order| => HeadOf(queue, order[k]))
  }

  /** The operations held along a queue. */
  ghost function Flat(subs: seq<seq<Op>>, q: seq<int>): seq<Op> {
    if q == [] then []
    else Flat(subs, q[..|q| - 1]) + (if 0 <= q[|q| - 1] < |subs| then subs[q[|q| - 1]] else [])
  }

  /** The elements of slot `s` form its chain, and the append pointer is the chain's tail. */
  ghost predicate ChainOk(st: St, s: nat)
    requires Shaped(st) && s < |st.queue|
  {
    var q := st.queue[s];
    && At(st.own, InQueue(s), q) && Linked(st.peer, q) && Closed(st.peer, q)
    && st.append[s] == if q == [] then -1 else q[|q| - 1]
  }

  /** Elements know their slot, and only the first of a chain may be running. */
  ghost predicate ElemsOk(st: St, s: nat)
    requires Shaped(st) && s < |st.queue|
  {
    && (forall x | 0 <= x < |st.own| && st.own[x] == InQueue(s) :: st.slot[x] == s)
    && forall x | 0 <= x < |st.own| && st.own[x] == InQueue(s) :: st.ready[x] || x == HeadOf(st.queue, s)
  }

  /** What arrived on a slot has finished or is waiting in its chain, in order. */
  ghost predicate ArrivalsOk(st: St, s: nat)
    requires Shaped(st) && s < |st.queue|
  {
    st.arrived[s] == st.finished[s] + Flat(st.subs, st.queue[s])
  }

  ghost predicate QueueOk(st: St, s: nat)
    requires Shaped(st) && s < |st.queue|
  {
    ChainOk(st, s) && ElemsOk(st, s) && ArrivalsOk(st, s)
  }

  ghost predicate OrderOk(st: St) {
    && NoDup(st.order)
    && (forall k | 0 <= k < |st.order| :: 0 <= st.order[k] < |st.queue| && st.queue[st.order[k]] != [])
    && forall s | 0 <= s < |st.queue| && st.queue[s] != [] :: s in st.order
  }

  ghost predicate ActiveOk(st: St) {
    var h := Heads(st.queue, st.order);
    Linked(st.next, h) && Closed(st.next, h) && Begins(st.active, h)
  }

  ghost predicate Inv(st: St) {
    && Shaped(st) && HasList(st.own, st.next, Free, st.pool, st.free) && OrderOk(st) && ActiveOk(st)
    && (forall x | 0 <= x < |st.own| && st.own[x].InQueue? :: st.own[x].s < |st.queue|)
    && forall s: nat | s < |st.queue| :: QueueOk(st, s)
  }

  /** Between operations no element is in anyone's hands: all are free or in a chain. */
  ghost predicate NoneHeld(st: St) { forall x | 0 <= x < |st.own| :: st.own[x] != Held }

  // The operations on the lists.

  /** An empty pool is refilled with `n` fresh elements. */
  ghost function Grow(st: St, n: nat): St {
    if st.pool != -1 || n == 0 then st
    else
      var e := |st.next|;
      st.(next := st.next + seq(n, i => if i + 1 < n then e + i + 1 else -1),
          peer := st.peer + seq(n, i => -1), slot := st.slot + seq(n, i => -1), count := st.count + seq(n, i => 0),
          kind := st.kind + seq(n, i => 0), subs := st.subs + seq(n, i => []), ready := st.ready + seq(n, i => false),
          own := st.own + seq(n, i => Free), pool := e, free := seq(n, i => e + i))
  }

  ghost predicate HasFree(st: St) { Shaped(st) && 0 <= st.pool < |st.next| && st.free != [] }

  ghost function Take(st: St): St
    requires HasFree(st)
  {
    var x := st.pool;
    st.(pool := st.next[x], next := st.next[x := -1], peer := st.peer[x := -1], own := Move(st.own, [x], Held),
        free := st.free[1..])
  }

  ghost predicate Fresh(st: St, x: int) {
    Shaped(st) && 0 <= x < |st.next| && st.own[x] == Held && st.next[x] == -1 && st.peer[x] == -1
  }

  ghost function Fill(st: St, x: int, o: Op): St
    requires Shaped(st) && 0 <= x < |st.next|
  {
    st.(slot := st.slot[x := o.slot], count := st.count[x := o.count], kind := st.kind[x := o.kind],
        subs := st.subs[x := [o]], ready := st.ready[x := true])
  }

  /** Nothing runs for the slot: the element becomes the last one of the active list. */
  ghost function PutActive(st: St, x: int, o: Op): St
    requires Fresh(st, x) && o.slot < |st.queue|
  {
    var h, f := Heads(st.queue, st.order), Fill(st, x, o);
    f.(next := if st.active != -1 && h != [] && 0 <= h[|h| - 1] < |st.next| then st.next[h[|h| - 1] := x] else st.next,
       active := if st.active == -1 then x else st.active, append := st.append[o.slot := x],
       own := Move(st.own, [x], InQueue(o.slot)), order := st.order + [o.slot],
       queue := st.queue[o.slot := st.queue[o.slot] + [x]], arrived := st.arrived[o.slot := st.arrived[o.slot] + [o]])
  }

  /** Otherwise it waits behind the last element of the slot. */
  ghost function PutBehind(st: St, x: int, o: Op): St
    requires Fresh(st, x) && o.slot < |st.queue|
  {
    var prev, f := st.append[o.slot], Fill(st, x, o);
    f.(peer := if 0 <= prev < |st.peer| then st.peer[prev := x] else st.peer, append := st.append[o.slot := x],
       own := Move(st.own, [x], InQueue(o.slot)),
       queue := st.queue[o.slot := st.queue[o.slot] + [x]], arrived := st.arrived[o.slot := st.arrived[o.slot] + [o]])
  }

  /** Or joins the last element as one more part of the same operation. */
  ghost function Join(st: St, o: Op): St
    requires Shaped(st) && o.slot < |st.queue|
  {
    var x := st.append[o.slot];
    st.(subs := if 0 <= x < |st.subs| then st.subs[x := st.subs[x] + [o]] else st.subs,
        arrived := st.arrived[o.slot := st.arrived[o.slot] + [o]])
  }

  ghost predicate Removable(st: St, k: nat) {
    && Shaped(st) && k < |st.order| && 0 <= st.order[k] < |st.queue| && st.queue[st.order[k]] != []
    && (forall i | 0 <= i < |st.queue[st.order[k]]| :: 0 <= st.queue[st.order[k]][i] < |st.next|)
    && forall j | 0 <= j < |st.order| :: 0 <= Heads(st.queue, st.order)[j] < |st.next|
  }

  /** The pointers after the head `q[0]` of the `k`-th slot left the active list `h`. */
  ghost function Unlinked(next: seq<int>, pool: int, h: seq<int>, k: nat, q: seq<int>): seq<int>
    requires k < |h| && q != [] && (forall i | 0 <= i < |q| :: 0 <= q[i] < |next|)
             && forall j | 0 <= j < |h| :: 0 <= h[j] < |next|
  {
    var nx := next[q[0]];
    var linked := if k == 0 then next else next[h[k - 1] := if |q| > 1 then q[1] else nx];
    (if |q| > 1 then linked[q[1] := nx] else linked)[q[0] := pool]
  }

  /** The head of the `k`-th active slot is done: the next of its slot takes its place, or the slot
      leaves the active list; the element goes back to the pool. */
  ghost function Remove(st: St, k: nat): St
    requires Removable(st, k)
  {
    var s := st.order[k];
    var q := st.queue[s];
    var x := q[0];
    st.(next := Unlinked(st.next, st.pool, Heads(st.queue, st.order), k, q), pool := x,
        active := if k > 0 then st.active else if |q| > 1 then q[1] else st.next[x],
        append := if |q| > 1 then st.append else st.append[s := -1],
        own := Move(st.own, [x], Free), free := [x] + st.free,
        order := if |q| > 1 then st.order else st.order[..k] + st.order[k + 1..],
        queue := st.queue[s := q[1..]], finished := st.finished[s := st.finished[s] + st.subs[x]])
  }
}
