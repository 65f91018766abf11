/** The shared pool of proxy operations: ranks take free operations, chain and post them; the
    progress thread takes the posted chain, hands each operation on and gives it back. */
module ProxyPool {
  import opened PlacedLists

  datatype Op = Op(count: int, id: int)

  /** Operations `0..size`, `max` of them at home with each rank. */
  datatype Cfg = Cfg(ranks: nat, max: nat, size: nat, home: nat -> nat)

  ghost predicate ValidCfg(g: Cfg) {
    g.max > 0 && forall x: nat | x < g.size :: g.home(x) < g.ranks
  }

  /** Where an operation is: on a rank's private free list, on its shared free list, in its unposted
      chain, on the thread's list of operations to give back, posted, or with the thread. */
  datatype Place = Private(r: nat) | Shared(r: nat) | Unposted(r: nat) | Back(r: nat) | Posted | Taken

  datatype Pc = Idle | Spin | Have(v: int) | Full | Failed

  datatype Rank = Rank(pc: Pc, free: int, first: int, last: int, count: nat)

  datatype Sub = Look | Link(was: int) | Swap(was: int) | Unlink | Store

  /** Waiting, working through a batch of which some operation was handed on, giving back, or broken. */
  datatype Phase = Rest | Proc(moved: bool) | Ret(i: nat, sub: Sub) | Broken

  /** The memory (`next`, `op`, `free`, `pHead`, `pEnd`), the ranks and the thread, followed by what
      they stand for: the place of every operation, the lists, and the operations given to and
      handed on for each rank. */
  datatype State = State(
    next: seq<int>, op: seq<Op>, free: seq<int>, pHead: int, pEnd: int,
    rank: seq<Rank>, phase: Phase, tNext: int, bHead: seq<int>, bEnd: seq<int>,
    own: seq<Place>, priv: seq<seq<int>>, shared: seq<seq<int>>, un: seq<seq<int>>, back: seq<seq<int>>,
    posted: seq<int>, taken: seq<int>, given: seq<seq<Op>>, handed: seq<seq<Op>>)

  ghost predicate Shaped(g: Cfg, st: State) {
    && |st.next| == |st.op| == |st.own| == g.size
    && |st.free| == |st.rank| == |st.bHead| == |st.bEnd| == g.ranks
    && |st.priv| == |st.shared| == |st.un| == |st.back| == |st.given| == |st.handed| == g.ranks
    && (st.phase.Ret? ==> st.phase.i <= g.ranks)
  }

  predicate InPool(g: Cfg, x: int) { 0 <= x < g.size }

  /** The walk along a rank's unposted chain, up to and including its last operation. */
  predicate IsWalk(g: Cfg, next: seq<int>, first: int, last: int, path: seq<int>)
    requires |next| == g.size
  {
    && path != [] && path[0] == first && path[|path| - 1] == last
    && (forall i | 0 <= i < |path| :: 0 <= path[i] < g.size)
    && (forall i | 0 <= i < |path| - 1 :: path[i] != last && next[path[i]] == path[i + 1])
  }

  /** How many operations may be posted: up to the last one of another count than the final one. */
  function CutAt(g: Cfg, op: seq<Op>, path: seq<int>, n: nat): (k: nat)
    requires |op| == g.size && n < |path| && forall i | 0 <= i < |path| :: 0 <= path[i] < g.size
    ensures k <= n
    ensures k > 0 ==> op[path[k - 1]].count != op[path[|path| - 1]].count
    ensures forall i | k <= i < n :: op[path[i]].count == op[path[|path| - 1]].count
  {
    if n == 0 then 0
    else if op[path[n - 1]].count != op[path[|path| - 1]].count then n
    else CutAt(g, op, path, n - 1)
  }

  /** The loop that looks for the cut, along the chain in memory. */
  method FindCut(g: Cfg, next: seq<int>, op: seq<Op>, first: int, last: int, ghost path: seq<int>)
    returns (lastOp: int, toSend: nat)
    requires |next| == |op| == g.size && IsWalk(g, next, first, last, path)
    ensures toSend == CutAt(g, op, path, |path| - 1)
    ensures if toSend == 0 then lastOp == -1 else lastOp == path[toSend - 1]
  {
    var lastCount := op[last].count;
    lastOp, toSend := -1, 0;
    var ops, x := 0, first;
    while x != last
      invariant 0 <= ops < |path| && x == path[ops] && toSend == CutAt(g, op, path, ops)
      invariant if toSend == 0 then lastOp == -1 else lastOp == path[toSend - 1]
      decreases |path| - ops
    {
      ops := ops + 1;
      if op[x].count != lastCount { lastOp, toSend := x, ops; }
      x := next[x];
    }
    assert ops == |path| - 1;
  }

  datatype Action =
    | Want(r: nat) | See(r: nat) | Cas(r: nat) | Append(r: nat, o: Op) | CutPost(r: nat, path: seq<int>)
    | StartPost(r: nat)
    | Grab | Resume | Process | EndBatch | Return

  ghost predicate Enabled(g: Cfg, st: State, a: Action)
    requires Shaped(g, st)
  {
    match a
    case Want(r) => r < g.ranks && st.rank[r].pc.Idle? && st.rank[r].free == -1
    case See(r) => r < g.ranks && st.rank[r].pc.Spin? && st.free[r] != -1
    case Cas(r) => r < g.ranks && st.rank[r].pc.Have?
    case Append(r, o) => r < g.ranks && st.rank[r].pc.Idle? && InPool(g, st.rank[r].free)
                         && (st.rank[r].first != -1 ==> InPool(g, st.rank[r].last))
    case CutPost(r, path) => r < g.ranks && st.rank[r].pc.Full?
                             && IsWalk(g, st.next, st.rank[r].first, st.rank[r].last, path)
                             && (st.pHead != -1 ==> InPool(g, st.pEnd))
    case StartPost(r) => r < g.ranks && st.rank[r].pc.Idle? && st.rank[r].first != -1
                         && (st.pHead != -1 ==> InPool(g, st.pEnd))
    case Grab => st.phase.Rest? && st.tNext == -1 && st.pHead != -1
    case Resume => st.phase.Rest? && st.tNext != -1
    case Process => st.phase.Proc? && InPool(g, st.tNext) && g.home(st.tNext) < g.ranks
    case EndBatch => st.phase.Proc? && st.phase.moved
    case Return => st.phase.Ret?
                   && (st.phase.i < g.ranks && st.bHead[st.phase.i] != -1 ==> InPool(g, st.bEnd[st.phase.i]))
  }

  ghost function AfterCas(g: Cfg, st: State, r: nat): State
    requires Shaped(g, st) && Enabled(g, st, Cas(r))
  {
    if st.free[r] == st.rank[r].pc.v then
      st.(free := st.free[r := -1], rank := st.rank[r := st.rank[r].(pc := Idle, free := st.free[r])],
          own := Move(st.own, st.shared[r], Private(r)), priv := st.priv[r := st.shared[r]],
          shared := st.shared[r := []])
    else
      st.(rank := st.rank[r := st.rank[r].(pc := Have(st.free[r]))])
  }

  ghost function AfterAppend(g: Cfg, st: State, r: nat, o: Op): State
    requires Shaped(g, st) && Enabled(g, st, Append(r, o))
  {
    var k := st.rank[r];
    var x := k.free;
    var alone := st.next[x := -1];
    st.(next := if k.first == -1 then alone else alone[k.last := x], op := st.op[x := o],
        rank := st.rank[r := Rank(if k.count + 1 == g.max then Full else Idle, st.next[x],
                                  if k.first == -1 then x else k.first, x, k.count + 1)],
        own := Move(st.own, [x], Unposted(r)), priv := st.priv[r := if st.priv[r] == [] then [] else st.priv[r][1..]],
        un := st.un[r := st.un[r] + [x]], given := st.given[r := st.given[r] + [o]])
  }

  /** The critical section of a post: the chain `first..last`, standing for `s`. */
  ghost function Post(g: Cfg, st: State, first: int, last: int, s: seq<int>): State
    requires Shaped(g, st) && (st.pHead != -1 ==> InPool(g, st.pEnd))
  {
    st.(next := if st.pHead == -1 then st.next else st.next[st.pEnd := first],
        pHead := if st.pHead == -1 then first else st.pHead, pEnd := last,
        own := Move(st.own, s, Posted), posted := st.posted + s)
  }

  ghost function AfterCutPost(g: Cfg, st: State, r: nat, path: seq<int>): State
    requires Shaped(g, st) && Enabled(g, st, CutPost(r, path))
  {
    var k := CutAt(g, st.op, path, |path| - 1);
    if k == 0 then
      st.(rank := st.rank[r := st.rank[r].(pc := Failed)])
    else
      var lastOp := path[k - 1];
      var left := if st.rank[r].count >= k then st.rank[r].count - k else 0;
      var cut := st.(next := st.next[lastOp := -1],
                     rank := st.rank[r := st.rank[r].(pc := Idle, first := st.next[lastOp], count := left)],
                     un := st.un[r := if k <= |st.un[r]| then st.un[r][k..] else []]);
      Post(g, cut, st.rank[r].first, lastOp, if k <= |st.un[r]| then st.un[r][..k] else [])
  }

  ghost function AfterStartPost(g: Cfg, st: State, r: nat): State
    requires Shaped(g, st) && Enabled(g, st, StartPost(r))
  {
    Post(g, st, st.rank[r].first, st.rank[r].last, st.un[r])
      .(rank := st.rank[r := st.rank[r].(first := -1, last := -1, count := 0)], un := st.un[r := []])
  }

  ghost function AfterProcess(g: Cfg, st: State): State
    requires Shaped(g, st) && Enabled(g, st, Process)
  {
    var x := st.tNext;
    var p := g.home(x);
    st.(next := if st.bHead[p] == -1 then st.next else st.next[x := st.bHead[p]], tNext := st.next[x],
        phase := Proc(true), bHead := st.bHead[p := x], bEnd := if st.bHead[p] == -1 then st.bEnd[p := x] else st.bEnd,
        own := Move(st.own, [x], Back(p)), back := st.back[p := [x] + st.back[p]],
        taken := if st.taken == [] then [] else st.taken[1..], handed := st.handed[p := st.handed[p] + [st.op[x]]])
  }

  /** The thread's list for rank `i` becomes the head of its shared list. */
  ghost function Publish(g: Cfg, st: State, i: nat): State
    requires Shaped(g, st) && i < g.ranks
  {
    st.(free := st.free[i := st.bHead[i]], bHead := st.bHead[i := -1], phase := Ret(i + 1, Look),
        own := Move(st.own, st.back[i], Shared(i)), shared := st.shared[i := st.back[i] + st.shared[i]],
        back := st.back[i := []])
  }

  /** One atomic step of giving operations back: read the shared head, link the list in front of it,
      compare and swap; when the rank took the list in between, unlink and store. */
  ghost function AfterReturn(g: Cfg, st: State): State
    requires Shaped(g, st) && Enabled(g, st, Return)
  {
    var i := st.phase.i;
    if i == g.ranks then st.(phase := Rest)
    else if st.bHead[i] == -1 then st.(phase := Ret(i + 1, Look))
    else
      match st.phase.sub
      case Look => st.(phase := Ret(i, Link(st.free[i])))
      case Link(was) => st.(next := st.next[st.bEnd[i] := was], phase := Ret(i, Swap(was)))
      case Swap(was) =>
        if was == -1 || st.free[i] == was then Publish(g, st, i)
        else if st.free[i] != -1 then st.(phase := Broken)
        else st.(phase := Ret(i, Unlink))
      case Unlink => st.(next := st.next[st.bEnd[i] := -1], phase := Ret(i, Store))
      case Store => Publish(g, st, i)
  }

  ghost function Next(g: Cfg, st: State, a: Action): State
    requires Shaped(g, st) && Enabled(g, st, a)
  {
    match a
    case Want(r) => st.(rank := st.rank[r := st.rank[r].(pc := Spin)])
    case See(r) => st.(rank := st.rank[r := st.rank[r].(pc := Have(st.free[r]))])
    case Cas(r) => AfterCas(g, st, r)
    case Append(r, o) => AfterAppend(g, st, r, o)
    case CutPost(r, path) => AfterCutPost(g, st, r, path)
    case StartPost(r) => AfterStartPost(g, st, r)
    case Grab => st.(tNext := st.pHead, pHead := -1, pEnd := -1, phase := Proc(false),
                     own := Move(st.own, st.posted, Taken), taken := st.posted, posted := [])
    case Resume => st.(phase := Proc(false))
    case Process => AfterProcess(g, st)
    case EndBatch => st.(phase := Ret(0, Look))
    case Return => AfterReturn(g, st)
  }

  ghost predicate Takes(g: Cfg, st: State, a: Action, t: State) {
    Shaped(g, st) && Enabled(g, st, a) && t == Next(g, st, a)
  }
}
