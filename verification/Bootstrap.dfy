/** The dissemination barrier over bootstrap connections: every connection announces its sender and a
    tag, a receiver takes the one it waits for and queues the others. */
module Bootstrap {
  import opened Arith
  import opened Sequences

  datatype Conn = Conn(peer: int, tag: int)

  // The queue of unexpected connections.

  /** Position of the first queued connection from `peer` with `tag`, or the length. */
  function FirstMatch(q: seq<Conn>, m: Conn): (i: nat)
    ensures i <= |q| && (i < |q| ==> q[i] == m) && forall j | 0 <= j < i :: q[j] != m
  {
    if q == [] || q[0] == m then 0 else FirstMatch(q[1..], m) + 1
  }

  /** A connection nobody asked for yet. */
  class UnexConn {
    const conn: Conn
    var next: UnexConn?

    constructor (conn: Conn)
      ensures this.conn == conn && next == null
    {
      this.conn, next := conn, null;
    }
  }

  ghost function ConnsOf(nodes: seq<UnexConn>): seq<Conn> { seq(|nodes|, i requires 0 <= i < |nodes| => nodes[i].conn) }

  lemma ConnsWithout(nodes: seq<UnexConn>, i: nat)
    requires i < |nodes|
    ensures ConnsOf(Without(nodes, i)) == Without(ConnsOf(nodes), i)
  {
  }

  /** The linked list of unexpected connections; `nodes` are its elements in order. */
  class Unexpected {
    var head: UnexConn?
    ghost var nodes: seq<UnexConn>

    ghost function NodeAt(i: nat): UnexConn?
      reads this
    {
      if i < |nodes| then nodes[i] else null
    }

    ghost predicate Valid()
      reads this, nodes
    {
      && head == NodeAt(0)
      && (forall i: nat | i < |nodes| :: nodes[i].next == NodeAt(i + 1))
      && forall i, j | 0 <= i < j < |nodes| :: nodes[i] != nodes[j]
    }

    /** The connections in the order they came. */
    ghost function Contents(): seq<Conn>
      reads this
    {
      ConnsOf(nodes)
    }

    constructor ()
      ensures Valid() && Contents() == [] && nodes == []
    {
      head, nodes := null, [];
    }

    /** A new connection is linked behind the last one. */
    method Enqueue(m: Conn)
      requires Valid()
      modifies this, nodes
      ensures Valid() && Contents() == old(Contents()) + [m]
      ensures |nodes| == |old(nodes)| + 1 && nodes[..|old(nodes)|] == old(nodes) && fresh(nodes[|old(nodes)|])
    {
      var unex := new UnexConn(m);
      if head == null {
        head, nodes := unex, [unex];
        return;
      }
      var list: UnexConn := head;
      ghost var i: nat := 0;
      while list.next != null
        invariant i < |nodes| && list == nodes[i] && Valid() && nodes == old(nodes) && head == old(head)
                  && unex !in nodes
        invariant unex.next == null
        decreases |nodes| - i
      {
        list, i := list.next, i + 1;
      }
      list.next := unex;
      nodes := nodes + [unex];
    }

    /** The `i`-th connection leaves the list. */
    method Unlink(elem: UnexConn, prev: UnexConn?, ghost i: nat)
      requires Valid() && i < |nodes| && elem == nodes[i] && prev == if i == 0 then null else nodes[i - 1]
      modifies this, nodes
      ensures Valid() && nodes == Without(old(nodes), i)
    {
      if prev == null { head := elem.next; } else { prev.next := elem.next; }
      nodes := Without(nodes, i);
    }

    /** The oldest matching connection is unlinked; the others keep their order. */
    method Dequeue(m: Conn) returns (found: bool)
      requires Valid()
      modifies this, nodes
      ensures Valid() && (found <==> m in old(Contents()))
      ensures var i := FirstMatch(old(Contents()), m);
              Contents() == if found && i < |old(Contents())| then Without(old(Contents()), i) else old(Contents())
      ensures forall x | x in nodes :: x in old(nodes)
    {
      var elem, prev: UnexConn? := head, null;
      ghost var i: nat := 0;
      while elem != null
        invariant i <= |nodes| && elem == NodeAt(i) && prev == (if i == 0 then null else nodes[i - 1])
        invariant Valid() && nodes == old(nodes) && Contents() == old(Contents())
        invariant forall j | 0 <= j < i :: Contents()[j] != m
        decreases |nodes| - i
      {
        if elem.conn == m {
          FirstIs(Contents(), m, i);
          ConnsWithout(nodes, i);
          Unlink(elem, prev, i);
          return true;
        }
        prev, elem, i := elem, elem.next, i + 1;
      }
      found := false;
    }
  }

  lemma {:induction false} FirstIs(q: seq<Conn>, m: Conn, i: nat)
    requires i < |q| && q[i] == m && forall j | 0 <= j < i :: q[j] != m
    ensures FirstMatch(q, m) == i
  {
    assert m in q;
  }

  ghost function Count(q: seq<Conn>, m: Conn): nat {
    if q == [] then 0 else Count(q[..|q| - 1], m) + if q[|q| - 1] == m then 1 else 0
  }

  // The barrier.

  /** `n` ranks, `rounds` rounds, `limit` barriers with the same tag; `back(r, i)` is the rank `i` before
      `r` in the cycle, `dst(r, j)` the one `r` sends to in round `j`. */
  datatype Cfg = Cfg(n: nat, rounds: nat, limit: nat, tag: int, back: (nat, nat) -> nat, dst: (nat, nat) -> nat)

  function Src(g: Cfg, r: nat, j: nat): nat { g.back(r, Pow2(j)) }

  predicate Adds(g: Cfg, r: nat, a: nat, b: nat) { g.back(g.back(r, a), b) == g.back(r, a + b) }

  /** Going back stays in the cycle, adds up, and reaches everyone within the rounds. */
  ghost predicate CycleOk(g: Cfg) {
    && (forall r: nat, i: nat | r < g.n :: g.back(r, i) < g.n)
    && (forall r: nat | r < g.n :: g.back(r, 0) == r)
    && (forall r: nat, a: nat, b: nat | r < g.n :: Adds(g, r, a, b))
    && forall r: nat, q: nat | r < g.n && q < g.n :: Reaches(g, r, q)
  }

  /** Destinations and sources agree, and a rank has a different source in every round. */
  ghost predicate LinksOk(g: Cfg) {
    && (forall r: nat, j: nat | r < g.n && j < g.rounds :: g.dst(r, j) < g.n)
    && (forall r: nat, s: nat, j: nat | r < g.n && s < g.n && j < g.rounds :: g.dst(s, j) == r <==> Src(g, r, j) == s)
    && forall r: nat, i: nat, j: nat | r < g.n && i < g.rounds && j < g.rounds && Src(g, r, i) == Src(g, r, j) :: i == j
  }

  ghost predicate ValidCfg(g: Cfg) { CycleOk(g) && LinksOk(g) }

  /** The last round has heard from everyone. */
  ghost predicate Reaches(g: Cfg, r: nat, q: nat) {
    exists i: nat :: i < Pow2(g.rounds) && g.back(r, i) == q
  }

  /** Before the barrier, about to send, about to search the queue, or waiting for a connection. */
  datatype Phase = Outside | Sending | Searching | Waiting

  /** `bar` barriers completed, in `round` of the next one. */
  datatype Rank = Rank(bar: nat, round: nat, phase: Phase)

  datatype State = State(rank: seq<Rank>, net: seq<seq<Conn>>, unex: seq<seq<Conn>>)

  ghost predicate Shaped(g: Cfg, st: State) {
    |st.rank| == |st.net| == |st.unex| == g.n && forall r | 0 <= r < g.n :: st.rank[r].round <= g.rounds
  }

  /** `Accept(r, i)` takes the `i`-th pending connection, in any order; `Other` is foreign traffic. */
  datatype Action =
    | Enter(r: nat) | Send(r: nat) | Search(r: nat) | Accept(r: nat, i: nat) | Leave(r: nat) | Other(r: nat, m: Conn)

  ghost predicate Enabled(g: Cfg, st: State, a: Action)
    requires ValidCfg(g) && Shaped(g, st)
  {
    && a.r < g.n
    && var k := st.rank[a.r];
       match a
       case Enter(r) => k.phase.Outside? && k.bar < g.limit
       case Send(r) => k.phase.Sending? && k.round < g.rounds
       case Search(r) => k.phase.Searching? && k.round < g.rounds
       case Accept(r, i) => k.phase.Waiting? && k.round < g.rounds && i < |st.net[r]|
       case Leave(r) => k.phase.Sending? && k.round == g.rounds
       case Other(r, m) => m.tag != g.tag
  }

  function Wanted(g: Cfg, st: State, r: nat): Conn
    requires r < |st.rank|
  {
    Conn(Src(g, r, st.rank[r].round), g.tag)
  }

  ghost function Next(g: Cfg, st: State, a: Action): State
    requires ValidCfg(g) && Shaped(g, st) && Enabled(g, st, a)
  {
    var k := st.rank[a.r];
    var nextRound := Rank(k.bar, k.round + 1, Sending);
    match a
    case Enter(r) => st.(rank := st.rank[r := Rank(k.bar, 0, Sending)])
    case Send(r) =>
      var d := g.dst(r, k.round);
      st.(rank := st.rank[r := k.(phase := Searching)], net := st.net[d := st.net[d] + [Conn(r, g.tag)]])
    case Search(r) =>
      var i := FirstMatch(st.unex[r], Wanted(g, st, r));
      if i < |st.unex[r]| then st.(rank := st.rank[r := nextRound], unex := st.unex[r := Without(st.unex[r], i)])
      else st.(rank := st.rank[r := k.(phase := Waiting)])
    case Accept(r, i) =>
      var m := st.net[r][i];
      var rest := st.net[r := Without(st.net[r], i)];
      if m == Wanted(g, st, r) then st.(rank := st.rank[r := nextRound], net := rest)
      else st.(net := rest, unex := st.unex[r := st.unex[r] + [m]])
    case Leave(r) => st.(rank := st.rank[r := Rank(k.bar + 1, 0, Outside)])
    case Other(r, m) => st.(net := st.net[r := st.net[r] + [m]])
  }

  ghost predicate Init(g: Cfg, st: State) {
    && |st.rank| == |st.net| == |st.unex| == g.n
    && forall r | 0 <= r < g.n :: st.rank[r] == Rank(0, 0, Outside) && st.net[r] == [] && st.unex[r] == []
  }

  ghost predicate Takes(g: Cfg, st: State, a: Action, t: State)
    requires ValidCfg(g)
  {
    Shaped(g, st) && Enabled(g, st, a) && t == Next(g, st, a)
  }

  ghost predicate IsRun(g: Cfg, run: seq<State>, acts: seq<Action>)
    requires ValidCfg(g)
  {
    && |run| == |acts| + 1 && Init(g, run[0])
    && forall k | 0 <= k < |acts| :: Takes(g, run[k], acts[k], run[k + 1])
  }
}
