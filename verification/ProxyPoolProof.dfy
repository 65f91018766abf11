/** The pool's operations stay partitioned, in order, and the thread's swap never meets a surprise. */
module ProxyPoolProof {
  import opened ProxyPool
  import opened PlacedLists
  import opened ProxyLists

  ghost predicate ListsOk(g: Cfg, st: State, r: nat)
    requires Shaped(g, st) && r < g.ranks
  {
    var k := st.rank[r];
    && HasList(st.own, st.next, Private(r), k.free, st.priv[r])
    && HasList(st.own, st.next, Shared(r), st.free[r], st.shared[r])
    && HasList(st.own, st.next, Unposted(r), k.first, st.un[r]) && Ends(k.last, st.un[r]) && k.count == |st.un[r]|
    && HasOpen(st.own, st.next, Back(r), st.bHead[r], st.back[r]) && Ends(st.bEnd[r], st.back[r])
  }

  ghost predicate PcOk(g: Cfg, st: State, r: nat)
    requires Shaped(g, st) && r < g.ranks
  {
    var k := st.rank[r];
    && k.count <= g.max && (k.count == g.max <==> k.pc.Full? || k.pc.Failed?)
    && (k.pc.Spin? || k.pc.Have? ==> st.priv[r] == [])
    && (k.pc.Have? ==> st.free[r] != -1)
  }

  ghost predicate PoolOk(g: Cfg, st: State) {
    && HasList(st.own, st.next, Posted, st.pHead, st.posted) && Ends(st.pEnd, st.posted)
    && HasList(st.own, st.next, Taken, st.tNext, st.taken)
  }

  /** Only the rank itself ever empties its shared list, and nothing but the thread refills it. */
  ghost predicate RetOk(g: Cfg, st: State)
    requires Shaped(g, st)
  {
    && !st.phase.Broken?
    && (st.phase.Ret? && st.phase.i < g.ranks && st.bHead[st.phase.i] != -1 ==>
          var i, e := st.phase.i, st.bEnd[st.phase.i];
          && InPool(g, e)
          && match st.phase.sub
             case Look => true
             case Link(was) => st.free[i] == was || st.free[i] == -1
             case Swap(was) => (st.free[i] == was || st.free[i] == -1) && st.next[e] == was
             case Unlink => st.free[i] == -1
             case Store => st.free[i] == -1 && st.next[e] == -1)
  }

  ghost predicate HomeOk(g: Cfg, st: State)
    requires Shaped(g, st)
  {
    forall x | 0 <= x < g.size :: !st.own[x].Posted? && !st.own[x].Taken? ==> st.own[x].r == g.home(x)
  }

  /** What a rank was given has been handed on, is with the thread, is posted or is still chained. */
  ghost predicate FifoOk(g: Cfg, st: State, r: nat)
    requires Shaped(g, st) && r < g.ranks
  {
    st.given[r] == st.handed[r] + Log(g, st.op, r, st.taken) + Log(g, st.op, r, st.posted) + Log(g, st.op, r, st.un[r])
  }

  ghost predicate Inv(g: Cfg, st: State) {
    && Shaped(g, st) && RetOk(g, st) && PoolOk(g, st) && HomeOk(g, st)
    && forall r: nat | r < g.ranks :: ListsOk(g, st, r) && PcOk(g, st, r) && FifoOk(g, st, r)
  }

  /** Elements `s` went from place `a` to place `b`; pointers changed only at those places. */
  ghost predicate Shift(st: State, s: seq<int>, a: Place, b: Place, t: State) {
    && |st.own| == |st.next| == |t.next| && t.own == Move(st.own, s, b)
    && (forall x | 0 <= x < |st.own| && x in s :: st.own[x] == a)
    && forall x | 0 <= x < |st.own| && t.next[x] != st.next[x] :: st.own[x] == a || st.own[x] == b
  }

  lemma KeepPlace(st: State, s: seq<int>, a: Place, b: Place, t: State, p: Place, head: int, l: seq<int>)
    requires Shift(st, s, a, b, t) && p != a && p != b && HasOpen(st.own, st.next, p, head, l)
    ensures HasOpen(t.own, t.next, p, head, l) && (Closed(st.next, l) ==> Closed(t.next, l))
  {
    OtherPlace(st.own, st.next, s, a, b, t.next, p);
    Keep(st.own, st.next, t.own, t.next, p, head, l);
  }

  ghost predicate SameRank(g: Cfg, st: State, t: State, r: nat)
    requires Shaped(g, st) && Shaped(g, t) && r < g.ranks
  {
    && t.rank[r] == st.rank[r] && t.free[r] == st.free[r] && t.bHead[r] == st.bHead[r] && t.bEnd[r] == st.bEnd[r]
    && t.priv[r] == st.priv[r] && t.shared[r] == st.shared[r] && t.un[r] == st.un[r] && t.back[r] == st.back[r]
  }

  ghost predicate Foreign(p: Place, r: nat) { p != Private(r) && p != Shared(r) && p != Unposted(r) && p != Back(r) }

  lemma KeepRank(g: Cfg, st: State, s: seq<int>, a: Place, b: Place, t: State, r: nat)
    requires Shaped(g, st) && Shaped(g, t) && r < g.ranks && ListsOk(g, st, r) && Shift(st, s, a, b, t)
    requires SameRank(g, st, t, r) && Foreign(a, r) && Foreign(b, r)
    ensures ListsOk(g, t, r)
  {
    KeepPlace(st, s, a, b, t, Private(r), st.rank[r].free, st.priv[r]);
    KeepPlace(st, s, a, b, t, Shared(r), st.free[r], st.shared[r]);
    KeepPlace(st, s, a, b, t, Unposted(r), st.rank[r].first, st.un[r]);
    KeepPlace(st, s, a, b, t, Back(r), st.bHead[r], st.back[r]);
  }

  lemma KeepPool(g: Cfg, st: State, s: seq<int>, a: Place, b: Place, t: State)
    requires PoolOk(g, st) && Shift(st, s, a, b, t) && a != Posted && b != Posted && a != Taken && b != Taken
    requires t.posted == st.posted && t.taken == st.taken && t.pHead == st.pHead && t.pEnd == st.pEnd
             && t.tNext == st.tNext
    ensures PoolOk(g, t)
  {
    KeepPlace(st, s, a, b, t, Posted, st.pHead, st.posted);
    KeepPlace(st, s, a, b, t, Taken, st.tNext, st.taken);
  }

  lemma KeepRet(g: Cfg, st: State, s: seq<int>, a: Place, b: Place, t: State)
    requires Inv(g, st) && Shaped(g, t) && Shift(st, s, a, b, t) && !a.Back? && !b.Back?
    requires t.phase == st.phase && t.bHead == st.bHead && t.bEnd == st.bEnd
    requires forall r | 0 <= r < g.ranks :: t.free[r] == st.free[r] || t.free[r] == -1
    ensures RetOk(g, t)
  {
    if st.phase.Ret? && st.phase.i < g.ranks && st.bHead[st.phase.i] != -1 {
      var i := st.phase.i;
      assert ListsOk(g, st, i);
      var e := st.bEnd[i];
      assert e in st.back[i];
      assert st.own[e] == Back(i);
    }
  }

  lemma KeepHome(g: Cfg, st: State, s: seq<int>, a: Place, b: Place, t: State)
    requires Shaped(g, st) && Shaped(g, t) && HomeOk(g, st) && Shift(st, s, a, b, t)
    requires !b.Posted? && !b.Taken? ==> forall x: nat | x < g.size && x in s :: g.home(x) == b.r
    ensures HomeOk(g, t)
  {
  }

  lemma KeepFifo(g: Cfg, st: State, t: State, r: nat)
    requires Shaped(g, st) && Shaped(g, t) && r < g.ranks && FifoOk(g, st, r) && t.op == st.op
    requires t.given[r] == st.given[r] && t.handed[r] == st.handed[r] && t.un[r] == st.un[r]
    requires t.taken == st.taken && t.posted == st.posted
    ensures FifoOk(g, t, r)
  {
  }

  /** Steps that only move a rank's program counter. */
  lemma PcInv(g: Cfg, st: State, r: nat, pc: Pc)
    requires Inv(g, st) && r < g.ranks
    requires st.rank[r].count == g.max <==> pc.Full? || pc.Failed?
    requires (pc.Spin? || pc.Have? ==> st.priv[r] == []) && (pc.Have? ==> st.free[r] != -1)
    ensures Inv(g, st.(rank := st.rank[r := st.rank[r].(pc := pc)]))
  {
    var t := st.(rank := st.rank[r := st.rank[r].(pc := pc)]);
    forall q: nat | q < g.ranks ensures ListsOk(g, t, q) && PcOk(g, t, q) && FifoOk(g, t, q) {
      assert ListsOk(g, st, q) && PcOk(g, st, q) && FifoOk(g, st, q);
    }
  }

  lemma TakeSharedLists(g: Cfg, st: State, r: nat)
    requires Shaped(g, st) && Enabled(g, st, Cas(r)) && st.free[r] == st.rank[r].pc.v
    requires ListsOk(g, st, r) && PcOk(g, st, r)
    ensures Shift(st, st.shared[r], Shared(r), Private(r), AfterCas(g, st, r))
    ensures ListsOk(g, AfterCas(g, st, r), r) && PcOk(g, AfterCas(g, st, r), r)
  {
    var t := AfterCas(g, st, r);
    var s, a, b := st.shared[r], Shared(r), Private(r);
    assert s + [] == s;
    MoveAway(st.own, a, s, [], b);
    MoveOnto(st.own, a, b, s, st.priv[r], s + st.priv[r]);
    assert s + st.priv[r] == s;
    KeepPlace(st, s, a, b, t, Unposted(r), st.rank[r].first, st.un[r]);
    KeepPlace(st, s, a, b, t, Back(r), st.bHead[r], st.back[r]);
  }

  lemma TakeSharedRank(g: Cfg, st: State, r: nat, q: nat)
    requires Inv(g, st) && Enabled(g, st, Cas(r)) && st.free[r] == st.rank[r].pc.v && q < g.ranks
    ensures var t := AfterCas(g, st, r); ListsOk(g, t, q) && PcOk(g, t, q) && FifoOk(g, t, q)
  {
    var t := AfterCas(g, st, r);
    assert ListsOk(g, st, r) && PcOk(g, st, r);
    assert ListsOk(g, st, q) && PcOk(g, st, q) && FifoOk(g, st, q);
    TakeSharedLists(g, st, r);
    if q != r { KeepRank(g, st, st.shared[r], Shared(r), Private(r), t, q); }
    KeepFifo(g, st, t, q);
  }

  lemma TakeSharedInv(g: Cfg, st: State, r: nat)
    requires Inv(g, st) && Enabled(g, st, Cas(r)) && st.free[r] == st.rank[r].pc.v
    ensures Inv(g, AfterCas(g, st, r))
  {
    var t := AfterCas(g, st, r);
    assert ListsOk(g, st, r) && PcOk(g, st, r);
    var s, a, b := st.shared[r], Shared(r), Private(r);
    TakeSharedLists(g, st, r);
    KeepPool(g, st, s, a, b, t);
    KeepRet(g, st, s, a, b, t);
    KeepHome(g, st, s, a, b, t);
    forall q: nat | q < g.ranks ensures ListsOk(g, t, q) && PcOk(g, t, q) && FifoOk(g, t, q) {
      TakeSharedRank(g, st, r, q);
    }
  }

  lemma RankStepInv(g: Cfg, st: State, a: Action)
    requires Inv(g, st) && Enabled(g, st, a) && (a.Want? || a.See? || a.Cas?)
    ensures Inv(g, Next(g, st, a))
  {
    assert ListsOk(g, st, a.r) && PcOk(g, st, a.r);
    match a
    case Want(r) => PcInv(g, st, r, Spin);
    case See(r) => PcInv(g, st, r, Have(st.free[r]));
    case Cas(r) =>
      if st.free[r] == st.rank[r].pc.v { TakeSharedInv(g, st, r); } else { PcInv(g, st, r, Have(st.free[r])); }
  }

  // Appending an operation to the unposted chain.

  lemma AppendShift(g: Cfg, st: State, r: nat, o: Op)
    requires Shaped(g, st) && Enabled(g, st, Append(r, o)) && ListsOk(g, st, r)
    ensures var x := st.rank[r].free;
            Shift(st, [x], Private(r), Unposted(r), AfterAppend(g, st, r, o)) && st.own[x] == Private(r)
            && st.priv[r] != []
  {
    var x, un := st.rank[r].free, st.un[r];
    assert x == st.priv[r][0] && x in st.priv[r];
    assert un != [] ==> un[|un| - 1] in un;
  }

  /** What comes after the first `k` of a list is still at its place, and is not the last of those. */
  lemma LaterAtPlace(own: seq<Place>, p: Place, s: seq<int>, k: nat, y: int)
    requires At(own, p, s) && 0 < k <= |s| && y in s[k..]
    ensures 0 <= y < |own| && own[y] == p && y != s[k - 1]
  {
    var i :| 0 <= i < |s[k..]| && s[k..][i] == y;
    assert s[k + i] == y && s[k - 1] != s[k + i];
    assert y in s;
  }

  /** A list whose first `k` elements go elsewhere, when no pointer of the others changes. */
  lemma RestList(own: seq<Place>, next: seq<int>, next': seq<int>, p: Place, b: Place, head: int, s: seq<int>, k: nat)
    requires p != b && HasList(own, next, p, head, s) && 0 < k <= |s| && |own| == |next| == |next'|
    requires forall x | 0 <= x < |own| && x != s[k - 1] && own[x] == p :: next'[x] == next[x]
    ensures At(Move(own, s[..k], b), p, s[k..]) && Linked(next', s[k..]) && Closed(next', s[k..])
  {
    SplitChain(own, next, p, head, s, k);
    MoveAway(own, p, s[..k], s[k..], b);
    forall y | y in s[k..] ensures 0 <= y < |next| && next'[y] == next[y] { LaterAtPlace(own, p, s, k, y); }
    Relink(next, next', s[k..]);
  }

  lemma AppendPrivate(g: Cfg, st: State, r: nat, o: Op)
    requires Shaped(g, st) && Enabled(g, st, Append(r, o))
             && HasList(st.own, st.next, Private(r), st.rank[r].free, st.priv[r])
    requires st.priv[r] != [] && (st.rank[r].first != -1 ==> st.own[st.rank[r].last] == Unposted(r))
    ensures var t := AfterAppend(g, st, r, o); HasList(t.own, t.next, Private(r), t.rank[r].free, t.priv[r])
  {
    var t, x, ps := AfterAppend(g, st, r, o), st.rank[r].free, st.priv[r];
    assert ps[..1] == [x];
    RestList(st.own, st.next, t.next, Private(r), Unposted(r), x, ps, 1);
  }

  lemma AppendUnposted(g: Cfg, st: State, r: nat, o: Op)
    requires Shaped(g, st) && Enabled(g, st, Append(r, o)) && st.own[st.rank[r].free] == Private(r)
    requires HasList(st.own, st.next, Unposted(r), st.rank[r].first, st.un[r]) && Ends(st.rank[r].last, st.un[r])
    ensures var t := AfterAppend(g, st, r, o);
            HasList(t.own, t.next, Unposted(r), t.rank[r].first, t.un[r]) && Ends(t.rank[r].last, t.un[r])
  {
    var t, x, un := AfterAppend(g, st, r, o), st.rank[r].free, st.un[r];
    MoveOnto(st.own, Private(r), Unposted(r), [x], un, un + [x]);
    assert un == [] <==> st.rank[r].first == -1;
    AppendChain(st.next, t.next, un, x);
  }

  lemma AppendLists(g: Cfg, st: State, r: nat, o: Op)
    requires Shaped(g, st) && Enabled(g, st, Append(r, o)) && ListsOk(g, st, r) && PcOk(g, st, r)
    ensures var t := AfterAppend(g, st, r, o); ListsOk(g, t, r) && PcOk(g, t, r)
  {
    var t, x := AfterAppend(g, st, r, o), st.rank[r].free;
    AppendShift(g, st, r, o);
    assert st.un[r] != [] ==> st.rank[r].last in st.un[r];
    AppendPrivate(g, st, r, o);
    AppendUnposted(g, st, r, o);
    KeepPlace(st, [x], Private(r), Unposted(r), t, Shared(r), st.free[r], st.shared[r]);
    KeepPlace(st, [x], Private(r), Unposted(r), t, Back(r), st.bHead[r], st.back[r]);
  }

  lemma FifoAppend(g: Cfg, op: seq<Op>, x: int, o: Op, q: nat, taken: seq<int>, posted: seq<int>, un: seq<int>)
    requires 0 <= x < |op| && x !in taken && x !in posted && x !in un
    ensures var op' := op[x := o];
            && Log(g, op', q, taken) == Log(g, op, q, taken) && Log(g, op', q, posted) == Log(g, op, q, posted)
            && Log(g, op', q, un) == Log(g, op, q, un)
            && (g.home(x) == q ==> Log(g, op', q, un + [x]) == Log(g, op, q, un) + [o])
  {
    var op' := op[x := o];
    LogSame(g, op, op', q, taken);
    LogSame(g, op, op', q, posted);
    LogSame(g, op, op', q, un);
    LogConcat(g, op', q, un, [x]);
    LogOne(g, op', q, x);
  }

  lemma AppendFifo(g: Cfg, st: State, r: nat, o: Op, q: nat)
    requires Shaped(g, st) && Enabled(g, st, Append(r, o)) && q < g.ranks && st.own[st.rank[r].free] == Private(r)
    requires FifoOk(g, st, q) && ListsOk(g, st, q) && PoolOk(g, st) && HomeOk(g, st)
    ensures FifoOk(g, AfterAppend(g, st, r, o), q)
  {
    var x := st.rank[r].free;
    FifoAppend(g, st.op, x, o, q, st.taken, st.posted, st.un[q]);
  }

  lemma AppendRank(g: Cfg, st: State, r: nat, o: Op, q: nat)
    requires Inv(g, st) && Enabled(g, st, Append(r, o)) && q < g.ranks
    ensures var t := AfterAppend(g, st, r, o); ListsOk(g, t, q) && PcOk(g, t, q) && FifoOk(g, t, q)
  {
    var t, x := AfterAppend(g, st, r, o), st.rank[r].free;
    assert ListsOk(g, st, r) && PcOk(g, st, r);
    assert ListsOk(g, st, q) && PcOk(g, st, q) && FifoOk(g, st, q);
    AppendShift(g, st, r, o);
    if q != r { KeepRank(g, st, [x], Private(r), Unposted(r), t, q); } else { AppendLists(g, st, r, o); }
    AppendFifo(g, st, r, o, q);
  }

  lemma AppendInv(g: Cfg, st: State, r: nat, o: Op)
    requires Inv(g, st) && Enabled(g, st, Append(r, o))
    ensures Inv(g, AfterAppend(g, st, r, o))
  {
    var t, x := AfterAppend(g, st, r, o), st.rank[r].free;
    assert ListsOk(g, st, r);
    AppendShift(g, st, r, o);
    KeepPool(g, st, [x], Private(r), Unposted(r), t);
    KeepRet(g, st, [x], Private(r), Unposted(r), t);
    KeepHome(g, st, [x], Private(r), Unposted(r), t);
    forall q: nat | q < g.ranks ensures ListsOk(g, t, q) && PcOk(g, t, q) && FifoOk(g, t, q) {
      AppendRank(g, st, r, o, q);
    }
  }

  // Posting the first `k` operations of a chain.

  /** The state after rank `r` posts the first `k` operations of its chain, given its new record. */
  ghost predicate PostsPrefix(g: Cfg, st: State, r: nat, k: nat, t: State)
    requires Shaped(g, st) && Shaped(g, t) && r < g.ranks
  {
    var un := st.un[r];
    && 0 < k <= |un| && InPool(g, un[k - 1]) && (st.pHead != -1 ==> InPool(g, st.pEnd))
    && t.un == st.un[r := un[k..]] && t.posted == st.posted + un[..k] && t.own == Move(st.own, un[..k], Posted)
    && t.next == (if st.pHead == -1 then st.next[un[k - 1] := -1] else st.next[un[k - 1] := -1][st.pEnd := un[0]])
    && t.pHead == (if st.pHead == -1 then un[0] else st.pHead) && t.pEnd == un[k - 1]
    && (forall q | 0 <= q < g.ranks && q != r :: t.rank[q] == st.rank[q])
    && Begins(t.rank[r].first, un[k..]) && Ends(t.rank[r].last, un[k..]) && t.rank[r].count == |un| - k
    && t.rank[r].free == st.rank[r].free && t.rank[r].pc == Idle
    && t.op == st.op && t.free == st.free && t.phase == st.phase && t.tNext == st.tNext && t.bHead == st.bHead
    && t.bEnd == st.bEnd && t.priv == st.priv && t.shared == st.shared && t.back == st.back && t.taken == st.taken
    && t.given == st.given && t.handed == st.handed
  }

  lemma PostedChain(st: State, un: seq<int>, k: nat, next': seq<int>)
    requires |st.own| == |st.next| && HasList(st.own, st.next, Posted, st.pHead, st.posted) && Ends(st.pEnd, st.posted)
    requires 0 < k <= |un| && Linked(st.next, un[..k]) && NoDup(un[..k])
    requires forall x | x in un[..k] :: 0 <= x < |st.own| && st.own[x] != Posted
    requires 0 <= un[k - 1] < |st.next| && (st.pHead != -1 ==> 0 <= st.pEnd < |st.next|)
    requires next' == (if st.pHead == -1 then st.next[un[k - 1] := -1] else st.next[un[k - 1] := -1][st.pEnd := un[0]])
    ensures Linked(next', st.posted + un[..k]) && Closed(next', st.posted + un[..k])
  {
    var ps, s := st.posted, un[..k];
    assert s[k - 1] == un[k - 1] && s[0] == un[0];
    forall i | 0 <= i < |ps| ensures st.own[ps[i]] == Posted { assert ps[i] in ps; }
    forall i | 0 <= i < |s| ensures st.own[s[i]] != Posted { assert s[i] in s; }
    forall i | 0 <= i < |ps| - 1 ensures next'[ps[i]] == st.next[ps[i]] {
      assert ps[i] != ps[|ps| - 1] && st.own[ps[i]] != st.own[s[k - 1]];
    }
    forall i | 0 <= i < |s| - 1 ensures next'[s[i]] == st.next[s[i]] {
      assert s[i] != s[k - 1];
    }
    JoinChains(st.next, next', ps, s);
  }

  lemma PostShift(g: Cfg, st: State, r: nat, k: nat, t: State)
    requires Shaped(g, st) && Shaped(g, t) && r < g.ranks && ListsOk(g, st, r) && PoolOk(g, st)
             && PostsPrefix(g, st, r, k, t)
    ensures Shift(st, st.un[r][..k], Unposted(r), Posted, t)
  {
    var un := st.un[r];
    assert un[k - 1] in un && (forall x | x in un[..k] :: x in un);
    assert st.posted != [] ==> st.pEnd in st.posted;
    assert forall x | 0 <= x < |st.own| && x != un[k - 1] && (st.pHead == -1 || x != st.pEnd) ::
             t.next[x] == st.next[x];
  }

  lemma PostRest(g: Cfg, st: State, r: nat, k: nat, t: State)
    requires Shaped(g, st) && Shaped(g, t) && r < g.ranks && PostsPrefix(g, st, r, k, t)
    requires HasList(st.own, st.next, Unposted(r), st.rank[r].first, st.un[r])
    requires st.pHead != -1 ==> st.own[st.pEnd] == Posted
    ensures HasList(t.own, t.next, Unposted(r), t.rank[r].first, t.un[r])
  {
    RestList(st.own, st.next, t.next, Unposted(r), Posted, st.rank[r].first, st.un[r], k);
  }

  lemma PostPool(g: Cfg, st: State, r: nat, k: nat, t: State)
    requires Shaped(g, st) && Shaped(g, t) && r < g.ranks && PostsPrefix(g, st, r, k, t) && PoolOk(g, st)
    requires HasList(st.own, st.next, Unposted(r), st.rank[r].first, st.un[r])
    requires Shift(st, st.un[r][..k], Unposted(r), Posted, t)
    ensures PoolOk(g, t)
  {
    var un, s := st.un[r], st.un[r][..k];
    SplitChain(st.own, st.next, Unposted(r), st.rank[r].first, un, k);
    MoveOnto(st.own, Unposted(r), Posted, s, st.posted, st.posted + s);
    PostedChain(st, un, k, t.next);
    KeepPlace(st, s, Unposted(r), Posted, t, Taken, st.tNext, st.taken);
  }

  lemma PostLists(g: Cfg, st: State, r: nat, k: nat, t: State)
    requires Shaped(g, st) && Shaped(g, t) && r < g.ranks && ListsOk(g, st, r) && PoolOk(g, st)
             && PostsPrefix(g, st, r, k, t)
    ensures ListsOk(g, t, r)
  {
    var s := st.un[r][..k];
    PostShift(g, st, r, k, t);
    assert st.posted != [] ==> st.pEnd in st.posted;
    PostRest(g, st, r, k, t);
    KeepPlace(st, s, Unposted(r), Posted, t, Private(r), st.rank[r].free, st.priv[r]);
    KeepPlace(st, s, Unposted(r), Posted, t, Shared(r), st.free[r], st.shared[r]);
    KeepPlace(st, s, Unposted(r), Posted, t, Back(r), st.bHead[r], st.back[r]);
  }

  lemma FifoPost(g: Cfg, op: seq<Op>, q: nat, posted: seq<int>, un: seq<int>, k: nat)
    requires k <= |un|
    ensures Log(g, op, q, posted + un[..k]) + Log(g, op, q, un[k..]) == Log(g, op, q, posted) + Log(g, op, q, un)
    ensures (forall x: nat | x in un[..k] :: g.home(x) != q)
              ==> Log(g, op, q, posted + un[..k]) == Log(g, op, q, posted)
  {
    LogConcat(g, op, q, posted, un[..k]);
    LogConcat(g, op, q, un[..k], un[k..]);
    assert un == un[..k] + un[k..];
    if forall x: nat | x in un[..k] :: g.home(x) != q { LogOther(g, op, q, un[..k]); }
  }

  lemma Regroup<T>(h: seq<T>, a: seq<T>, b: seq<T>, c: seq<T>, b': seq<T>, c': seq<T>)
    requires b' + c' == b + c
    ensures h + a + b' + c' == h + a + b + c
  {
    assert h + a + b + c == h + a + (b + c);
    assert h + a + b' + c' == h + a + (b' + c');
  }

  lemma PostFifo(g: Cfg, st: State, r: nat, k: nat, t: State, q: nat)
    requires Shaped(g, st) && Shaped(g, t) && r < g.ranks && q < g.ranks && PostsPrefix(g, st, r, k, t)
    requires FifoOk(g, st, q) && At(st.own, Unposted(r), st.un[r]) && HomeOk(g, st)
    ensures FifoOk(g, t, q)
  {
    var un := st.un[r];
    FifoPost(g, st.op, q, st.posted, un, k);
    var h, a := st.handed[q], Log(g, st.op, q, st.taken);
    if q == r {
      Regroup(h, a, Log(g, st.op, q, st.posted), Log(g, st.op, q, un),
              Log(g, st.op, q, st.posted + un[..k]), Log(g, st.op, q, un[k..]));
    } else {
      forall x: nat | x in un[..k] ensures g.home(x) != q { assert x in un; }
    }
  }

  lemma PostInv(g: Cfg, st: State, r: nat, k: nat, t: State)
    requires Inv(g, st) && Shaped(g, t) && r < g.ranks && PostsPrefix(g, st, r, k, t) && g.max > 0
    ensures Inv(g, t)
  {
    var s := st.un[r][..k];
    assert ListsOk(g, st, r) && PcOk(g, st, r);
    PostShift(g, st, r, k, t);
    PostPool(g, st, r, k, t);
    KeepRet(g, st, s, Unposted(r), Posted, t);
    KeepHome(g, st, s, Unposted(r), Posted, t);
    forall q: nat | q < g.ranks ensures ListsOk(g, t, q) && PcOk(g, t, q) && FifoOk(g, t, q) {
      assert ListsOk(g, st, q) && PcOk(g, st, q) && FifoOk(g, st, q);
      if q != r { KeepRank(g, st, s, Unposted(r), Posted, t, q); } else { PostLists(g, st, r, k, t); }
      PostFifo(g, st, r, k, t, q);
    }
  }

  lemma StartPosts(g: Cfg, st: State, r: nat)
    requires Shaped(g, st) && Enabled(g, st, StartPost(r)) && ListsOk(g, st, r)
    ensures var t := AfterStartPost(g, st, r); Shaped(g, t) && PostsPrefix(g, st, r, |st.un[r]|, t)
  {
    var un := st.un[r];
    var k := |un|;
    assert un[k..] == [] && un[..k] == un && un[k - 1] in un;
    assert st.next[un[k - 1] := -1] == st.next;
  }

  lemma StartPostInv(g: Cfg, st: State, r: nat)
    requires g.max > 0 && Inv(g, st) && Enabled(g, st, StartPost(r))
    ensures Inv(g, AfterStartPost(g, st, r))
  {
    assert ListsOk(g, st, r) && PcOk(g, st, r);
    StartPosts(g, st, r);
    PostInv(g, st, r, |st.un[r]|, AfterStartPost(g, st, r));
  }

  lemma {:induction false} WalkIsChain(g: Cfg, next: seq<int>, first: int, last: int, s: seq<int>, path: seq<int>,
                                       i: nat)
    requires |next| == g.size && Linked(next, s) && Begins(first, s) && Ends(last, s) && NoDup(s) && s != []
    requires IsWalk(g, next, first, last, path) && i < |path|
    ensures i < |s| && path[i] == s[i]
  {
    if i > 0 {
      WalkIsChain(g, next, first, last, s, path, i - 1);
      assert path[i - 1] != last;
      assert next[s[i - 1]] == s[i];
    }
  }

  /** The walk from the first to the last operation is the whole chain. */
  lemma WalkIsAll(g: Cfg, next: seq<int>, first: int, last: int, s: seq<int>, path: seq<int>)
    requires |next| == g.size && Linked(next, s) && Begins(first, s) && Ends(last, s) && NoDup(s) && s != []
    requires IsWalk(g, next, first, last, path)
    ensures path == s
  {
    forall i: nat | i < |path| ensures i < |s| && path[i] == s[i] { WalkIsChain(g, next, first, last, s, path, i); }
    assert path[|path| - 1] == s[|s| - 1];
    assert |path| == |s|;
  }

  lemma CutPosts(g: Cfg, st: State, r: nat, k: nat)
    requires Shaped(g, st) && r < g.ranks && Enabled(g, st, CutPost(r, st.un[r])) && ListsOk(g, st, r)
    requires k == CutAt(g, st.op, st.un[r], |st.un[r]| - 1) && k > 0
    ensures var t := AfterCutPost(g, st, r, st.un[r]); Shaped(g, t) && PostsPrefix(g, st, r, k, t)
  {
    var un := st.un[r];
    assert un[k..] != [] && un[k..][|un| - k - 1] == un[|un| - 1] && un[k..][0] == un[k];
    assert st.next[un[k - 1]] == un[k];
  }

  lemma CutPostInv(g: Cfg, st: State, r: nat, path: seq<int>)
    requires g.max > 0 && Inv(g, st) && Enabled(g, st, CutPost(r, path))
    ensures Inv(g, AfterCutPost(g, st, r, path))
  {
    var un := st.un[r];
    assert ListsOk(g, st, r) && PcOk(g, st, r);
    WalkIsAll(g, st.next, st.rank[r].first, st.rank[r].last, un, path);
    var k := CutAt(g, st.op, un, |un| - 1);
    if k == 0 {
      PcInv(g, st, r, Failed);
    } else {
      CutPosts(g, st, r, k);
      PostInv(g, st, r, k, AfterCutPost(g, st, r, un));
    }
  }

  // The progress thread.

  lemma GrabPool(g: Cfg, st: State)
    requires Shaped(g, st) && PoolOk(g, st) && Enabled(g, st, Grab)
    ensures var t := Next(g, st, Grab); PoolOk(g, t) && Shift(st, st.posted, Posted, Taken, t)
  {
    var s := st.posted;
    assert s + [] == s;
    MoveAway(st.own, Posted, s, [], Taken);
    MoveOnto(st.own, Posted, Taken, s, st.taken, s + st.taken);
    assert s + st.taken == s;
  }

  lemma GrabFifo(g: Cfg, st: State, q: nat)
    requires Shaped(g, st) && q < g.ranks && FifoOk(g, st, q) && st.taken == []
    ensures FifoOk(g, st.(taken := st.posted, posted := []), q)
  {
    var h, p := st.handed[q], Log(g, st.op, q, st.posted);
    assert h + [] + p == h + p + [];
  }

  lemma GrabRank(g: Cfg, st: State, q: nat)
    requires Inv(g, st) && Enabled(g, st, Grab) && q < g.ranks
    ensures var t := Next(g, st, Grab); ListsOk(g, t, q) && PcOk(g, t, q) && FifoOk(g, t, q)
  {
    var t := Next(g, st, Grab);
    assert ListsOk(g, st, q) && PcOk(g, st, q) && FifoOk(g, st, q);
    GrabPool(g, st);
    KeepRank(g, st, st.posted, Posted, Taken, t, q);
    GrabFifo(g, st, q);
  }

  lemma GrabInv(g: Cfg, st: State)
    requires Inv(g, st) && Enabled(g, st, Grab)
    ensures Inv(g, Next(g, st, Grab))
  {
    var t := Next(g, st, Grab);
    GrabPool(g, st);
    KeepHome(g, st, st.posted, Posted, Taken, t);
    forall q: nat | q < g.ranks ensures ListsOk(g, t, q) && PcOk(g, t, q) && FifoOk(g, t, q) { GrabRank(g, st, q); }
  }

  lemma ProcessShift(g: Cfg, st: State)
    requires Shaped(g, st) && PoolOk(g, st) && Enabled(g, st, Process)
    ensures Shift(st, [st.tNext], Taken, Back(g.home(st.tNext)), AfterProcess(g, st))
    ensures st.own[st.tNext] == Taken && st.taken != []
  {
    assert st.tNext in st.taken;
  }

  lemma ProcessPool(g: Cfg, st: State)
    requires Shaped(g, st) && PoolOk(g, st) && Enabled(g, st, Process)
    ensures PoolOk(g, AfterProcess(g, st))
  {
    var t, x, p := AfterProcess(g, st), st.tNext, g.home(st.tNext);
    ProcessShift(g, st);
    ListRest(st.own, st.next, Taken, st.taken);
    MoveAway(st.own, Taken, [x], st.taken[1..], Back(p));
    forall y | y in st.taken[1..] ensures 0 <= y < |st.next| && t.next[y] == st.next[y] { assert y in st.taken; }
    Relink(st.next, t.next, st.taken[1..]);
    KeepPlace(st, [x], Taken, Back(p), t, Posted, st.pHead, st.posted);
  }

  lemma ProcessBack(g: Cfg, st: State)
    requires Shaped(g, st) && Enabled(g, st, Process) && st.own[st.tNext] == Taken
    requires var p := g.home(st.tNext);
             HasOpen(st.own, st.next, Back(p), st.bHead[p], st.back[p]) && Ends(st.bEnd[p], st.back[p])
    ensures var t, p := AfterProcess(g, st), g.home(st.tNext);
            HasOpen(t.own, t.next, Back(p), t.bHead[p], t.back[p]) && Ends(t.bEnd[p], t.back[p])
  {
    var t, x, p := AfterProcess(g, st), st.tNext, g.home(st.tNext);
    var bs := st.back[p];
    MoveOnto(st.own, Taken, Back(p), [x], bs, [x] + bs);
    assert x !in bs;
    var l := [x] + bs;
    forall i | 0 <= i < |l| - 1 ensures t.next[l[i]] == l[i + 1] {
      if i > 0 { assert l[i] == bs[i - 1] && bs[i - 1] in bs; }
    }
  }

  lemma FifoProcess(g: Cfg, op: seq<Op>, q: nat, taken: seq<int>)
    requires taken != [] && 0 <= taken[0] < |op|
    ensures Log(g, op, q, taken) == (if g.home(taken[0]) == q then [op[taken[0]]] else []) + Log(g, op, q, taken[1..])
  {
    LogConcat(g, op, q, [taken[0]], taken[1..]);
    LogOne(g, op, q, taken[0]);
    assert taken == [taken[0]] + taken[1..];
  }

  lemma ProcessFifo(g: Cfg, st: State, q: nat)
    requires Shaped(g, st) && q < g.ranks && FifoOk(g, st, q) && Enabled(g, st, Process)
    requires st.taken != [] && st.taken[0] == st.tNext
    ensures FifoOk(g, AfterProcess(g, st), q)
  {
    FifoProcess(g, st.op, q, st.taken);
    var h, o, l := st.handed[q], [st.op[st.tNext]], Log(g, st.op, q, st.taken[1..]);
    assert h + (o + l) == (h + o) + l;
    assert h + ([] + l) == h + l;
  }

  lemma ProcessRank(g: Cfg, st: State, q: nat)
    requires Shaped(g, st) && PoolOk(g, st) && Enabled(g, st, Process) && q < g.ranks && ListsOk(g, st, q)
    ensures ListsOk(g, AfterProcess(g, st), q)
  {
    var t, x, p := AfterProcess(g, st), st.tNext, g.home(st.tNext);
    ProcessShift(g, st);
    if q != p {
      KeepRank(g, st, [x], Taken, Back(p), t, q);
    } else {
      KeepPlace(st, [x], Taken, Back(p), t, Private(q), st.rank[q].free, st.priv[q]);
      KeepPlace(st, [x], Taken, Back(p), t, Shared(q), st.free[q], st.shared[q]);
      KeepPlace(st, [x], Taken, Back(p), t, Unposted(q), st.rank[q].first, st.un[q]);
      ProcessBack(g, st);
    }
  }

  lemma ProcessInv(g: Cfg, st: State)
    requires Inv(g, st) && Enabled(g, st, Process)
    ensures Inv(g, AfterProcess(g, st))
  {
    var t, x, p := AfterProcess(g, st), st.tNext, g.home(st.tNext);
    ProcessShift(g, st);
    ProcessPool(g, st);
    KeepHome(g, st, [x], Taken, Back(p), t);
    forall q: nat | q < g.ranks ensures ListsOk(g, t, q) && PcOk(g, t, q) && FifoOk(g, t, q) {
      assert ListsOk(g, st, q) && PcOk(g, st, q) && FifoOk(g, st, q);
      ProcessRank(g, st, q);
      ProcessFifo(g, st, q);
    }
  }

  /** Writing the open end of a list to be given back disturbs nothing. */
  lemma OpenEndInv(g: Cfg, st: State, i: nat, v: int, sub: Sub)
    requires Inv(g, st) && i < g.ranks && st.phase.Ret? && st.phase.i == i && st.bHead[i] != -1 && InPool(g, st.bEnd[i])
    requires RetOk(g, st.(next := st.next[st.bEnd[i] := v], phase := Ret(i, sub)))
    ensures Inv(g, st.(next := st.next[st.bEnd[i] := v], phase := Ret(i, sub)))
  {
    var t, e := st.(next := st.next[st.bEnd[i] := v], phase := Ret(i, sub)), st.bEnd[i];
    assert ListsOk(g, st, i);
    assert e in st.back[i];
    var a, b := Back(i), Shared(g.ranks);
    assert Move(st.own, [], b) == st.own;
    assert Shift(st, [], a, b, t);
    KeepPool(g, st, [], a, b, t);
    forall q: nat | q < g.ranks ensures ListsOk(g, t, q) && PcOk(g, t, q) && FifoOk(g, t, q) {
      assert ListsOk(g, st, q) && PcOk(g, st, q) && FifoOk(g, st, q);
      if q != i { KeepRank(g, st, [], a, b, t, q); } else { OpenEndLists(g, st, i, v, sub); }
    }
  }

  lemma OpenEndLists(g: Cfg, st: State, i: nat, v: int, sub: Sub)
    requires Shaped(g, st) && i < g.ranks && ListsOk(g, st, i) && st.bHead[i] != -1 && InPool(g, st.bEnd[i])
    ensures ListsOk(g, st.(next := st.next[st.bEnd[i] := v], phase := Ret(i, sub)), i)
  {
    var t, e := st.(next := st.next[st.bEnd[i] := v], phase := Ret(i, sub)), st.bEnd[i];
    assert e in st.back[i];
    var a, b := Back(i), Shared(g.ranks);
    assert Move(st.own, [], b) == st.own;
    assert Shift(st, [], a, b, t);
    KeepPlace(st, [], a, b, t, Private(i), st.rank[i].free, st.priv[i]);
    KeepPlace(st, [], a, b, t, Shared(i), st.free[i], st.shared[i]);
    KeepPlace(st, [], a, b, t, Unposted(i), st.rank[i].first, st.un[i]);
    var s := st.back[i];
    forall k | 0 <= k < |s| - 1 ensures t.next[s[k]] == st.next[s[k]] { assert s[k] != s[|s| - 1]; }
  }

  lemma PublishShared(g: Cfg, st: State, i: nat)
    requires Shaped(g, st) && i < g.ranks && ListsOk(g, st, i) && st.bHead[i] != -1 && InPool(g, st.bEnd[i])
    requires st.next[st.bEnd[i]] == st.free[i]
    ensures var t := Publish(g, st, i);
            && Shift(st, st.back[i], Back(i), Shared(i), t)
            && HasList(t.own, t.next, Shared(i), t.free[i], t.shared[i])
            && HasOpen(t.own, t.next, Back(i), t.bHead[i], t.back[i])
  {
    var s, sh := st.back[i], st.shared[i];
    assert s + [] == s;
    MoveAway(st.own, Back(i), s, [], Shared(i));
    MoveOnto(st.own, Back(i), Shared(i), s, sh, s + sh);
    if sh != [] { JoinChains(st.next, st.next, s, sh); } else { assert s + sh == s; }
  }

  lemma PublishRank(g: Cfg, st: State, i: nat, q: nat)
    requires Inv(g, st) && i < g.ranks && q < g.ranks && st.bHead[i] != -1 && InPool(g, st.bEnd[i])
    requires st.next[st.bEnd[i]] == st.free[i]
    ensures var t := Publish(g, st, i); ListsOk(g, t, q) && PcOk(g, t, q) && FifoOk(g, t, q)
  {
    var t, s := Publish(g, st, i), st.back[i];
    assert ListsOk(g, st, i);
    assert ListsOk(g, st, q) && PcOk(g, st, q) && FifoOk(g, st, q);
    PublishShared(g, st, i);
    if q != i {
      KeepRank(g, st, s, Back(i), Shared(i), t, q);
    } else {
      KeepPlace(st, s, Back(i), Shared(i), t, Private(i), st.rank[i].free, st.priv[i]);
      KeepPlace(st, s, Back(i), Shared(i), t, Unposted(i), st.rank[i].first, st.un[i]);
    }
    KeepFifo(g, st, t, q);
  }

  lemma PublishInv(g: Cfg, st: State, i: nat)
    requires Inv(g, st) && i < g.ranks && st.bHead[i] != -1 && InPool(g, st.bEnd[i])
    requires st.next[st.bEnd[i]] == st.free[i]
    ensures Inv(g, Publish(g, st, i))
  {
    var t, s := Publish(g, st, i), st.back[i];
    assert ListsOk(g, st, i);
    PublishShared(g, st, i);
    KeepPool(g, st, s, Back(i), Shared(i), t);
    KeepHome(g, st, s, Back(i), Shared(i), t);
    forall q: nat | q < g.ranks ensures ListsOk(g, t, q) && PcOk(g, t, q) && FifoOk(g, t, q) {
      PublishRank(g, st, i, q);
    }
    if i + 1 < g.ranks && t.bHead[i + 1] != -1 {
      assert ListsOk(g, t, i + 1);
      assert t.bEnd[i + 1] in t.back[i + 1];
    }
  }

  /** Steps that only move the thread's program counter. */
  lemma PhaseInv(g: Cfg, st: State, phase: Phase)
    requires Inv(g, st) && (phase.Ret? ==> phase.i <= g.ranks) && RetOk(g, st.(phase := phase))
    ensures Inv(g, st.(phase := phase))
  {
    var t := st.(phase := phase);
    forall q: nat | q < g.ranks ensures ListsOk(g, t, q) && PcOk(g, t, q) && FifoOk(g, t, q) {
      assert ListsOk(g, st, q) && PcOk(g, st, q) && FifoOk(g, st, q);
    }
  }

  lemma LookOk(g: Cfg, st: State, i: nat)
    requires Inv(g, st) && i <= g.ranks
    ensures RetOk(g, st.(phase := Ret(i, Look)))
  {
    if i < g.ranks && st.bHead[i] != -1 {
      assert ListsOk(g, st, i);
      assert st.bEnd[i] in st.back[i];
    }
  }

  lemma ReturnInv(g: Cfg, st: State)
    requires Inv(g, st) && Enabled(g, st, Return)
    ensures Inv(g, AfterReturn(g, st))
  {
    var i := st.phase.i;
    if i == g.ranks {
      PhaseInv(g, st, Rest);
    } else if st.bHead[i] == -1 {
      LookOk(g, st, i + 1);
      PhaseInv(g, st, Ret(i + 1, Look));
    } else {
      match st.phase.sub
      case Look => PhaseInv(g, st, Ret(i, Link(st.free[i])));
      case Link(was) => OpenEndInv(g, st, i, was, Swap(was));
      case Swap(was) =>
        if was == -1 || st.free[i] == was { PublishInv(g, st, i); } else { PhaseInv(g, st, Ret(i, Unlink)); }
      case Unlink => OpenEndInv(g, st, i, -1, Store);
      case Store => PublishInv(g, st, i);
    }
  }

  lemma StepInv(g: Cfg, st: State, a: Action, t: State)
    requires ValidCfg(g) && Inv(g, st) && Takes(g, st, a, t)
    ensures Inv(g, t)
  {
    match a
    case Append(r, o) => AppendInv(g, st, r, o);
    case CutPost(r, path) => CutPostInv(g, st, r, path);
    case StartPost(r) => StartPostInv(g, st, r);
    case Grab => GrabInv(g, st);
    case Resume => PhaseInv(g, st, Proc(false));
    case Process => ProcessInv(g, st);
    case EndBatch =>
      LookOk(g, st, 0);
      PhaseInv(g, st, Ret(0, Look));
    case Return => ReturnInv(g, st);
    case _ => RankStepInv(g, st, a);
  }
}
