/** Which operations share an element of the progress thread: those of one connection slot, one operation count
    and, as long as every append succeeds, one set of parameters. */
module ProxyGroups {
  import opened PlacedLists
  import opened ProxyActive
  import opened ProxyActiveProof
  import opened ProxyProgress

  /** The parts of a queued element: at least one, no more than allowed, all of its slot and its count, and more
      than one only if they are shared, `shared` telling which slots are. */
  ghost predicate Group(st: St, maxSubs: nat, shared: nat -> bool, x: int)
    requires Shaped(st) && 0 <= x < |st.own|
  {
    var g := st.subs[x];
    && g != [] && (|g| > 1 ==> |g| <= maxSubs)
    && forall i | 0 <= i < |g| ::
         && g[i].count == st.count[x] && st.own[x] == InQueue(g[i].slot) && g[i].shared == shared(g[i].slot)
         && (|g| > 1 ==> g[i].shared)
  }

  ghost predicate Grouped(st: St, maxSubs: nat, shared: nat -> bool)
    requires Shaped(st)
  {
    forall x | 0 <= x < |st.own| && st.own[x].InQueue? :: Group(st, maxSubs, shared, x)
  }

  /** All parts of an element have its parameters. */
  ghost predicate SameKind(st: St, x: int)
    requires Shaped(st) && 0 <= x < |st.own|
  {
    forall i | 0 <= i < |st.subs[x]| :: st.subs[x][i].kind == st.kind[x]
  }

  ghost predicate Uniform(st: St)
    requires Shaped(st)
  {
    forall x | 0 <= x < |st.own| && st.own[x].InQueue? :: SameKind(st, x)
  }

  /** A queued element of the new state was queued before or is the new one. */
  lemma QueuedBefore(st: St, o: Op, t: St, x: int)
    requires Inv(st) && Inv(t) && o.slot < |st.queue| && Entered(st, o, t) && 0 <= x < |t.own| && t.own[x].InQueue?
    ensures x == t.queue[o.slot][|st.queue[o.slot]|] || (x < |st.own| && st.own[x].InQueue?)
  {
    var s, q := t.own[x].s, st.queue[o.slot];
    assert QueueOk(t, s) && QueueOk(st, s);
    if s == o.slot {
      var i :| 0 <= i < |t.queue[s]| && t.queue[s][i] == x;
      if i < |q| { assert t.queue[s][..|q|][i] == x && x in q; }
    } else {
      assert x in st.queue[s];
    }
  }

  lemma EnterGroups(st: St, maxSubs: nat, shared: nat -> bool, o: Op, t: St)
    requires Inv(st) && Inv(t) && o.slot < |st.queue| && Entered(st, o, t) && o.shared == shared(o.slot)
    ensures Grouped(st, maxSubs, shared) ==> Grouped(t, maxSubs, shared)
    ensures Uniform(st) ==> Uniform(t)
  {
    forall x | 0 <= x < |t.own| && t.own[x].InQueue?
      ensures Grouped(st, maxSubs, shared) ==> Group(t, maxSubs, shared, x)
      ensures Uniform(st) ==> SameKind(t, x)
    {
      QueuedBefore(st, o, t, x);
      EnterOne(st, maxSubs, shared, o, t, x);
    }
  }

  lemma EnterOne(st: St, maxSubs: nat, shared: nat -> bool, o: Op, t: St, x: int)
    requires Shaped(st) && Shaped(t) && o.slot < |st.queue| && Entered(st, o, t) && o.shared == shared(o.slot)
    requires 0 <= x < |t.own| && (x == t.queue[o.slot][|st.queue[o.slot]|] || (x < |st.own| && st.own[x].InQueue?))
    ensures Grouped(st, maxSubs, shared) ==> Group(t, maxSubs, shared, x)
    ensures Uniform(st) ==> SameKind(t, x)
  {
    if x < |st.own| && st.own[x].InQueue? {
      assert Grouped(st, maxSubs, shared) ==> Group(st, maxSubs, shared, x);
      assert Uniform(st) ==> SameKind(st, x);
    }
  }

  lemma JoinGroups(st: St, maxSubs: nat, shared: nat -> bool, o: Op, t: St, ok: bool)
    requires Inv(st) && Shaped(t) && o.slot < |st.queue| && InGroup(st, o) && Joined(st, o, maxSubs, t, ok)
    requires o.shared == shared(o.slot)
    ensures Grouped(st, maxSubs, shared) ==> Grouped(t, maxSubs, shared)
    ensures Uniform(st) && ok ==> Uniform(t)
  {
    var q := st.queue[o.slot];
    var tail := q[|q| - 1];
    assert QueueOk(st, o.slot) && tail in q;
    forall x | 0 <= x < |t.own| && t.own[x].InQueue?
      ensures Grouped(st, maxSubs, shared) ==> Group(t, maxSubs, shared, x)
      ensures Uniform(st) && ok ==> SameKind(t, x)
    {
      assert Grouped(st, maxSubs, shared) ==> Group(st, maxSubs, shared, x);
      assert Uniform(st) ==> SameKind(st, x);
      assert st.own[tail] == InQueue(o.slot);
    }
  }

  /** An operation of a slot with its flag arrives, or an element starts or finishes. */
  ghost predicate Flagged(shared: nat -> bool, e: Event) { e.Arrive? ==> e.o.shared == shared(e.o.slot) }

  /** The append of the event, if it is one, succeeds. */
  ghost predicate Succeeds(st: St, alloc: nat, maxSubs: nat, e: Event)
    requires Inv(st) && alloc > 0 && Possible(st, e)
  {
    e.Arrive? ==> Appended(st, alloc, maxSubs, e.o).1
  }

  lemma ArriveGroups(st: St, alloc: nat, maxSubs: nat, shared: nat -> bool, o: Op)
    requires Inv(st) && alloc > 0 && o.slot < |st.queue| && o.shared == shared(o.slot)
    ensures var (t, ok) := Appended(st, alloc, maxSubs, o);
            && Inv(t) && (Grouped(st, maxSubs, shared) ==> Grouped(t, maxSubs, shared))
            && (Uniform(st) && ok ==> Uniform(t))
  {
    var (t, ok) := Appended(st, alloc, maxSubs, o);
    AppendedInv(st, alloc, maxSubs, o);
    AppendArrives(st, alloc, maxSubs, o);
    if InGroup(st, o) { JoinGroups(st, maxSubs, shared, o, t, ok); } else { EnterGroups(st, maxSubs, shared, o, t); }
  }

  /** Starting or removing an element changes no other one. */
  lemma FewerGroups(st: St, t: St, maxSubs: nat, shared: nat -> bool)
    requires Shaped(st) && Shaped(t) && |t.own| == |st.own|
    requires t.subs == st.subs && t.count == st.count && t.kind == st.kind
    requires forall x | 0 <= x < |t.own| && t.own[x].InQueue? :: t.own[x] == st.own[x]
    ensures Grouped(st, maxSubs, shared) ==> Grouped(t, maxSubs, shared)
    ensures Uniform(st) ==> Uniform(t)
  {
    forall x | 0 <= x < |t.own| && t.own[x].InQueue?
      ensures Grouped(st, maxSubs, shared) ==> Group(t, maxSubs, shared, x)
      ensures Uniform(st) ==> SameKind(t, x)
    {
      assert Grouped(st, maxSubs, shared) ==> Group(st, maxSubs, shared, x);
      assert Uniform(st) ==> SameKind(st, x);
    }
  }

  lemma AfterGroups(st: St, alloc: nat, maxSubs: nat, shared: nat -> bool, e: Event)
    requires Inv(st) && alloc > 0 && Possible(st, e) && Flagged(shared, e)
    ensures var t := After(st, alloc, maxSubs, e);
            && Inv(t) && (Grouped(st, maxSubs, shared) ==> Grouped(t, maxSubs, shared))
            && (Uniform(st) && Succeeds(st, alloc, maxSubs, e) ==> Uniform(t))
  {
    AfterInv(st, alloc, maxSubs, e);
    match e
    case Arrive(o) => ArriveGroups(st, alloc, maxSubs, shared, o);
    case Starts(k) =>
      CanRemove(st, k);
      FewerGroups(st, Run(st, k), maxSubs, shared);
    case Finishes(k) =>
      CanRemove(st, k);
      FewerGroups(st, Remove(st, k), maxSubs, shared);
  }

  ghost predicate AllFlagged(shared: nat -> bool, events: seq<Event>) {
    forall i | 0 <= i < |events| :: Flagged(shared, events[i])
  }

  ghost predicate AllSucceed(run: seq<St>, events: seq<Event>, alloc: nat, maxSubs: nat)
    requires alloc > 0 && |run| == |events| + 1
  {
    forall i | 0 <= i < |events| ::
      Inv(run[i]) && Possible(run[i], events[i]) ==> Succeeds(run[i], alloc, maxSubs, events[i])
  }

  lemma EmptyGroups(st: St, maxSubs: nat, shared: nat -> bool)
    requires Empty(st)
    ensures Inv(st) && Grouped(st, maxSubs, shared) && Uniform(st)
  {
  }

  lemma {:induction false} HistoryGroups(run: seq<St>, events: seq<Event>, alloc: nat, maxSubs: nat,
                                         shared: nat -> bool, k: nat)
    requires alloc > 0 && History(run, events, alloc, maxSubs) && AllPossible(run, events) && AllFlagged(shared, events)
    requires k <= |events|
    ensures Inv(run[k]) && Grouped(run[k], maxSubs, shared)
    ensures AllSucceed(run, events, alloc, maxSubs) ==> Uniform(run[k])
  {
    if k == 0 {
      EmptyGroups(run[0], maxSubs, shared);
    } else {
      HistoryGroups(run, events, alloc, maxSubs, shared, k - 1);
      assert Possible(run[k - 1], events[k - 1]) && Flagged(shared, events[k - 1]);
      AfterGroups(run[k - 1], alloc, maxSubs, shared, events[k - 1]);
    }
  }

  /** In every history, the operations in a queued element are all of its slot and its operation count, and more
      than one only where the slot is shared; while every append succeeds they also agree in their parameters. */
  lemma GroupsHold(run: seq<St>, events: seq<Event>, alloc: nat, maxSubs: nat, shared: nat -> bool, s: nat, x: int,
                   i: nat)
    requires alloc > 0 && History(run, events, alloc, maxSubs) && AllPossible(run, events) && AllFlagged(shared, events)
    ensures var st := run[|events|];
            Shaped(st) && (s < |st.queue| && x in st.queue[s] ==>
              && 0 <= x < |st.subs| && st.subs[x] != [] && (|st.subs[x]| > 1 ==> |st.subs[x]| <= maxSubs && shared(s))
              && (i < |st.subs[x]| ==>
                    && st.subs[x][i].slot == s && st.subs[x][i].count == st.count[x]
                    && (AllSucceed(run, events, alloc, maxSubs) ==> st.subs[x][i].kind == st.kind[x])))
  {
    HistoryGroups(run, events, alloc, maxSubs, shared, |events|);
    var st := run[|events|];
    if s < |st.queue| && x in st.queue[s] {
      assert QueueOk(st, s);
      assert Group(st, maxSubs, shared, x);
      assert AllSucceed(run, events, alloc, maxSubs) ==> SameKind(st, x);
      assert st.subs[x][0].slot == s;
    }
  }
}
