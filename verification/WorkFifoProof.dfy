/** With unbounded counters: the host never writes over a work its channel has still to read, and
    every channel reads exactly the queues uploaded for it. */
module WorkFifoProof {
  import opened Arith
  import opened WorkLayout
  import opened WorkFifo

  ghost predicate Unbounded(g: Cfg) { ValidCfg(g) && g.wrap == 0 }

  ghost predicate Nonempty(p: Part) { |p.ixs| == |p.loads| > 0 }

  ghost function AckOf(p: Part): int
    requires Nonempty(p)
  {
    p.ixs[|p.ixs| - 1] + 1
  }

  /** What the FIFO must hold for work `k` of a part. */
  ghost function Image(g: Cfg, p: Part, k: nat): Work
    requires g.depth > 0 && Nonempty(p) && k < |p.ixs|
  {
    if k + 1 < |p.ixs| then Work(p.loads[k], p.ixs[k + 1] % g.depth - p.head, false, 0)
    else Work(p.loads[k], 0, true, AckOf(p))
  }

  ghost predicate PartOk(g: Cfg, p: Part, lo: int, hi: int)
    requires g.depth > 0
  {
    && Nonempty(p) && p.ixs[0] % g.depth == p.head + p.block
    && (forall k | 0 <= k < |p.ixs| :: lo <= p.ixs[k] < hi)
    && forall k | 0 <= k < |p.ixs| :: p.ixs[k] < AckOf(p)
  }

  ghost predicate PartsOk(g: Cfg, ps: seq<Part>, sent: int)
    requires g.depth > 0
  {
    && (forall i | 0 <= i < |ps| :: PartOk(g, ps[i], 0, sent))
    && forall i, j | 0 <= i < j < |ps| :: PartOk(g, ps[j], AckOf(ps[i]), sent)
  }

  ghost predicate DevOk(g: Cfg, ps: seq<Part>, d: Dev)
    requires g.depth > 0
  {
    && d.m <= |ps| && |d.log| == d.m && (forall i | 0 <= i < d.m :: d.log[i] == ps[i].loads)
    && match d.cur
       case Idle => d.seen == []
       case At(slot) =>
         && d.m < |ps| && |d.seen| < |ps[d.m].ixs| == |ps[d.m].loads|
         && d.seen == ps[d.m].loads[..|d.seen|] && slot == ps[d.m].ixs[|d.seen|] % g.depth
       case Acking(v) => d.m < |ps| && Nonempty(ps[d.m]) && d.seen == ps[d.m].loads && v == AckOf(ps[d.m])
  }

  ghost predicate CountsOk(ps: seq<Part>, m: nat, ackd: int, done: int, chSent: int, sent: int) {
    && 0 <= ackd <= done <= chSent <= sent
    && (if m < |ps| then Nonempty(ps[|ps| - 1]) && chSent == AckOf(ps[|ps| - 1]) && done < chSent else done == chSent)
  }

  ghost predicate FloorOk(g: Cfg, ps: seq<Part>, m: nat, done: int, sent: int)
    requires g.depth > 0
  {
    forall i | m <= i < |ps| :: PartOk(g, ps[i], done, sent)
  }

  /** Work `k` of part `i` is still to be read. */
  ghost predicate Unread(ps: seq<Part>, d: Dev, i: nat, k: nat) {
    d.m <= i < |ps| && k < |ps[i].ixs| && (i == d.m ==> |d.seen| <= k)
  }

  ghost predicate HeapOk(g: Cfg, ps: seq<Part>, d: Dev, heap: seq<Work>)
    requires g.depth > 0 && |heap| == g.depth
  {
    forall i: nat, k: nat | Unread(ps, d, i, k) :: Nonempty(ps[i]) && heap[ps[i].ixs[k] % g.depth] == Image(g, ps[i], k)
  }

  ghost predicate ChanOk(g: Cfg, st: State, c: nat)
    requires g.depth > 0 && Shaped(g, st) && c < g.chans
  {
    && PartsOk(g, st.parts[c], st.sent)
    && DevOk(g, st.parts[c], st.dev[c])
    && CountsOk(st.parts[c], st.dev[c].m, st.ackd, st.done[c], st.chSent[c], st.sent)
    && FloorOk(g, st.parts[c], st.dev[c].m, st.done[c], st.sent)
    && HeapOk(g, st.parts[c], st.dev[c], st.heap)
  }

  ghost predicate Before(c: nat, i: nat, c': nat, i': nat) { c < c' || (c == c' && i < i') }

  ghost predicate WrittenOk(g: Cfg, st: State)
    requires g.depth > 0 && Shaped(g, st) && st.host.Writing?
  {
    forall c: nat, i: nat | IsWork(st.host.wplan, c, i) && Before(c, i, st.host.c, st.host.i) ::
      st.heap[IxAt(g, st.host.wplan, st.sent, c, i) % g.depth] == WorkAt(g, st.host.wplan, st.sent, c, i)
  }

  ghost predicate HostOk(g: Cfg, st: State)
    requires g.depth > 0 && Shaped(g, st)
  {
    && 0 <= st.ackd <= st.sent
    && match st.host
       case Ready => st.sent <= st.ackd + g.depth
       case Waiting(plan, polled) =>
         && st.sent < st.ackd + 2 * g.depth
         && (st.sent % g.depth + Heads(plan) <= g.depth || Heads(plan) > g.depth)
         && forall c | 0 <= c < |polled| :: st.ackd <= polled[c] <= st.done[c]
       case Writing(plan, c, i) =>
         && st.sent % g.depth + Heads(plan) <= g.depth
         && st.sent + Total(plan) <= st.ackd + g.depth
         && WrittenOk(g, st)
  }

  ghost predicate Inv(g: Cfg, st: State) {
    && g.depth > 0 && Shaped(g, st) && HostOk(g, st)
    && forall c: nat | c < g.chans :: ChanOk(g, st, c)
  }

  lemma InitInv(g: Cfg, st: State)
    requires Unbounded(g) && Init(g, st)
    ensures Inv(g, st)
  {
  }

  lemma RaiseSent(g: Cfg, st: State, t: State, c: nat)
    requires Unbounded(g) && Shaped(g, st) && Shaped(g, t) && c < g.chans && ChanOk(g, st, c)
    requires st.sent <= t.sent
    requires t.parts[c] == st.parts[c] && t.dev[c] == st.dev[c] && t.ackd == st.ackd && t.done[c] == st.done[c]
    requires t.chSent[c] == st.chSent[c] && t.heap == st.heap
    ensures ChanOk(g, t, c)
  {
    var ps := st.parts[c];
    forall i, j | 0 <= i < j < |ps| ensures PartOk(g, ps[j], AckOf(ps[i]), t.sent) {
      assert PartOk(g, ps[j], AckOf(ps[i]), st.sent);
    }
    forall i | st.dev[c].m <= i < |ps| ensures PartOk(g, ps[i], st.done[c], t.sent) {
      assert PartOk(g, ps[i], st.done[c], st.sent);
    }
  }

  lemma BeginInv(g: Cfg, st: State, plan: Plan)
    requires Unbounded(g) && Inv(g, st) && Enabled(g, st, Begin(plan))
    ensures Inv(g, Next(g, st, Begin(plan)))
  {
    var t := Next(g, st, Begin(plan));
    HeadFits(g.depth, st.sent, Heads(plan));
    forall c: nat | c < g.chans ensures ChanOk(g, t, c) {
      assert ChanOk(g, st, c);
      RaiseSent(g, st, t, c);
    }
  }

  lemma PollInv(g: Cfg, st: State)
    requires Unbounded(g) && Inv(g, st) && Enabled(g, st, Poll)
    ensures Inv(g, Next(g, st, Poll))
  {
    var t := Next(g, st, Poll);
    var k := |st.host.polled|;
    assert ChanOk(g, st, k);
    forall c: nat | c < g.chans ensures ChanOk(g, t, c) {
      assert ChanOk(g, st, c);
      RaiseSent(g, st, t, c);
    }
  }

  /** The minimum taken over the channels that still owe an acknowledgement. */
  lemma {:induction false} AckdAllIsMin(g: Cfg, sent: int, polled: seq<int>, chSent: seq<int>, k: nat, lo: int)
    requires g.wrap == 0 && k <= |polled| && k <= |chSent| && lo <= sent
    requires forall c | 0 <= c < k :: lo <= polled[c]
    ensures lo <= AckdAll(g, sent, polled, chSent, k) <= sent
    ensures forall c | 0 <= c < k && polled[c] != chSent[c] :: AckdAll(g, sent, polled, chSent, k) <= polled[c]
    ensures AckdAll(g, sent, polled, chSent, k) == sent
            || exists c :: 0 <= c < k && polled[c] != chSent[c] && AckdAll(g, sent, polled, chSent, k) == polled[c]
  {
    if k > 0 { AckdAllIsMin(g, sent, polled, chSent, k - 1, lo); }
  }

  lemma SettleChan(g: Cfg, st: State, t: State, c: nat)
    requires Unbounded(g) && Shaped(g, st) && Shaped(g, t) && c < g.chans && ChanOk(g, st, c)
    requires t.sent == st.sent && t.parts[c] == st.parts[c] && t.dev[c] == st.dev[c] && t.heap == st.heap
    requires 0 <= t.ackd <= st.sent
    requires if st.done[c] == st.chSent[c] && st.dev[c].m == |st.parts[c]|
             then (t.done[c] == t.chSent[c] == t.ackd)
                  || (t.done[c] == st.done[c] && t.chSent[c] == st.chSent[c] && t.ackd <= st.done[c])
             else t.done[c] == st.done[c] && t.chSent[c] == st.chSent[c] && t.ackd <= st.done[c]
    ensures ChanOk(g, t, c)
  {
  }

  lemma SettleInv(g: Cfg, st: State)
    requires Unbounded(g) && Inv(g, st) && Enabled(g, st, Settle)
    ensures Inv(g, Next(g, st, Settle))
  {
    var t := Next(g, st, Settle);
    var polled := st.host.polled;
    AckdAllIsMin(g, st.sent, polled, st.chSent, g.chans, st.ackd);
    forall c: nat | c < g.chans ensures ChanOk(g, t, c) {
      assert ChanOk(g, st, c);
      assert st.ackd <= polled[c] <= st.done[c];
      SettleChan(g, st, t, c);
    }
  }

  /** Two counters less than one depth apart are in different slots. */
  lemma OtherSlot(depth: nat, a: int, b: int, lo: int)
    requires depth > 0 && lo <= a < b < lo + depth
    ensures a % depth != b % depth
  {
    if a % depth == b % depth { ModInjective(a, b, depth); }
  }

  /** The slot about to be written holds no work that is still to be read. */
  lemma NoOverwrite(g: Cfg, st: State, c: nat, i: nat, k: nat)
    requires Unbounded(g) && Shaped(g, st) && HostOk(g, st) && c < g.chans && Unread(st.parts[c], st.dev[c], i, k)
    requires FloorOk(g, st.parts[c], st.dev[c].m, st.done[c], st.sent) && st.ackd <= st.done[c]
    requires st.host.Writing? && IsWork(st.host.wplan, st.host.c, st.host.i)
    ensures st.parts[c][i].ixs[k] % g.depth != IxAt(g, st.host.wplan, st.sent, st.host.c, st.host.i) % g.depth
  {
    var ix, at := st.parts[c][i].ixs[k], st.sent + Ix(st.host.wplan, st.host.c, st.host.i);
    assert PartOk(g, st.parts[c][i], st.done[c], st.sent);
    IxInPlan(st.host.wplan, st.host.c, st.host.i);
    OtherSlot(g.depth, ix, at, st.ackd);
  }

  /** Nor one the same plan has already put there. */
  lemma NoCollision(g: Cfg, st: State, c: nat, i: nat)
    requires Unbounded(g) && Shaped(g, st) && HostOk(g, st) && st.host.Writing?
    requires IsWork(st.host.wplan, st.host.c, st.host.i) && IsWork(st.host.wplan, c, i)
             && (c, i) != (st.host.c, st.host.i)
    ensures IxAt(g, st.host.wplan, st.sent, c, i) % g.depth
            != IxAt(g, st.host.wplan, st.sent, st.host.c, st.host.i) % g.depth
  {
    var plan := st.host.wplan;
    var a, b := Ix(plan, c, i), Ix(plan, st.host.c, st.host.i);
    IxInPlan(plan, c, i);
    IxInPlan(plan, st.host.c, st.host.i);
    IxInjective(plan, c, i, st.host.c, st.host.i);
    if a < b {
      OtherSlot(g.depth, st.sent + a, st.sent + b, st.ackd);
    } else {
      OtherSlot(g.depth, st.sent + b, st.sent + a, st.ackd);
    }
  }

  lemma WriteChan(g: Cfg, st: State, c: nat)
    requires Unbounded(g) && Inv(g, st) && Enabled(g, st, Write) && c < g.chans
    ensures ChanOk(g, Next(g, st, Write), c)
  {
    var t := Next(g, st, Write);
    assert ChanOk(g, st, c);
    if st.host.i < |st.host.wplan[st.host.c]| {
      forall i: nat, k: nat | Unread(st.parts[c], st.dev[c], i, k)
        ensures Nonempty(st.parts[c][i]) && t.heap[st.parts[c][i].ixs[k] % g.depth] == Image(g, st.parts[c][i], k)
      {
        NoOverwrite(g, st, c, i, k);
      }
    }
    assert HeapOk(g, t.parts[c], t.dev[c], t.heap);
  }

  lemma WriteInv(g: Cfg, st: State)
    requires Unbounded(g) && Inv(g, st) && Enabled(g, st, Write)
    ensures Inv(g, Next(g, st, Write))
  {
    var t := Next(g, st, Write);
    var Writing(plan, c0, i0) := st.host;
    forall c: nat | c < g.chans ensures ChanOk(g, t, c) { WriteChan(g, st, c); }
    forall c: nat, i: nat | IsWork(plan, c, i) && Before(c, i, t.host.c, t.host.i)
      ensures t.heap[IxAt(g, plan, t.sent, c, i) % g.depth] == WorkAt(g, plan, t.sent, c, i)
    {
      if i0 < |plan[c0]| && (c, i) != (c0, i0) { NoCollision(g, st, c, i); }
      assert (c, i) != (c0, i0) ==> Before(c, i, c0, i0);
    }
  }

  lemma HeadSlot(depth: nat, sent: int, off: nat)
    requires depth > 0 && sent % depth + off < depth
    ensures (sent + off) % depth == sent % depth + off
  {
    DivModUnique(sent + off, depth, sent / depth, sent % depth + off);
  }

  lemma NewIxs(g: Cfg, plan: Plan, sent: int, c: nat, k: nat)
    requires Unbounded(g) && c < |plan| && k < |plan[c]|
    ensures var p := NewPart(g, plan, sent, c);
            Nonempty(p) && sent <= p.ixs[k] < sent + Total(plan) && p.ixs[k] < AckOf(p)
  {
    IxInPlan(plan, c, k);
    if k + 1 < |plan[c]| { IxAscends(plan, c, k, |plan[c]| - 1); }
  }

  lemma NewPartOk(g: Cfg, plan: Plan, sent: int, c: nat)
    requires Unbounded(g) && c < |plan| && plan[c] != [] && sent % g.depth + Heads(plan) <= g.depth
    ensures PartOk(g, NewPart(g, plan, sent, c), sent, sent + Total(plan))
    ensures sent < AckOf(NewPart(g, plan, sent, c)) <= sent + Total(plan)
  {
    forall k | 0 <= k < |plan[c]|
      ensures sent <= NewPart(g, plan, sent, c).ixs[k] < sent + Total(plan)
      ensures NewPart(g, plan, sent, c).ixs[k] < AckOf(NewPart(g, plan, sent, c))
    {
      NewIxs(g, plan, sent, c, k);
    }
    CountsGrow(plan, c, |plan|);
    HeadSlot(g.depth, sent, Below(plan, c));
  }

  lemma ImageIsWork(g: Cfg, plan: Plan, sent: int, c: nat, k: nat)
    requires Unbounded(g) && IsWork(plan, c, k)
    ensures var p := NewPart(g, plan, sent, c);
            Nonempty(p) && Image(g, p, k) == WorkAt(g, plan, sent, c, k) && p.ixs[k] == IxAt(g, plan, sent, c, k)
  {
  }

  lemma NewPartInHeap(g: Cfg, st: State, c: nat, k: nat)
    requires Unbounded(g) && Shaped(g, st) && Enabled(g, st, Launch) && WrittenOk(g, st) && c < g.chans
    requires k < |st.host.wplan[c]|
    ensures var p := NewPart(g, st.host.wplan, st.sent, c);
            Nonempty(p) && st.heap[p.ixs[k] % g.depth] == Image(g, p, k)
  {
    assert Before(c, k, st.host.c, st.host.i);
    ImageIsWork(g, st.host.wplan, st.sent, c, k);
  }

  lemma DevGrows(g: Cfg, ps: seq<Part>, p: Part, d: Dev)
    requires g.depth > 0 && DevOk(g, ps, d)
    ensures DevOk(g, ps + [p], d)
  {
  }

  lemma PartsGrow(g: Cfg, ps: seq<Part>, p: Part, m: nat, done: int, sent: int, more: int)
    requires Unbounded(g) && PartsOk(g, ps, sent) && FloorOk(g, ps, m, done, sent) && 0 <= done <= sent <= more
    requires PartOk(g, p, sent, more)
    ensures PartsOk(g, ps + [p], more) && FloorOk(g, ps + [p], m, done, more)
  {
    var qs := ps + [p];
    forall i | 0 <= i < |qs| ensures PartOk(g, qs[i], 0, more) {
      if i < |ps| { assert PartOk(g, ps[i], 0, sent); }
    }
    forall i, j | 0 <= i < j < |qs| ensures PartOk(g, qs[j], AckOf(qs[i]), more) {
      assert PartOk(g, ps[i], 0, sent);
      if j < |ps| { assert PartOk(g, ps[j], AckOf(ps[i]), sent); }
    }
    forall i | m <= i < |qs| ensures PartOk(g, qs[i], done, more) {
      if i < |ps| { assert PartOk(g, ps[i], done, sent); }
    }
  }

  lemma LaunchedPart(g: Cfg, st: State, c: nat)
    requires Unbounded(g) && Shaped(g, st) && Enabled(g, st, Launch) && c < g.chans && st.host.wplan[c] != []
    ensures var t, p := AfterLaunch(g, st), NewPart(g, st.host.wplan, st.sent, c);
            t.parts[c] == st.parts[c] + [p] && Nonempty(p) && t.chSent[c] == AckOf(p)
  {
  }

  lemma LaunchFull(g: Cfg, st: State, t: State, c: nat, p: Part)
    requires Unbounded(g) && Shaped(g, st) && Shaped(g, t) && c < g.chans && ChanOk(g, st, c)
    requires st.sent <= t.sent && PartOk(g, p, st.sent, t.sent)
    requires t.parts[c] == st.parts[c] + [p] && t.chSent[c] == AckOf(p)
    requires t.dev[c] == st.dev[c] && t.ackd == st.ackd && t.done[c] == st.done[c] && t.heap == st.heap
    requires HeapOk(g, st.parts[c] + [p], st.dev[c], st.heap)
    ensures ChanOk(g, t, c)
  {
    var ps, d := st.parts[c], st.dev[c];
    PartsGrow(g, ps, p, d.m, st.done[c], st.sent, t.sent);
    DevGrows(g, ps, p, d);
    assert p.ixs[0] < AckOf(p);
  }

  lemma LaunchInv(g: Cfg, st: State)
    requires Unbounded(g) && Inv(g, st) && Enabled(g, st, Launch)
    ensures Inv(g, Next(g, st, Launch))
  {
    var t := AfterLaunch(g, st);
    forall c: nat | c < g.chans ensures ChanOk(g, t, c) {
      if st.host.wplan[c] == [] {
        assert ChanOk(g, st, c);
        RaiseSent(g, st, t, c);
      } else {
        assert ChanOk(g, st, c);
        NewPartOk(g, st.host.wplan, st.sent, c);
        LaunchHeap(g, st, c);
        LaunchedPart(g, st, c);
        LaunchFull(g, st, t, c, NewPart(g, st.host.wplan, st.sent, c));
      }
    }
  }

  lemma LaunchHeap(g: Cfg, st: State, c: nat)
    requires Unbounded(g) && Inv(g, st) && Enabled(g, st, Launch) && c < g.chans && st.host.wplan[c] != []
    ensures HeapOk(g, st.parts[c] + [NewPart(g, st.host.wplan, st.sent, c)], st.dev[c], st.heap)
  {
    var ps, p := st.parts[c], NewPart(g, st.host.wplan, st.sent, c);
    assert ChanOk(g, st, c);
    forall i: nat, k: nat | Unread(ps + [p], st.dev[c], i, k)
      ensures Nonempty((ps + [p])[i]) && st.heap[(ps + [p])[i].ixs[k] % g.depth] == Image(g, (ps + [p])[i], k)
    {
      if i < |ps| { assert Unread(ps, st.dev[c], i, k); } else { NewPartInHeap(g, st, c, k); }
    }
  }

  /** A channel's own steps do not concern the others. */
  lemma OtherChan(g: Cfg, st: State, t: State, c: nat)
    requires Unbounded(g) && Shaped(g, st) && Shaped(g, t) && c < g.chans && ChanOk(g, st, c)
    requires t.sent == st.sent && t.parts == st.parts && t.ackd == st.ackd && t.heap == st.heap && t.chSent == st.chSent
    requires t.dev[c] == st.dev[c] && t.done[c] == st.done[c]
    ensures ChanOk(g, t, c)
  {
  }

  /** A channel that has read more has less to find in the FIFO. */
  lemma FewerUnread(g: Cfg, ps: seq<Part>, d: Dev, d': Dev, heap: seq<Work>)
    requires g.depth > 0 && |heap| == g.depth && HeapOk(g, ps, d, heap)
    requires d.m < d'.m || (d.m == d'.m && |d.seen| <= |d'.seen|)
    ensures HeapOk(g, ps, d', heap)
  {
    forall i: nat, k: nat | Unread(ps, d', i, k)
      ensures Nonempty(ps[i]) && heap[ps[i].ixs[k] % g.depth] == Image(g, ps[i], k)
    {
      assert Unread(ps, d, i, k);
    }
  }

  lemma StartChan(g: Cfg, st: State, c: nat)
    requires Unbounded(g) && Inv(g, st) && Enabled(g, st, Start(c))
    ensures ChanOk(g, Next(g, st, Start(c)), c)
  {
    assert ChanOk(g, st, c);
    assert PartOk(g, st.parts[c][st.dev[c].m], 0, st.sent);
    FewerUnread(g, st.parts[c], st.dev[c], AfterDevice(g, st, Start(c)), st.heap);
  }

  /** What a channel reads at its cursor is the next load of its part, and it goes on from there. */
  lemma ReadDev(g: Cfg, ps: seq<Part>, d: Dev, heap: seq<Work>)
    requires g.depth > 0 && |heap| == g.depth && DevOk(g, ps, d) && HeapOk(g, ps, d, heap) && d.cur.At?
    ensures var w := heap[d.cur.slot];
            DevOk(g, ps, d.(seen := d.seen + [w.load],
                            cur := if w.last then Acking(w.acks) else At(ps[d.m].head + w.next)))
  {
    var p, k := ps[d.m], |d.seen|;
    assert Unread(ps, d, d.m, k);
    assert p.loads[..k] + [p.loads[k]] == p.loads[..k + 1];
  }

  lemma ReadChan(g: Cfg, st: State, c: nat)
    requires Unbounded(g) && Inv(g, st) && Enabled(g, st, Read(c))
    ensures ChanOk(g, Next(g, st, Read(c)), c)
  {
    assert ChanOk(g, st, c);
    ReadDev(g, st.parts[c], st.dev[c], st.heap);
    FewerUnread(g, st.parts[c], st.dev[c], AfterDevice(g, st, Read(c)), st.heap);
  }

  lemma AckCounts(g: Cfg, ps: seq<Part>, m: nat, ackd: int, done: int, chSent: int, sent: int)
    requires g.depth > 0 && m < |ps| && PartsOk(g, ps, sent) && CountsOk(ps, m, ackd, done, chSent, sent)
    requires FloorOk(g, ps, m, done, sent)
    ensures Nonempty(ps[m]) && done <= AckOf(ps[m])
    ensures CountsOk(ps, m + 1, ackd, AckOf(ps[m]), chSent, sent) && FloorOk(g, ps, m + 1, AckOf(ps[m]), sent)
  {
    assert PartOk(g, ps[m], done, sent);
    if m + 1 < |ps| { assert PartOk(g, ps[|ps| - 1], AckOf(ps[m]), sent); }
  }

  lemma AckChan(g: Cfg, st: State, c: nat)
    requires Unbounded(g) && Inv(g, st) && Enabled(g, st, Ack(c))
    ensures ChanOk(g, Next(g, st, Ack(c)), c) && st.done[c] <= Next(g, st, Ack(c)).done[c]
  {
    assert ChanOk(g, st, c);
    AckCounts(g, st.parts[c], st.dev[c].m, st.ackd, st.done[c], st.chSent[c], st.sent);
    FewerUnread(g, st.parts[c], st.dev[c], AfterDevice(g, st, Ack(c)), st.heap);
  }

  lemma DeviceInv(g: Cfg, st: State, a: Action)
    requires Unbounded(g) && Inv(g, st) && Enabled(g, st, a) && (a.Start? || a.Read? || a.Ack?)
    ensures Inv(g, Next(g, st, a))
  {
    var t := Next(g, st, a);
    forall c: nat | c < g.chans ensures ChanOk(g, t, c) {
      assert ChanOk(g, st, c);
      if c != a.c {
        OtherChan(g, st, t, c);
      } else if a.Start? {
        StartChan(g, st, c);
      } else if a.Read? {
        ReadChan(g, st, c);
      } else {
        AckChan(g, st, c);
      }
    }
    if a.Ack? { AckChan(g, st, a.c); }
  }

  lemma StepInv(g: Cfg, st: State, a: Action)
    requires Unbounded(g) && Inv(g, st) && Enabled(g, st, a)
    ensures Inv(g, Next(g, st, a))
  {
    match a
    case Begin(plan) => BeginInv(g, st, plan);
    case Poll => PollInv(g, st);
    case Settle => SettleInv(g, st);
    case Write => WriteInv(g, st);
    case Launch => LaunchInv(g, st);
    case _ => DeviceInv(g, st, a);
  }

  lemma {:induction false} RunInv(g: Cfg, run: seq<State>, acts: seq<Action>)
    requires Unbounded(g) && IsRun(g, run, acts)
    ensures Inv(g, run[|acts|])
    decreases |acts|
  {
    if acts == [] {
      InitInv(g, run[0]);
    } else {
      var k := |acts| - 1;
      RunInv(g, run[..k + 1], acts[..k]);
      assert Takes(g, run[k], acts[k], run[k + 1]);
      StepInv(g, run[k], acts[k]);
    }
  }
}
