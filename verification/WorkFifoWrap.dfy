/** The work FIFO on counters that wrap is the unbounded one seen through the modulus. */
module WorkFifoWrap {
  import opened Arith
  import opened WorkLayout
  import opened WorkFifo
  import opened WorkFifoProof

  ghost predicate Wrapping(g: Cfg) { ValidCfg(g) && g.wrap > 0 }

  ghost function Plain(g: Cfg): Cfg { g.(wrap := 0) }

  ghost function WrapSeq(w: nat, s: seq<int>): seq<int>
    requires w > 0
  {
    seq(|s|, i requires 0 <= i < |s| => s[i] % w)
  }

  ghost function WrapPart(w: nat, p: Part): Part
    requires w > 0
  {
    p.(ixs := WrapSeq(w, p.ixs))
  }

  ghost function WrapParts(w: nat, ps: seq<Part>): seq<Part>
    requires w > 0
  {
    seq(|ps|, i requires 0 <= i < |ps| => WrapPart(w, ps[i]))
  }

  ghost function WrapWork(w: nat, k: Work): Work
    requires w > 0
  {
    k.(acks := k.acks % w)
  }

  ghost function WrapDev(w: nat, d: Dev): Dev
    requires w > 0
  {
    if d.cur.Acking? then d.(cur := Acking(d.cur.acks % w)) else d
  }

  ghost function WrapHost(w: nat, h: Host): Host
    requires w > 0
  {
    if h.Waiting? then Waiting(h.plan, WrapSeq(w, h.polled)) else h
  }

  ghost function WrapState(g: Cfg, st: State): State
    requires g.wrap > 0
  {
    var w := g.wrap;
    State(st.sent % w, st.ackd % w, WrapSeq(w, st.chSent), WrapSeq(w, st.done),
          seq(|st.heap|, i requires 0 <= i < |st.heap| => WrapWork(w, st.heap[i])), WrapHost(w, st.host),
          seq(|st.parts|, i requires 0 <= i < |st.parts| => WrapParts(w, st.parts[i])),
          seq(|st.dev|, i requires 0 <= i < |st.dev| => WrapDev(w, st.dev[i])))
  }

  /** The plan being uploaded fits the FIFO. */
  ghost predicate SmallPlan(g: Cfg, st: State) {
    && (st.host.Waiting? ==> Total(st.host.plan) <= g.depth)
    && (st.host.Writing? ==> Total(st.host.wplan) <= g.depth)
  }

  ghost predicate SmallAction(g: Cfg, a: Action) { a.Begin? ==> Total(a.plan) <= g.depth }

  /** The modulus is a multiple of the depth, so slots do not notice the wrap. */
  lemma SlotOfWrapped(g: Cfg, x: int)
    requires Wrapping(g)
    ensures (x % g.wrap) % g.depth == x % g.depth
  {
    var k := g.wrap / g.depth;
    assert g.wrap == g.depth * k;
    var q := x / g.wrap;
    assert x == g.wrap * q + x % g.wrap;
    assert g.wrap * q == g.depth * (k * q);
    ModShift(x % g.wrap, g.depth, k * q);
  }

  lemma WrapAdd(w: nat, x: int, y: int)
    requires w > 0
    ensures (x % w + y) % w == (x + y) % w
  {
    WrapShift(w, x, y);
  }

  lemma IxWraps(g: Cfg, plan: Plan, head: int, c: nat, i: nat)
    requires Wrapping(g) && IsWork(plan, c, i)
    ensures IxAt(g, plan, head % g.wrap, c, i) == IxAt(Plain(g), plan, head, c, i) % g.wrap
    ensures IxAt(g, plan, head % g.wrap, c, i) % g.depth == IxAt(Plain(g), plan, head, c, i) % g.depth
  {
    WrapAdd(g.wrap, head, Ix(plan, c, i));
    SlotOfWrapped(g, head + Ix(plan, c, i));
  }

  lemma WorkWraps(g: Cfg, plan: Plan, head: int, c: nat, i: nat)
    requires Wrapping(g) && IsWork(plan, c, i)
    ensures WorkAt(g, plan, head % g.wrap, c, i) == WrapWork(g.wrap, WorkAt(Plain(g), plan, head, c, i))
  {
    IxWraps(g, plan, head, c, i);
    SlotOfWrapped(g, head);
    if i + 1 < |plan[c]| {
      IxWraps(g, plan, head, c, i + 1);
      SmallMod(0, g.wrap);
    } else {
      WrapAdd(g.wrap, IxAt(Plain(g), plan, head, c, i), 1);
    }
  }

  lemma WaitWraps(g: Cfg, ackd: int, head: int, plan: Plan)
    requires Wrapping(g) && Total(plan) <= g.depth && ackd <= head < ackd + 2 * g.depth
    ensures AfterWait(g, ackd % g.wrap, head % g.wrap, plan) == AfterWait(Plain(g), ackd, head, plan)
  {
    WrapAdd(g.wrap, ackd, g.depth);
    WrapAdd(g.wrap, head, Total(plan));
    RollingLessTrue(g.wrap, ackd + g.depth, head + Total(plan));
  }

  lemma HeadWraps(g: Cfg, sent: int, heads: nat)
    requires Wrapping(g)
    ensures Wrap(g.wrap, Head(g.depth, sent % g.wrap, heads)) == Head(g.depth, sent, heads) % g.wrap
  {
    var s := sent % g.wrap;
    SlotOfWrapped(g, sent);
    WrapShift(g.depth, sent, heads - 1);
    WrapShift(g.depth, s, heads - 1);
    WrapShift(g.depth, sent, g.depth - 1);
    WrapShift(g.depth, s, g.depth - 1);
    var off := if (sent + heads - 1) % g.depth < sent % g.depth
      then g.depth - 1 - (sent + g.depth - 1) % g.depth else 0;
    assert Head(g.depth, sent, heads) == sent + off && Head(g.depth, s, heads) == s + off;
    WrapAdd(g.wrap, sent, off);
  }

  lemma {:induction false} AckdAllWraps(g: Cfg, sent: int, polled: seq<int>, chSent: seq<int>, k: nat, lo: int)
    requires Wrapping(g) && k <= |polled| && k <= |chSent| && lo <= sent <= lo + 2 * g.depth
    requires forall c | 0 <= c < k :: lo <= polled[c] <= sent && lo <= chSent[c] <= sent
    ensures AckdAll(g, sent % g.wrap, WrapSeq(g.wrap, polled), WrapSeq(g.wrap, chSent), k)
            == AckdAll(Plain(g), sent, polled, chSent, k) % g.wrap
  {
    if k > 0 {
      AckdAllWraps(g, sent, polled, chSent, k - 1, lo);
      AckdAllIsMin(Plain(g), sent, polled, chSent, k - 1, lo);
      WrapInjective(g.wrap, polled[k - 1], chSent[k - 1]);
      RollingMinTrue(g.wrap, AckdAll(Plain(g), sent, polled, chSent, k - 1), polled[k - 1]);
    }
  }

  lemma ChansBounded(g: Cfg, st: State)
    requires Unbounded(g) && Inv(g, st)
    ensures forall c | 0 <= c < g.chans :: st.ackd <= st.done[c] <= st.chSent[c] <= st.sent
  {
    forall c: nat | c < g.chans ensures st.ackd <= st.done[c] <= st.chSent[c] <= st.sent { assert ChanOk(g, st, c); }
  }

  lemma BeginWraps(g: Cfg, st: State, plan: Plan)
    requires Wrapping(g) && Inv(Plain(g), st) && Enabled(Plain(g), st, Begin(plan)) && Total(plan) <= g.depth
    ensures AfterBegin(g, WrapState(g, st), plan) == WrapState(g, AfterBegin(Plain(g), st, plan))
  {
    HeadWraps(g, st.sent, Heads(plan));
    HeadFits(g.depth, st.sent, Heads(plan));
    WaitWraps(g, st.ackd, Head(g.depth, st.sent, Heads(plan)), plan);
    assert WrapSeq(g.wrap, []) == [];
  }

  lemma SettleWraps(g: Cfg, st: State)
    requires Wrapping(g) && Inv(Plain(g), st) && Enabled(Plain(g), st, Settle) && SmallPlan(g, st)
    ensures AfterSettle(g, WrapState(g, st)) == WrapState(g, AfterSettle(Plain(g), st))
  {
    var polled := st.host.polled;
    ChansBounded(Plain(g), st);
    AckdAllWraps(g, st.sent, polled, st.chSent, g.chans, st.ackd);
    AckdAllIsMin(Plain(g), st.sent, polled, st.chSent, g.chans, st.ackd);
    var all := AckdAll(Plain(g), st.sent, polled, st.chSent, g.chans);
    WaitWraps(g, all, st.sent, st.host.plan);
    forall c | 0 <= c < g.chans
      ensures polled[c] % g.wrap == st.chSent[c] % g.wrap <==> polled[c] == st.chSent[c]
    {
      WrapInjective(g.wrap, polled[c], st.chSent[c]);
    }
    var a, b := AfterSettle(g, WrapState(g, st)), WrapState(g, AfterSettle(Plain(g), st));
    assert WrapSeq(g.wrap, []) == [];
    assert a.chSent == b.chSent;
    assert a.done == b.done;
  }

  lemma WriteWraps(g: Cfg, st: State)
    requires Wrapping(g) && Shaped(Plain(g), st) && Enabled(Plain(g), st, Write)
    ensures AfterWrite(g, WrapState(g, st)) == WrapState(g, AfterWrite(Plain(g), st))
  {
    var Writing(plan, c, i) := st.host;
    if i < |plan[c]| {
      WorkWraps(g, plan, st.sent, c, i);
      IxWraps(g, plan, st.sent, c, i);
      assert AfterWrite(g, WrapState(g, st)).heap == WrapState(g, AfterWrite(Plain(g), st)).heap;
    }
  }

  lemma NewPartWraps(g: Cfg, plan: Plan, sent: int, c: nat)
    requires Wrapping(g) && c < |plan|
    ensures NewPart(g, plan, sent % g.wrap, c) == WrapPart(g.wrap, NewPart(Plain(g), plan, sent, c))
  {
    SlotOfWrapped(g, sent);
    forall i: nat | i < |plan[c]|
      ensures IxAt(g, plan, sent % g.wrap, c, i) == IxAt(Plain(g), plan, sent, c, i) % g.wrap
    {
      IxWraps(g, plan, sent, c, i);
    }
    assert NewPart(g, plan, sent % g.wrap, c).ixs == WrapSeq(g.wrap, NewPart(Plain(g), plan, sent, c).ixs);
  }

  lemma PartsAppendWraps(w: nat, ps: seq<Part>, p: Part)
    requires w > 0
    ensures WrapParts(w, ps + [p]) == WrapParts(w, ps) + [WrapPart(w, p)]
  {
  }

  lemma LaunchChanWraps(g: Cfg, plan: Plan, sent: int, chSent: int, ps: seq<Part>, c: nat)
    requires Wrapping(g) && c < |plan|
    ensures ChSentAfter(g, plan, sent % g.wrap, chSent % g.wrap, c)
            == ChSentAfter(Plain(g), plan, sent, chSent, c) % g.wrap
    ensures PartsAfter(g, plan, sent % g.wrap, WrapParts(g.wrap, ps), c)
            == WrapParts(g.wrap, PartsAfter(Plain(g), plan, sent, ps, c))
  {
    if plan[c] != [] {
      NewPartWraps(g, plan, sent, c);
      PartsAppendWraps(g.wrap, ps, NewPart(Plain(g), plan, sent, c));
      var i := |plan[c]| - 1;
      IxWraps(g, plan, sent, c, i);
      WrapAdd(g.wrap, IxAt(Plain(g), plan, sent, c, i), 1);
    }
  }

  lemma LaunchWraps(g: Cfg, st: State)
    requires Wrapping(g) && Shaped(Plain(g), st) && Enabled(Plain(g), st, Launch)
    ensures Shaped(g, WrapState(g, st)) && Enabled(g, WrapState(g, st), Launch)
    ensures AfterLaunch(g, WrapState(g, st)) == WrapState(g, AfterLaunch(Plain(g), st))
  {
    var a, b := AfterLaunch(g, WrapState(g, st)), WrapState(g, AfterLaunch(Plain(g), st));
    WrapAdd(g.wrap, st.sent, Total(st.host.wplan));
    assert a.chSent == b.chSent by {
      forall c: nat | c < g.chans ensures a.chSent[c] == b.chSent[c] {
        LaunchChanWraps(g, st.host.wplan, st.sent, st.chSent[c], st.parts[c], c);
      }
    }
    assert a.parts == b.parts by {
      forall c: nat | c < g.chans ensures a.parts[c] == b.parts[c] {
        LaunchChanWraps(g, st.host.wplan, st.sent, st.chSent[c], st.parts[c], c);
      }
    }
  }

  lemma EnabledWraps(g: Cfg, st: State, a: Action)
    requires Wrapping(g) && Shaped(g, st)
    ensures Shaped(g, WrapState(g, st))
    ensures Enabled(g, WrapState(g, st), a) <==> Enabled(Plain(g), st, a)
  {
  }

  lemma DeviceWraps(g: Cfg, st: State, a: Action)
    requires Wrapping(g) && Shaped(g, st) && Enabled(Plain(g), st, a) && (a.Start? || a.Read? || a.Ack?)
    ensures Enabled(g, WrapState(g, st), a)
    ensures AfterDevice(g, WrapState(g, st), a) == WrapDev(g.wrap, AfterDevice(Plain(g), st, a))
  {
    EnabledWraps(g, st, a);
  }

  lemma PollWraps(g: Cfg, st: State)
    requires Wrapping(g) && Shaped(g, st) && Enabled(Plain(g), st, Poll)
    ensures Enabled(g, WrapState(g, st), Poll)
    ensures Next(g, WrapState(g, st), Poll) == WrapState(g, Next(Plain(g), st, Poll))
  {
    var polled, k := st.host.polled, |st.host.polled|;
    assert WrapSeq(g.wrap, polled + [st.done[k]]) == WrapSeq(g.wrap, polled) + [st.done[k] % g.wrap];
  }

  /** One step on wrapped counters does what the step on true counters does. */
  lemma DeviceStepWraps(g: Cfg, st: State, a: Action)
    requires Wrapping(g) && Inv(Plain(g), st) && SmallPlan(g, st) && Enabled(Plain(g), st, a)
    requires Shaped(g, WrapState(g, st)) && Enabled(g, WrapState(g, st), a) && (a.Start? || a.Read? || a.Ack?)
    ensures Next(g, WrapState(g, st), a) == WrapState(g, Next(Plain(g), st, a))
  {
    DeviceWraps(g, st, a);
    var x, y := Next(g, WrapState(g, st), a), WrapState(g, Next(Plain(g), st, a));
    assert x.dev == y.dev;
    assert x.done == y.done;
  }

  lemma StepWraps(g: Cfg, st: State, a: Action)
    requires Wrapping(g) && Inv(Plain(g), st) && SmallPlan(g, st) && SmallAction(g, a) && Enabled(Plain(g), st, a)
    ensures Shaped(g, WrapState(g, st)) && Enabled(g, WrapState(g, st), a)
    ensures Next(g, WrapState(g, st), a) == WrapState(g, Next(Plain(g), st, a))
  {
    EnabledWraps(g, st, a);
    match a
    case Begin(plan) => BeginWraps(g, st, plan);
    case Poll => PollWraps(g, st);
    case Settle => SettleWraps(g, st);
    case Write => WriteWraps(g, st);
    case Launch => LaunchWraps(g, st);
    case _ => DeviceStepWraps(g, st, a);
  }

  lemma SmallStep(g: Cfg, st: State, a: Action)
    requires ValidCfg(g) && Shaped(g, st) && Enabled(g, st, a) && SmallPlan(g, st) && SmallAction(g, a)
    ensures SmallPlan(g, Next(g, st, a))
  {
  }

  ghost predicate SmallRun(g: Cfg, acts: seq<Action>) { forall k | 0 <= k < |acts| :: SmallAction(g, acts[k]) }

  /** A state of the wrapped machine and the true state it stands for. */
  ghost predicate Stands(g: Cfg, st: State, t: State)
    requires Wrapping(g)
  {
    Inv(Plain(g), st) && SmallPlan(g, st) && t == WrapState(g, st)
  }

  lemma StepStands(g: Cfg, st: State, t: State, a: Action, t': State) returns (st': State)
    requires Wrapping(g) && Stands(g, st, t) && SmallAction(g, a) && Takes(g, t, a, t')
    ensures Takes(Plain(g), st, a, st') && Stands(g, st', t')
  {
    EnabledWraps(g, st, a);
    StepWraps(g, st, a);
    StepInv(Plain(g), st, a);
    SmallStep(Plain(g), st, a);
    st' := Next(Plain(g), st, a);
  }

  /** Every run on wrapped counters is the image of a run on true ones. */
  lemma {:induction false} RunWraps(g: Cfg, run: seq<State>, acts: seq<Action>) returns (truth: seq<State>)
    requires Wrapping(g) && IsRun(g, run, acts) && SmallRun(g, acts)
    ensures IsRun(Plain(g), truth, acts) && Stands(g, truth[|acts|], run[|acts|])
    decreases |acts|
  {
    if acts == [] {
      truth := run;
      InitInv(Plain(g), run[0]);
      InitWraps(g, run[0]);
    } else {
      var k := |acts| - 1;
      var before := RunWraps(g, run[..k + 1], acts[..k]);
      var last := StepStands(g, before[k], run[k], acts[k], run[k + 1]);
      truth := before + [last];
    }
  }

  lemma InitWraps(g: Cfg, st: State)
    requires Wrapping(g) && Init(g, st)
    ensures WrapState(g, st) == st
  {
    SmallMod(0, g.wrap);
    var t := WrapState(g, st);
    assert t.chSent == st.chSent && t.done == st.done;
    assert t.heap == st.heap;
    forall c: nat | c < g.chans ensures t.parts[c] == st.parts[c] { assert WrapParts(g.wrap, []) == []; }
    assert t.parts == st.parts;
    assert t.dev == st.dev;
  }
}
