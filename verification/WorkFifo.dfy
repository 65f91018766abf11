/** The work FIFO between the host, which uploads kernel plans into a ring of slots, and the device
    channels, which follow their works through it and acknowledge them. */
module WorkFifo {
  import opened WorkLayout

  /** `wrap` is the modulus of the counters, 0 for unbounded ones. */
  datatype Cfg = Cfg(depth: nat, chans: nat, wrap: nat)

  predicate ValidCfg(g: Cfg) {
    g.depth > 0 && (g.wrap > 0 ==> g.wrap % g.depth == 0 && g.wrap % 2 == 0 && 8 * g.depth <= g.wrap)
  }

  datatype Work = Work(load: int, next: int, last: bool, acks: int)

  /** One channel's share of a launched plan: the slot of the plan's head, the block that serves
      the channel, and the counters and loads of its works. */
  datatype Part = Part(head: int, block: nat, ixs: seq<int>, loads: seq<int>)

  datatype Cur = Idle | At(slot: int) | Acking(acks: int)

  /** A channel on the device: `m` kernels finished, what they read, and the one in progress. */
  datatype Dev = Dev(m: nat, cur: Cur, log: seq<seq<int>>, seen: seq<int>)

  datatype Host = Ready | Waiting(plan: Plan, polled: seq<int>) | Writing(wplan: Plan, c: nat, i: nat)

  datatype State = State(sent: int, ackd: int, chSent: seq<int>, done: seq<int>, heap: seq<Work>, host: Host,
                         parts: seq<seq<Part>>, dev: seq<Dev>)

  predicate Shaped(g: Cfg, st: State) {
    && |st.chSent| == g.chans && |st.done| == g.chans && |st.parts| == g.chans && |st.dev| == g.chans
    && |st.heap| == g.depth
    && (st.host.Waiting? ==> |st.host.plan| == g.chans && |st.host.polled| <= g.chans)
    && (st.host.Writing? ==> |st.host.wplan| == g.chans && st.host.c <= g.chans)
  }

  function IxAt(g: Cfg, plan: Plan, head: int, c: nat, i: nat): int
    requires IsWork(plan, c, i)
  {
    Wrap(g.wrap, head + Ix(plan, c, i))
  }

  function WorkAt(g: Cfg, plan: Plan, head: int, c: nat, i: nat): Work
    requires g.depth > 0 && IsWork(plan, c, i)
  {
    if i + 1 < |plan[c]| then
      Work(plan[c][i], IxAt(g, plan, head, c, i + 1) % g.depth - head % g.depth, false, 0)
    else
      Work(plan[c][i], 0, true, Wrap(g.wrap, IxAt(g, plan, head, c, i) + 1))
  }

  /** Least acknowledged counter over the first `k` channels that still owe one. */
  function AckdAll(g: Cfg, sent: int, polled: seq<int>, chSent: seq<int>, k: nat): int
    requires k <= |polled| && k <= |chSent|
  {
    if k == 0 then sent
    else if polled[k - 1] != chSent[k - 1] then
      RollingMin(g.wrap, AckdAll(g, sent, polled, chSent, k - 1), polled[k - 1])
    else AckdAll(g, sent, polled, chSent, k - 1)
  }

  predicate MustWait(g: Cfg, ackd: int, head: int, plan: Plan) {
    RollingLess(g.wrap, Wrap(g.wrap, ackd + g.depth), Wrap(g.wrap, head + Total(plan)))
  }

  function AfterWait(g: Cfg, ackd: int, head: int, plan: Plan): Host {
    if MustWait(g, ackd, head, plan) then Waiting(plan, []) else Writing(plan, 0, 0)
  }

  datatype Action = Begin(plan: Plan) | Poll | Settle | Write | Launch | Start(c: nat) | Read(c: nat) | Ack(c: nat)

  predicate Enabled(g: Cfg, st: State, a: Action)
    requires Shaped(g, st)
  {
    match a
    case Begin(plan) => st.host.Ready? && |plan| == g.chans
    case Poll => st.host.Waiting? && |st.host.polled| < g.chans
    case Settle => st.host.Waiting? && |st.host.polled| == g.chans
    case Write => st.host.Writing? && st.host.c < g.chans
    case Launch => st.host.Writing? && st.host.c == g.chans
    case Start(c) => c < g.chans && st.dev[c].cur.Idle? && st.dev[c].m < |st.parts[c]|
    case Read(c) => c < g.chans && st.dev[c].cur.At? && 0 <= st.dev[c].cur.slot < g.depth && st.dev[c].m < |st.parts[c]|
    case Ack(c) => c < g.chans && st.dev[c].cur.Acking?
  }

  function NewPart(g: Cfg, plan: Plan, head: int, c: nat): Part
    requires g.depth > 0 && c < |plan|
  {
    Part(head % g.depth, Below(plan, c),
         seq(|plan[c]|, i requires 0 <= i < |plan[c]| => IxAt(g, plan, head, c, i)), plan[c])
  }

  function AfterBegin(g: Cfg, st: State, plan: Plan): State
    requires g.depth > 0
  {
    var head := Wrap(g.wrap, Head(g.depth, st.sent, Heads(plan)));
    st.(sent := head, host := AfterWait(g, st.ackd, head, plan))
  }

  /** Quiesced channels are moved up to the new minimum so that they do not fall behind. */
  function AfterSettle(g: Cfg, st: State): State
    requires Shaped(g, st) && Enabled(g, st, Settle)
  {
    var polled := st.host.polled;
    var all := AckdAll(g, st.sent, polled, st.chSent, g.chans);
    st.(chSent := seq(g.chans, c requires 0 <= c < g.chans => if polled[c] == st.chSent[c] then all else st.chSent[c]),
        done := seq(g.chans, c requires 0 <= c < g.chans => if polled[c] == st.chSent[c] then all else st.done[c]),
        ackd := all, host := AfterWait(g, all, st.sent, st.host.plan))
  }

  function AfterWrite(g: Cfg, st: State): State
    requires g.depth > 0 && Shaped(g, st) && Enabled(g, st, Write)
  {
    var Writing(plan, c, i) := st.host;
    if i < |plan[c]| then
      st.(heap := st.heap[IxAt(g, plan, st.sent, c, i) % g.depth := WorkAt(g, plan, st.sent, c, i)],
          host := Writing(plan, c, i + 1))
    else
      st.(host := Writing(plan, c + 1, 0))
  }

  function ChSentAfter(g: Cfg, plan: Plan, head: int, chSent: int, c: nat): int
    requires c < |plan|
  {
    if plan[c] == [] then chSent else Wrap(g.wrap, IxAt(g, plan, head, c, |plan[c]| - 1) + 1)
  }

  function PartsAfter(g: Cfg, plan: Plan, head: int, ps: seq<Part>, c: nat): seq<Part>
    requires g.depth > 0 && c < |plan|
  {
    if plan[c] == [] then ps else ps + [NewPart(g, plan, head, c)]
  }

  function AfterLaunch(g: Cfg, st: State): State
    requires g.depth > 0 && Shaped(g, st) && Enabled(g, st, Launch)
  {
    var plan := st.host.wplan;
    st.(sent := Wrap(g.wrap, st.sent + Total(plan)),
        chSent := seq(g.chans, c requires 0 <= c < g.chans => ChSentAfter(g, plan, st.sent, st.chSent[c], c)),
        parts := seq(g.chans, c requires 0 <= c < g.chans => PartsAfter(g, plan, st.sent, st.parts[c], c)),
        host := Ready)
  }

  /** The block starts at the head of its plan plus its own number, and afterwards follows the
      offset from the plan's head that each work carries. */
  function AfterDevice(g: Cfg, st: State, a: Action): Dev
    requires g.depth > 0 && Shaped(g, st) && (a.Start? || a.Read? || a.Ack?) && Enabled(g, st, a)
  {
    match a
    case Start(c) =>
      var p := st.parts[c][st.dev[c].m];
      st.dev[c].(cur := At(p.head + p.block), seen := [])
    case Read(c) =>
      var d, w := st.dev[c], st.heap[st.dev[c].cur.slot];
      d.(seen := d.seen + [w.load], cur := if w.last then Acking(w.acks) else At(st.parts[c][d.m].head + w.next))
    case Ack(c) =>
      var d := st.dev[c];
      Dev(d.m + 1, Idle, d.log + [d.seen], [])
  }

  function Next(g: Cfg, st: State, a: Action): State
    requires ValidCfg(g) && Shaped(g, st) && Enabled(g, st, a)
  {
    match a
    case Begin(plan) => AfterBegin(g, st, plan)
    case Poll => st.(host := Waiting(st.host.plan, st.host.polled + [st.done[|st.host.polled|]]))
    case Settle => AfterSettle(g, st)
    case Write => AfterWrite(g, st)
    case Launch => AfterLaunch(g, st)
    case Start(c) => st.(dev := st.dev[c := AfterDevice(g, st, a)])
    case Read(c) => st.(dev := st.dev[c := AfterDevice(g, st, a)])
    case Ack(c) => st.(done := st.done[c := st.dev[c].cur.acks], dev := st.dev[c := AfterDevice(g, st, a)])
  }

  lemma NextShaped(g: Cfg, st: State, a: Action)
    requires ValidCfg(g) && Shaped(g, st) && Enabled(g, st, a)
    ensures Shaped(g, Next(g, st, a))
  {
  }

  predicate Init(g: Cfg, st: State) {
    && Shaped(g, st) && st.sent == 0 && st.ackd == 0 && st.host.Ready?
    && (forall k | 0 <= k < g.depth :: st.heap[k] == Work(0, 0, false, 0))
    && forall c | 0 <= c < g.chans ::
         st.chSent[c] == 0 && st.done[c] == 0 && st.parts[c] == [] && st.dev[c] == Dev(0, Idle, [], [])
  }

  predicate Takes(g: Cfg, st: State, a: Action, t: State)
    requires ValidCfg(g)
  {
    Shaped(g, st) && Enabled(g, st, a) && t == Next(g, st, a)
  }

  /** The states a run passes through, given by its actions. */
  predicate IsRun(g: Cfg, run: seq<State>, acts: seq<Action>)
    requires ValidCfg(g)
  {
    && |run| == |acts| + 1 && Init(g, run[0])
    && forall k | 0 <= k < |acts| :: Takes(g, run[k], acts[k], run[k + 1])
  }
}
