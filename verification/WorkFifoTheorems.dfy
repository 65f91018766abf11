/** What the work FIFO guarantees on the 32-bit counters of the library. */
module WorkFifoTheorems {
  import opened Arith
  import opened WorkLayout
  import opened WorkFifo
  import opened WorkFifoProof
  import opened WorkFifoWrap

  /** The queues a channel was given by the plans begun so far. */
  ghost function Given(acts: seq<Action>, c: nat): seq<seq<int>> {
    if acts == [] then []
    else
      var a := acts[|acts| - 1];
      Given(acts[..|acts| - 1], c) + (if a.Begin? && c < |a.plan| && a.plan[c] != [] then [a.plan[c]] else [])
  }

  ghost function Loads(ps: seq<Part>): seq<seq<int>> {
    seq(|ps|, i requires 0 <= i < |ps| => ps[i].loads)
  }

  /** The queue of the plan the host is still uploading. */
  ghost function InProgress(st: State, c: nat): seq<seq<int>> {
    var plan := match st.host case Ready => [] case Waiting(p, _) => p case Writing(p, _, _) => p;
    if c < |plan| && plan[c] != [] then [plan[c]] else []
  }

  lemma StepGiven(g: Cfg, st: State, a: Action, t: State, c: nat)
    requires ValidCfg(g) && Takes(g, st, a, t) && c < g.chans
    ensures Shaped(g, t)
    ensures Loads(t.parts[c]) + InProgress(t, c)
            == Loads(st.parts[c]) + InProgress(st, c) + (if a.Begin? && a.plan[c] != [] then [a.plan[c]] else [])
  {
    NextShaped(g, st, a);
    if a.Launch? && st.host.wplan[c] != [] {
      assert Loads(t.parts[c]) == Loads(st.parts[c]) + [st.host.wplan[c]];
    }
  }

  lemma {:induction false} RunGiven(g: Cfg, run: seq<State>, acts: seq<Action>, c: nat)
    requires ValidCfg(g) && IsRun(g, run, acts) && c < g.chans
    ensures Shaped(g, run[|acts|]) && Given(acts, c) == Loads(run[|acts|].parts[c]) + InProgress(run[|acts|], c)
    decreases |acts|
  {
    if acts != [] {
      var k := |acts| - 1;
      RunGiven(g, run[..k + 1], acts[..k], c);
      assert Takes(g, run[k], acts[k], run[k + 1]);
      StepGiven(g, run[k], acts[k], run[k + 1], c);
    }
  }

  lemma StandsDev(g: Cfg, st: State, t: State, c: nat)
    requires Wrapping(g) && Stands(g, st, t) && c < g.chans
    ensures Shaped(g, t)
    ensures t.dev[c].m == st.dev[c].m && t.dev[c].log == st.dev[c].log && t.dev[c].seen == st.dev[c].seen
    ensures Loads(t.parts[c]) == Loads(st.parts[c])
    ensures t.dev[c].cur.Idle? <==> st.dev[c].cur.Idle?
  {
    EnabledWraps(g, st, Poll);
  }

  lemma DevReads(g: Cfg, ps: seq<Part>, d: Dev)
    requires g.depth > 0 && DevOk(g, ps, d)
    ensures d.m <= |ps| && d.log == Loads(ps)[..d.m]
    ensures !d.cur.Idle? ==> d.m < |ps| && d.seen <= Loads(ps)[d.m]
  {
  }

  /** On every run, at any moment, the kernels a channel has finished read exactly the first queues
      it was given, in order, and the running one has read a prefix of the next. */
  lemma ChannelsReadTheirQueues(g: Cfg, run: seq<State>, acts: seq<Action>, c: nat)
    requires Wrapping(g) && IsRun(g, run, acts) && SmallRun(g, acts) && c < g.chans
    ensures Shaped(g, run[|acts|])
    ensures var d := run[|acts|].dev[c];
            && d.log <= Given(acts, c) && |d.log| == d.m
            && (!d.cur.Idle? ==> d.m < |Given(acts, c)| && d.seen <= Given(acts, c)[d.m])
  {
    var truth := RunWraps(g, run, acts);
    var st, t := truth[|acts|], run[|acts|];
    RunGiven(g, run, acts, c);
    StandsDev(g, st, t, c);
    assert ChanOk(Plain(g), st, c);
    DevReads(Plain(g), st.parts[c], st.dev[c]);
  }

  /** On every run, a work the host is about to store never falls on a slot whose work a channel has
      still to read. */
  lemma NeverOverwritten(g: Cfg, run: seq<State>, acts: seq<Action>, c: nat, i: nat, k: nat)
    requires Wrapping(g) && IsRun(g, run, acts) && SmallRun(g, acts) && c < g.chans && Shaped(g, run[|acts|])
    requires run[|acts|].host.Writing? && IsWork(run[|acts|].host.wplan, run[|acts|].host.c, run[|acts|].host.i)
    requires Unread(run[|acts|].parts[c], run[|acts|].dev[c], i, k)
    ensures var t := run[|acts|];
            t.parts[c][i].ixs[k] % g.depth != IxAt(g, t.host.wplan, t.sent, t.host.c, t.host.i) % g.depth
  {
    var truth := RunWraps(g, run, acts);
    var st, t := truth[|acts|], run[|acts|];
    StandsDev(g, st, t, c);
    assert ChanOk(Plain(g), st, c);
    assert Unread(st.parts[c], st.dev[c], i, k);
    NoOverwrite(Plain(g), st, c, i, k);
    IxWraps(g, st.host.wplan, st.sent, st.host.c, st.host.i);
    SlotOfWrapped(g, st.parts[c][i].ixs[k]);
  }

  /** A channel with a launched kernel outstanding can always take its next step. */
  lemma DeviceNeverStuck(g: Cfg, run: seq<State>, acts: seq<Action>, c: nat)
    requires Wrapping(g) && IsRun(g, run, acts) && SmallRun(g, acts) && c < g.chans && Shaped(g, run[|acts|])
    requires run[|acts|].dev[c].m < |run[|acts|].parts[c]|
    ensures var t := run[|acts|]; Enabled(g, t, Start(c)) || Enabled(g, t, Read(c)) || Enabled(g, t, Ack(c))
  {
    var truth := RunWraps(g, run, acts);
    var st, t := truth[|acts|], run[|acts|];
    StandsDev(g, st, t, c);
    assert ChanOk(Plain(g), st, c);
    assert Enabled(Plain(g), st, Start(c)) || Enabled(Plain(g), st, Read(c)) || Enabled(Plain(g), st, Ack(c));
    EnabledWraps(g, st, Start(c));
    EnabledWraps(g, st, Read(c));
    EnabledWraps(g, st, Ack(c));
  }

  lemma {:induction false} AllQuiet(g: Cfg, sent: int, polled: seq<int>, chSent: seq<int>, k: nat)
    requires k <= |polled| && k <= |chSent| && forall c | 0 <= c < k :: polled[c] == chSent[c]
    ensures AckdAll(g, sent, polled, chSent, k) == sent
  {
    if k > 0 { AllQuiet(g, sent, polled, chSent, k - 1); }
  }

  /** Once every channel is found idle, the host stops waiting exactly when the room left by the plan, on the
      32-bit circle, is not negative: for a plan that fits the FIFO, and not for one that exceeds it by up to
      half the circle. */
  lemma WaitEndsIff(g: Cfg, t: State)
    requires Wrapping(g) && Shaped(g, t) && Enabled(g, t, Settle)
    requires forall c | 0 <= c < g.chans :: t.host.polled[c] == t.chSent[c]
    ensures Next(g, t, Settle).host.Writing? <==> (g.depth - Total(t.host.plan)) % g.wrap < g.wrap / 2
    ensures Total(t.host.plan) <= g.depth ==> Next(g, t, Settle).host.Writing?
    ensures g.depth < Total(t.host.plan) <= g.depth + g.wrap / 2 ==> !Next(g, t, Settle).host.Writing?
  {
    var n := Total(t.host.plan);
    AllQuiet(g, t.sent, t.host.polled, t.chSent, g.chans);
    WrapMinus(g.wrap, t.sent + g.depth, t.sent + n);
    if n <= g.depth {
      DivModUnique(g.depth - n, g.wrap, 0, g.depth - n);
    } else if n <= g.depth + g.wrap / 2 {
      DivModUnique(g.depth - n, g.wrap, -1, g.depth - n + g.wrap);
    }
  }

  /** In a reachable state where nothing is outstanding, what the host polls is what it expects. */
  lemma DrainedIsQuiet(g: Cfg, run: seq<State>, acts: seq<Action>, c: nat)
    requires Wrapping(g) && IsRun(g, run, acts) && SmallRun(g, acts) && c < g.chans && Shaped(g, run[|acts|])
    requires run[|acts|].dev[c].m == |run[|acts|].parts[c]|
    ensures run[|acts|].done[c] == run[|acts|].chSent[c]
  {
    var truth := RunWraps(g, run, acts);
    var st, t := truth[|acts|], run[|acts|];
    StandsDev(g, st, t, c);
    assert ChanOk(Plain(g), st, c);
  }
}
