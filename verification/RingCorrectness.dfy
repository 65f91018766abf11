/** Every step of the ring AllReduce system keeps its invariant. */
module RingCorrectness {
  import opened RingProgram
  import opened RingAllReduce

  lemma Received<T>(cfg: Cfg<T>, st: State<T>, i: nat)
    requires Inv(cfg, st) && i < cfg.h.n && Enabled(cfg, st, i) && HasRecv(st.rank[i].pc)
    ensures var p := st.rank[i].pc;
            GoodSlice(cfg, Prev(cfg.h.n, i), Pc(p.l, p.j - 1, p.s), st.chan[Prev(cfg.h.n, i)][0])
  {
    var prev := Prev(cfg.h.n, i);
    assert Next(cfg.h.n, prev) == i;
    assert GoodRank(cfg, st, i) && GoodRank(cfg, st, prev);
    SendAtRecvd(cfg.h, st.rank[i].ops);
    assert GoodSlice(cfg, prev, SendAt(cfg.h, st.rank[i].rcvd + 0), st.chan[prev][0]);
  }

  lemma BlockHasPos<T>(cfg: Cfg<T>, l: nat, c: nat, s: nat, pos: int)
    requires Sane(cfg) && IsBlock(cfg.h, l, c, s) && InBlock(cfg, l, c, s, pos)
    ensures cfg.first <= pos < cfg.first + cfg.count && HasPos(cfg, pos)
  {
  }

  /** A rank still reads its own input in the reducing operations, also in place: the chunk it
      needs has not been stored yet. */
  lemma OwnInputIntact<T>(cfg: Cfg<T>, st: State<T>, i: nat, pos: int)
    requires Inv(cfg, st) && i < cfg.h.n && !Done(cfg, st, i)
    requires var p := st.rank[i].pc;
             p.j <= cfg.h.n - 1 && InBlock(cfg, p.l, ChunkAt(cfg.h.n, i, p.j), p.s, pos)
    ensures HasPos(cfg, pos) && pos < |Src(cfg, st, i)| && pos < |st.out[i]|
    ensures Src(cfg, st, i)[pos] == cfg.inp[i][pos]
  {
    var p := st.rank[i].pc;
    var c := ChunkAt(cfg.h.n, i, p.j);
    assert IsBlock(cfg.h, p.l, c, p.s);
    BlockHasPos(cfg, p.l, c, p.s, pos);
    assert GoodRank(cfg, st, i);
    assert !Stored(cfg.h, i, p.l, c, p.s, p);
  }

  /** Both ends of a channel agree on the length of every slice. */
  lemma NoMismatch<T>(cfg: Cfg<T>, st: State<T>, i: nat)
    requires Inv(cfg, st) && i < cfg.h.n && Enabled(cfg, st, i)
    ensures Matched(cfg, st, i)
  {
    var p := st.rank[i].pc;
    var c := ChunkAt(cfg.h.n, i, p.j);
    var lo, hi := cfg.lo(p.l, c, p.s), cfg.hi(p.l, c, p.s);
    if HasRecv(p) {
      Received(cfg, st, i);
      ChunkHandedOn(cfg.h.n, i, p.j);
    }
    assert IsBlock(cfg.h, p.l, c, p.s);
    if lo < hi {
      BlockHasPos(cfg, p.l, c, p.s, lo);
      BlockHasPos(cfg, p.l, c, p.s, hi - 1);
      assert GoodRank(cfg, st, i);
    }
  }

  /** Combining the own input with a good received value gives a good value. */
  lemma CombineGood<T>(cfg: Cfg<T>, i: nat, j: nat, pos: int, own: T, got: T)
    requires cfg.h.n >= 2 && HasPos(cfg, pos) && i < cfg.h.n && j <= 2 * cfg.h.n - 2
    requires j <= cfg.h.n - 1 ==> own == cfg.inp[i][pos]
    requires j > 0 ==> GoodValue(cfg, Prev(cfg.h.n, i), j - 1, pos, got)
    ensures GoodValue(cfg, i, j, pos, Combine(cfg, KindAt(cfg.h.n, j), i, own, got))
  {
    if j > 0 { ChunkHandedOn(cfg.h.n, i, j); }
  }

  /** What is received for a position of the current slice is what its sender should have sent. */
  lemma ReceivedAt<T>(cfg: Cfg<T>, st: State<T>, i: nat, k: nat)
    requires Inv(cfg, st) && i < cfg.h.n && Enabled(cfg, st, i) && HasRecv(st.rank[i].pc)
    requires k < |st.chan[Prev(cfg.h.n, i)][0]|
    ensures var p := st.rank[i].pc;
            var pos := cfg.lo(p.l, ChunkAt(cfg.h.n, i, p.j), p.s) + k;
            GoodValue(cfg, Prev(cfg.h.n, i), p.j - 1, pos, st.chan[Prev(cfg.h.n, i)][0][k])
  {
    Received(cfg, st, i);
    ChunkHandedOn(cfg.h.n, i, st.rank[i].pc.j);
  }

  lemma ComputedValue<T>(cfg: Cfg<T>, st: State<T>, i: nat, k: nat)
    requires Shaped(cfg, st) && i < cfg.h.n && Enabled(cfg, st, i) && Matched(cfg, st, i)
    requires k < |Computed(cfg, st, i)|
    ensures var p := st.rank[i].pc;
            var c := ChunkAt(cfg.h.n, i, p.j);
            var pos := cfg.lo(p.l, c, p.s) + k;
            && InBlock(cfg, p.l, c, p.s, pos) && 0 <= pos < |Src(cfg, st, i)|
            && (HasRecv(p) ==> k < |st.chan[Prev(cfg.h.n, i)][0]|)
            && Computed(cfg, st, i)[k] ==
               Combine(cfg, KindAt(cfg.h.n, p.j), i, Src(cfg, st, i)[pos],
                       if HasRecv(p) then st.chan[Prev(cfg.h.n, i)][0][k] else Src(cfg, st, i)[pos])
  {
  }

  lemma ComputedAt<T>(cfg: Cfg<T>, st: State<T>, i: nat, k: nat)
    requires Inv(cfg, st) && i < cfg.h.n && Enabled(cfg, st, i) && Matched(cfg, st, i)
    requires k < |Computed(cfg, st, i)|
    ensures var p := st.rank[i].pc;
            var pos := cfg.lo(p.l, ChunkAt(cfg.h.n, i, p.j), p.s) + k;
            GoodValue(cfg, i, p.j, pos, Computed(cfg, st, i)[k])
  {
    var p := st.rank[i].pc;
    var c := ChunkAt(cfg.h.n, i, p.j);
    var pos := cfg.lo(p.l, c, p.s) + k;
    ComputedValue(cfg, st, i, k);
    assert IsBlock(cfg.h, p.l, c, p.s);
    BlockHasPos(cfg, p.l, c, p.s, pos);
    var own := Src(cfg, st, i)[pos];
    if HasRecv(p) { ReceivedAt(cfg, st, i, k); }
    if p.j <= cfg.h.n - 1 { OwnInputIntact(cfg, st, i, pos); }
    CombineGood(cfg, i, p.j, pos, own, if HasRecv(p) then st.chan[Prev(cfg.h.n, i)][0][k] else own);
  }

  lemma ComputedGood<T>(cfg: Cfg<T>, st: State<T>, i: nat)
    requires Inv(cfg, st) && i < cfg.h.n && Enabled(cfg, st, i) && Matched(cfg, st, i)
    ensures GoodSlice(cfg, i, st.rank[i].pc, Computed(cfg, st, i))
  {
    var p := st.rank[i].pc;
    var vals := Computed(cfg, st, i);
    var lo := cfg.lo(p.l, ChunkAt(cfg.h.n, i, p.j), p.s);
    forall k | 0 <= k < |vals|
      ensures GoodValue(cfg, i, p.j, lo + k, vals[k])
    {
      ComputedAt(cfg, st, i, k);
    }
  }

  lemma ChannelSend<T>(cfg: Cfg<T>, i: nat, from: nat, upto: nat, chan: seq<seq<T>>, vals: seq<T>)
    requires Valid(cfg.h) && i < cfg.h.n && |chan| < cfg.cap
    requires GoodChannel(cfg, i, from, upto, chan) && GoodSlice(cfg, i, SendAt(cfg.h, upto), vals)
    ensures GoodChannel(cfg, i, from, upto + 1, chan + [vals])
  {
  }

  lemma ChannelRecv<T>(cfg: Cfg<T>, i: nat, from: nat, upto: nat, chan: seq<seq<T>>)
    requires Valid(cfg.h) && i < cfg.h.n
    requires GoodChannel(cfg, i, from, upto, chan) && |chan| > 0
    ensures GoodChannel(cfg, i, from + 1, upto, chan[1..])
  {
    forall k | 0 <= k < |chan| - 1
      ensures GoodSlice(cfg, i, SendAt(cfg.h, from + 1 + k), chan[1..][k])
    {
      assert GoodSlice(cfg, i, SendAt(cfg.h, from + (k + 1)), chan[k + 1]);
      assert from + 1 + k == from + (k + 1);
    }
  }

  lemma OutgoingStep<T>(cfg: Cfg<T>, st: State<T>, i: nat)
    requires Inv(cfg, st) && i < cfg.h.n && Enabled(cfg, st, i) && Matched(cfg, st, i)
    ensures GoodChannel(cfg, i, st.rank[Next(cfg.h.n, i)].rcvd, Advance(cfg.h, st.rank[i]).sent,
                        ChanAfter(cfg, st, i, i))
  {
    var r := st.rank[i];
    assert GoodRank(cfg, st, i);
    if HasSend(cfg.h, r.pc) {
      ComputedGood(cfg, st, i);
      SendAtSent(cfg.h, r.ops);
      ChannelSend(cfg, i, st.rank[Next(cfg.h.n, i)].rcvd, r.sent, st.chan[i], Computed(cfg, st, i));
    }
  }

  lemma ChannelOf<T>(cfg: Cfg<T>, st: State<T>, k: nat)
    requires Inv(cfg, st) && k < cfg.h.n
    ensures GoodChannel(cfg, k, st.rank[Next(cfg.h.n, k)].rcvd, st.rank[k].sent, st.chan[k])
  {
    assert GoodRank(cfg, st, k);
  }

  lemma IncomingChan<T>(cfg: Cfg<T>, st: State<T>, i: nat)
    requires Valid(cfg.h) && Shaped(cfg, st) && i < cfg.h.n && Enabled(cfg, st, i) && Matched(cfg, st, i)
    ensures var k := Prev(cfg.h.n, i);
            && k != i && Next(cfg.h.n, k) == i
            && ChanAfter(cfg, st, i, k) == (if HasRecv(st.rank[i].pc) then st.chan[k][1..] else st.chan[k])
  {
  }

  lemma IncomingStep<T>(cfg: Cfg<T>, st: State<T>, i: nat)
    requires Inv(cfg, st) && i < cfg.h.n && Enabled(cfg, st, i) && Matched(cfg, st, i)
    ensures var k := Prev(cfg.h.n, i);
            GoodChannel(cfg, k, Advance(cfg.h, st.rank[i]).rcvd, st.rank[k].sent, ChanAfter(cfg, st, i, k))
  {
    var k := Prev(cfg.h.n, i);
    IncomingChan(cfg, st, i);
    ChannelOf(cfg, st, k);
    if HasRecv(st.rank[i].pc) { ChannelRecv(cfg, k, st.rank[i].rcvd, st.rank[k].sent, st.chan[k]); }
  }

  /** The step of rank `i` as seen by the channel that leaves ring index `k`. */
  lemma ChannelStep<T>(cfg: Cfg<T>, st: State<T>, i: nat, k: nat)
    requires Inv(cfg, st) && i < cfg.h.n && k < cfg.h.n && Enabled(cfg, st, i) && Matched(cfg, st, i)
    ensures var st' := Exec(cfg, st, i);
            GoodChannel(cfg, k, st'.rank[Next(cfg.h.n, k)].rcvd, st'.rank[k].sent, st'.chan[k])
  {
    var n := cfg.h.n;
    if k == i {
      OutgoingStep(cfg, st, i);
      assert Next(n, i) != i;
    } else if k == Prev(n, i) {
      IncomingStep(cfg, st, i);
      assert Next(n, k) == i;
    } else {
      assert Next(n, k) != i;
      assert GoodRank(cfg, st, k);
    }
  }

  lemma BeforeSucc(h: Shape, x: Pc, p: Pc)
    requires Valid(h) && InProgram(h, x) && InProgram(h, p)
    ensures Before(x, Succ(h, p)) <==> Before(x, p) || x == p
  {
  }

  /** A step writes only the slice it works on, and that only when it stores. */
  lemma WriteAt<T>(cfg: Cfg<T>, st: State<T>, i: nat, pos: nat)
    requires Shaped(cfg, st) && i < cfg.h.n && Enabled(cfg, st, i) && Matched(cfg, st, i) && pos < |st.out[i]|
    ensures |OutAfter(cfg, st, i)| == |st.out[i]|
    ensures var p := st.rank[i].pc;
            var lo := cfg.lo(p.l, ChunkAt(cfg.h.n, i, p.j), p.s);
            OutAfter(cfg, st, i)[pos] ==
            if Stores(KindAt(cfg.h.n, p.j)) && 0 <= pos - lo < |Computed(cfg, st, i)|
            then Computed(cfg, st, i)[pos - lo]
            else st.out[i][pos]
    ensures var p := st.rank[i].pc;
            var c := ChunkAt(cfg.h.n, i, p.j);
            InBlock(cfg, p.l, c, p.s, pos) <==> 0 <= pos - cfg.lo(p.l, c, p.s) < |Computed(cfg, st, i)|
  {
  }

  /** Moving on adds to the stored blocks exactly the one just worked on, if its operation stores. */
  lemma StoredAfter(h: Shape, i: nat, l: nat, c: nat, s: nat, p: Pc)
    requires Valid(h) && i < h.n && c < h.n && s < h.slices && InProgram(h, p)
    ensures Stored(h, i, l, c, s, Succ(h, p))
            <==> Stored(h, i, l, c, s, p)
                 || (l == p.l && s == p.s && c == ChunkAt(h.n, i, p.j) && Stores(KindAt(h.n, p.j)))
  {
    BeforeSucc(h, Pc(l, StoreOp(h.n, i, c), s), p);
  }

  lemma OutputNow<T>(cfg: Cfg<T>, st: State<T>, i: nat, l: nat, c: nat, s: nat, pos: nat)
    requires Inv(cfg, st) && i < cfg.h.n && pos < |st.out[i]| && HasPos(cfg, pos)
    requires IsBlock(cfg.h, l, c, s) && InBlock(cfg, l, c, s, pos)
    ensures |st.out[i]| == |cfg.out0[i]|
    ensures st.out[i][pos] == if Stored(cfg.h, i, l, c, s, st.rank[i].pc) then Final(cfg, c, pos) else cfg.out0[i][pos]
  {
    assert GoodRank(cfg, st, i);
  }

  /** What a storing operation computes is the final value. */
  lemma StoresFinal<T>(cfg: Cfg<T>, st: State<T>, i: nat, k: nat, pos: int)
    requires Inv(cfg, st) && i < cfg.h.n && Enabled(cfg, st, i) && Matched(cfg, st, i) && k < |Computed(cfg, st, i)|
    requires Stores(KindAt(cfg.h.n, st.rank[i].pc.j)) && HasPos(cfg, pos)
    requires var p := st.rank[i].pc; pos == cfg.lo(p.l, ChunkAt(cfg.h.n, i, p.j), p.s) + k
    ensures Computed(cfg, st, i)[k] == Final(cfg, ChunkAt(cfg.h.n, i, st.rank[i].pc.j), pos)
  {
    ComputedAt(cfg, st, i, k);
  }

  lemma SameBlock<T>(cfg: Cfg<T>, i: nat, p: Pc, l: nat, c: nat, s: nat, pos: int)
    requires Valid(cfg.h) && Disjoint(cfg) && i < cfg.h.n && InProgram(cfg.h, p) && p.l < cfg.h.loops
    requires IsBlock(cfg.h, l, c, s) && InBlock(cfg, l, c, s, pos)
             && InBlock(cfg, p.l, ChunkAt(cfg.h.n, i, p.j), p.s, pos)
    ensures l == p.l && c == ChunkAt(cfg.h.n, i, p.j) && s == p.s
  {
    assert IsBlock(cfg.h, p.l, ChunkAt(cfg.h.n, i, p.j), p.s);
  }

  lemma OutputAt<T>(cfg: Cfg<T>, st: State<T>, i: nat, l: nat, c: nat, s: nat, pos: nat)
    requires Inv(cfg, st) && Disjoint(cfg) && i < cfg.h.n && Enabled(cfg, st, i) && Matched(cfg, st, i)
    requires IsBlock(cfg.h, l, c, s) && InBlock(cfg, l, c, s, pos) && pos < |st.out[i]| && HasPos(cfg, pos)
    ensures var p' := Succ(cfg.h, st.rank[i].pc);
            |OutAfter(cfg, st, i)| == |st.out[i]| == |cfg.out0[i]| &&
            OutAfter(cfg, st, i)[pos] == if Stored(cfg.h, i, l, c, s, p') then Final(cfg, c, pos) else cfg.out0[i][pos]
  {
    var p := st.rank[i].pc;
    var c0 := ChunkAt(cfg.h.n, i, p.j);
    var k := pos - cfg.lo(p.l, c0, p.s);
    OutputNow(cfg, st, i, l, c, s, pos);
    WriteAt(cfg, st, i, pos);
    StoredAfter(cfg.h, i, l, c, s, p);
    if InBlock(cfg, p.l, c0, p.s, pos) {
      SameBlock(cfg, i, p, l, c, s, pos);
      if Stores(KindAt(cfg.h.n, p.j)) { StoresFinal(cfg, st, i, k, pos); }
    }
  }

  lemma OutputStep<T>(cfg: Cfg<T>, st: State<T>, i: nat)
    requires Inv(cfg, st) && Disjoint(cfg) && i < cfg.h.n && Enabled(cfg, st, i) && Matched(cfg, st, i)
    ensures GoodOutput(cfg, i, Succ(cfg.h, st.rank[i].pc), OutAfter(cfg, st, i))
  {
    var p := st.rank[i].pc;
    var out' := OutAfter(cfg, st, i);
    assert GoodRank(cfg, st, i);
    forall l: nat, c: nat, s: nat, pos: nat |
      IsBlock(cfg.h, l, c, s) && InBlock(cfg, l, c, s, pos) && pos < |out'| && HasPos(cfg, pos)
      ensures out'[pos] == if Stored(cfg.h, i, l, c, s, Succ(cfg.h, p)) then Final(cfg, c, pos) else cfg.out0[i][pos]
    {
      OutputAt(cfg, st, i, l, c, s, pos);
    }
    forall pos: nat | pos < |out'| && !(cfg.first <= pos < cfg.first + cfg.count)
      ensures out'[pos] == cfg.out0[i][pos]
    {
      assert IsBlock(cfg.h, p.l, ChunkAt(cfg.h.n, i, p.j), p.s);
      assert !InBlock(cfg, p.l, ChunkAt(cfg.h.n, i, p.j), p.s, pos);
    }
  }

  lemma InitInv<T>(cfg: Cfg<T>)
    requires Sane(cfg)
    ensures Inv(cfg, Init(cfg))
  {
  }

  lemma TracksOn(h: Shape, r: Rank)
    requires Valid(h) && Tracks(h, r) && r.pc.l < h.loops
    ensures Tracks(h, Advance(h, r)) && InProgram(h, Advance(h, r).pc)
  {
  }

  lemma ExecShaped<T>(cfg: Cfg<T>, st: State<T>, i: nat)
    requires Inv(cfg, st) && i < cfg.h.n && Enabled(cfg, st, i) && Matched(cfg, st, i)
    ensures Shaped(cfg, Exec(cfg, st, i)) && Tracks(cfg.h, Exec(cfg, st, i).rank[i])
  {
    assert GoodRank(cfg, st, i);
    TracksOn(cfg.h, st.rank[i]);
  }

  lemma OutputAfter<T>(cfg: Cfg<T>, st: State<T>, i: nat, k: nat)
    requires Inv(cfg, st) && Disjoint(cfg) && i < cfg.h.n && k < cfg.h.n && Enabled(cfg, st, i) && Matched(cfg, st, i)
    ensures var st' := Exec(cfg, st, i); GoodOutput(cfg, k, st'.rank[k].pc, st'.out[k])
  {
    if k == i { OutputStep(cfg, st, i); } else { assert GoodRank(cfg, st, k); }
  }

  lemma RankStep<T>(cfg: Cfg<T>, st: State<T>, i: nat, k: nat)
    requires Inv(cfg, st) && Disjoint(cfg) && i < cfg.h.n && k < cfg.h.n && Enabled(cfg, st, i) && Matched(cfg, st, i)
    ensures var st' := Exec(cfg, st, i); Shaped(cfg, st') && GoodRank(cfg, st', k)
  {
    assert GoodRank(cfg, st, k);
    ExecShaped(cfg, st, i);
    ChannelStep(cfg, st, i, k);
    OutputAfter(cfg, st, i, k);
  }

  lemma StepInv<T>(cfg: Cfg<T>, st: State<T>, st': State<T>, i: nat)
    requires Inv(cfg, st) && Disjoint(cfg) && Step(cfg, st, st', i)
    ensures Inv(cfg, st')
  {
    RankStep(cfg, st, i, 0);
    forall k | 0 <= k < cfg.h.n ensures GoodRank(cfg, st', k) { RankStep(cfg, st, i, k); }
  }

  /** The invariant holds in every state of every run. */
  lemma {:induction false} RunInv<T>(cfg: Cfg<T>, run: seq<State<T>>, k: nat)
    requires ValidCfg(cfg) && IsRun(cfg, run) && k < |run|
    ensures Inv(cfg, run[k])
  {
    if k == 0 {
      InitInv(cfg);
    } else {
      RunInv(cfg, run, k - 1);
      assert Moves(cfg, run[k - 1], run[k]);
      var i :| Step(cfg, run[k - 1], run[k], i);
      StepInv(cfg, run[k - 1], run[k], i);
    }
  }
}
