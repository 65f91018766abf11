/** What a ring AllReduce guarantees: the values it leaves, when it cannot deadlock, and the number
    of steps it takes; all for the work elements the host issues. */
module RingTheorems {
  import opened Reduction
  import opened RingProgram
  import opened RingAllReduce
  import opened RingCorrectness

  // ---- values ----

  /** Contributions of all ranks at a position, by ring index. */
  function Contributions<T>(cfg: Cfg<T>, pos: int): (s: seq<T>)
    requires HasPos(cfg, pos)
    ensures |s| == cfg.h.n && forall r: nat | r < cfg.h.n :: s[r] == cfg.pre(r, cfg.inp[r][pos])
  {
    seq(cfg.h.n, r requires 0 <= r < cfg.h.n => Contribution(cfg, r, pos))
  }

  /** Reduction of `j+1` elements read backwards around the ring from index `i`. */
  function Turn<T>(op: (T, T) -> T, all: seq<T>, i: nat, j: nat): T
    requires i < |all|
    decreases j
  {
    if j == 0 then all[i] else op(all[i], Turn(op, all, Prev(|all|, i), j - 1))
  }

  lemma {:induction false} PartialIsTurn<T>(cfg: Cfg<T>, i: nat, j: nat, pos: int)
    requires HasPos(cfg, pos) && i < cfg.h.n
    ensures Partial(cfg, i, j, pos) == Turn(cfg.op, Contributions(cfg, pos), i, j)
    decreases j
  {
    if j > 0 { PartialIsTurn(cfg, Prev(cfg.h.n, i), j - 1, pos); }
  }

  lemma {:induction false} TurnDown<T(!new)>(op: (T, T) -> T, all: seq<T>, i: nat, j: nat)
    requires Associative(op) && Commutative(op) && j <= i < |all|
    ensures Turn(op, all, i, j) == Reduce(op, all[i - j..i + 1])
    decreases j
  {
    if j == 0 {
      assert all[i..i + 1] == [all[i]];
    } else {
      TurnDown(op, all, i - 1, j - 1);
      assert all[i - j..i + 1] == all[i - j..i] + [all[i]];
      ReduceConcat(op, all[i - j..i], [all[i]]);
      assert Comm(op, all[i], Reduce(op, all[i - j..i]));
    }
  }

  lemma {:induction false} TurnWraps<T(!new)>(op: (T, T) -> T, all: seq<T>, i: nat, j: nat)
    requires Associative(op) && Commutative(op) && i < j && i < |all|
    ensures Turn(op, all, i, j) == op(Reduce(op, all[0..i + 1]), Turn(op, all, |all| - 1, j - i - 1))
    decreases j
  {
    if i == 0 {
      assert all[0..1] == [all[0]];
    } else {
      TurnWraps(op, all, i - 1, j - 1);
      assert all[0..i + 1] == all[0..i] + [all[i]];
      ReduceConcat(op, all[0..i], [all[i]]);
      var front, rest := Reduce(op, all[0..i]), Turn(op, all, |all| - 1, j - i - 1);
      assert Assoc(op, all[i], front, rest) && Comm(op, all[i], front);
    }
  }

  /** A full turn of the ring, from any index, combines every rank exactly once. */
  lemma FullTurn<T(!new)>(op: (T, T) -> T, all: seq<T>, i: nat)
    requires Associative(op) && Commutative(op) && i < |all|
    ensures Turn(op, all, i, |all| - 1) == Reduce(op, all)
  {
    var n := |all|;
    if i == n - 1 {
      TurnDown(op, all, i, n - 1);
      assert all[0..n] == all;
    } else {
      var low, high := all[0..i + 1], all[i + 1..n];
      assert all == low + high;
      TurnWraps(op, all, i, n - 1);
      TurnDown(op, all, n - 1, n - 2 - i);
      ReduceConcat(op, low, high);
    }
  }

  lemma FinalIsReduction<T(!new)>(cfg: Cfg<T>, c: nat, pos: int)
    requires Associative(cfg.op) && Commutative(cfg.op)
    requires HasPos(cfg, pos) && c < cfg.h.n
    ensures Final(cfg, c, pos) == cfg.post(Reduce(cfg.op, Contributions(cfg, pos)))
  {
    PartialIsTurn(cfg, c, cfg.h.n - 1, pos);
    FullTurn(cfg.op, Contributions(cfg, pos), c);
  }

  /** A rank that has finished holds, at every position of the work range, the value of one
      ring reduction that does not depend on the rank; nothing else was written. */
  lemma FinishedOutput<T>(cfg: Cfg<T>, run: seq<State<T>>, k: nat, i: nat, pos: nat)
    requires ValidCfg(cfg) && IsRun(cfg, run) && k < |run| && i < cfg.h.n
    requires Shaped(cfg, run[k]) && Done(cfg, run[k], i) && pos < |cfg.out0[i]|
    ensures |run[k].out[i]| == |cfg.out0[i]|
    ensures cfg.first <= pos < cfg.first + cfg.count ==>
              && Covered(cfg, pos) && HasPos(cfg, pos)
              && forall l: nat, c: nat, s: nat | IsBlock(cfg.h, l, c, s) && InBlock(cfg, l, c, s, pos) ::
                   run[k].out[i][pos] == Final(cfg, c, pos)
    ensures !(cfg.first <= pos < cfg.first + cfg.count) ==> run[k].out[i][pos] == cfg.out0[i][pos]
  {
    var st := run[k];
    RunInv(cfg, run, k);
    assert GoodRank(cfg, st, i);
    assert forall l: nat, c: nat, s: nat | IsBlock(cfg.h, l, c, s) :: Stored(cfg.h, i, l, c, s, st.rank[i].pc);
  }

  /** Ring AllReduce: whatever the interleaving, a rank that has finished holds the reduction of
      all ranks' contributions, post-processed once, at every position of the work range. */
  lemma AllReduceCorrect<T(!new)>(cfg: Cfg<T>, run: seq<State<T>>, k: nat, i: nat, pos: nat)
    requires ValidCfg(cfg) && Associative(cfg.op) && Commutative(cfg.op)
    requires IsRun(cfg, run) && k < |run| && i < cfg.h.n
    requires Shaped(cfg, run[k]) && Done(cfg, run[k], i)
    requires cfg.first <= pos < cfg.first + cfg.count
    ensures HasPos(cfg, pos) && pos < |run[k].out[i]|
    ensures run[k].out[i][pos] == cfg.post(Reduce(cfg.op, Contributions(cfg, pos)))
  {
    FinishedOutput(cfg, run, k, i, pos);
    var l: nat, c: nat, s: nat :| IsBlock(cfg.h, l, c, s) && InBlock(cfg, l, c, s, pos);
    FinalIsReduction(cfg, c, pos);
  }

  // ---- deadlock ----

  ghost predicate Stuck<T>(cfg: Cfg<T>, st: State<T>) {
    && Shaped(cfg, st)
    && (exists i :: 0 <= i < cfg.h.n && !Done(cfg, st, i))
    && (forall i | 0 <= i < cfg.h.n :: !Enabled(cfg, st, i))
  }

  lemma {:induction false} Laggard<T>(st: State<T>, m: nat) returns (i: nat)
    requires 0 < m <= |st.rank|
    ensures i < m && forall k | 0 <= k < m :: st.rank[i].ops <= st.rank[k].ops
  {
    if m == 1 {
      i := 0;
    } else {
      i := Laggard(st, m - 1);
      if st.rank[m - 1].ops < st.rank[i].ops { i := m - 1; }
    }
  }

  /** The rank that has done the fewest operations can always take its next one. */
  lemma LaggardMoves<T>(cfg: Cfg<T>, st: State<T>, i: nat)
    requires Inv(cfg, st) && cfg.cap > cfg.h.slices && i < cfg.h.n && !Done(cfg, st, i)
    requires forall k | 0 <= k < cfg.h.n :: st.rank[i].ops <= st.rank[k].ops
    ensures Enabled(cfg, st, i)
  {
    var prev, next := Prev(cfg.h.n, i), Next(cfg.h.n, i);
    assert GoodRank(cfg, st, i) && GoodRank(cfg, st, prev) && GoodRank(cfg, st, next);
    assert Next(cfg.h.n, prev) == i;
    LeadAt(cfg.h, st.rank[i].ops);
    CountsMonotone(cfg.h, st.rank[i].ops, st.rank[prev].ops);
    CountsMonotone(cfg.h, st.rank[i].ops, st.rank[next].ops);
  }

  lemma NoDeadlock<T>(cfg: Cfg<T>, run: seq<State<T>>)
    requires ValidCfg(cfg) && IsRun(cfg, run) && cfg.cap > cfg.h.slices
    ensures !Stuck(cfg, run[|run| - 1])
  {
    var st := run[|run| - 1];
    RunInv(cfg, run, |run| - 1);
    if Stuck(cfg, st) {
      var k :| 0 <= k < cfg.h.n && !Done(cfg, st, k);
      var i := Laggard(st, cfg.h.n);
      assert GoodRank(cfg, st, i) && GoodRank(cfg, st, k);
      AtMonotone(cfg.h, st.rank[i].ops, st.rank[k].ops);
      LaggardMoves(cfg, st, i);
    }
  }

  /** All ranks are still in their first operations and nobody has received. */
  ghost predicate Filling<T>(cfg: Cfg<T>, st: State<T>) {
    && Shaped(cfg, st)
    && forall i | 0 <= i < cfg.h.n ::
         && st.rank[i].ops == |st.chan[i]| <= cfg.cap
         && st.rank[i].pc == if st.rank[i].ops < cfg.h.slices then Pc(0, 0, st.rank[i].ops) else Pc(0, 1, 0)
  }

  function Room<T>(cfg: Cfg<T>, st: State<T>, m: nat): int
    requires m <= |st.chan|
  {
    if m == 0 then 0 else Room(cfg, st, m - 1) + (cfg.cap - |st.chan[m - 1]|)
  }

  lemma {:induction false} RoomNonNeg<T>(cfg: Cfg<T>, st: State<T>, m: nat)
    requires m <= |st.chan| && forall i | 0 <= i < m :: |st.chan[i]| <= cfg.cap
    ensures Room(cfg, st, m) >= 0
  {
    if m > 0 { RoomNonNeg(cfg, st, m - 1); }
  }

  lemma {:induction false} RoomShrinks<T>(cfg: Cfg<T>, st: State<T>, st': State<T>, i: nat, m: nat)
    requires m <= |st.chan| == |st'.chan| && i < |st.chan|
    requires forall k | 0 <= k < |st.chan| :: |st'.chan[k]| == |st.chan[k]| + if k == i then 1 else 0
    ensures Room(cfg, st', m) == Room(cfg, st, m) - if i < m then 1 else 0
  {
    if m > 0 { RoomShrinks(cfg, st, st', i, m - 1); }
  }

  lemma FillStep<T>(cfg: Cfg<T>, st: State<T>, i: nat)
    requires Inv(cfg, st) && Filling(cfg, st) && cfg.h.loops > 0
    requires i < cfg.h.n && |st.chan[i]| < cfg.cap <= cfg.h.slices
    ensures Enabled(cfg, st, i) && Matched(cfg, st, i)
    ensures var st' := Exec(cfg, st, i);
            && Filling(cfg, st')
            && forall k | 0 <= k < cfg.h.n :: |st'.chan[k]| == |st.chan[k]| + if k == i then 1 else 0
  {
    NoMismatch(cfg, st, i);
  }

  lemma ExtendRun<T>(cfg: Cfg<T>, run: seq<State<T>>, i: nat, st': State<T>)
    requires IsRun(cfg, run) && Step(cfg, run[|run| - 1], st', i)
    ensures IsRun(cfg, run + [st'])
  {
    assert Moves(cfg, run[|run| - 1], st');
  }

  lemma FullIsStuck<T>(cfg: Cfg<T>, st: State<T>)
    requires Filling(cfg, st) && cfg.h.loops > 0 && cfg.cap <= cfg.h.slices
    requires forall i | 0 <= i < cfg.h.n :: |st.chan[i]| >= cfg.cap
    ensures Stuck(cfg, st)
  {
    assert !Done(cfg, st, 0);
  }

  /** A channel with room takes one more slice. */
  lemma FillOne<T>(cfg: Cfg<T>, run: seq<State<T>>, i: nat) returns (run': seq<State<T>>)
    requires ValidCfg(cfg) && IsRun(cfg, run) && cfg.h.loops > 0 && Filling(cfg, run[|run| - 1])
    requires i < cfg.h.n && |run[|run| - 1].chan[i]| < cfg.cap <= cfg.h.slices
    ensures IsRun(cfg, run') && Filling(cfg, run'[|run'| - 1])
    ensures 0 <= Room(cfg, run'[|run'| - 1], cfg.h.n) < Room(cfg, run[|run| - 1], cfg.h.n)
  {
    var st := run[|run| - 1];
    RunInv(cfg, run, |run| - 1);
    FillStep(cfg, st, i);
    var st' := Exec(cfg, st, i);
    RoomShrinks(cfg, st, st', i, cfg.h.n);
    RoomNonNeg(cfg, st', cfg.h.n);
    ExtendRun(cfg, run, i, st');
    run' := run + [st'];
  }

  /** With room for no more than one chunk per channel, every rank can be driven into waiting for
      a credit before any of them has received. */
  lemma {:induction false} Jam<T>(cfg: Cfg<T>, run: seq<State<T>>, room: nat) returns (run': seq<State<T>>)
    requires ValidCfg(cfg) && IsRun(cfg, run) && cfg.h.loops > 0 && cfg.cap <= cfg.h.slices
    requires Filling(cfg, run[|run| - 1]) && Room(cfg, run[|run| - 1], cfg.h.n) == room
    ensures IsRun(cfg, run') && Stuck(cfg, run'[|run'| - 1])
    decreases room
  {
    var st := run[|run| - 1];
    if i :| 0 <= i < cfg.h.n && |st.chan[i]| < cfg.cap {
      var more := FillOne(cfg, run, i);
      run' := Jam(cfg, more, Room(cfg, more[|more| - 1], cfg.h.n));
    } else {
      FullIsStuck(cfg, st);
      run' := run;
    }
  }

  /** The ring cannot deadlock exactly when a channel holds more slices than one chunk has. */
  lemma DeadlockFreeIff<T>(cfg: Cfg<T>)
    requires ValidCfg(cfg) && cfg.h.loops > 0
    ensures (forall run: seq<State<T>> | IsRun(cfg, run) :: !Stuck(cfg, run[|run| - 1]))
            <==> cfg.cap > cfg.h.slices
  {
    if cfg.cap > cfg.h.slices {
      forall run: seq<State<T>> | IsRun(cfg, run)
        ensures !Stuck(cfg, run[|run| - 1])
      {
        NoDeadlock(cfg, run);
      }
    } else {
      RoomNonNeg(cfg, Init(cfg), cfg.h.n);
      var run := Jam(cfg, [Init(cfg)], Room(cfg, Init(cfg), cfg.h.n));
      assert IsRun(cfg, run) && Stuck(cfg, run[|run| - 1]);
    }
  }
}
