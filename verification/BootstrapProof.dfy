/** No rank leaves the barrier before all have entered, connections are neither lost nor confused,
    and the barrier always completes. */
module BootstrapProof {
  import opened Arith
  import opened Sequences
  import opened Bootstrap

  // Counting connections.

  lemma {:induction false} CountConcat(a: seq<Conn>, b: seq<Conn>, m: Conn)
    ensures Count(a + b, m) == Count(a, m) + Count(b, m)
    decreases |b|
  {
    if b == [] {
      assert a + b == a;
    } else {
      CountConcat(a, b[..|b| - 1], m);
      assert (a + b)[..|a + b| - 1] == a + b[..|b| - 1];
    }
  }

  lemma CountOne(c: Conn, m: Conn)
    ensures Count([c], m) == if c == m then 1 else 0
  {
    assert [c][..0] == [];
  }

  lemma CountAppend(q: seq<Conn>, c: Conn, m: Conn)
    ensures Count(q + [c], m) == Count(q, m) + if c == m then 1 else 0
  {
    CountConcat(q, [c], m);
    CountOne(c, m);
  }

  lemma CountDrop(q: seq<Conn>, i: nat, m: Conn)
    requires i < |q|
    ensures Count(Without(q, i), m) == Count(q, m) - if q[i] == m then 1 else 0
  {
    assert q == q[..i] + [q[i]] + q[i + 1..];
    CountConcat(q[..i] + [q[i]], q[i + 1..], m);
    CountConcat(q[..i], [q[i]], m);
    CountConcat(q[..i], q[i + 1..], m);
    CountOne(q[i], m);
  }

  lemma {:induction false} CountIn(q: seq<Conn>, m: Conn)
    ensures Count(q, m) > 0 <==> m in q
  {
    if q != [] {
      CountIn(q[..|q| - 1], m);
      assert q == q[..|q| - 1] + [q[|q| - 1]];
    }
  }

  // What has been sent and received, and who has entered.

  predicate Inside(k: Rank) { !k.phase.Outside? }

  function Entered(k: Rank): nat { k.bar + if Inside(k) then 1 else 0 }

  /** Round-`j` messages rank `s` has sent, and round-`j` messages rank `r` has taken. */
  function Sent(k: Rank, j: nat): nat {
    k.bar + if Inside(k) && (k.round > j || (k.round == j && !k.phase.Sending?)) then 1 else 0
  }

  function Taken(k: Rank, j: nat): nat { k.bar + if Inside(k) && k.round > j then 1 else 0 }

  /** Nothing is lost: what was sent is under way, queued or taken. */
  ghost predicate Kept(g: Cfg, st: State, r: nat, j: nat)
    requires ValidCfg(g) && Shaped(g, st) && r < g.n && j < g.rounds
  {
    var m := Conn(Src(g, r, j), g.tag);
    Count(st.net[r], m) + Count(st.unex[r], m) + Taken(st.rank[r], j) == Sent(st.rank[Src(g, r, j)], j)
  }

  ghost predicate Conserved(g: Cfg, st: State)
    requires ValidCfg(g) && Shaped(g, st)
  {
    forall r: nat, j: nat | r < g.n && j < g.rounds :: Kept(g, st, r, j)
  }

  /** A rank in round `j` knows that the `2^j` ranks up to itself have entered. */
  ghost predicate Knows(g: Cfg, st: State, r: nat)
    requires ValidCfg(g) && Shaped(g, st) && r < g.n
  {
    var k := st.rank[r];
    && (forall q: nat | q < g.n :: Entered(st.rank[q]) >= k.bar)
    && (Inside(k) ==> forall i: nat | i < Pow2(k.round) :: Entered(st.rank[g.back(r, i)]) > k.bar)
  }

  ghost predicate Tidy(g: Cfg, st: State, r: nat)
    requires ValidCfg(g) && Shaped(g, st) && r < g.n
  {
    var k := st.rank[r];
    && (k.phase.Outside? ==> k.round == 0) && (k.phase.Searching? || k.phase.Waiting? ==> k.round < g.rounds)
    && (k.phase.Waiting? ==> Wanted(g, st, r) !in st.unex[r])
    && Entered(k) <= g.limit
  }

  ghost predicate Inv(g: Cfg, st: State)
    requires ValidCfg(g)
  {
    && Shaped(g, st) && Conserved(g, st)
    && forall r: nat | r < g.n :: Knows(g, st, r) && Tidy(g, st, r)
  }

  lemma InitInv(g: Cfg, st: State)
    requires ValidCfg(g) && Init(g, st)
    ensures Inv(g, st)
  {
    forall r: nat, j: nat | r < g.n && j < g.rounds ensures Kept(g, st, r, j) {
      assert Src(g, r, j) < g.n;
    }
  }

  /** Steps that leave `r`'s round alone do not change what others know. */
  lemma KnowsGrow(g: Cfg, st: State, t: State, r: nat)
    requires ValidCfg(g) && Shaped(g, st) && Shaped(g, t) && r < g.n && Knows(g, st, r)
    requires forall q: nat | q < g.n :: Entered(t.rank[q]) >= Entered(st.rank[q])
    requires t.rank[r].bar == st.rank[r].bar
    requires Inside(t.rank[r]) ==> Inside(st.rank[r]) && t.rank[r].round == st.rank[r].round
    ensures Knows(g, t, r)
  {
  }

  lemma EnterKnows(g: Cfg, st: State, r: nat)
    requires ValidCfg(g) && Inv(g, st) && Enabled(g, st, Enter(r))
    ensures Shaped(g, Next(g, st, Enter(r))) && Knows(g, Next(g, st, Enter(r)), r)
  {
    assert Knows(g, st, r);
    assert Pow2(0) == 1;
  }

  /** A rank that has sent its message of round `j` knows about `2^j` ranks. */
  lemma SenderKnows(g: Cfg, st: State, s: nat, j: nat, bar: nat, i: nat)
    requires ValidCfg(g) && Shaped(g, st) && s < g.n && Knows(g, st, s) && Sent(st.rank[s], j) > bar && i < Pow2(j)
    ensures Entered(st.rank[g.back(s, i)]) > bar
  {
    if j < st.rank[s].round { PowGrows(j, st.rank[s].round); }
  }

  /** The step that completes a round. */
  lemma RoundKnows(g: Cfg, st: State, t: State, r: nat)
    requires ValidCfg(g) && Shaped(g, st) && Shaped(g, t) && r < g.n && Knows(g, st, r)
    requires Inside(st.rank[r]) && st.rank[r].round < g.rounds && Knows(g, st, Src(g, r, st.rank[r].round))
    requires Sent(st.rank[Src(g, r, st.rank[r].round)], st.rank[r].round) > st.rank[r].bar
    requires t.rank == st.rank[r := Rank(st.rank[r].bar, st.rank[r].round + 1, Sending)]
    ensures Knows(g, t, r)
  {
    var bar, j := st.rank[r].bar, st.rank[r].round;
    var s := Src(g, r, j);
    forall q: nat | q < g.n ensures Entered(t.rank[q]) == Entered(st.rank[q]) {}
    forall i: nat | i < Pow2(j + 1) ensures Entered(t.rank[g.back(r, i)]) > bar {
      if i >= Pow2(j) {
        SenderKnows(g, st, s, j, bar, i - Pow2(j));
        assert Adds(g, r, Pow2(j), i - Pow2(j));
      }
    }
  }

  lemma LeaveKnows(g: Cfg, st: State, r: nat)
    requires ValidCfg(g) && Inv(g, st) && Enabled(g, st, Leave(r))
    ensures Shaped(g, Next(g, st, Leave(r))) && Knows(g, Next(g, st, Leave(r)), r)
  {
    assert Knows(g, st, r);
    forall q: nat | q < g.n ensures Entered(st.rank[q]) > st.rank[r].bar {
      assert Reaches(g, r, q);
      var i: nat :| i < Pow2(g.rounds) && g.back(r, i) == q;
    }
  }

  // Conservation of connections.

  /** `r` takes a message of its current round, in one place or the other. */
  lemma TakeKept(g: Cfg, st: State, t: State, r: nat, q: nat, j: nat)
    requires ValidCfg(g) && Shaped(g, st) && Shaped(g, t) && r < g.n && q < g.n && j < g.rounds && Kept(g, st, q, j)
    requires Inside(st.rank[r]) && !st.rank[r].phase.Sending? && st.rank[r].round < g.rounds
    requires t.rank == st.rank[r := Rank(st.rank[r].bar, st.rank[r].round + 1, Sending)]
    requires q != r ==> t.net[q] == st.net[q] && t.unex[q] == st.unex[q]
    requires q == r ==>
               var m := Conn(Src(g, r, j), g.tag);
               Count(t.net[r], m) + Count(t.unex[r], m) ==
               Count(st.net[r], m) + Count(st.unex[r], m) - if j == st.rank[r].round then 1 else 0
    ensures Kept(g, t, q, j)
  {
  }

  /** Steps in which counts and the sent and taken messages stay the same. */
  lemma StayKept(g: Cfg, st: State, t: State, r: nat, q: nat, j: nat)
    requires ValidCfg(g) && Shaped(g, st) && Shaped(g, t) && r < g.n && q < g.n && j < g.rounds && Kept(g, st, q, j)
    requires t.rank == st.rank[r := t.rank[r]] && Sent(t.rank[r], j) == Sent(st.rank[r], j)
             && Taken(t.rank[r], j) == Taken(st.rank[r], j)
    requires var m := Conn(Src(g, q, j), g.tag);
             Count(t.net[q], m) + Count(t.unex[q], m) == Count(st.net[q], m) + Count(st.unex[q], m)
    ensures Kept(g, t, q, j)
  {
  }

  /** A message of round `i` from `r` is expected by `q` in round `j` only if it is that round. */
  lemma SendTarget(g: Cfg, r: nat, i: nat, q: nat, j: nat)
    requires ValidCfg(g) && r < g.n && q < g.n && i < g.rounds && j < g.rounds && Src(g, q, j) == r
    ensures g.dst(r, i) == q <==> i == j
  {
    assert g.dst(r, i) == q <==> Src(g, q, i) == r;
  }

  lemma SendCount(g: Cfg, st: State, r: nat, q: nat, m: Conn)
    requires ValidCfg(g) && Shaped(g, st) && Enabled(g, st, Send(r)) && q < g.n
    ensures Shaped(g, Next(g, st, Send(r)))
    ensures Next(g, st, Send(r)).unex[q] == st.unex[q]
    ensures Count(Next(g, st, Send(r)).net[q], m)
            == Count(st.net[q], m) + if q == g.dst(r, st.rank[r].round) && m == Conn(r, g.tag) then 1 else 0
  {
    CountAppend(st.net[g.dst(r, st.rank[r].round)], Conn(r, g.tag), m);
  }

  lemma SendKept(g: Cfg, st: State, r: nat, q: nat, j: nat)
    requires ValidCfg(g) && Shaped(g, st) && Enabled(g, st, Send(r)) && q < g.n && j < g.rounds && Kept(g, st, q, j)
    ensures Shaped(g, Next(g, st, Send(r))) && Kept(g, Next(g, st, Send(r)), q, j)
  {
    var s := Src(g, q, j);
    SendCount(g, st, r, q, Conn(s, g.tag));
    if s == r { SendTarget(g, r, st.rank[r].round, q, j); }
  }

  /** A connection for the wanted round is for that round only. */
  lemma WantedOnly(g: Cfg, st: State, r: nat, j: nat)
    requires ValidCfg(g) && Shaped(g, st) && r < g.n && j < g.rounds && st.rank[r].round < g.rounds
    ensures Wanted(g, st, r) == Conn(Src(g, r, j), g.tag) <==> j == st.rank[r].round
  {
  }

  lemma SearchKept(g: Cfg, st: State, r: nat, q: nat, j: nat)
    requires ValidCfg(g) && Shaped(g, st) && Enabled(g, st, Search(r)) && q < g.n && j < g.rounds && Kept(g, st, q, j)
    ensures Shaped(g, Next(g, st, Search(r))) && Kept(g, Next(g, st, Search(r)), q, j)
  {
    var t, i := Next(g, st, Search(r)), FirstMatch(st.unex[r], Wanted(g, st, r));
    if i < |st.unex[r]| {
      WantedOnly(g, st, r, j);
      CountDrop(st.unex[r], i, Conn(Src(g, r, j), g.tag));
      TakeKept(g, st, t, r, q, j);
    } else {
      StayKept(g, st, t, r, q, j);
    }
  }

  lemma AcceptKept(g: Cfg, st: State, r: nat, i: nat, q: nat, j: nat)
    requires ValidCfg(g) && Shaped(g, st) && Enabled(g, st, Accept(r, i)) && q < g.n && j < g.rounds
             && Kept(g, st, q, j)
    ensures Shaped(g, Next(g, st, Accept(r, i))) && Kept(g, Next(g, st, Accept(r, i)), q, j)
  {
    var t, m := Next(g, st, Accept(r, i)), Conn(Src(g, r, j), g.tag);
    CountDrop(st.net[r], i, m);
    if st.net[r][i] == Wanted(g, st, r) {
      WantedOnly(g, st, r, j);
      TakeKept(g, st, t, r, q, j);
    } else {
      CountAppend(st.unex[r], st.net[r][i], m);
      StayKept(g, st, t, r, q, j);
    }
  }

  lemma OtherKept(g: Cfg, st: State, a: Action, q: nat, j: nat)
    requires ValidCfg(g) && Shaped(g, st) && Enabled(g, st, a) && (a.Enter? || a.Leave? || a.Other?)
    requires q < g.n && j < g.rounds && Kept(g, st, q, j) && Tidy(g, st, a.r)
    ensures Shaped(g, Next(g, st, a)) && Kept(g, Next(g, st, a), q, j)
  {
    var t := Next(g, st, a);
    if a.Other? { CountAppend(st.net[a.r], a.m, Conn(Src(g, q, j), g.tag)); }
    StayKept(g, st, t, a.r, q, j);
  }

  lemma StepKept(g: Cfg, st: State, a: Action)
    requires ValidCfg(g) && Inv(g, st) && Enabled(g, st, a)
    ensures Shaped(g, Next(g, st, a)) && Conserved(g, Next(g, st, a))
  {
    forall q: nat, j: nat | q < g.n && j < g.rounds ensures Shaped(g, Next(g, st, a)) && Kept(g, Next(g, st, a), q, j) {
      assert Kept(g, st, q, j) && Tidy(g, st, a.r);
      match a
      case Send(r) => SendKept(g, st, r, q, j);
      case Search(r) => SearchKept(g, st, r, q, j);
      case Accept(r, i) => AcceptKept(g, st, r, i, q, j);
      case _ => OtherKept(g, st, a, q, j);
    }
    StepShaped(g, st, a);
  }

  lemma StepShaped(g: Cfg, st: State, a: Action)
    requires ValidCfg(g) && Shaped(g, st) && Enabled(g, st, a)
    ensures Shaped(g, Next(g, st, a))
  {
  }

  // Knowledge and order.

  lemma EnteredGrow(g: Cfg, st: State, a: Action)
    requires ValidCfg(g) && Shaped(g, st) && Enabled(g, st, a)
    ensures Shaped(g, Next(g, st, a))
    ensures forall q: nat | q < g.n :: Entered(Next(g, st, a).rank[q]) >= Entered(st.rank[q])
    ensures forall q: nat | q < g.n && q != a.r :: Next(g, st, a).rank[q] == st.rank[q]
  {
  }

  /** Whoever completes a round has a message of that round from its source. */
  lemma SourceSent(g: Cfg, st: State, r: nat)
    requires ValidCfg(g) && Shaped(g, st) && r < g.n && st.rank[r].round < g.rounds && Kept(g, st, r, st.rank[r].round)
    requires Wanted(g, st, r) in st.net[r] || Wanted(g, st, r) in st.unex[r]
    ensures Sent(st.rank[Src(g, r, st.rank[r].round)], st.rank[r].round) > st.rank[r].bar
  {
    CountIn(st.net[r], Wanted(g, st, r));
    CountIn(st.unex[r], Wanted(g, st, r));
  }

  lemma StepKnows(g: Cfg, st: State, a: Action, q: nat)
    requires ValidCfg(g) && Inv(g, st) && Enabled(g, st, a) && q < g.n
    ensures Shaped(g, Next(g, st, a)) && Knows(g, Next(g, st, a), q)
  {
    var t, r := Next(g, st, a), a.r;
    EnteredGrow(g, st, a);
    assert Knows(g, st, q) && Tidy(g, st, q);
    if q == r && a.Enter? {
      EnterKnows(g, st, r);
    } else if q == r && a.Leave? {
      LeaveKnows(g, st, r);
    } else if q == r && t.rank[r].round != st.rank[r].round {
      assert Kept(g, st, r, st.rank[r].round) && Knows(g, st, Src(g, r, st.rank[r].round));
      SourceSent(g, st, r);
      RoundKnows(g, st, t, r);
    } else {
      KnowsGrow(g, st, t, q);
    }
  }

  lemma StepTidy(g: Cfg, st: State, a: Action, q: nat)
    requires ValidCfg(g) && Inv(g, st) && Enabled(g, st, a) && q < g.n
    ensures Shaped(g, Next(g, st, a)) && Tidy(g, Next(g, st, a), q)
  {
    assert Tidy(g, st, q);
  }

  lemma StepInv(g: Cfg, st: State, a: Action)
    requires ValidCfg(g) && Inv(g, st) && Enabled(g, st, a)
    ensures Inv(g, Next(g, st, a))
  {
    StepKept(g, st, a);
    forall q: nat | q < g.n ensures Knows(g, Next(g, st, a), q) && Tidy(g, Next(g, st, a), q) {
      StepKnows(g, st, a, q);
      StepTidy(g, st, a, q);
    }
  }

  lemma {:induction false} RunInv(g: Cfg, run: seq<State>, acts: seq<Action>)
    requires ValidCfg(g) && IsRun(g, run, acts)
    ensures Inv(g, run[|acts|])
    decreases |acts|
  {
    if acts == [] {
      InitInv(g, run[0]);
    } else {
      var k := |acts| - 1;
      RunInv(g, run[..k + 1], acts[..k]);
      assert Takes(g, run[k], acts[k], run[k + 1]);
      StepInv(g, run[k], acts[k]);
    }
  }

  /** No rank returns from its `bar`-th barrier before every rank has entered that barrier. */
  lemma NoEarlyReturn(g: Cfg, run: seq<State>, acts: seq<Action>, r: nat, q: nat)
    requires ValidCfg(g) && IsRun(g, run, acts) && r < g.n && q < g.n
    ensures Shaped(g, run[|acts|]) && run[|acts|].rank[r].bar <= Entered(run[|acts|].rank[q])
  {
    RunInv(g, run, acts);
    assert Knows(g, run[|acts|], r);
  }

  /** Every barrier connection is delivered once, to the round it was meant for. */
  lemma NothingLost(g: Cfg, run: seq<State>, acts: seq<Action>, r: nat, j: nat)
    requires ValidCfg(g) && IsRun(g, run, acts) && r < g.n && j < g.rounds
    ensures Shaped(g, run[|acts|]) && Kept(g, run[|acts|], r, j)
  {
    RunInv(g, run, acts);
  }

  // Progress.

  function Place(k: Rank): nat { if Inside(k) then k.round + 1 else 0 }

  predicate Behind(a: Rank, b: Rank) {
    a.bar < b.bar || (a.bar == b.bar && Place(a) <= Place(b))
  }

  lemma {:induction false} Last(st: State, n: nat) returns (r: nat)
    requires 0 < n <= |st.rank|
    ensures r < n && forall q | 0 <= q < n :: Behind(st.rank[r], st.rank[q])
  {
    if n == 1 {
      r := 0;
    } else {
      r := Last(st, n - 1);
      if !Behind(st.rank[r], st.rank[n - 1]) { r := n - 1; }
    }
  }

  /** The rank furthest behind, or the one it waits for, can go on. */
  lemma LastMoves(g: Cfg, st: State, r: nat) returns (a: Action)
    requires ValidCfg(g) && Inv(g, st) && r < g.n && forall q | 0 <= q < g.n :: Behind(st.rank[r], st.rank[q])
    requires st.rank[r].bar < g.limit
    ensures Enabled(g, st, a) && !a.Other? && (a.Accept? ==> st.net[a.r][a.i] == Wanted(g, st, a.r))
  {
    var k := st.rank[r];
    assert Tidy(g, st, r);
    match k.phase
    case Outside => a := Enter(r);
    case Sending => a := if k.round < g.rounds then Send(r) else Leave(r);
    case Searching => a := Search(r);
    case Waiting =>
      var s := Src(g, r, k.round);
      assert Behind(k, st.rank[s]) && Kept(g, st, r, k.round) && Tidy(g, st, s);
      if Sent(st.rank[s], k.round) > k.bar {
        CountIn(st.net[r], Wanted(g, st, r));
        CountIn(st.unex[r], Wanted(g, st, r));
        var i :| 0 <= i < |st.net[r]| && st.net[r][i] == Wanted(g, st, r);
        a := Accept(r, i);
      } else {
        a := Send(s);
      }
  }

  /** Until every rank has completed all its barriers, some rank can take a step towards it. */
  lemma AlwaysProgress(g: Cfg, run: seq<State>, acts: seq<Action>) returns (a: Action)
    requires ValidCfg(g) && IsRun(g, run, acts) && Shaped(g, run[|acts|])
    requires exists r :: 0 <= r < g.n && run[|acts|].rank[r].bar < g.limit
    ensures Enabled(g, run[|acts|], a) && !a.Other?
    ensures a.Accept? ==> run[|acts|].net[a.r][a.i] == Wanted(g, run[|acts|], a.r)
  {
    RunInv(g, run, acts);
    var st := run[|acts|];
    var r := Last(st, g.n);
    a := LastMoves(g, st, r);
  }
}
