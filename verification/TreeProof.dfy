/** Tree AllReduce computes the reduction of all inputs on every rank and never gets stuck. */
module TreeProof {
  import opened TreeAllReduce

  lemma ChildHead<V>(g: Cfg<V>, st: State<V>, r: nat, c: int)
    requires ValidCfg(g) && Inv(g, st) && r < g.n && MayUp(g, st, r) && c in g.down[r]
    ensures 0 <= c < g.n && st.upc[c] != [] && st.upc[c][0] == Sub(g, c, st.ups[r])
  {
    assert RankOk(g, st, c);
    assert g.up[c] == r;
  }

  lemma {:induction false} FoldIsAcc<V>(g: Cfg<V>, st: State<V>, r: nat, i: nat)
    requires ValidCfg(g) && Inv(g, st) && r < g.n && MayUp(g, st, r) && i <= |g.down[r]|
    requires forall j | 0 <= j < |g.down[r]| :: 0 <= g.down[r][j] < |st.upc| && st.upc[g.down[r][j]] != []
    ensures Fold(g, st.upc, Contribution(g, r, st.ups[r]), g.down[r], i) == Acc(g, r, st.ups[r], i)
  {
    if i > 0 {
      FoldIsAcc(g, st, r, i - 1);
      assert g.down[r][i - 1] in g.down[r];
      ChildHead(g, st, r, g.down[r][i - 1]);
    }
  }

  /** What a rank computes in a reduction step is the sum of its subtree. */
  lemma SumIsSub<V>(g: Cfg<V>, st: State<V>, r: nat) returns (sum: V)
    requires ValidCfg(g) && Inv(g, st) && r < g.n && MayUp(g, st, r)
    ensures sum == Sub(g, r, st.ups[r])
    ensures r == g.root ==> AfterUp(g, st, r).out == st.out[r := st.out[r][st.ups[r] := g.post(sum)]]
    ensures r != g.root ==> AfterUp(g, st, r).out == st.out && AfterUp(g, st, r).upc[r] == st.upc[r] + [sum]
  {
    var cs := g.down[r];
    assert forall j | 0 <= j < |cs| :: cs[j] in cs;
    assert RankOk(g, st, r);
    assert Own(g, st, r, st.ups[r]) == g.inp[r][st.ups[r]];
    FoldIsAcc(g, st, r, |cs|);
    sum := Fold(g, st.upc, Contribution(g, r, st.ups[r]), cs, |cs|);
    assert r !in cs;
  }

  lemma UpOut<V>(g: Cfg<V>, st: State<V>, r: nat, q: nat)
    requires ValidCfg(g) && Inv(g, st) && r < g.n && MayUp(g, st, r) && q < g.n
    ensures Shaped(g, AfterUp(g, st, r)) && OutOk(g, AfterUp(g, st, r), q)
  {
    var sum := SumIsSub(g, st, r);
    assert RankOk(g, st, q) && RankOk(g, st, r);
  }

  lemma SameDowns<V>(g: Cfg<V>, st: State<V>, t: State<V>, c: nat)
    requires ValidCfg(g) && Shaped(g, st) && Shaped(g, t) && c < g.n && c != g.root && DownOk(g, st, c)
    requires t.downs == st.downs && t.dnc == st.dnc
    ensures DownOk(g, t, c)
  {
  }

  lemma UpRank<V>(g: Cfg<V>, st: State<V>, r: nat, q: nat)
    requires ValidCfg(g) && Inv(g, st) && r < g.n && MayUp(g, st, r) && q < g.n
    ensures Shaped(g, AfterUp(g, st, r)) && RankOk(g, AfterUp(g, st, r), q)
  {
    UpOut(g, st, r, q);
    if q != g.root {
      var sum := SumIsSub(g, st, r);
      assert RankOk(g, st, q);
      UpChannel(g, st, r, q, sum);
      SameDowns(g, st, AfterUp(g, st, r), q);
    }
  }

  lemma UpPush<V>(g: Cfg<V>, c: nat, chan: seq<V>, from: nat, upto: nat, v: V)
    requires ValidCfg(g) && c < g.n && UpQueue(g, c, chan, from, upto) && upto < g.chunks && v == Sub(g, c, upto)
    ensures UpQueue(g, c, chan + [v], from, upto + 1)
  {
  }

  lemma UpPop<V>(g: Cfg<V>, c: nat, chan: seq<V>, from: nat, upto: nat)
    requires ValidCfg(g) && c < g.n && UpQueue(g, c, chan, from, upto) && chan != []
    ensures UpQueue(g, c, chan[1..], from + 1, upto)
  {
    forall i | 0 <= i < |chan| - 1 ensures from + 1 + i < g.chunks && chan[1..][i] == Sub(g, c, from + 1 + i) {
      assert chan[i + 1] == Sub(g, c, from + (i + 1));
    }
  }

  lemma UpChannel<V>(g: Cfg<V>, st: State<V>, r: nat, c: nat, sum: V)
    requires ValidCfg(g) && Shaped(g, st) && r < g.n && MayUp(g, st, r) && c < g.n && c != g.root && UpOk(g, st, c)
    requires sum == Sub(g, r, st.ups[r]) && (r != g.root ==> AfterUp(g, st, r).upc[r] == st.upc[r] + [sum])
    ensures Shaped(g, AfterUp(g, st, r)) && UpOk(g, AfterUp(g, st, r), c)
  {
    var t, p := AfterUp(g, st, r), g.up[c];
    assert c in g.down[r] <==> p == r;
    assert p != c;
    if p == r {
      UpPop(g, c, st.upc[c], st.ups[p], st.ups[c]);
      assert t.upc[c] == st.upc[c][1..];
    } else if c == r {
      UpPush(g, c, st.upc[c], st.ups[p], st.ups[c], sum);
    }
  }

  lemma DownOut<V>(g: Cfg<V>, st: State<V>, r: nat, q: nat)
    requires ValidCfg(g) && Shaped(g, st) && r < g.n && MayDown(g, st, r) && q < g.n && OutOk(g, st, q)
             && RankOk(g, st, r)
    ensures Shaped(g, AfterDown(g, st, r)) && OutOk(g, AfterDown(g, st, r), q)
  {
  }

  lemma DownRank<V>(g: Cfg<V>, st: State<V>, r: nat, q: nat)
    requires ValidCfg(g) && Inv(g, st) && r < g.n && MayDown(g, st, r) && q < g.n
    ensures Shaped(g, AfterDown(g, st, r)) && RankOk(g, AfterDown(g, st, r), q)
  {
    assert RankOk(g, st, q) && RankOk(g, st, r);
    DownOut(g, st, r, q);
    if q != g.root {
      DownChannel(g, st, r, q);
      SameUps(g, st, AfterDown(g, st, r), q);
    }
  }

  lemma SameUps<V>(g: Cfg<V>, st: State<V>, t: State<V>, c: nat)
    requires ValidCfg(g) && Shaped(g, st) && Shaped(g, t) && c < g.n && c != g.root && UpOk(g, st, c)
    requires t.ups == st.ups && t.upc == st.upc
    ensures UpOk(g, t, c)
  {
  }

  lemma DownPush<V>(g: Cfg<V>, chan: seq<V>, from: nat, upto: nat, v: V)
    requires ValidCfg(g) && DownQueue(g, chan, from, upto) && upto < g.chunks && v == Final(g, upto)
    ensures DownQueue(g, chan + [v], from, upto + 1)
  {
  }

  lemma DownPop<V>(g: Cfg<V>, chan: seq<V>, from: nat, upto: nat)
    requires ValidCfg(g) && DownQueue(g, chan, from, upto) && chan != []
    ensures DownQueue(g, chan[1..], from + 1, upto)
  {
    forall i | 0 <= i < |chan| - 1 ensures from + 1 + i < g.chunks && chan[1..][i] == Final(g, from + 1 + i) {
      assert chan[i + 1] == Final(g, from + (i + 1));
    }
  }

  /** The channel to `c` after a broadcast step of `r`. */
  lemma DownAt<V>(g: Cfg<V>, st: State<V>, r: nat, c: nat, v: V)
    requires ValidCfg(g) && Shaped(g, st) && r < g.n && MayDown(g, st, r) && c < g.n && c != g.root
    requires v == if r == g.root then st.out[r][st.downs[r]] else st.dnc[r][0]
    ensures var t := AfterDown(g, st, r);
            && Shaped(g, t) && t.downs == st.downs[r := st.downs[r] + 1]
            && t.dnc[c] == if g.up[c] == r then st.dnc[c] + [v] else if c == r then st.dnc[c][1..] else st.dnc[c]
  {
    assert c in g.down[r] <==> g.up[c] == r;
  }

  lemma DownChannel<V>(g: Cfg<V>, st: State<V>, r: nat, c: nat)
    requires ValidCfg(g) && Shaped(g, st) && r < g.n && MayDown(g, st, r) && RankOk(g, st, r)
    requires c < g.n && c != g.root && DownOk(g, st, c)
    ensures Shaped(g, AfterDown(g, st, r)) && DownOk(g, AfterDown(g, st, r), c)
  {
    var p, v := g.up[c], Final(g, st.downs[r]);
    SentDown(g, st, r);
    DownAt(g, st, r, c, v);
    assert p != c by { assert g.depth[c] == g.depth[p] + 1; }
    if p == r {
      DownPush(g, st.dnc[c], st.downs[c], st.downs[p], v);
    } else if c == r {
      DownPop(g, st.dnc[c], st.downs[c], st.downs[p]);
    }
  }

  /** What a rank passes down is the final chunk. */
  lemma SentDown<V>(g: Cfg<V>, st: State<V>, r: nat)
    requires ValidCfg(g) && Shaped(g, st) && r < g.n && MayDown(g, st, r) && RankOk(g, st, r)
    ensures (if r == g.root then st.out[r][st.downs[r]] else st.dnc[r][0]) == Final(g, st.downs[r])
  {
  }

  lemma StepInv<V>(g: Cfg<V>, st: State<V>, t: State<V>, r: nat)
    requires ValidCfg(g) && Inv(g, st) && Step(g, st, t, r)
    ensures Inv(g, t)
  {
    if MayUp(g, st, r) {
      forall q: nat | q < g.n ensures Shaped(g, t) && RankOk(g, t, q) { UpRank(g, st, r, q); }
    } else {
      forall q: nat | q < g.n ensures Shaped(g, t) && RankOk(g, t, q) { DownRank(g, st, r, q); }
    }
  }

  lemma MoveInv<V>(g: Cfg<V>, st: State<V>, t: State<V>)
    requires ValidCfg(g) && Inv(g, st) && Moves(g, st, t)
    ensures Inv(g, t)
  {
    var r: nat :| Step(g, st, t, r);
    StepInv(g, st, t, r);
  }

  lemma InitInv<V>(g: Cfg<V>)
    requires ValidCfg(g)
    ensures Inv(g, Init(g))
  {
  }

  lemma {:induction false} RunInv<V>(g: Cfg<V>, run: seq<State<V>>, k: nat)
    requires ValidCfg(g) && IsRun(g, run) && k < |run|
    ensures Inv(g, run[k])
  {
    if k == 0 {
      InitInv(g);
    } else {
      RunInv(g, run, k - 1);
      MoveInv(g, run[k - 1], run[k]);
    }
  }

  ghost predicate Done<V>(g: Cfg<V>, st: State<V>, r: nat)
    requires ValidCfg(g) && Shaped(g, st) && r < g.n
  {
    st.ups[r] == g.chunks && st.downs[r] == g.chunks
  }

  /** Whatever the interleaving, a rank that has finished holds the root's result in every chunk. */
  lemma FinishedOutput<V>(g: Cfg<V>, run: seq<State<V>>, r: nat, k: nat)
    requires ValidCfg(g) && IsRun(g, run) && r < g.n && k < g.chunks
    ensures Shaped(g, run[|run| - 1])
    ensures Done(g, run[|run| - 1], r) ==> run[|run| - 1].out[r][k] == Final(g, k)
  {
    RunInv(g, run, |run| - 1);
    assert RankOk(g, run[|run| - 1], r);
  }

  // No run gets stuck.

  /** A rank that no other is behind in the reduction phase, the deepest of them. */
  lemma {:induction false} Laggard<V>(g: Cfg<V>, ups: seq<nat>, n: nat) returns (r: nat)
    requires |ups| == |g.depth| && 0 < n <= |ups|
    ensures r < n && forall q | 0 <= q < n :: ups[r] < ups[q] || (ups[r] == ups[q] && g.depth[r] >= g.depth[q])
  {
    if n == 1 {
      r := 0;
    } else {
      r := Laggard(g, ups, n - 1);
      var q := n - 1;
      if ups[q] < ups[r] || (ups[q] == ups[r] && g.depth[q] > g.depth[r]) { r := q; }
    }
  }

  /** In the broadcast phase, the shallowest of them. */
  lemma {:induction false} Follower<V>(g: Cfg<V>, downs: seq<nat>, n: nat) returns (r: nat)
    requires |downs| == |g.depth| && 0 < n <= |downs|
    ensures r < n && forall q | 0 <= q < n :: downs[r] < downs[q] || (downs[r] == downs[q] && g.depth[r] <= g.depth[q])
  {
    if n == 1 {
      r := 0;
    } else {
      r := Follower(g, downs, n - 1);
      var q := n - 1;
      if downs[q] < downs[r] || (downs[q] == downs[r] && g.depth[q] < g.depth[r]) { r := q; }
    }
  }

  lemma LaggardMoves<V>(g: Cfg<V>, st: State<V>, r: nat)
    requires ValidCfg(g) && Inv(g, st) && g.cap > 0 && r < g.n && st.ups[r] < g.chunks
    requires forall q | 0 <= q < g.n :: st.ups[r] < st.ups[q] || (st.ups[r] == st.ups[q] && g.depth[r] >= g.depth[q])
    ensures MayUp(g, st, r)
  {
    forall c | c in g.down[r] ensures st.upc[c] != [] {
      assert RankOk(g, st, c) && g.up[c] == r;
    }
    assert RankOk(g, st, r);
  }

  lemma FollowerMoves<V>(g: Cfg<V>, st: State<V>, r: nat)
    requires ValidCfg(g) && Inv(g, st) && g.cap > 0 && r < g.n && st.downs[r] < g.chunks
    requires forall q | 0 <= q < g.n :: st.ups[q] == g.chunks
    requires forall q | 0 <= q < g.n ::
               st.downs[r] < st.downs[q] || (st.downs[r] == st.downs[q] && g.depth[r] <= g.depth[q])
    ensures MayDown(g, st, r)
  {
    forall c | c in g.down[r] ensures |st.dnc[c]| < g.cap {
      assert RankOk(g, st, c) && g.up[c] == r;
    }
    assert RankOk(g, st, r);
  }

  /** Channels that hold one chunk are enough: as long as some rank is not done, some rank can move. */
  lemma NoDeadlock<V>(g: Cfg<V>, run: seq<State<V>>)
    requires ValidCfg(g) && IsRun(g, run) && g.cap > 0
    ensures var st := run[|run| - 1];
            && Shaped(g, st)
            && ((forall r: nat | r < g.n :: Done(g, st, r))
                || exists r: nat :: r < g.n && (MayUp(g, st, r) || MayDown(g, st, r)))
  {
    RunInv(g, run, |run| - 1);
    var st := run[|run| - 1];
    forall q: nat | q < g.n ensures st.ups[q] <= g.chunks && st.downs[q] <= g.chunks { assert RankOk(g, st, q); }
    var r := Laggard(g, st.ups, g.n);
    if st.ups[r] < g.chunks {
      LaggardMoves(g, st, r);
    } else {
      var f := Follower(g, st.downs, g.n);
      if st.downs[f] < g.chunks { FollowerMoves(g, st, f); }
    }
  }
}
