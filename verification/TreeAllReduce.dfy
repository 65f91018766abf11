/** Tree AllReduce as an asynchronous system: every rank first reduces chunk by chunk towards the
    root, then passes the finished chunks down, over bounded channels and in any interleaving. */
module TreeAllReduce {
  import opened PlacedLists

  /** `inp[r][k]` is rank `r`'s chunk `k`; `op` combines chunks, `pre` scales a rank's own one, `post`
      finishes the reduction at the root.  `cap` is the number of chunks a channel holds. */
  datatype Cfg<!V> = Cfg(n: nat, root: nat, chunks: nat, cap: nat, up: seq<int>, down: seq<seq<int>>, depth: seq<nat>,
                         inPlace: bool, inp: seq<seq<V>>, out0: seq<seq<V>>, op: (V, V) -> V, pre: (nat, V) -> V,
                         post: V -> V)

  /** Up and down links agree and lead every rank to the root. */
  ghost predicate ValidTree<V>(g: Cfg<V>) {
    && |g.up| == |g.down| == |g.depth| == g.n && g.root < g.n && g.up[g.root] == -1 && g.depth[g.root] == 0
    && (forall r | 0 <= r < g.n && r != g.root :: 0 <= g.up[r] < g.n && g.depth[r] == g.depth[g.up[r]] + 1)
    && (forall p | 0 <= p < g.n :: NoDup(g.down[p]))
    && (forall p, c {:trigger c in g.down[p]} | 0 <= p < g.n && c in g.down[p] ::
          0 <= c < g.n && c != g.root && g.up[c] == p)
    && forall c | 0 <= c < g.n && c != g.root :: c in g.down[g.up[c]]
  }

  ghost predicate ValidCfg<V>(g: Cfg<V>) {
    && ValidTree(g) && |g.inp| == |g.out0| == g.n && (g.inPlace ==> g.out0 == g.inp)
    && forall r | 0 <= r < g.n :: |g.inp[r]| == |g.out0[r]| == g.chunks
  }

  /** `ups` and `downs` count the chunks a rank has handled in either phase; `upc[c]` and `dnc[c]` are
      the channels between `c` and its parent. */
  datatype State<V> = State(ups: seq<nat>, downs: seq<nat>, upc: seq<seq<V>>, dnc: seq<seq<V>>, out: seq<seq<V>>)

  ghost predicate Shaped<V>(g: Cfg<V>, st: State<V>) {
    && |st.ups| == |st.downs| == |st.upc| == |st.dnc| == |st.out| == g.n
    && forall r | 0 <= r < g.n :: |st.out[r]| == g.chunks
  }

  /** Reduction step: every child's chunk is there and the parent has room. */
  ghost predicate MayUp<V>(g: Cfg<V>, st: State<V>, r: nat)
    requires ValidCfg(g) && Shaped(g, st) && r < g.n
  {
    && st.ups[r] < g.chunks
    && (forall c | c in g.down[r] :: st.upc[c] != [])
    && (r != g.root ==> |st.upc[r]| < g.cap)
  }

  /** Broadcast step, after all reduction steps. */
  ghost predicate MayDown<V>(g: Cfg<V>, st: State<V>, r: nat)
    requires ValidCfg(g) && Shaped(g, st) && r < g.n
  {
    && st.ups[r] == g.chunks && st.downs[r] < g.chunks
    && (r != g.root ==> st.dnc[r] != [])
    && forall c | c in g.down[r] :: |st.dnc[c]| < g.cap
  }

  ghost function Own<V>(g: Cfg<V>, st: State<V>, r: nat, k: nat): V
    requires ValidCfg(g) && Shaped(g, st) && r < g.n && k < g.chunks
  {
    if g.inPlace then st.out[r][k] else g.inp[r][k]
  }

  /** The chunks received from the first `i` children folded onto `acc`, in link order. */
  ghost function Fold<V>(g: Cfg<V>, upc: seq<seq<V>>, acc: V, cs: seq<int>, i: nat): V
    requires i <= |cs| && forall j | 0 <= j < |cs| :: 0 <= cs[j] < |upc| && upc[cs[j]] != []
  {
    if i == 0 then acc else g.op(Fold(g, upc, acc, cs, i - 1), upc[cs[i - 1]][0])
  }

  ghost function AfterUp<V>(g: Cfg<V>, st: State<V>, r: nat): State<V>
    requires ValidCfg(g) && Shaped(g, st) && r < g.n && MayUp(g, st, r)
  {
    var k, cs := st.ups[r], g.down[r];
    assert forall j | 0 <= j < |cs| :: cs[j] in cs;
    var sum := Fold(g, st.upc, g.pre(r, Own(g, st, r, k)), cs, |cs|);
    State(st.ups[r := k + 1], st.downs,
          seq(g.n, c requires 0 <= c < g.n =>
            if c in cs then st.upc[c][1..] else if c == r && r != g.root then st.upc[c] + [sum] else st.upc[c]),
          st.dnc,
          if r == g.root then st.out[r := st.out[r][k := g.post(sum)]] else st.out)
  }

  ghost function AfterDown<V>(g: Cfg<V>, st: State<V>, r: nat): State<V>
    requires ValidCfg(g) && Shaped(g, st) && r < g.n && MayDown(g, st, r)
  {
    var k, cs := st.downs[r], g.down[r];
    var got := if r == g.root then st.out[r][k] else st.dnc[r][0];
    State(st.ups, st.downs[r := k + 1], st.upc,
          seq(g.n, c requires 0 <= c < g.n =>
            if c in cs then st.dnc[c] + [got] else if c == r && r != g.root then st.dnc[c][1..] else st.dnc[c]),
          if r == g.root then st.out else st.out[r := st.out[r][k := got]])
  }

  ghost predicate Step<V>(g: Cfg<V>, st: State<V>, t: State<V>, r: nat)
    requires ValidCfg(g)
  {
    && Shaped(g, st) && r < g.n
    && ((MayUp(g, st, r) && t == AfterUp(g, st, r)) || (MayDown(g, st, r) && t == AfterDown(g, st, r)))
  }

  ghost predicate Moves<V>(g: Cfg<V>, st: State<V>, t: State<V>)
    requires ValidCfg(g)
  {
    exists r: nat :: Step(g, st, t, r)
  }

  ghost function Init<V>(g: Cfg<V>): State<V> {
    State(seq(g.n, r => 0), seq(g.n, r => 0), seq(g.n, r => []), seq(g.n, r => []), g.out0)
  }

  ghost predicate IsRun<V>(g: Cfg<V>, run: seq<State<V>>)
    requires ValidCfg(g)
  {
    |run| > 0 && run[0] == Init(g) && forall k | 0 < k < |run| :: Moves(g, run[k - 1], run[k])
  }

  // What the values should be.

  function Deepest(depth: seq<nat>): (d: nat)
    ensures forall r | 0 <= r < |depth| :: depth[r] <= d
  {
    if depth == [] then 0
    else
      var m := Deepest(depth[..|depth| - 1]);
      if m < depth[|depth| - 1] then depth[|depth| - 1] else m
  }

  ghost function Contribution<V>(g: Cfg<V>, r: nat, k: nat): V
    requires ValidCfg(g) && r < g.n && k < g.chunks
  {
    g.pre(r, g.inp[r][k])
  }

  /** Own contribution of `r` combined with the subtrees of its first `i` children. */
  ghost function Acc<V>(g: Cfg<V>, r: nat, k: nat, i: nat): V
    requires ValidCfg(g) && r < g.n && k < g.chunks && i <= |g.down[r]|
    decreases Deepest(g.depth) - g.depth[r], i, 0
  {
    if i == 0 then Contribution(g, r, k)
    else
      assert g.down[r][i - 1] in g.down[r];
      g.op(Acc(g, r, k, i - 1), Sub(g, g.down[r][i - 1], k))
  }

  ghost function Sub<V>(g: Cfg<V>, r: nat, k: nat): V
    requires ValidCfg(g) && r < g.n && k < g.chunks
    decreases Deepest(g.depth) - g.depth[r], |g.down[r]|, 1
  {
    Acc(g, r, k, |g.down[r]|)
  }

  ghost function Final<V>(g: Cfg<V>, k: nat): V
    requires ValidCfg(g) && k < g.chunks
  {
    g.post(Sub(g, g.root, k))
  }

  // The invariant.

  /** The sums of the subtree of `c` for the chunks from `from` to `upto`. */
  ghost predicate UpQueue<V>(g: Cfg<V>, c: nat, chan: seq<V>, from: nat, upto: nat)
    requires ValidCfg(g) && c < g.n
  {
    && from <= upto <= g.chunks && |chan| == upto - from
    && forall i | 0 <= i < |chan| :: from + i < g.chunks && chan[i] == Sub(g, c, from + i)
  }

  /** The final chunks from `from` to `upto`. */
  ghost predicate DownQueue<V>(g: Cfg<V>, chan: seq<V>, from: nat, upto: nat)
    requires ValidCfg(g)
  {
    && from <= upto <= g.chunks && |chan| == upto - from
    && forall i | 0 <= i < |chan| :: from + i < g.chunks && chan[i] == Final(g, from + i)
  }

  /** The channel from `c` to its parent holds the subtree sums the parent has not taken yet. */
  ghost predicate UpOk<V>(g: Cfg<V>, st: State<V>, c: nat)
    requires ValidCfg(g) && Shaped(g, st) && c < g.n && c != g.root
  {
    UpQueue(g, c, st.upc[c], st.ups[g.up[c]], st.ups[c])
  }

  ghost predicate DownOk<V>(g: Cfg<V>, st: State<V>, c: nat)
    requires ValidCfg(g) && Shaped(g, st) && c < g.n && c != g.root
  {
    DownQueue(g, st.dnc[c], st.downs[c], st.downs[g.up[c]])
  }

  /** Finished chunks of the output are final, the others as they were. */
  ghost predicate OutOk<V>(g: Cfg<V>, st: State<V>, r: nat)
    requires ValidCfg(g) && Shaped(g, st) && r < g.n
  {
    && st.ups[r] <= g.chunks && st.downs[r] <= g.chunks && (st.downs[r] > 0 ==> st.ups[r] == g.chunks)
    && forall k | 0 <= k < g.chunks ::
         st.out[r][k] == if k < (if r == g.root then st.ups[r] else st.downs[r]) then Final(g, k) else g.out0[r][k]
  }

  ghost predicate RankOk<V>(g: Cfg<V>, st: State<V>, r: nat)
    requires ValidCfg(g) && Shaped(g, st) && r < g.n
  {
    OutOk(g, st, r) && (r != g.root ==> UpOk(g, st, r) && DownOk(g, st, r))
  }

  ghost predicate Inv<V>(g: Cfg<V>, st: State<V>)
    requires ValidCfg(g)
  {
    Shaped(g, st) && forall r: nat | r < g.n :: RankOk(g, st, r)
  }
}
