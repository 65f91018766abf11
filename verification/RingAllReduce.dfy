/** Ring AllReduce as an asynchronous system: every rank runs its program slice by slice over one
    bounded channel per ring edge, in any interleaving. The element ranges of the slices are given
    by any tiling of the work range. */
module RingAllReduce {
  import opened RingProgram

  /** `lo(l,c,s)..hi(l,c,s)` are the positions of slice `s` of chunk `c` of loop `l`.
      `inp` and `out0` are the ranks' buffers by ring index; `pre` scales a rank's own input,
      `post` finishes the reduction. `cap` is the number of slices a channel holds. */
  datatype Cfg<!T> = Cfg(h: Shape, first: nat, count: nat,
                         lo: (nat, nat, nat) -> int, hi: (nat, nat, nat) -> int,
                         cap: nat, inPlace: bool, inp: seq<seq<T>>, out0: seq<seq<T>>,
                         op: (T, T) -> T, pre: (nat, T) -> T, post: T -> T)

  /** A rank's program position and its counts of slice operations, sends and receives. */
  datatype Rank = Rank(pc: Pc, ops: nat, sent: nat, rcvd: nat)

  /** `chan[i]` holds the slices in flight from ring index `i` to its successor. */
  datatype State<T> = State(rank: seq<Rank>, chan: seq<seq<seq<T>>>, out: seq<seq<T>>)

  predicate IsBlock(h: Shape, l: nat, c: nat, s: nat) {
    l < h.loops && c < h.n && s < h.slices
  }

  predicate InBlock<T>(cfg: Cfg<T>, l: nat, c: nat, s: nat, pos: int) {
    cfg.lo(l, c, s) <= pos < cfg.hi(l, c, s)
  }

  /** Every block is an interval inside the work range `first..first+count`. */
  ghost predicate InRange<T>(cfg: Cfg<T>) {
    && (forall l: nat, c: nat, s: nat | IsBlock(cfg.h, l, c, s) :: cfg.lo(l, c, s) <= cfg.hi(l, c, s))
    && (forall l: nat, c: nat, s: nat, pos | IsBlock(cfg.h, l, c, s) && InBlock(cfg, l, c, s, pos) ::
          cfg.first <= pos < cfg.first + cfg.count)
  }

  ghost predicate Disjoint<T>(cfg: Cfg<T>) {
    forall l: nat, c: nat, s: nat, l': nat, c': nat, s': nat, pos |
      && IsBlock(cfg.h, l, c, s) && InBlock(cfg, l, c, s, pos)
      && IsBlock(cfg.h, l', c', s') && InBlock(cfg, l', c', s', pos) ::
      l == l' && c == c' && s == s'
  }

  ghost predicate Covered<T>(cfg: Cfg<T>, pos: int) {
    exists l: nat, c: nat, s: nat :: IsBlock(cfg.h, l, c, s) && InBlock(cfg, l, c, s, pos)
  }

  ghost predicate Sane<T>(cfg: Cfg<T>) {
    && Valid(cfg.h) && InRange(cfg)
    && |cfg.inp| == |cfg.out0| == cfg.h.n
    && (forall i | 0 <= i < cfg.h.n ::
          |cfg.inp[i]| >= cfg.first + cfg.count && |cfg.out0[i]| >= cfg.first + cfg.count)
    && (cfg.inPlace ==> cfg.out0 == cfg.inp)
  }

  /** The blocks partition the work range and the buffers hold it. */
  ghost predicate ValidCfg<T>(cfg: Cfg<T>) {
    Sane(cfg) && Disjoint(cfg) && forall pos | cfg.first <= pos < cfg.first + cfg.count :: Covered(cfg, pos)
  }

  // ---- the transition system ----

  predicate Shaped<T>(cfg: Cfg<T>, st: State<T>) {
    && Valid(cfg.h) && |cfg.inp| == |cfg.out0| == cfg.h.n
    && |st.rank| == |st.chan| == |st.out| == cfg.h.n
    && forall i | 0 <= i < cfg.h.n :: InProgram(cfg.h, st.rank[i].pc)
  }

  function Init<T>(cfg: Cfg<T>): State<T> {
    State(seq(cfg.h.n, _ => Rank(Pc(0, 0, 0), 0, 0, 0)), seq(cfg.h.n, _ => []), cfg.out0)
  }

  predicate Done<T>(cfg: Cfg<T>, st: State<T>, i: nat)
    requires Shaped(cfg, st) && i < cfg.h.n
  {
    st.rank[i].pc.l >= cfg.h.loops
  }

  /** Rank `i` has work left, a slice to receive if it needs one and a credit if it sends. */
  predicate Enabled<T>(cfg: Cfg<T>, st: State<T>, i: nat)
    requires Shaped(cfg, st) && i < cfg.h.n
  {
    var p := st.rank[i].pc;
    && !Done(cfg, st, i)
    && (HasRecv(p) ==> |st.chan[Prev(cfg.h.n, i)]| > 0)
    && (HasSend(cfg.h, p) ==> |st.chan[i]| < cfg.cap)
  }

  /** The buffer rank `i` reads its own contribution from. */
  function Src<T>(cfg: Cfg<T>, st: State<T>, i: nat): seq<T>
    requires i < |cfg.inp| && i < |st.out|
  {
    if cfg.inPlace then st.out[i] else cfg.inp[i]
  }

  /** The slice to be received has the length rank `i` expects, and its buffers hold the range. */
  predicate Matched<T>(cfg: Cfg<T>, st: State<T>, i: nat)
    requires Shaped(cfg, st) && i < cfg.h.n && Enabled(cfg, st, i)
  {
    var p := st.rank[i].pc;
    var c := ChunkAt(cfg.h.n, i, p.j);
    var lo, hi := cfg.lo(p.l, c, p.s), cfg.hi(p.l, c, p.s);
    && lo <= hi
    && (lo < hi ==> 0 <= lo && hi <= |Src(cfg, st, i)| && hi <= |st.out[i]|)
    && (HasRecv(p) ==> |st.chan[Prev(cfg.h.n, i)][0]| == hi - lo)
  }

  function Combine<T>(cfg: Cfg<T>, kind: Kind, i: nat, own: T, got: T): T {
    match kind
    case Send => cfg.pre(i, own)
    case RecvReduceSend => cfg.op(cfg.pre(i, own), got)
    case RecvReduceCopySend => cfg.post(cfg.op(cfg.pre(i, own), got))
    case RecvCopySend => got
    case Recv => got
  }

  /** The values rank `i` computes for its current slice. */
  function Computed<T>(cfg: Cfg<T>, st: State<T>, i: nat): (vals: seq<T>)
    requires Shaped(cfg, st) && i < cfg.h.n && Enabled(cfg, st, i) && Matched(cfg, st, i)
  {
    var p := st.rank[i].pc;
    var c := ChunkAt(cfg.h.n, i, p.j);
    var lo, hi := cfg.lo(p.l, c, p.s), cfg.hi(p.l, c, p.s);
    var own := if lo < hi then Src(cfg, st, i)[lo..hi] else [];
    var got := if HasRecv(p) then st.chan[Prev(cfg.h.n, i)][0] else own;
    seq(hi - lo, k requires 0 <= k < hi - lo => Combine(cfg, KindAt(cfg.h.n, p.j), i, own[k], got[k]))
  }

  function Overwrite<T>(buf: seq<T>, lo: int, vals: seq<T>): (r: seq<T>)
    requires vals != [] ==> 0 <= lo && lo + |vals| <= |buf|
    ensures |r| == |buf|
    ensures forall p | 0 <= p < |buf| :: r[p] == if lo <= p < lo + |vals| then vals[p - lo] else buf[p]
  {
    if vals == [] then buf else buf[..lo] + vals + buf[lo + |vals|..]
  }

  predicate Stores(kind: Kind) {
    kind == RecvReduceCopySend || kind == RecvCopySend || kind == Recv
  }

  /** Contents of the channel leaving ring index `k` after a slice operation of rank `i`. */
  function ChanAfter<T>(cfg: Cfg<T>, st: State<T>, i: nat, k: nat): seq<seq<T>>
    requires Shaped(cfg, st) && i < cfg.h.n && k < cfg.h.n && Enabled(cfg, st, i) && Matched(cfg, st, i)
  {
    var p := st.rank[i].pc;
    if k == i && HasSend(cfg.h, p) then st.chan[k] + [Computed(cfg, st, i)]
    else if k == Prev(cfg.h.n, i) && HasRecv(p) then st.chan[k][1..]
    else st.chan[k]
  }

  function OutAfter<T>(cfg: Cfg<T>, st: State<T>, i: nat): seq<T>
    requires Shaped(cfg, st) && i < cfg.h.n && Enabled(cfg, st, i) && Matched(cfg, st, i)
  {
    var p := st.rank[i].pc;
    if Stores(KindAt(cfg.h.n, p.j))
    then Overwrite(st.out[i], cfg.lo(p.l, ChunkAt(cfg.h.n, i, p.j), p.s), Computed(cfg, st, i))
    else st.out[i]
  }

  function Advance(h: Shape, r: Rank): Rank
    requires h.n >= 2
  {
    Rank(Succ(h, r.pc), r.ops + 1,
         r.sent + if HasSend(h, r.pc) then 1 else 0,
         r.rcvd + if HasRecv(r.pc) then 1 else 0)
  }

  /** One slice operation of rank `i`. */
  function Exec<T>(cfg: Cfg<T>, st: State<T>, i: nat): State<T>
    requires Shaped(cfg, st) && i < cfg.h.n && Enabled(cfg, st, i) && Matched(cfg, st, i)
  {
    State(st.rank[i := Advance(cfg.h, st.rank[i])],
          seq(cfg.h.n, k requires 0 <= k < cfg.h.n => ChanAfter(cfg, st, i, k)),
          st.out[i := OutAfter(cfg, st, i)])
  }

  predicate Step<T(==)>(cfg: Cfg<T>, st: State<T>, st': State<T>, i: nat) {
    && Shaped(cfg, st) && i < cfg.h.n
    && Enabled(cfg, st, i) && Matched(cfg, st, i) && st' == Exec(cfg, st, i)
  }

  ghost predicate Moves<T>(cfg: Cfg<T>, st: State<T>, st': State<T>) {
    exists i :: Step(cfg, st, st', i)
  }

  ghost predicate IsRun<T>(cfg: Cfg<T>, run: seq<State<T>>) {
    && |run| > 0 && run[0] == Init(cfg)
    && forall k | 0 < k < |run| :: Moves(cfg, run[k - 1], run[k])
  }

  // ---- what the values should be ----

  predicate HasPos<T>(cfg: Cfg<T>, pos: int) {
    pos >= 0 && |cfg.inp| == cfg.h.n && forall i | 0 <= i < |cfg.inp| :: pos < |cfg.inp[i]|
  }

  /** Contribution of the rank with ring index `i` at buffer position `pos`. */
  function Contribution<T>(cfg: Cfg<T>, i: nat, pos: int): T
    requires HasPos(cfg, pos) && i < cfg.h.n
  {
    cfg.pre(i, cfg.inp[i][pos])
  }

  /** Reduction of the contributions of ring indices `i`, `i-1`, ..., `i-j`. */
  function Partial<T>(cfg: Cfg<T>, i: nat, j: nat, pos: int): T
    requires HasPos(cfg, pos) && i < cfg.h.n
    decreases j
  {
    if j == 0 then Contribution(cfg, i, pos)
    else cfg.op(Contribution(cfg, i, pos), Partial(cfg, Prev(cfg.h.n, i), j - 1, pos))
  }

  /** Final value of a position of chunk `c`. */
  function Final<T>(cfg: Cfg<T>, c: nat, pos: int): T
    requires HasPos(cfg, pos) && c < cfg.h.n
  {
    cfg.post(Partial(cfg, c, cfg.h.n - 1, pos))
  }

  /** Value of a position after operation `j` of ring index `i`. */
  function Expected<T>(cfg: Cfg<T>, i: nat, j: nat, pos: int): T
    requires HasPos(cfg, pos) && i < cfg.h.n && j <= 2 * cfg.h.n - 2
  {
    if j < cfg.h.n - 1 then Partial(cfg, i, j, pos) else Final(cfg, ChunkAt(cfg.h.n, i, j), pos)
  }

  // ---- invariant ----

  /** A slice computed at position `p` by ring index `i` carries the expected values. */
  ghost predicate GoodSlice<T>(cfg: Cfg<T>, i: nat, p: Pc, vals: seq<T>)
    requires i < cfg.h.n && p.j <= 2 * cfg.h.n - 2
  {
    var c := ChunkAt(cfg.h.n, i, p.j);
    var lo, hi := cfg.lo(p.l, c, p.s), cfg.hi(p.l, c, p.s);
    && |vals| == hi - lo
    && forall k | 0 <= k < |vals| :: GoodValue(cfg, i, p.j, lo + k, vals[k])
  }

  ghost predicate GoodValue<T>(cfg: Cfg<T>, i: nat, j: nat, pos: int, v: T)
    requires i < cfg.h.n && j <= 2 * cfg.h.n - 2
  {
    HasPos(cfg, pos) && v == Expected(cfg, i, j, pos)
  }

  ghost predicate GoodChannel<T>(cfg: Cfg<T>, i: nat, from: nat, upto: nat, chan: seq<seq<T>>)
    requires Valid(cfg.h) && i < cfg.h.n
  {
    && from <= upto && |chan| == upto - from <= cfg.cap
    && forall k | 0 <= k < |chan| :: GoodSlice(cfg, i, SendAt(cfg.h, from + k), chan[k])
  }

  predicate Stored(h: Shape, i: nat, l: nat, c: nat, s: nat, p: Pc)
    requires i < h.n && c < h.n
  {
    Before(Pc(l, StoreOp(h.n, i, c), s), p)
  }

  /** The part of the output covered by completed stores is final, the rest is untouched. */
  ghost predicate GoodOutput<T>(cfg: Cfg<T>, i: nat, p: Pc, out: seq<T>)
    requires i < cfg.h.n && |cfg.out0| == cfg.h.n
  {
    && |out| == |cfg.out0[i]|
    && (forall l: nat, c: nat, s: nat, pos: nat |
          IsBlock(cfg.h, l, c, s) && InBlock(cfg, l, c, s, pos) && pos < |out| && HasPos(cfg, pos) ::
          out[pos] == if Stored(cfg.h, i, l, c, s, p) then Final(cfg, c, pos) else cfg.out0[i][pos])
    && (forall pos: nat | pos < |out| && !(cfg.first <= pos < cfg.first + cfg.count) :: out[pos] == cfg.out0[i][pos])
  }

  /** The counters of a rank belong to its position, which is not past the end. */
  ghost predicate Tracks(h: Shape, r: Rank)
    requires Valid(h)
  {
    && r.pc == At(h, r.ops) && r.sent == Sent(h, r.ops) && r.rcvd == Recvd(h, r.ops)
    && r.pc.l <= h.loops && (r.pc.l == h.loops ==> r.pc.j == 0 && r.pc.s == 0)
  }

  ghost predicate GoodRank<T>(cfg: Cfg<T>, st: State<T>, i: nat)
    requires Shaped(cfg, st) && i < cfg.h.n
  {
    && Tracks(cfg.h, st.rank[i])
    && GoodChannel(cfg, i, st.rank[Next(cfg.h.n, i)].rcvd, st.rank[i].sent, st.chan[i])
    && GoodOutput(cfg, i, st.rank[i].pc, st.out[i])
  }

  ghost predicate Inv<T>(cfg: Cfg<T>, st: State<T>) {
    Sane(cfg) && Shaped(cfg, st) && forall i | 0 <= i < cfg.h.n :: GoodRank(cfg, st, i)
  }
}
