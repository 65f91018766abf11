/** The Simple protocol of one connection: credits in a head and a tail counter, cached by the end
    that waits for them, over a ring of buffer slots. Sender and receiver run the same sequence of
    operations, each with its own slice shape, in any interleaving. */
module SimpleFifo {

  /** What both ends know of an operation sequence. Operation `o` moves `slices(o)` slices of
      `width(o)` buffer steps; slice `t` starts at step `base(o,t)`. `n` is the number of slots. */
  datatype Layout = Layout(n: nat, nops: nat, slices: nat -> nat, width: nat -> nat, base: (nat, nat) -> nat)

  predicate IsSlice(y: Layout, o: nat, t: nat) { o < y.nops && t < y.slices(o) }

  ghost predicate GoodSlice(y: Layout, o: nat, t: nat)
    requires IsSlice(y, o, t)
  {
    && 0 < y.width(o) <= y.n
    && y.base(o, t + 1) == y.base(o, t) + y.width(o)
    && y.base(o, t) % y.n + y.width(o) <= y.n
  }

  ghost predicate ValidLayout(y: Layout) {
    && y.n > 0 && y.base(0, 0) == 0
    && (forall o: nat, t: nat | IsSlice(y, o, t) :: GoodSlice(y, o, t))
    && (forall o: nat | o + 1 < y.nops :: y.base(o, y.slices(o)) <= y.base(o + 1, 0))
  }

  /** One end: current operation; slices of it acquired, copied and posted; slots of the slice in
      progress already copied; last seen value of the peer's counter. */
  datatype End = End(op: nat, acq: nat, fin: nat, post: nat, part: nat, cache: nat)

  datatype Key = Key(o: nat, t: nat, p: nat)

  /** `written` and `got` record what was put into and taken out of each slot of each slice. */
  datatype State<V> = State(snd: End, rcv: End, head: nat, tail: nat, buf: seq<V>,
                            written: map<Key, V>, got: map<Key, V>)

  function Slot(y: Layout, o: nat, t: nat, p: nat): nat
    requires y.n > 0
  {
    y.base(o, t) % y.n + p
  }

  function Acquired(e: End): End { e.(acq := e.acq + 1) }

  function Copied(y: Layout, e: End): End {
    if e.part + 1 < y.width(e.op) then e.(part := e.part + 1) else e.(fin := e.fin + 1, part := 0)
  }

  predicate MayAcquire(y: Layout, e: End, credit: nat) {
    e.op < y.nops && e.acq == e.fin < y.slices(e.op) && e.cache + credit >= y.base(e.op, e.acq) + y.width(e.op)
  }

  /** Copying waits for the acquisition of the slice and for the post of the one before. */
  predicate MayCopy(y: Layout, e: End) { e.op < y.nops && e.acq == e.fin + 1 && e.post == e.fin }

  predicate MayPost(y: Layout, e: End) { e.op < y.nops && e.post < e.fin }

  /** All slices posted: the steps are saved and the next operation starts. */
  predicate MayNext(y: Layout, e: End) { e.op < y.nops && e.post == e.fin == e.acq == y.slices(e.op) }

  datatype Action<V> =
    | SendPoll | SendAcquire | SendCopy(v: V) | SendPost | SendNext
    | RecvPoll | RecvAcquire | RecvCopy | RecvPost | RecvNext

  predicate Enabled<V>(y: Layout, st: State<V>, a: Action<V>) {
    match a
    case SendPoll => st.snd.op < y.nops
    case SendAcquire => MayAcquire(y, st.snd, y.n)
    case SendCopy(v) => MayCopy(y, st.snd)
    case SendPost => MayPost(y, st.snd)
    case SendNext => MayNext(y, st.snd)
    case RecvPoll => st.rcv.op < y.nops
    case RecvAcquire => MayAcquire(y, st.rcv, 0)
    case RecvCopy => MayCopy(y, st.rcv)
    case RecvPost => MayPost(y, st.rcv)
    case RecvNext => MayNext(y, st.rcv)
  }

  /** The slot an end is about to copy lies inside the buffer. */
  predicate InBuffer<V>(y: Layout, st: State<V>, e: End) {
    y.n > 0 && Slot(y, e.op, e.fin, e.part) < |st.buf|
  }

  function Next<V>(y: Layout, st: State<V>, a: Action<V>): State<V>
    requires Enabled(y, st, a)
    requires a.SendCopy? ==> InBuffer(y, st, st.snd)
    requires a.RecvCopy? ==> InBuffer(y, st, st.rcv)
  {
    var s, r := st.snd, st.rcv;
    match a
    case SendPoll => st.(snd := s.(cache := st.head))
    case SendAcquire => st.(snd := Acquired(s))
    case SendCopy(v) =>
      st.(snd := Copied(y, s),
          buf := st.buf[Slot(y, s.op, s.fin, s.part) := v],
          written := st.written[Key(s.op, s.fin, s.part) := v])
    case SendPost => st.(snd := s.(post := s.post + 1), tail := y.base(s.op, s.post) + y.width(s.op))
    case SendNext => st.(snd := End(s.op + 1, 0, 0, 0, 0, st.head))
    case RecvPoll => st.(rcv := r.(cache := st.tail))
    case RecvAcquire => st.(rcv := Acquired(r))
    case RecvCopy =>
      st.(rcv := Copied(y, r), got := st.got[Key(r.op, r.fin, r.part) := st.buf[Slot(y, r.op, r.fin, r.part)]])
    case RecvPost => st.(rcv := r.(post := r.post + 1), head := y.base(r.op, r.post) + y.width(r.op))
    case RecvNext =>
      // the credits skipped by rounding the step up are returned when the operation starts
      st.(rcv := End(r.op + 1, 0, 0, 0, 0, st.tail),
          head := if r.op + 1 < y.nops then y.base(r.op + 1, 0) else st.head)
  }

  predicate Init<V>(y: Layout, st: State<V>) {
    && st.snd == st.rcv == End(0, 0, 0, 0, 0, 0)
    && st.head == st.tail == 0 && |st.buf| == y.n && st.written == map[] == st.got
  }

  ghost predicate Step<V(!new)>(y: Layout, st: State<V>, st': State<V>) {
    exists a: Action<V> :: Takes(y, st, st', a)
  }

  predicate Takes<V(==)>(y: Layout, st: State<V>, st': State<V>, a: Action<V>) {
    && Enabled(y, st, a)
    && (a.SendCopy? ==> InBuffer(y, st, st.snd)) && (a.RecvCopy? ==> InBuffer(y, st, st.rcv))
    && st' == Next(y, st, a)
  }

  ghost predicate IsRun<V(!new)>(y: Layout, run: seq<State<V>>) {
    && |run| > 0 && Init(y, run[0])
    && forall k | 0 < k < |run| :: Step(y, run[k - 1], run[k])
  }

  // ---- order of slices ----

  /** Slices before operation `o`. */
  function Before(y: Layout, o: nat): nat {
    if o == 0 then 0 else Before(y, o - 1) + y.slices(o - 1)
  }

  /** Slices before slice `t` of operation `o`. */
  function Count(y: Layout, o: nat, t: nat): nat { Before(y, o) + t }

  predicate Less(o: nat, t: nat, o': nat, t': nat) { o < o' || (o == o' && t < t') }

  lemma {:induction false} BeforeMonotone(y: Layout, o: nat, o': nat)
    requires o < o'
    ensures Before(y, o) + y.slices(o) <= Before(y, o')
  {
    if o + 1 < o' { BeforeMonotone(y, o, o' - 1); }
  }

  /** Counting slices and comparing their places agree on real slices. */
  lemma CountOrder(y: Layout, o: nat, t: nat, o': nat, t': nat)
    requires t < y.slices(o) && t' <= y.slices(o')
    ensures Count(y, o, t) < Count(y, o', t') <==> Less(o, t, o', t')
  {
    if o < o' { BeforeMonotone(y, o, o'); } else if o' < o { BeforeMonotone(y, o', o); }
  }

  // ---- steps grow along the sequence ----

  lemma {:induction false} BaseInOp(y: Layout, o: nat, t: nat, t': nat)
    requires ValidLayout(y) && o < y.nops && t <= t' <= y.slices(o)
    ensures y.base(o, t) <= y.base(o, t')
    ensures t < t' ==> y.base(o, t) + y.width(o) <= y.base(o, t')
    decreases t' - t
  {
    if t < t' {
      assert IsSlice(y, o, t' - 1) && GoodSlice(y, o, t' - 1);
      BaseInOp(y, o, t, t' - 1);
    }
  }

  lemma {:induction false} BaseAcross(y: Layout, o: nat, o': nat)
    requires ValidLayout(y) && o < o' < y.nops
    ensures y.base(o, y.slices(o)) <= y.base(o', 0)
    decreases o' - o
  {
    if o + 1 < o' {
      BaseAcross(y, o, o' - 1);
      BaseInOp(y, o' - 1, 0, y.slices(o' - 1));
    }
  }

  /** A slice ends before any later place of the sequence. */
  lemma BaseMonotone(y: Layout, o: nat, t: nat, o': nat, t': nat)
    requires ValidLayout(y) && IsSlice(y, o, t) && o' < y.nops && t' <= y.slices(o') && Less(o, t, o', t')
    ensures y.base(o, t) + y.width(o) <= y.base(o', t')
  {
    if o < o' {
      BaseInOp(y, o, t, y.slices(o));
      BaseAcross(y, o, o');
      BaseInOp(y, o', 0, t');
    } else {
      BaseInOp(y, o, t, t');
    }
  }

  // ---- invariant ----

  predicate GoodEnd(y: Layout, e: End) {
    && e.op <= y.nops
    && (e.op == y.nops ==> e.acq == e.fin == e.post == e.part == 0)
    && (e.op < y.nops ==>
          && e.post <= e.fin <= e.acq <= y.slices(e.op)
          && e.fin <= e.post + 1 && e.acq <= e.fin + 1
          && (e.part > 0 ==> e.acq == e.fin + 1 && e.post == e.fin && e.part < y.width(e.op)))
  }

  /** Value of the tail counter after slice `t` of operation `o` is the next to be posted. */
  function TailAt(y: Layout, o: nat, t: nat): nat {
    if t > 0 then y.base(o, t) else if o == 0 then 0 else TailAt(y, o - 1, y.slices(o - 1))
  }

  /** Slot `k` has been copied by the end `e`. */
  predicate Past(e: End, k: Key) {
    Less(k.o, k.t, e.op, e.fin) || (k.o == e.op && k.t == e.fin && k.p < e.part)
  }

  predicate IsKey(y: Layout, k: Key) { IsSlice(y, k.o, k.t) && k.p < y.width(k.o) }

  ghost predicate Contents<V>(y: Layout, st: State<V>)
    requires y.n > 0
  {
    && |st.buf| == y.n
    && (forall k | IsKey(y, k) && Past(st.snd, k) :: k in st.written)
    && (forall k | k in st.written :: IsKey(y, k) && Past(st.snd, k))
    && (forall k | k in st.written && !Past(st.rcv, k) ::
          Slot(y, k.o, k.t, k.p) < y.n && st.buf[Slot(y, k.o, k.t, k.p)] == st.written[k])
  }

  /** Everything taken out is what was put in at the same place, and all of it up to here. */
  ghost predicate Faithful<V>(y: Layout, st: State<V>) {
    && (forall k | IsKey(y, k) && Past(st.rcv, k) :: k in st.got)
    && (forall k | k in st.got :: IsKey(y, k) && Past(st.rcv, k) && k in st.written && st.got[k] == st.written[k])
  }

  ghost predicate Counters<V>(y: Layout, st: State<V>) {
    var s, r := st.snd, st.rcv;
    && GoodEnd(y, s) && GoodEnd(y, r)
    && (r.op < y.nops ==> st.head == y.base(r.op, r.post))
    && st.tail == TailAt(y, s.op, s.post)
    && s.cache <= st.head && r.cache <= st.tail
    && Count(y, r.op, r.acq) <= Count(y, s.op, s.post)
    && (s.op < y.nops && s.acq == s.fin + 1 ==> st.head + y.n >= y.base(s.op, s.fin) + y.width(s.op))
  }

  ghost predicate Inv<V>(y: Layout, st: State<V>) {
    ValidLayout(y) && Counters(y, st) && Contents(y, st) && Faithful(y, st)
  }
}
