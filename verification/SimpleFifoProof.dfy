/** Safety and progress of the Simple protocol. */
module SimpleFifoProof {
  import opened Arith
  import opened SimpleFifo

  lemma {:induction false} TailBounds(y: Layout, o: nat, t: nat)
    requires ValidLayout(y) && o < y.nops && t <= y.slices(o)
    ensures TailAt(y, o, t) <= y.base(o, t)
    ensures forall o': nat, t': nat | IsSlice(y, o', t') && Less(o', t', o, t) ::
              y.base(o', t') + y.width(o') <= TailAt(y, o, t)
    decreases o, t
  {
    if t > 0 {
      forall o': nat, t': nat | IsSlice(y, o', t') && Less(o', t', o, t)
        ensures y.base(o', t') + y.width(o') <= y.base(o, t)
      {
        BaseMonotone(y, o', t', o, t);
      }
    } else if o > 0 {
      TailBounds(y, o - 1, y.slices(o - 1));
    }
  }

  lemma TailAtEnd(y: Layout, o: nat, t: nat, o': nat, t': nat)
    requires ValidLayout(y) && o <= y.nops && (o == y.nops ==> t == 0) && (o < y.nops ==> t <= y.slices(o))
    requires IsSlice(y, o', t')
    ensures Less(o', t', o, t) ==> y.base(o', t') + y.width(o') <= TailAt(y, o, t)
    ensures !Less(o', t', o, t) ==> TailAt(y, o, t) <= y.base(o', t')
  {
    if o == y.nops {
      TailBounds(y, o - 1, y.slices(o - 1));
    } else {
      TailBounds(y, o, t);
      if !Less(o', t', o, t) {
        if o == o' { BaseInOp(y, o, t, t'); } else {
          BaseInOp(y, o, t, y.slices(o));
          BaseAcross(y, o, o');
          BaseInOp(y, o', 0, t');
        }
      }
    }
  }

  /** The receiver acquires a slice only after the sender posted it. */
  lemma AcquiredWasPosted<V>(y: Layout, st: State<V>)
    requires Inv(y, st) && MayAcquire(y, st.rcv, 0)
    ensures Less(st.rcv.op, st.rcv.acq, st.snd.op, st.snd.post)
  {
    TailAtEnd(y, st.snd.op, st.snd.post, st.rcv.op, st.rcv.acq);
    assert GoodSlice(y, st.rcv.op, st.rcv.acq);
  }

  lemma SlotInBuffer(y: Layout, o: nat, t: nat, p: nat)
    requires ValidLayout(y) && IsSlice(y, o, t) && p < y.width(o)
    ensures Slot(y, o, t, p) < y.n && Slot(y, o, t, p) == (y.base(o, t) + p) % y.n
  {
    assert GoodSlice(y, o, t);
    var b := y.base(o, t);
    assert b == y.n * (b / y.n) + b % y.n;
    DivModUnique(b + p, y.n, b / y.n, b % y.n + p);
  }

  lemma UnreadAfterHead<V>(y: Layout, st: State<V>, k: Key)
    requires ValidLayout(y) && Counters(y, st) && MayCopy(y, st.snd)
    requires IsKey(y, k) && Past(st.snd, k) && !Past(st.rcv, k)
    ensures st.head <= y.base(k.o, k.t)
  {
    var s, r := st.snd, st.rcv;
    if r.op < y.nops {
      if r.op == k.o {
        BaseInOp(y, r.op, r.post, k.t);
      } else {
        BaseInOp(y, r.op, r.post, y.slices(r.op));
        BaseAcross(y, r.op, k.o);
        BaseInOp(y, k.o, 0, k.t);
      }
    }
  }

  lemma DistinctSlots(n: nat, x: nat, z: nat)
    requires n > 0 && z < x < z + n
    ensures x % n != z % n
  {
    if x % n == z % n { ModInjective(x, z, n); }
  }

  lemma WrittenEarlier<V>(y: Layout, st: State<V>, k: Key)
    requires ValidLayout(y) && Counters(y, st) && MayCopy(y, st.snd) && IsKey(y, k) && Past(st.snd, k)
    ensures y.base(k.o, k.t) + k.p < y.base(st.snd.op, st.snd.fin) + st.snd.part
  {
    var s := st.snd;
    if Less(k.o, k.t, s.op, s.fin) { BaseMonotone(y, k.o, k.t, s.op, s.fin); }
  }

  /** The slot about to be written holds no slot of a slice that is still to be read. */
  lemma NoOverwrite<V>(y: Layout, st: State<V>, k: Key)
    requires ValidLayout(y) && Counters(y, st) && MayCopy(y, st.snd)
    requires IsKey(y, k) && Past(st.snd, k) && !Past(st.rcv, k)
    ensures Slot(y, st.snd.op, st.snd.fin, st.snd.part) != Slot(y, k.o, k.t, k.p)
  {
    var s := st.snd;
    assert GoodSlice(y, s.op, s.fin);
    UnreadAfterHead(y, st, k);
    WrittenEarlier(y, st, k);
    SlotInBuffer(y, s.op, s.fin, s.part);
    SlotInBuffer(y, k.o, k.t, k.p);
    DistinctSlots(y.n, y.base(s.op, s.fin) + s.part, y.base(k.o, k.t) + k.p);
  }

  /** The slot about to be read holds what the sender put there for this slice. */
  lemma ReadsWritten<V>(y: Layout, st: State<V>)
    requires Inv(y, st) && MayCopy(y, st.rcv)
    ensures var r := st.rcv;
            var k := Key(r.op, r.fin, r.part);
            && IsKey(y, k) && k in st.written && InBuffer(y, st, r)
            && st.buf[Slot(y, r.op, r.fin, r.part)] == st.written[k]
  {
    var s, r := st.snd, st.rcv;
    var k := Key(r.op, r.fin, r.part);
    assert GoodSlice(y, r.op, r.fin);
    assert Count(y, r.op, r.fin) < Count(y, s.op, s.post);
    CountOrder(y, r.op, r.fin, s.op, s.post);
    assert Past(s, k);
  }

  // ---- every step keeps the invariant ----

  ghost function CopyKey(e: End): Key { Key(e.op, e.fin, e.part) }

  lemma CopiedPast(y: Layout, e: End)
    requires GoodEnd(y, e) && MayCopy(y, e) && e.part < y.width(e.op)
    ensures GoodEnd(y, Copied(y, e)) && IsKey(y, CopyKey(e)) && !Past(e, CopyKey(e))
    ensures forall k | IsKey(y, k) :: Past(Copied(y, e), k) <==> Past(e, k) || k == CopyKey(e)
  {
  }

  lemma SendCopyContents<V>(y: Layout, st: State<V>, v: V)
    requires Inv(y, st) && MayCopy(y, st.snd)
    ensures InBuffer(y, st, st.snd) && Contents(y, Next(y, st, SendCopy(v))) && st.snd.part < y.width(st.snd.op)
    ensures CopyKey(st.snd) !in st.got
  {
    var s := st.snd;
    assert GoodSlice(y, s.op, s.fin);
    SlotInBuffer(y, s.op, s.fin, s.part);
    CopiedPast(y, s);
    var st' := Next(y, st, SendCopy(v));
    forall k | k in st'.written && !Past(st'.rcv, k)
      ensures Slot(y, k.o, k.t, k.p) < y.n && st'.buf[Slot(y, k.o, k.t, k.p)] == st'.written[k]
    {
      if k != CopyKey(s) { NoOverwrite(y, st, k); }
    }
  }

  lemma SendCopyInv<V>(y: Layout, st: State<V>, v: V)
    requires Inv(y, st) && MayCopy(y, st.snd)
    ensures InBuffer(y, st, st.snd) && Inv(y, Next(y, st, SendCopy(v)))
  {
    SendCopyContents(y, st, v);
    CopiedPast(y, st.snd);
    assert Faithful(y, Next(y, st, SendCopy(v)));
  }

  lemma RecvCopyContents<V>(y: Layout, st: State<V>)
    requires Inv(y, st) && MayCopy(y, st.rcv)
    ensures InBuffer(y, st, st.rcv) && st.rcv.part < y.width(st.rcv.op)
    ensures Contents(y, Next(y, st, RecvCopy)) && Faithful(y, Next(y, st, RecvCopy))
  {
    ReadsWritten(y, st);
    CopiedPast(y, st.rcv);
  }

  lemma RecvCopyInv<V>(y: Layout, st: State<V>)
    requires Inv(y, st) && MayCopy(y, st.rcv)
    ensures InBuffer(y, st, st.rcv) && Inv(y, Next(y, st, RecvCopy))
  {
    RecvCopyContents(y, st);
    CopiedPast(y, st.rcv);
  }

  lemma SendPostInv<V>(y: Layout, st: State<V>)
    requires Inv(y, st) && MayPost(y, st.snd)
    ensures Inv(y, Next(y, st, SendPost))
  {
    var s := st.snd;
    assert IsSlice(y, s.op, s.post) && GoodSlice(y, s.op, s.post);
    TailAtEnd(y, s.op, s.post, s.op, s.post);
    SameSlots(y, st, Next(y, st, SendPost));
  }

  lemma RecvPostInv<V>(y: Layout, st: State<V>)
    requires Inv(y, st) && MayPost(y, st.rcv)
    ensures Inv(y, Next(y, st, RecvPost))
  {
    var r := st.rcv;
    assert IsSlice(y, r.op, r.post) && GoodSlice(y, r.op, r.post);
    SameSlots(y, st, Next(y, st, RecvPost));
  }

  lemma SameSlots<V>(y: Layout, st: State<V>, st': State<V>)
    requires Inv(y, st)
    requires st'.buf == st.buf && st'.written == st.written && st'.got == st.got
    requires forall k | IsKey(y, k) :: Past(st'.snd, k) <==> Past(st.snd, k)
    requires forall k | IsKey(y, k) :: Past(st'.rcv, k) <==> Past(st.rcv, k)
    ensures Contents(y, st') && Faithful(y, st')
  {
  }

  lemma SendNextInv<V>(y: Layout, st: State<V>)
    requires Inv(y, st) && MayNext(y, st.snd)
    ensures Inv(y, Next(y, st, SendNext))
  {
    SameSlots(y, st, Next(y, st, SendNext));
  }

  lemma RecvNextInv<V>(y: Layout, st: State<V>)
    requires Inv(y, st) && MayNext(y, st.rcv)
    ensures Inv(y, Next(y, st, RecvNext))
  {
    SameSlots(y, st, Next(y, st, RecvNext));
  }

  lemma AcquireInv<V>(y: Layout, st: State<V>, a: Action<V>)
    requires Inv(y, st) && Enabled(y, st, a) && (a.SendAcquire? || a.RecvAcquire? || a.SendPoll? || a.RecvPoll?)
    ensures Inv(y, Next(y, st, a))
  {
    if a.RecvAcquire? {
      AcquiredWasPosted(y, st);
      CountOrder(y, st.rcv.op, st.rcv.acq, st.snd.op, st.snd.post);
    }
    SameSlots(y, st, Next(y, st, a));
  }

  lemma StepInv<V>(y: Layout, st: State<V>, st': State<V>, a: Action<V>)
    requires Inv(y, st) && Takes(y, st, st', a)
    ensures Inv(y, st')
  {
    match a
    case SendCopy(v) => SendCopyInv(y, st, v);
    case RecvCopy => RecvCopyInv(y, st);
    case SendPost => SendPostInv(y, st);
    case RecvPost => RecvPostInv(y, st);
    case SendNext => SendNextInv(y, st);
    case RecvNext => RecvNextInv(y, st);
    case SendAcquire => AcquireInv(y, st, a);
    case RecvAcquire => AcquireInv(y, st, a);
    case SendPoll => AcquireInv(y, st, a);
    case RecvPoll => AcquireInv(y, st, a);
  }

  lemma InitInv<V>(y: Layout, st: State<V>)
    requires ValidLayout(y) && Init(y, st)
    ensures Inv(y, st)
  {
  }

  lemma MoveInv<V(!new)>(y: Layout, st: State<V>, st': State<V>)
    requires Inv(y, st) && Step(y, st, st')
    ensures Inv(y, st')
  {
    var a :| Takes(y, st, st', a);
    StepInv(y, st, st', a);
  }

  lemma {:induction false} RunInv<V(!new)>(y: Layout, run: seq<State<V>>, k: nat)
    requires ValidLayout(y) && IsRun(y, run) && k < |run|
    ensures Inv(y, run[k])
  {
    if k == 0 {
      InitInv(y, run[0]);
    } else {
      RunInv(y, run, k - 1);
      MoveInv(y, run[k - 1], run[k]);
    }
  }

  // ---- what the protocol guarantees ----

  /** The receiver's view refines an unbounded queue: whatever it has read at a place of the
      sequence is what the sender wrote at that place, and it has read every place up to its own. */
  lemma Fifo<V(!new)>(y: Layout, run: seq<State<V>>, i: nat, k: Key)
    requires ValidLayout(y) && IsRun(y, run) && i < |run|
    ensures k in run[i].got ==> k in run[i].written && run[i].got[k] == run[i].written[k]
    ensures IsKey(y, k) && Past(run[i].rcv, k) <==> k in run[i].got
  {
    RunInv(y, run, i);
  }

  /** In no reachable state does the sender copy into a slot outside the buffer or one whose
      contents are still to be read, nor the receiver from a slot that is not written. */
  lemma Safe<V(!new)>(y: Layout, run: seq<State<V>>, i: nat, k: Key)
    requires ValidLayout(y) && IsRun(y, run) && i < |run|
    ensures var st := run[i];
            MayCopy(y, st.snd) ==>
              && InBuffer(y, st, st.snd)
              && (k in st.written && !Past(st.rcv, k) ==>
                    Slot(y, st.snd.op, st.snd.fin, st.snd.part) != Slot(y, k.o, k.t, k.p))
    ensures var st := run[i];
            MayCopy(y, st.rcv) ==> InBuffer(y, st, st.rcv) && Key(st.rcv.op, st.rcv.fin, st.rcv.part) in st.written
  {
    RunInv(y, run, i);
    var st := run[i];
    if MayCopy(y, st.snd) {
      assert GoodSlice(y, st.snd.op, st.snd.fin);
      SlotInBuffer(y, st.snd.op, st.snd.fin, st.snd.part);
      if k in st.written && !Past(st.rcv, k) { NoOverwrite(y, st, k); }
    }
    if MayCopy(y, st.rcv) { ReadsWritten(y, st); }
  }

  /** An end can move once it has polled the peer's counter. */
  predicate CanMove<V>(y: Layout, st: State<V>) {
    || MayCopy(y, st.snd) || MayPost(y, st.snd) || MayNext(y, st.snd)
    || MayAcquire(y, st.snd.(cache := st.head), y.n)
    || MayCopy(y, st.rcv) || MayPost(y, st.rcv) || MayNext(y, st.rcv)
    || MayAcquire(y, st.rcv.(cache := st.tail), 0)
  }

  /** Until both ends have run all operations, one of them can move. */
  lemma NoDeadlock<V(!new)>(y: Layout, run: seq<State<V>>)
    requires ValidLayout(y) && IsRun(y, run)
    ensures var st := run[|run| - 1]; CanMove(y, st) || (st.snd.op == st.rcv.op == y.nops)
  {
    RunInv(y, run, |run| - 1);
    var st := run[|run| - 1];
    var s, r := st.snd, st.rcv;
    if !CanMove(y, st) {
      if r.op < y.nops {
        TailAtEnd(y, s.op, s.post, r.op, r.acq);
        CountOrder(y, r.op, r.acq, s.op, s.post);
        if s.op < y.nops {
          assert GoodSlice(y, s.op, s.post);
          CountOrder(y, s.op, s.post, r.op, r.acq);
        }
      } else if s.op < y.nops {
        CountOrder(y, s.op, s.post, r.op, r.acq);
      }
    }
  }

  // ---- nobody waits longer than necessary ----

  /** Once it has seen the tail, the receiver goes on exactly when the slice has been posted. */
  lemma RecvWaitIff<V>(y: Layout, st: State<V>)
    requires Inv(y, st) && st.rcv.op < y.nops && st.rcv.acq == st.rcv.fin < y.slices(st.rcv.op)
    requires st.rcv.cache == st.tail
    ensures MayAcquire(y, st.rcv, 0) <==> Less(st.rcv.op, st.rcv.acq, st.snd.op, st.snd.post)
  {
    TailAtEnd(y, st.snd.op, st.snd.post, st.rcv.op, st.rcv.acq);
    assert GoodSlice(y, st.rcv.op, st.rcv.acq);
  }

  /** The slices whose slots the slice at `e` uses again have all been given back by `r`. */
  ghost predicate SlotsBack(y: Layout, e: End, r: End) {
    forall o: nat, t: nat | IsSlice(y, o, t) && Less(o, t, e.op, e.acq) ::
      y.base(o, t) + y.n < y.base(e.op, e.acq) + y.width(e.op) ==> Less(o, t, r.op, r.post)
  }

  lemma NotBehind(y: Layout, o: nat, t: nat, o': nat, t': nat)
    requires ValidLayout(y) && IsSlice(y, o, t) && IsSlice(y, o', t') && y.base(o, t) < y.base(o', t')
    ensures Less(o, t, o', t')
  {
    if Less(o', t', o, t) { BaseMonotone(y, o', t', o, t); }
  }

  /** Once it has seen the head, the sender goes on exactly when the slots of its slice are free again. */
  lemma SendWaitIff<V>(y: Layout, st: State<V>)
    requires Inv(y, st) && st.snd.op < y.nops && st.snd.acq == st.snd.fin < y.slices(st.snd.op)
    requires st.snd.cache == st.head && st.rcv.op < y.nops && st.rcv.post < y.slices(st.rcv.op)
    ensures MayAcquire(y, st.snd, y.n) <==> SlotsBack(y, st.snd, st.rcv)
  {
    var s, r := st.snd, st.rcv;
    assert GoodSlice(y, s.op, s.acq);
    if MayAcquire(y, s, y.n) {
      forall o: nat, t: nat | IsSlice(y, o, t) && Less(o, t, s.op, s.acq)
        ensures y.base(o, t) + y.n < y.base(s.op, s.acq) + y.width(s.op) ==> Less(o, t, r.op, r.post)
      {
        if y.base(o, t) < y.base(r.op, r.post) { NotBehind(y, o, t, r.op, r.post); }
      }
    } else {
      NotBehind(y, r.op, r.post, s.op, s.acq);
      assert IsSlice(y, r.op, r.post) && !Less(r.op, r.post, r.op, r.post);
    }
  }
}
