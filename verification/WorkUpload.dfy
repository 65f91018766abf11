/** The host loops behind the work FIFO's steps: one round of the wait, and the upload of a plan. */
module WorkUpload {
  import opened Arith
  import opened WorkLayout
  import opened WorkFifo
  import opened WorkFifoWrap

  /** One round of polling: the least counter over the channels that still owe an acknowledgement,
      and the new counters of the quiesced ones. */
  method WaitRound(g: Cfg, sent: int, chSent0: array<int>, done: array<int>, polled: seq<int>) returns (ackd: int)
    requires chSent0.Length == done.Length == |polled| == g.chans && chSent0 != done
    modifies chSent0, done
    ensures ackd == AckdAll(g, sent, polled, old(chSent0[..]), g.chans)
    ensures forall c | 0 <= c < g.chans ::
              && chSent0[c] == (if polled[c] == old(chSent0[c]) then ackd else old(chSent0[c]))
              && done[c] == (if polled[c] == old(chSent0[c]) then ackd else old(done[c]))
  {
    ackd := sent;
    ghost var was := chSent0[..];
    for c := 0 to g.chans
      invariant ackd == AckdAll(g, sent, polled, was, c)
      invariant chSent0[..] == was && done[..] == old(done[..])
    {
      assert chSent0[c] == was[c];
      if polled[c] != chSent0[c] { ackd := RollingMin(g.wrap, ackd, polled[c]); }
    }
    for c := 0 to g.chans
      invariant forall k | 0 <= k < c ::
                  && chSent0[k] == (if polled[k] == old(chSent0[k]) then ackd else old(chSent0[k]))
                  && done[k] == (if polled[k] == old(chSent0[k]) then ackd else old(done[k]))
      invariant forall k | c <= k < g.chans :: chSent0[k] == old(chSent0[k]) && done[k] == old(done[k])
    {
      if polled[c] == chSent0[c] {
        chSent0[c] := ackd;
        done[c] := ackd;
      }
    }
  }

  ghost predicate Stored(g: Cfg, plan: Plan, head: int, heap: seq<Work>, c: nat, i: nat)
    requires g.depth > 0 && |heap| == g.depth
  {
    forall d: nat, j: nat | IsWork(plan, d, j) && (d < c || (d == c && j < i)) ::
      heap[IxAt(g, plan, head, d, j) % g.depth] == WorkAt(g, plan, head, d, j)
  }

  /** No work of the plan goes to slot `s`. */
  ghost predicate Unused(g: Cfg, plan: Plan, head: int, s: nat)
    requires g.depth > 0
  {
    forall c: nat, i: nat | IsWork(plan, c, i) :: IxAt(g, plan, head, c, i) % g.depth != s
  }

  lemma OwnSlot(g: Cfg, plan: Plan, head: int, c: nat, i: nat, d: nat, j: nat)
    requires Wrapping(g) && Total(plan) <= g.depth
    requires IsWork(plan, c, i) && IsWork(plan, d, j) && (c, i) != (d, j)
    ensures IxAt(g, plan, head, c, i) % g.depth != IxAt(g, plan, head, d, j) % g.depth
  {
    var a, b := head + Ix(plan, c, i), head + Ix(plan, d, j);
    IxInPlan(plan, c, i);
    IxInPlan(plan, d, j);
    IxInjective(plan, c, i, d, j);
    SlotOfWrapped(g, a);
    SlotOfWrapped(g, b);
    if a % g.depth == b % g.depth { ModInjective(a, b, g.depth); }
  }

  /** The works before work `i` of channel `c` are stored, and the slots no work goes to are as they were. */
  ghost predicate Uploaded(g: Cfg, plan: Plan, head: int, was: seq<Work>, heap: seq<Work>, c: nat, i: nat)
    requires g.depth > 0 && |was| == |heap| == g.depth
  {
    && Stored(g, plan, head, heap, c, i)
    && forall s: nat | s < g.depth && Unused(g, plan, head, s) :: heap[s] == was[s]
  }

  lemma StoreOne(g: Cfg, plan: Plan, head: int, was: seq<Work>, heap: seq<Work>, c: nat, i: nat)
    requires Wrapping(g) && Total(plan) <= g.depth && |was| == |heap| == g.depth && IsWork(plan, c, i)
    requires Uploaded(g, plan, head, was, heap, c, i)
    ensures var later := heap[IxAt(g, plan, head, c, i) % g.depth := WorkAt(g, plan, head, c, i)];
            Uploaded(g, plan, head, was, later, c, i + 1)
  {
    var later := heap[IxAt(g, plan, head, c, i) % g.depth := WorkAt(g, plan, head, c, i)];
    forall d: nat, j: nat | IsWork(plan, d, j) && (d < c || (d == c && j < i + 1))
      ensures later[IxAt(g, plan, head, d, j) % g.depth] == WorkAt(g, plan, head, d, j)
    {
      if (d, j) != (c, i) { OwnSlot(g, plan, head, d, j, c, i); }
    }
  }

  /** The next free counter when work `i` of channel `c` is stored. */
  ghost function FreeAt(g: Cfg, plan: Plan, head: int, c: nat, i: nat): int
    requires c <= |plan|
  {
    Wrap(g.wrap, head + Heads(plan) + Extra(plan, c) + i)
  }

  lemma QueueStep(g: Cfg, plan: Plan, head: int, c: nat, i: nat)
    requires Wrapping(g) && IsWork(plan, c, i)
    ensures i + 1 < |plan[c]| ==> IxAt(g, plan, head, c, i + 1) == FreeAt(g, plan, head, c, i)
    ensures FreeAt(g, plan, head, c, i + 1) == Wrap(g.wrap, FreeAt(g, plan, head, c, i) + 1)
    ensures i + 1 == |plan[c]| ==> FreeAt(g, plan, head, c, i) == FreeAt(g, plan, head, c + 1, 0)
    ensures WorkAt(g, plan, head, c, i) ==
            if i + 1 < |plan[c]| then Work(plan[c][i], FreeAt(g, plan, head, c, i) % g.depth - head % g.depth, false, 0)
            else Work(plan[c][i], 0, true, Wrap(g.wrap, IxAt(g, plan, head, c, i) + 1))
  {
    WrapShift(g.wrap, head + Heads(plan) + Extra(plan, c) + i, 1);
  }

  /** The upload: first works side by side from the head on, every further work at the next free
      counter, the last work of a channel carrying the counter to acknowledge. */
  method UploadWork(g: Cfg, plan: Plan, head: int, heap: array<Work>, chSent: array<int>) returns (sent: int)
    requires Wrapping(g) && 0 <= head < g.wrap && Total(plan) <= g.depth
    requires |plan| == g.chans == chSent.Length && heap.Length == g.depth
    modifies heap, chSent
    ensures sent == Wrap(g.wrap, head + Total(plan))
    ensures forall c: nat, i: nat | IsWork(plan, c, i) ::
              heap[IxAt(g, plan, head, c, i) % g.depth] == WorkAt(g, plan, head, c, i)
    ensures forall s: nat | s < g.depth && Unused(g, plan, head, s) :: heap[s] == old(heap[s])
    ensures forall c: nat | c < g.chans :: chSent[c] == ChSentAfter(g, plan, head, old(chSent[c]), c)
  {
    sent := Wrap(g.wrap, head + Heads(plan));
    var withWork := 0;
    for c := 0 to g.chans
      invariant withWork == Below(plan, c) && sent == FreeAt(g, plan, head, c, 0)
      invariant Stored(g, plan, head, heap[..], c, 0)
      invariant forall s: nat | s < g.depth && Unused(g, plan, head, s) :: heap[s] == old(heap[s])
      invariant forall d: nat | d < c :: chSent[d] == ChSentAfter(g, plan, head, old(chSent[d]), d)
      invariant forall d: nat | c <= d < g.chans :: chSent[d] == old(chSent[d])
    {
      var q := plan[c];
      var ix := Wrap(g.wrap, head + withWork);
      if q != [] { withWork := withWork + 1; }
      sent := UploadQueue(g, plan, head, heap, chSent, c, ix, sent);
    }
  }

  /** One channel's queue. */
  method UploadQueue(g: Cfg, plan: Plan, head: int, heap: array<Work>, chSent: array<int>, c: nat, ix0: int, sent0: int)
    returns (sent: int)
    requires Wrapping(g) && 0 <= head < g.wrap && Total(plan) <= g.depth
    requires |plan| == g.chans == chSent.Length && heap.Length == g.depth && c < g.chans
    requires ix0 == Wrap(g.wrap, head + Below(plan, c)) && sent0 == FreeAt(g, plan, head, c, 0)
    requires Stored(g, plan, head, heap[..], c, 0)
    modifies heap, chSent
    ensures sent == FreeAt(g, plan, head, c + 1, 0)
    ensures Stored(g, plan, head, heap[..], c + 1, 0)
    ensures forall s: nat | s < g.depth && Unused(g, plan, head, s) :: heap[s] == old(heap[s])
    ensures chSent[c] == ChSentAfter(g, plan, head, old(chSent[c]), c)
    ensures forall d: nat | d < g.chans && d != c :: chSent[d] == old(chSent[d])
  {
    var q := plan[c];
    var ix, i := ix0, 0;
    ghost var was := heap[..];
    sent := sent0;
    while i < |q|
      invariant 0 <= i <= |q|
      invariant i < |q| ==> ix == IxAt(g, plan, head, c, i) && sent == FreeAt(g, plan, head, c, i)
      invariant i == |q| ==> sent == FreeAt(g, plan, head, c + 1, 0)
      invariant Uploaded(g, plan, head, was, heap[..], c, i)
      invariant chSent[c] == (if i < |q| then old(chSent[c]) else ChSentAfter(g, plan, head, old(chSent[c]), c))
      invariant forall d: nat | d < g.chans && d != c :: chSent[d] == old(chSent[d])
    {
      QueueStep(g, plan, head, c, i);
      var work := Work(q[i], 0, false, 0);
      if i + 1 < |q| {
        work := work.(next := sent % g.depth - head % g.depth);
      } else {
        work := work.(last := true, acks := Wrap(g.wrap, ix + 1));
        chSent[c] := Wrap(g.wrap, ix + 1);
      }
      StoreOne(g, plan, head, was, heap[..], c, i);
      ghost var later := heap[..][ix % g.depth := WorkAt(g, plan, head, c, i)];
      heap[ix % g.depth] := work;
      assert heap[..] == later;
      i := i + 1;
      if i < |q| {
        ix := sent;
        sent := Wrap(g.wrap, sent + 1);
      }
    }
  }
}
