/** Handing a plan's proxy operations to the proxy: the channels' queues are merged by operation count,
    collectives first, and the counts are moved to the end of the communicator's history. */
module ProxyMerge {
  const TOP: nat := 0x8000_0000_0000_0000
  const NONE: nat := 0xffff_ffff_ffff_ffff

  /** An operation count within a plan: twice the number, plus one for point-to-point. */
  type Id = x: nat | x < 0xffff_ffff_ffff_ffff

  /** The count rotated right by one bit, which orders collectives before point-to-point. */
  function Key(id: nat): nat { id / 2 + id % 2 * TOP }

  /** On 64-bit words the rotation is this sum. */
  lemma RotationIsKey(id: bv64)
    ensures (id >> 1) | (id << 63) == id / 2 + id % 2 * 0x8000_0000_0000_0000
  {
  }

  lemma KeyOrder(a: Id, b: Id)
    ensures Key(a) < NONE
    ensures Key(a) < Key(b) <==> a % 2 < b % 2 || (a % 2 == b % 2 && a < b)
    ensures Key(a) == Key(b) <==> a == b
  {
  }

  /** What is handed on: the channel, the count within the plan, the count in the history. */
  datatype Out = Out(chan: nat, id: Id, count: nat)

  /** The operations of one channel in the output. */
  ghost function Of(out: seq<Out>, c: nat): seq<Id> {
    if out == [] then []
    else
      var last := out[|out| - 1];
      Of(out[..|out| - 1], c) + (if last.chan == c then [last.id] else [])
  }

  predicate Sorted(q: seq<Id>) { forall i, j | 0 <= i < j < |q| :: Key(q[i]) <= Key(q[j]) }

  predicate SortedOut(out: seq<Out>) { forall i, j | 0 <= i < j < |out| :: Key(out[i].id) <= Key(out[j].id) }

  function Translated(collBase: nat, p2pBase: nat, id: Id): nat {
    if id % 2 == 1 then 2 * p2pBase + id else 2 * collBase + id
  }

  /** Translation keeps the kind and moves the number to the end of its history. */
  ghost predicate Moved(collBase: nat, p2pBase: nat, id: Id, count: nat) {
    count % 2 == id % 2 && count / 2 == id / 2 + if id % 2 == 1 then p2pBase else collBase
  }

  lemma TranslatedMoves(collBase: nat, p2pBase: nat, id: Id)
    ensures Moved(collBase, p2pBase, id, Translated(collBase, p2pBase, id))
  {
  }

  /** `b` is one past the last point-to-point number of the queue, 0 if there is none. */
  ghost predicate PastLast(q: seq<Id>, b: nat) {
    if b == 0 then forall i | 0 <= i < |q| :: q[i] % 2 == 0 else exists i :: LastAt(q, i, b)
  }

  ghost predicate LastAt(q: seq<Id>, i: int, b: nat) {
    0 <= i < |q| && q[i] % 2 == 1 && q[i] / 2 + 1 == b && forall j | i < j < |q| :: q[j] % 2 == 0
  }

  lemma LastBefore(p: seq<Id>, b: nat)
    requires p != [] && p[|p| - 1] % 2 == 0
    ensures PastLast(p, b) <==> PastLast(p[..|p| - 1], b)
  {
    var r := p[..|p| - 1];
    if b == 0 {
      if PastLast(r, b) {
        forall i | 0 <= i < |p| ensures p[i] % 2 == 0 { if i < |r| { assert r[i] == p[i]; } }
      }
    } else {
      forall i ensures LastAt(p, i, b) <==> LastAt(r, i, b) {
        if LastAt(r, i, b) {
          forall j | i < j < |p| ensures p[j] % 2 == 0 { if j < |r| { assert r[j] == p[j]; } }
        }
      }
    }
  }

  lemma {:induction false} BumpIsLast(q: seq<Id>, n: nat, b: nat)
    requires n <= |q|
    ensures PastLast(q[..n], b) <==> b == Bump(q, n)
    decreases n
  {
    var p := q[..n];
    if n > 0 {
      assert p[n - 1] == q[n - 1];
      if q[n - 1] % 2 == 1 {
        assert LastAt(p, n - 1, q[n - 1] / 2 + 1);
        assert forall i | LastAt(p, i, b) :: i == n - 1;
      } else {
        BumpIsLast(q, n - 1, b);
        LastBefore(p, b);
        assert p[..n - 1] == q[..n - 1];
      }
    }
  }

  /** One more than the largest point-to-point number of a channel's first `n` operations, when these
      numbers do not fall. */
  function Bump(q: seq<Id>, n: nat): nat
    requires n <= |q|
  {
    if n == 0 then 0 else if q[n - 1] % 2 == 1 then q[n - 1] / 2 + 1 else Bump(q, n - 1)
  }

  function HeadId(q: seq<Id>, at: nat): nat { if at < |q| then q[at] else NONE }

  ghost predicate InQueues(queues: seq<seq<Id>>, at: seq<nat>) {
    |at| == |queues| && forall c | 0 <= c < |at| :: at[c] <= |queues[c]|
  }

  ghost predicate Exhausted(queues: seq<seq<Id>>, at: seq<nat>)
    requires InQueues(queues, at)
  {
    forall c | 0 <= c < |at| :: at[c] == |queues[c]|
  }

  /** The head of `m` comes before every other head. */
  ghost predicate Least(queues: seq<seq<Id>>, at: seq<nat>, m: nat)
    requires InQueues(queues, at)
  {
    && m < |at| && at[m] < |queues[m]|
    && forall c | 0 <= c < |at| && at[c] < |queues[c]| :: Key(queues[m][at[m]]) <= Key(queues[c][at[c]])
  }

  /** The number of the first `n` channels that still have operations. */
  function Heads(queues: seq<seq<Id>>, at: seq<nat>, n: nat): (h: nat)
    requires |at| == |queues| && n <= |at|
  {
    if n == 0 then 0 else Heads(queues, at, n - 1) + if at[n - 1] < |queues[n - 1]| then 1 else 0
  }

  lemma {:induction false} NoHeads(queues: seq<seq<Id>>, at: seq<nat>, n: nat)
    requires InQueues(queues, at) && n <= |at|
    ensures Heads(queues, at, n) == 0 <==> forall c | 0 <= c < n :: at[c] == |queues[c]|
  {
    if n > 0 { NoHeads(queues, at, n - 1); }
  }

  lemma {:induction false} HeadsAfter(queues: seq<seq<Id>>, at: seq<nat>, m: nat, n: nat)
    requires InQueues(queues, at) && m < |at| && at[m] < |queues[m]| && n <= |at|
    ensures Heads(queues, at[m := at[m] + 1], n)
            == Heads(queues, at, n) - if m < n && at[m] + 1 == |queues[m]| then 1 else 0
  {
    if n > 0 { HeadsAfter(queues, at, m, n - 1); }
  }

  /** The search for the smallest head; it always finds one while any channel has operations, and a
      channel without operations never wins. */
  method MinHead(queues: seq<seq<Id>>, at: seq<nat>) returns (minChan: nat)
    requires InQueues(queues, at) && !Exhausted(queues, at)
    ensures Least(queues, at, minChan)
    ensures forall c | 0 <= c < minChan && at[c] < |queues[c]| ::
              Key(queues[minChan][at[minChan]]) < Key(queues[c][at[c]])
  {
    var best := -1;
    var minKey := NONE;
    for c := 0 to |at|
      invariant -1 <= best < c
      invariant best == -1 ==> minKey == NONE && forall d | 0 <= d < c :: at[d] == |queues[d]|
      invariant best >= 0 ==> at[best] < |queues[best]| && minKey == Key(queues[best][at[best]])
                              && forall d | 0 <= d < c && at[d] < |queues[d]| ::
                                   minKey <= Key(queues[d][at[d]]) && (d < best ==> minKey < Key(queues[d][at[d]]))
    {
      var key := Key(HeadId(queues[c], at[c]));
      if at[c] < |queues[c]| { KeyOrder(queues[c][at[c]], queues[c][at[c]]); } else { assert key == NONE; }
      if best >= 0 { KeyOrder(queues[best][at[best]], queues[best][at[best]]); }
      if key < minKey { best, minKey := c, key; }
    }
    minChan := best;
  }

  /** What has been merged so far: a prefix of every queue, in order, with translated counts. */
  ghost predicate Merged(queues: seq<seq<Id>>, at: seq<nat>, collBase: nat, p2pBase: seq<nat>, out: seq<Out>)
    requires InQueues(queues, at) && |p2pBase| == |queues|
  {
    && (forall c: nat | c < |queues| :: Of(out, c) == queues[c][..at[c]])
    && forall i | 0 <= i < |out| ::
         out[i].chan < |queues| && out[i].count == Translated(collBase, p2pBase[out[i].chan], out[i].id)
  }

  ghost predicate AllSorted(queues: seq<seq<Id>>) { forall c | 0 <= c < |queues| :: Sorted(queues[c]) }

  /** The output is sorted and nothing still queued belongs before it. */
  ghost predicate Ordered(queues: seq<seq<Id>>, at: seq<nat>, out: seq<Out>)
    requires InQueues(queues, at)
  {
    && SortedOut(out)
    && forall i, c | 0 <= i < |out| && 0 <= c < |queues| && at[c] < |queues[c]| ::
         Key(out[i].id) <= Key(queues[c][at[c]])
  }

  lemma OfAppend(out: seq<Out>, o: Out, c: nat)
    ensures Of(out + [o], c) == Of(out, c) + (if o.chan == c then [o.id] else [])
  {
    assert (out + [o])[..|out|] == out;
  }

  lemma TakeMerged(queues: seq<seq<Id>>, at: seq<nat>, collBase: nat, p2pBase: seq<nat>, out: seq<Out>, m: nat)
    requires InQueues(queues, at) && |p2pBase| == |queues| && Merged(queues, at, collBase, p2pBase, out)
    requires m < |at| && at[m] < |queues[m]|
    ensures var id := queues[m][at[m]];
            InQueues(queues, at[m := at[m] + 1])
            && Merged(queues, at[m := at[m] + 1], collBase, p2pBase,
                      out + [Out(m, id, Translated(collBase, p2pBase[m], id))])
  {
    var id := queues[m][at[m]];
    var o, at' := Out(m, id, Translated(collBase, p2pBase[m], id)), at[m := at[m] + 1];
    forall c: nat | c < |queues| ensures Of(out + [o], c) == queues[c][..at'[c]] {
      OfAppend(out, o, c);
      if c == m { assert queues[c][..at[c] + 1] == queues[c][..at[c]] + [id]; }
    }
  }

  lemma TakeOrdered(queues: seq<seq<Id>>, at: seq<nat>, out: seq<Out>, m: nat, count: nat)
    requires InQueues(queues, at) && AllSorted(queues) && Ordered(queues, at, out) && Least(queues, at, m)
    ensures InQueues(queues, at[m := at[m] + 1])
    ensures Ordered(queues, at[m := at[m] + 1], out + [Out(m, queues[m][at[m]], count)])
  {
    var at', o := at[m := at[m] + 1], Out(m, queues[m][at[m]], count);
    forall i, c | 0 <= i < |out + [o]| && 0 <= c < |queues| && at'[c] < |queues[c]|
      ensures Key((out + [o])[i].id) <= Key(queues[c][at'[c]])
    {
      if c == m {
        assert Sorted(queues[c]);
        assert Key(queues[c][at[c]]) <= Key(queues[c][at'[c]]);
      }
    }
  }

  ghost function Rest(queues: seq<seq<Id>>, at: seq<nat>, n: nat): (r: nat)
    requires InQueues(queues, at) && n <= |at|
  {
    if n == 0 then 0 else Rest(queues, at, n - 1) + (|queues[n - 1]| - at[n - 1])
  }

  lemma {:induction false} RestFalls(queues: seq<seq<Id>>, at: seq<nat>, m: nat, n: nat)
    requires InQueues(queues, at) && m < |at| && at[m] < |queues[m]| && n <= |at|
    ensures InQueues(queues, at[m := at[m] + 1])
    ensures Rest(queues, at[m := at[m] + 1], n) == Rest(queues, at, n) - if m < n then 1 else 0
  {
    if n > 0 { RestFalls(queues, at, m, n - 1); }
  }

  /** The point-to-point counts passed so far on each channel. */
  ghost predicate Bumped(queues: seq<seq<Id>>, at: seq<nat>, bump: seq<nat>)
    requires InQueues(queues, at)
  {
    |bump| == |queues| && forall c | 0 <= c < |queues| :: bump[c] == Bump(queues[c], at[c])
  }

  ghost predicate Step(queues: seq<seq<Id>>, collBase: nat, p2pBase: seq<nat>, at: seq<nat>, out: seq<Out>,
                       bump: seq<nat>)
  {
    && InQueues(queues, at) && |p2pBase| == |queues| && Merged(queues, at, collBase, p2pBase, out)
    && Bumped(queues, at, bump) && (AllSorted(queues) ==> Ordered(queues, at, out))
  }

  lemma TakeBumped(queues: seq<seq<Id>>, at: seq<nat>, bump: seq<nat>, m: nat)
    requires InQueues(queues, at) && Bumped(queues, at, bump) && m < |at| && at[m] < |queues[m]|
    ensures InQueues(queues, at[m := at[m] + 1])
    ensures var id := queues[m][at[m]];
            Bumped(queues, at[m := at[m] + 1], if id % 2 == 1 then bump[m := id / 2 + 1] else bump)
  {
  }

  lemma StepKeeps(queues: seq<seq<Id>>, collBase: nat, p2pBase: seq<nat>, at: seq<nat>, out: seq<Out>, bump: seq<nat>,
                  m: nat)
    requires Step(queues, collBase, p2pBase, at, out, bump) && Least(queues, at, m)
    ensures var id := queues[m][at[m]];
            Step(queues, collBase, p2pBase, at[m := at[m] + 1],
                 out + [Out(m, id, Translated(collBase, p2pBase[m], id))],
                 if id % 2 == 1 then bump[m := id / 2 + 1] else bump)
  {
    var id := queues[m][at[m]];
    TakeMerged(queues, at, collBase, p2pBase, out, m);
    TakeBumped(queues, at, bump, m);
    if AllSorted(queues) { TakeOrdered(queues, at, out, m, Translated(collBase, p2pBase[m], id)); }
  }

  lemma TakeCounts(queues: seq<seq<Id>>, at: seq<nat>, m: nat)
    requires InQueues(queues, at) && m < |at| == |queues| && at[m] < |queues[m]|
    ensures var at' := at[m := at[m] + 1];
            && InQueues(queues, at') && Rest(queues, at', |queues|) < Rest(queues, at, |queues|)
            && Heads(queues, at', |queues|) == Heads(queues, at, |queues|) - if at'[m] == |queues[m]| then 1 else 0
  {
    RestFalls(queues, at, m, |queues|);
    HeadsAfter(queues, at, m, |queues|);
  }

  lemma StepDone(queues: seq<seq<Id>>, collBase: nat, p2pBase: seq<nat>, at: seq<nat>, out: seq<Out>, bump: seq<nat>)
    requires Step(queues, collBase, p2pBase, at, out, bump) && Exhausted(queues, at)
    ensures Handed(queues, collBase, p2pBase, out, bump)
  {
    forall c: nat | c < |queues| ensures Of(out, c) == queues[c] && PastLast(queues[c], bump[c]) {
      assert queues[c][..at[c]] == queues[c];
      BumpIsLast(queues[c], at[c], bump[c]);
    }
    forall i | 0 <= i < |out| ensures Moved(collBase, p2pBase[out[i].chan], out[i].id, out[i].count) {
      TranslatedMoves(collBase, p2pBase[out[i].chan], out[i].id);
    }
  }

  /** A plan handed over: every channel's operations once and in their order, counts moved to the
      history, the whole sorted when every queue is, and the counts each channel used up. */
  ghost predicate Handed(queues: seq<seq<Id>>, collBase: nat, p2pBase: seq<nat>, out: seq<Out>, bump: seq<nat>)
    requires |p2pBase| == |queues|
  {
    && (forall c: nat | c < |queues| :: Of(out, c) == queues[c])
    && (forall i | 0 <= i < |out| ::
          out[i].chan < |queues| && Moved(collBase, p2pBase[out[i].chan], out[i].id, out[i].count))
    && (AllSorted(queues) ==> SortedOut(out))
    && |bump| == |queues| && (forall c | 0 <= c < |queues| :: PastLast(queues[c], bump[c]))
  }

  /** The merge over the channels' queues. */
  method MergeOps(queues: seq<seq<Id>>, collBase: nat, p2pBase: seq<nat>) returns (out: seq<Out>, bump: seq<nat>)
    requires |p2pBase| == |queues|
    ensures Handed(queues, collBase, p2pBase, out, bump)
  {
    var at: seq<nat> := seq(|queues|, c => 0);
    bump, out := seq(|queues|, c => 0), [];
    var nHeads := Heads(queues, at, |queues|);
    while nHeads != 0
      invariant Step(queues, collBase, p2pBase, at, out, bump)
      invariant nHeads == Heads(queues, at, |queues|)
      decreases Rest(queues, at, |queues|)
    {
      NoHeads(queues, at, |queues|);
      var m := MinHead(queues, at);
      var id := queues[m][at[m]];
      StepKeeps(queues, collBase, p2pBase, at, out, bump, m);
      TakeCounts(queues, at, m);
      if id % 2 == 1 { bump := bump[m := id / 2 + 1]; }
      out := out + [Out(m, id, Translated(collBase, p2pBase[m], id))];
      at := at[m := at[m] + 1];
      if at[m] == |queues[m]| { nHeads := nHeads - 1; }
    }
    NoHeads(queues, at, |queues|);
    StepDone(queues, collBase, p2pBase, at, out, bump);
  }

  // Building a plan's queues.

  const INT_MAX: nat := 0x7fff_ffff

  /** A plan under construction: its collectives so far, each channel's work count and queue, and
      whether point-to-point work has begun. */
  datatype Build = Build(colls: nat, works: seq<nat>, queues: seq<seq<Id>>, p2p: bool)

  /** A collective goes to the proxy on the channels `needs`; a point-to-point operation joins the last
      work of its channel or opens one. */
  datatype Add = Coll(needs: seq<bool>, works: seq<nat>) | P2p(c: nat, opens: bool, needed: bool)

  ghost predicate Shaped(b: Build) {
    |b.works| == |b.queues| && b.colls <= INT_MAX && forall c | 0 <= c < |b.works| :: b.works[c] <= INT_MAX
  }

  ghost predicate BuildNext(b: Build, a: Add, b': Build)
    requires Shaped(b)
  {
    && Shaped(b') && |b'.queues| == |b.queues|
    && match a {
         case Coll(needs, works) =>
           && !b.p2p && !b'.p2p && b'.colls == b.colls + 1 && |needs| == |works| == |b.works| && b'.works == works
           && (forall c | 0 <= c < |works| :: works[c] >= b.works[c])
           && forall c | 0 <= c < |needs| :: b'.queues[c] == b.queues[c] + if needs[c] then [2 * b.colls] else []
         case P2p(c, opens, needed) =>
           && c < |b.works| && (opens || b.works[c] > 0) && b'.p2p && b'.colls == b.colls
           && b'.works == b.works[c := b.works[c] + if opens then 1 else 0]
           && b'.queues == b.queues[c := b.queues[c] + if needed then [2 * b'.works[c] + 1] else []]
       }
  }

  /** A channel's queue: sorted, its collectives numbered within the plan, its point-to-point operations
      within the channel's works. */
  ghost predicate QueueOk(q: seq<Id>, colls: nat, works: nat, p2p: bool) {
    && Sorted(q)
    && forall i | 0 <= i < |q| :: if q[i] % 2 == 1 then p2p && q[i] / 2 <= works else q[i] / 2 < colls
  }

  ghost predicate BuildInv(b: Build) {
    Shaped(b) && forall c | 0 <= c < |b.queues| :: QueueOk(b.queues[c], b.colls, b.works[c], b.p2p)
  }

  lemma CollAppends(q: seq<Id>, colls: nat, works: nat, works': nat, needed: bool)
    requires QueueOk(q, colls, works, false) && works <= works' && colls < INT_MAX
    ensures QueueOk(q + if needed then [2 * colls] else [], colls + 1, works', false)
  {
    if needed {
      var q' := q + [2 * colls];
      forall i, j | 0 <= i < j < |q'| ensures Key(q'[i]) <= Key(q'[j]) { KeyOrder(q'[i], q'[j]); }
    }
  }

  lemma P2pAppends(q: seq<Id>, colls: nat, works: nat, works': nat, p2p: bool, needed: bool)
    requires QueueOk(q, colls, works, p2p) && works <= works' <= INT_MAX
    ensures QueueOk(q + if needed then [2 * works' + 1] else [], colls, works', true)
  {
    if needed {
      var q' := q + [2 * works' + 1];
      forall i, j | 0 <= i < j < |q'| ensures Key(q'[i]) <= Key(q'[j]) { KeyOrder(q'[i], q'[j]); }
    }
  }

  lemma BuildKeeps(b: Build, a: Add, b': Build)
    requires BuildInv(b) && BuildNext(b, a, b')
    ensures BuildInv(b')
  {
    forall c | 0 <= c < |b'.queues| ensures QueueOk(b'.queues[c], b'.colls, b'.works[c], b'.p2p) {
      match a {
        case Coll(needs, works) => CollAppends(b.queues[c], b.colls, b.works[c], works[c], needs[c]);
        case P2p(d, _, needed) => P2pAppends(b.queues[c], b.colls, b.works[c], b'.works[c], b.p2p, d == c && needed);
      }
    }
  }

  ghost predicate Built(bs: seq<Build>, adds: seq<Add>) {
    && |bs| == |adds| + 1 && bs[0].colls == 0 && !bs[0].p2p && Shaped(bs[0])
    && (forall c | 0 <= c < |bs[0].queues| :: bs[0].queues[c] == [] && bs[0].works[c] == 0)
    && forall i | 0 <= i < |adds| :: Shaped(bs[i]) && BuildNext(bs[i], adds[i], bs[i + 1])
  }

  /** However a plan is built, its queues are sorted and their numbers stay within the plan. */
  lemma {:induction false} BuiltOk(bs: seq<Build>, adds: seq<Add>, k: nat)
    requires Built(bs, adds) && k < |bs|
    ensures BuildInv(bs[k]) && AllSorted(bs[k].queues)
  {
    if k > 0 {
      BuiltOk(bs, adds, k - 1);
      BuildKeeps(bs[k - 1], adds[k - 1], bs[k]);
    }
  }

  /** Add `k` opens a work on channel `c`. */
  ghost predicate Opens(a: Add, c: nat) { a.P2p? && a.c == c && a.opens }

  lemma {:induction false} WorksGrow(bs: seq<Build>, adds: seq<Add>, i: nat, j: nat, c: nat)
    requires Built(bs, adds) && i <= j < |bs| && bs[i].p2p && c < |bs[i].works|
    ensures bs[j].p2p && |bs[j].works| == |bs[i].works| && bs[i].works[c] <= bs[j].works[c]
    ensures bs[i].works[c] == bs[j].works[c] <==> forall k | i <= k < j :: !Opens(adds[k], c)
    decreases j
  {
    if i < j {
      WorksGrow(bs, adds, i, j - 1, c);
      assert BuildNext(bs[j - 1], adds[j - 1], bs[j]);
    }
  }

  /** The count the last operation of channel `c` has. */
  ghost function LastOn(b: Build, c: nat): int {
    if c < |b.queues| && b.queues[c] != [] then b.queues[c][|b.queues[c]| - 1] else -1
  }

  lemma P2pCount(bs: seq<Build>, adds: seq<Add>, i: nat)
    requires Built(bs, adds) && i < |adds| && adds[i].P2p? && adds[i].needed
    ensures bs[i + 1].p2p && adds[i].c < |bs[i + 1].works|
    ensures LastOn(bs[i + 1], adds[i].c) == 2 * bs[i + 1].works[adds[i].c] + 1
  {
    assert BuildNext(bs[i], adds[i], bs[i + 1]);
  }

  /** Two point-to-point operations of a channel get the same count exactly when they are in the same work, that is
      when none of those from the second one back to the first opened a work. */
  lemma SameWorkSameCount(bs: seq<Build>, adds: seq<Add>, i: nat, j: nat)
    requires Built(bs, adds) && i < j < |adds| && adds[i].P2p? && adds[j].P2p? && adds[i].needed && adds[j].needed
    requires adds[i].c == adds[j].c
    ensures LastOn(bs[i + 1], adds[i].c) == LastOn(bs[j + 1], adds[i].c)
            <==> forall k | i < k <= j :: !Opens(adds[k], adds[i].c)
  {
    P2pCount(bs, adds, i);
    P2pCount(bs, adds, j);
    WorksGrow(bs, adds, i + 1, j + 1, adds[i].c);
  }

  lemma {:induction false} CollsCount(bs: seq<Build>, adds: seq<Add>, i: nat)
    requires Built(bs, adds) && i < |bs| && !bs[i].p2p
    ensures bs[i].colls == i
  {
    if i > 0 {
      assert BuildNext(bs[i - 1], adds[i - 1], bs[i]);
      CollsCount(bs, adds, i - 1);
    }
  }

  /** Collectives are numbered in the order they are added, the same number on all channels they need. */
  lemma CollsNumbered(bs: seq<Build>, adds: seq<Add>, i: nat, c: nat)
    requires Built(bs, adds) && i < |adds| && adds[i].Coll? && c < |adds[i].needs| && adds[i].needs[c]
    ensures LastOn(bs[i + 1], c) == 2 * i
  {
    assert BuildNext(bs[i], adds[i], bs[i + 1]);
    CollsCount(bs, adds, i);
  }

  // The communicator's counts over many plans.

  datatype Counts = Counts(coll: nat, p2p: seq<nat>)

  function After(k: Counts, b: Build): (k': Counts)
    requires |b.queues| <= |k.p2p|
    ensures |k'.p2p| == |k.p2p|
  {
    Counts(k.coll + b.colls,
           seq(|k.p2p|, c requires 0 <= c < |k.p2p| =>
                 k.p2p[c] + if c < |b.queues| then Bump(b.queues[c], |b.queues[c]|) else 0))
  }

  /** The counts moved on by the collectives of a plan and by what its channels used up. */
  ghost predicate Advanced(k: Counts, colls: nat, bump: seq<nat>, k': Counts) {
    && k'.coll == k.coll + colls && |k'.p2p| == |k.p2p|
    && forall c | 0 <= c < |k.p2p| :: k'.p2p[c] == k.p2p[c] + if c < |bump| then bump[c] else 0
  }

  class SharedCounts {
    var coll: nat
    var p2p: seq<nat>

    ghost function Value(): Counts reads this { Counts(coll, p2p) }

    /** Handing a finished plan to the proxy. */
    method UploadProxyOps(b: Build) returns (out: seq<Out>)
      requires |b.queues| <= |p2p|
      modifies this
      ensures exists bump :: Handed(b.queues, old(coll), old(p2p[..|b.queues|]), out, bump)
                             && Advanced(old(Value()), b.colls, bump, Value())
      ensures Value() == After(old(Value()), b)
    {
      var bump;
      out, bump := MergeOps(b.queues, coll, p2p[..|b.queues|]);
      forall c: nat | c < |b.queues| ensures bump[c] == Bump(b.queues[c], |b.queues[c]|) {
        assert b.queues[c][..|b.queues[c]|] == b.queues[c];
        BumpIsLast(b.queues[c], |b.queues[c]|, bump[c]);
      }
      coll := coll + b.colls;
      for c := 0 to |b.queues|
        invariant |p2p| == |old(p2p)| && coll == old(coll) + b.colls
        invariant forall d | 0 <= d < |p2p| :: p2p[d] == old(p2p)[d] + if d < c then bump[d] else 0
      {
        p2p := p2p[c := p2p[c] + bump[c]];
      }
    }
  }

  ghost predicate Fit(k: Counts, plans: seq<Build>) { forall p | 0 <= p < |plans| :: |plans[p].queues| <= |k.p2p| }

  /** The counts before the i-th of a sequence of plans. */
  ghost function Before(k: Counts, plans: seq<Build>, i: nat): (k': Counts)
    requires i <= |plans| && Fit(k, plans)
    ensures |k'.p2p| == |k.p2p|
  {
    if i == 0 then k else After(Before(k, plans, i - 1), plans[i - 1])
  }

  /** The counts `k'` lie past the operation `a` of a plan that started at `k`. */
  ghost predicate Past(k: Counts, k': Counts, c: nat, a: Id)
    requires c < |k.p2p| && c < |k'.p2p|
  {
    if a % 2 == 1 then k.p2p[c] + a / 2 < k'.p2p[c] else k.coll + a / 2 < k'.coll
  }

  ghost predicate NotAfter(k: Counts, k': Counts, c: nat)
    requires c < |k.p2p| && c < |k'.p2p|
  {
    k.coll <= k'.coll && k.p2p[c] <= k'.p2p[c]
  }

  lemma {:induction false} CountsGrow(k: Counts, plans: seq<Build>, i: nat, j: nat, c: nat)
    requires Fit(k, plans) && i <= j <= |plans| && c < |k.p2p|
    ensures NotAfter(Before(k, plans, i), Before(k, plans, j), c)
    decreases j
  {
    if i < j { CountsGrow(k, plans, i, j - 1, c); }
  }

  /** The bump passes every point-to-point number of the queue. */
  lemma BumpPasses(q: seq<Id>, n: nat, x: nat)
    requires Sorted(q) && x < n <= |q| && q[x] % 2 == 1
    ensures q[x] / 2 < Bump(q, n)
  {
    if x < n - 1 { KeyOrder(q[n - 1], q[x]); }
  }

  /** A plan moves both counts past every operation of its queues. */
  lemma PlanPasses(k: Counts, b: Build, c: nat, x: nat)
    requires BuildInv(b) && c < |b.queues| <= |k.p2p| && x < |b.queues[c]|
    ensures Past(k, After(k, b), c, b.queues[c][x])
  {
    var q := b.queues[c];
    assert QueueOk(q, b.colls, b.works[c], b.p2p);
    if q[x] % 2 == 1 { BumpPasses(q, |q|, x); }
  }

  /** Counts of one kind grow from the earlier to the later, and the two kinds never meet. */
  ghost predicate Apart(k: Counts, k': Counts, c: nat, a: Id, b: Id)
    requires c < |k.p2p| && c < |k'.p2p|
  {
    var early, late := Translated(k.coll, k.p2p[c], a), Translated(k'.coll, k'.p2p[c], b);
    early != late && (a % 2 == b % 2 ==> early < late)
  }

  lemma TranslatedApart(k: Counts, k': Counts, c: nat, a: Id, b: Id)
    requires c < |k.p2p| && c < |k'.p2p| && Past(k, k', c, a)
    ensures Apart(k, k', c, a, b)
  {
  }

  lemma StaysPast(k: Counts, k': Counts, k'': Counts, c: nat, a: Id)
    requires c < |k.p2p| == |k'.p2p| == |k''.p2p| && Past(k, k', c, a) && NotAfter(k', k'', c)
    ensures Past(k, k'', c, a)
  {
  }

  lemma LaterIsPast(k: Counts, plans: seq<Build>, i: nat, j: nat, c: nat, x: nat)
    requires Fit(k, plans) && i < j < |plans| && c < |plans[i].queues| && x < |plans[i].queues[c]| && BuildInv(plans[i])
    ensures c < |k.p2p| && Past(Before(k, plans, i), Before(k, plans, j), c, plans[i].queues[c][x])
  {
    var ki, kn, kj := Before(k, plans, i), Before(k, plans, i + 1), Before(k, plans, j);
    PlanPasses(ki, plans[i], c, x);
    CountsGrow(k, plans, i + 1, j, c);
    StaysPast(ki, kn, kj, c, plans[i].queues[c][x]);
  }

  /** On one channel a later plan's count is never an earlier plan's. */
  lemma NoCollision(k: Counts, plans: seq<Build>, i: nat, j: nat, c: nat, x: nat, y: nat)
    requires Fit(k, plans) && i < j < |plans| && c < |plans[i].queues| && c < |plans[j].queues|
    requires x < |plans[i].queues[c]| && y < |plans[j].queues[c]| && BuildInv(plans[i])
    ensures c < |k.p2p|
    ensures Apart(Before(k, plans, i), Before(k, plans, j), c, plans[i].queues[c][x], plans[j].queues[c][y])
  {
    LaterIsPast(k, plans, i, j, c, x);
    TranslatedApart(Before(k, plans, i), Before(k, plans, j), c, plans[i].queues[c][x], plans[j].queues[c][y]);
  }

  /** Within a plan the translated counts of a channel never fall, collectives and point-to-point apart. */
  lemma OrderKept(collBase: nat, p2pBase: nat, q: seq<Id>, x: nat, y: nat)
    requires Sorted(q) && x < y < |q| && q[x] % 2 == q[y] % 2
    ensures Translated(collBase, p2pBase, q[x]) <= Translated(collBase, p2pBase, q[y])
  {
    KeyOrder(q[y], q[x]);
  }
}
