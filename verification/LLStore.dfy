/** Which lines of a slot each thread stores in one low-latency operation. */
module LLStore {
  import opened Arith
  import opened LLFifo

  /** The `k`-th line of a thread. */
  function Mine(tid: nat, threads: nat, k: nat): nat { tid + k * threads }

  lemma InLine(offset: nat, elts: nat, nelem: nat)
    requires elts > 0
    ensures offset * elts < nelem <==> offset < DivUp(nelem, elts)
  {
    var q := DivUp(nelem, elts);
    if offset < q {
      MulMono(offset, q - 1, elts);
    } else {
      MulMono(q, offset, elts);
    }
  }

  lemma MineOrder(tid: nat, threads: nat, k: nat, bound: int)
    ensures bound <= Mine(tid, threads, k) ==> forall i: nat | k <= i :: bound <= Mine(tid, threads, i)
    ensures Mine(tid, threads, k) < bound ==> forall i: nat | i <= k :: Mine(tid, threads, i) < bound
  {
    forall i: nat ensures k <= i ==> Mine(tid, threads, k) <= Mine(tid, threads, i) {
      if k <= i { MulMono(k, i, threads); }
    }
    forall i: nat ensures i <= k ==> Mine(tid, threads, i) <= Mine(tid, threads, k) {
      if i <= k { MulMono(i, k, threads); }
    }
  }

  lemma NextTrip(offset: nat, threads: nat, elts: nat)
    requires elts > 0
    ensures (offset + threads) * elts == offset * elts + threads * elts && threads <= threads * elts
  {
    MulMono(1, elts, threads);
  }

  /** The strided data loop of one thread. */
  method DataLines(tid: nat, threads: nat, nelem: nat, elts: nat) returns (data: seq<nat>)
    requires threads > 0 && elts > 0
    ensures forall k: nat :: k < |data| <==> Mine(tid, threads, k) < DivUp(nelem, elts)
    ensures forall k: nat | k < |data| :: data[k] == Mine(tid, threads, k)
  {
    var left := nelem - tid * elts;
    var offset := tid;
    data := [];
    while left > 0
      invariant offset == Mine(tid, threads, |data|) && left == nelem - offset * elts
      invariant |data| > 0 ==> Mine(tid, threads, |data| - 1) < DivUp(nelem, elts)
      invariant forall k: nat | k < |data| :: data[k] == Mine(tid, threads, k)
      decreases left
    {
      InLine(offset, elts, nelem);
      NextTrip(offset, threads, elts);
      NextTrip(|data|, 1, threads);
      data := data + [offset];
      left := left - threads * elts;
      offset := offset + threads;
    }
    InLine(offset, elts, nelem);
    MineOrder(tid, threads, |data|, DivUp(nelem, elts));
    if |data| > 0 { MineOrder(tid, threads, |data| - 1, DivUp(nelem, elts)); }
  }

  /** What one thread stores in one operation: its data lines, then its share of the clean-up. */
  method StoreLines(tid: nat, threads: nat, nelem: int, elts: nat, lines: nat, clean: bool)
    returns (data: seq<nat>, zeros: seq<nat>)
    requires threads > 0 && elts > 0
    ensures Stores(tid, threads, DivUp(Max(nelem, 0), elts), lines, clean, data, zeros)
  {
    data := DataLines(tid, threads, if nelem < 0 then 0 else nelem, elts);
    zeros := [];
    if clean {
      zeros := CleanLines(tid, threads, lines, |data|);
    }
  }

  /** The clean-up loop of one thread, from where its data loop stopped. */
  method CleanLines(tid: nat, threads: nat, lines: nat, from: nat) returns (zeros: seq<nat>)
    requires threads > 0
    ensures forall k: nat | from <= k :: k < from + |zeros| <==> Mine(tid, threads, k) < lines
    ensures forall i: nat | i < |zeros| :: zeros[i] == Mine(tid, threads, from + i)
  {
    zeros := [];
    var o := Mine(tid, threads, from);
    while o < lines
      invariant o == Mine(tid, threads, from + |zeros|)
      invariant |zeros| > 0 ==> Mine(tid, threads, from + |zeros| - 1) < lines
      invariant forall i: nat | i < |zeros| :: zeros[i] == Mine(tid, threads, from + i)
      decreases lines - o
    {
      assert (from + |zeros| + 1) * threads == (from + |zeros|) * threads + threads;
      zeros := zeros + [o];
      o := o + threads;
    }
    MineOrder(tid, threads, from + |zeros|, lines);
    if |zeros| > 0 { MineOrder(tid, threads, from + |zeros| - 1, lines); }
  }

  /** Every line belongs to exactly one thread and trip, so over all threads the lines below the
      element count are stored once each, and a cleaning step stores the whole slot. */
  lemma OneThreadPerLine(threads: nat, l: nat, tid: nat, k: nat)
    requires threads > 0 && tid < threads
    ensures Mine(tid, threads, k) == l <==> tid == l % threads && k == l / threads
  {
    assert l == threads * (l / threads) + l % threads;
    if Mine(tid, threads, k) == l { DivModUnique(l, threads, k, tid); }
  }

  /** What `StoreLines` promises of one thread, with `cnt` lines of data. */
  ghost predicate Stores(tid: nat, threads: nat, cnt: nat, lines: nat, clean: bool, data: seq<nat>, zeros: seq<nat>) {
    && (forall k: nat :: k < |data| <==> Mine(tid, threads, k) < cnt)
    && (forall k: nat | |data| <= k :: k < |data| + |zeros| <==> clean && Mine(tid, threads, k) < lines)
    && forall k: nat | k < |data| + |zeros| :: (data + zeros)[k] == Mine(tid, threads, k)
  }

  lemma ThreadStores(tid: nat, threads: nat, cnt: nat, lines: nat, clean: bool, data: seq<nat>, zeros: seq<nat>, l: nat)
    requires threads > 0 && tid < threads && Stores(tid, threads, cnt, lines, clean, data, zeros)
    ensures l in data <==> tid == l % threads && l < cnt
    ensures l in zeros <==> tid == l % threads && clean && cnt <= l < lines
  {
    var k := Quot(l, threads);
    OneThreadPerLine(threads, l, tid, k);
    if l in data {
      var i: nat :| i < |data| && data[i] == l;
      assert (data + zeros)[i] == l;
      OneThreadPerLine(threads, l, tid, i);
    }
    if l in zeros {
      var i: nat :| i < |zeros| && zeros[i] == l;
      assert (data + zeros)[|data| + i] == l;
      OneThreadPerLine(threads, l, tid, |data| + i);
    }
    if tid == l % threads && l < cnt { assert (data + zeros)[k] == l == data[k]; }
    if tid == l % threads && clean && cnt <= l < lines { assert (data + zeros)[k] == l == zeros[k - |data|]; }
  }

  /** All threads together store at step `s` exactly the halves that the protocol's writer does: data to the lines
      of the step, zeros to the rest of the slot when the step cleans, every line by one thread. */
  lemma ThreadsWriteStep(p: Params, s: nat, threads: nat, data: seq<seq<nat>>, zeros: seq<seq<nat>>, tid: nat, l: nat)
    requires ValidParams(p) && threads > 0 && |data| == |zeros| == threads && tid < threads
    requires forall t: nat | t < threads :: Stores(t, threads, p.cnt(s), p.lines, Clean(p, s), data[t], zeros[t])
    ensures l in data[tid] || l in zeros[tid] <==> tid == l % threads && Writes(p, s, 2 * l)
    ensures l in data[tid] ==> l < p.cnt(s)
    ensures l in zeros[tid] ==> p.cnt(s) <= l
    ensures Writes(p, s, 2 * l) <==> Writes(p, s, 2 * l + 1)
  {
    ThreadStores(tid, threads, p.cnt(s), p.lines, Clean(p, s), data[tid], zeros[tid], l);
  }
}
