/** How point-to-point tasks are cut into chunks, possibly over several plans. */
module P2pChunks {
  import opened Arith

  // Chunk sizes.

  /** Bitwise and of two naturals. */
  function And(x: nat, y: nat): (r: nat)
    ensures r <= y
  {
    if x == 0 || y == 0 then 0 else 2 * And(x / 2, y / 2) + (x % 2) * (y % 2)
  }

  /** `(x + a - 1) & -a`: what is cleared are the bits of `a - 1`, and for `a` 0 all of them. */
  function AlignUp(x: nat, a: nat): (r: nat)
    ensures if a > 0 then x <= r <= x + a - 1 else r == 0
  {
    if a == 0 then 0 else x + a - 1 - And(x + a - 1, a - 1)
  }

  lemma ModDouble(x: nat, p: nat)
    requires p > 0
    ensures x % (2 * p) == 2 * ((x / 2) % p) + x % 2
  {
    var h, q, r := x / 2, x / 2 / p, (x / 2) % p;
    assert h == p * q + r;
    DivModUnique(x, 2 * p, q, 2 * r + x % 2);
  }

  lemma {:induction false} AndIsMod(x: nat, k: nat)
    ensures And(x, Pow2(k) - 1) == x % Pow2(k)
  {
    if k == 0 {
      DivModUnique(x, 1, x, 0);
    } else {
      var p := Pow2(k - 1);
      AndIsMod(x / 2, k - 1);
      ModDouble(x, p);
      assert (2 * p - 1) / 2 == p - 1 && (2 * p - 1) % 2 == 1;
      if x == 0 { ModDouble(0, p); }
    }
  }

  /** For a power of two this rounds up to the next multiple. */
  lemma AlignUpRounds(x: nat, k: nat)
    ensures AlignUp(x, Pow2(k)) == RoundUp(x, Pow2(k))
  {
    AndIsMod(x + Pow2(k) - 1, k);
    ClearedIsMod(x, Pow2(k));
  }

  lemma ClearedIsMod(x: nat, a: nat)
    requires a > 0 && And(x + a - 1, a - 1) == (x + a - 1) % a
    ensures AlignUp(x, a) == RoundUp(x, a)
  {
  }

  /** The size tried after `k` doublings of the channels. */
  function SizeFor(total: nat, minChannels: nat, minSize: nat, k: nat): nat
    requires minChannels > 0
  {
    MulMono(1, Pow2(k), minChannels);
    if k == 0 then Max(minSize, DivUp(total, minChannels)) else DivUp(total, minChannels * Pow2(k))
  }

  /** The channels are doubled `k` times: as often as it takes for the chunks to be small enough, but not beyond
      the channels there are; the size is then rounded up to the minimal one. */
  ghost predicate Picks(total: nat, minChannels: nat, maxChannels: nat, minSize: nat, maxSize: nat, k: nat, chunk: nat)
    requires minChannels > 0
  {
    && minChannels * Pow2(k) <= maxChannels
    && (forall i: nat | i < k :: SizeFor(total, minChannels, minSize, i) > maxSize)
    && (SizeFor(total, minChannels, minSize, k) <= maxSize || maxChannels < 2 * (minChannels * Pow2(k)))
    && chunk == AlignUp(SizeFor(total, minChannels, minSize, k), minSize)
  }

  /** The loop that picks a chunk size: more channels until chunks are small enough.  The chunks cover the
      transfer exactly when the minimal size is positive or there is nothing to transfer. */
  method ChunkSize(total: nat, minChannels: nat, maxChannels: nat, minSize: nat, maxSize: nat) returns (chunk: nat)
    requires 0 < minChannels <= maxChannels
    ensures exists k: nat :: Picks(total, minChannels, maxChannels, minSize, maxSize, k, chunk)
    ensures total <= chunk * maxChannels <==> minSize > 0 || total == 0
    ensures minSize > 0 && total > 0 ==> chunk > 0
  {
    var size := Max(minSize, DivUp(total, minChannels));
    var channels := minChannels;
    ghost var k := 0;
    while size > maxSize && channels <= maxChannels / 2
      invariant 0 < channels <= maxChannels && DivUp(total, channels) <= size
      invariant channels == minChannels * Pow2(k) && size == SizeFor(total, minChannels, minSize, k)
      invariant forall i: nat | i < k :: SizeFor(total, minChannels, minSize, i) > maxSize
      decreases maxChannels - channels
    {
      Doubled(minChannels, k);
      channels := 2 * channels;
      size := DivUp(total, channels);
      k := k + 1;
    }
    chunk := AlignUp(size, minSize);
    assert Picks(total, minChannels, maxChannels, minSize, maxSize, k, chunk);
    Covers(total, channels, size, minSize, maxChannels);
  }

  lemma Doubled(channels: nat, k: nat)
    ensures channels * Pow2(k + 1) == 2 * (channels * Pow2(k))
  {
  }

  lemma Covers(total: nat, channels: nat, size: nat, minSize: nat, maxChannels: nat)
    requires 0 < channels <= maxChannels && DivUp(total, channels) <= size
    ensures var chunk := AlignUp(size, minSize);
            && (total <= chunk * maxChannels <==> minSize > 0 || total == 0)
            && (minSize > 0 && total > 0 ==> chunk > 0)
  {
    if minSize > 0 { Enough(total, channels, size, AlignUp(size, minSize), maxChannels); }
  }

  lemma Enough(total: nat, channels: nat, size: nat, chunk: nat, maxChannels: nat)
    requires 0 < channels <= maxChannels && DivUp(total, channels) <= size <= chunk
    ensures total <= chunk * maxChannels
  {
    MulMono(DivUp(total, channels), chunk, channels);
    MulMono(channels, maxChannels, chunk);
  }

  // Elements.

  datatype Elem = Elem(offset: nat, bytes: nat)

  /** How many elements a task of `bytes` bytes gives; an empty task is one synchronising element. */
  function Count(bytes: nat, chunk: nat): nat
    requires bytes > 0 ==> chunk > 0
  {
    if bytes == 0 then 1 else DivUp(bytes, chunk)
  }

  function ElemAt(bytes: nat, chunk: nat, k: nat): Elem
    requires k * chunk <= bytes
  {
    Elem(k * chunk, Min(chunk, bytes - k * chunk))
  }

  /** All elements of a task are the same number of bytes apart and end with the task. */
  lemma ElemInTask(bytes: nat, chunk: nat, k: nat)
    requires bytes > 0 && chunk > 0
    ensures k < Count(bytes, chunk) <==> k * chunk < bytes
    ensures k + 1 == Count(bytes, chunk) <==> k * chunk < bytes <= k * chunk + chunk
  {
    var n := DivUp(bytes, chunk);
    assert (k + 1) * chunk == k * chunk + chunk;
    if k < n { MulMono(k, n - 1, chunk); } else { MulMono(n, k, chunk); }
    if k + 1 < n { MulMono(k + 1, n - 1, chunk); } else { MulMono(n, k + 1, chunk); }
  }

  /** Every byte of a task is in exactly one of its elements. */
  lemma ByteOnce(bytes: nat, chunk: nat, b: nat, k: nat)
    requires b < bytes && chunk > 0 && k * chunk <= bytes
    ensures Quot(b, chunk) < Count(bytes, chunk)
    ensures var e := ElemAt(bytes, chunk, k); e.offset <= b < e.offset + e.bytes <==> k == Quot(b, chunk)
  {
    var q := Quot(b, chunk);
    assert b == chunk * q + b % chunk;
    ElemInTask(bytes, chunk, q);
    if k * chunk <= b < k * chunk + chunk { DivModUnique(b, chunk, k, b - k * chunk); }
  }

  /** The chunk number stays below the number of channels per peer, so it never wraps around them. */
  lemma ChunksFitChannels(bytes: nat, chunk: nat, channels: nat, k: nat)
    requires (bytes > 0 ==> chunk > 0) && bytes <= chunk * channels && channels > 0 && k < Count(bytes, chunk)
    ensures k < channels && k % channels == k
  {
    if bytes > 0 {
      ElemInTask(bytes, chunk, k);
      MulLess(k, channels, chunk);
    }
    DivModUnique(k, channels, 0, k);
  }

  // Emission, which a budget may cut short at any element.

  /** A task in its queue, with the number of elements already emitted. */
  datatype Task = Task(bytes: nat, chunk: nat)

  ghost predicate InQueue(t: Task, size: nat) {
    (t.bytes > 0 ==> size > 0) && t.chunk < Count(t.bytes, size)
  }

  /** The elements `from..to` of a task, in order. */
  ghost predicate Emitted(t: Task, size: nat, to: nat, elems: seq<Elem>)
    requires t.bytes > 0 ==> size > 0
  {
    && t.chunk <= to <= Count(t.bytes, size) && |elems| == to - t.chunk
    && forall i | 0 <= i < |elems| :: IsElem(t.bytes, size, t.chunk + i, elems[i])
  }

  ghost predicate IsElem(bytes: nat, size: nat, k: nat, e: Elem) {
    if bytes == 0 then e == Elem(0, 0) else k * size <= bytes && e == ElemAt(bytes, size, k)
  }

  /** One side of the exchange: where it stands, and what it has emitted. */
  datatype Side = Side(left: int, at: nat, next: nat, elems: seq<Elem>)

  /** `left` is the bytes still to be emitted, -1 for a synchronisation, 0 when the task is done. */
  ghost predicate Standing(t: Task, size: nat, s: Side) {
    && InQueue(t, size) && Emitted(t, size, s.next, s.elems)
    && (s.left == 0 <==> s.next == Count(t.bytes, size))
    && (s.left != 0 ==>
          if t.bytes == 0 then s.left == -1 && s.at == 0 else s.at == s.next * size && s.left == t.bytes - s.at > 0)
  }

  function Begin(t: Task, size: nat): Side {
    if t.bytes == 0 then Side(-1, 0, t.chunk, []) else Side(t.bytes - t.chunk * size, t.chunk * size, t.chunk, [])
  }

  lemma BeginStands(t: Task, size: nat)
    requires InQueue(t, size)
    ensures Standing(t, size, Begin(t, size))
  {
    if t.bytes > 0 { ElemInTask(t.bytes, size, t.chunk); }
  }

  /** One element of one side. */
  method EmitOne(t: Task, size: nat, s: Side) returns (r: Side)
    requires Standing(t, size, s) && s.left != 0
    ensures Standing(t, size, r) && r.next == s.next + 1
  {
    var bytes := if s.left < size then s.left else size;
    var sent := if bytes == -1 then 0 else bytes;
    var left := s.left - sent;
    if left <= 0 { left := 0; }
    r := Side(left, s.at + sent, s.next + 1, s.elems + [Elem(s.at, sent)]);
    EmitStands(t, size, s, r);
  }

  /** What is sent from where element `k` starts is that element, and the task ends with its last one. */
  lemma NextElem(bytes: nat, size: nat, k: nat)
    requires bytes > 0 && size > 0 && k < Count(bytes, size)
    ensures var at, sent := k * size, Min(bytes - k * size, size);
            && at < bytes && IsElem(bytes, size, k, Elem(at, sent))
            && (at + sent == bytes <==> k + 1 == Count(bytes, size))
            && at + sent <= bytes && (at + sent < bytes ==> at + sent == (k + 1) * size)
  {
    ElemInTask(bytes, size, k);
    assert (k + 1) * size == k * size + size;
  }

  lemma EmitStands(t: Task, size: nat, s: Side, r: Side)
    requires Standing(t, size, s) && s.left != 0
    requires var sent := if s.left == -1 then 0 else Min(s.left, size);
             r == Side(if s.left - sent <= 0 then 0 else s.left - sent, s.at + sent, s.next + 1,
                       s.elems + [Elem(s.at, sent)])
    ensures Standing(t, size, r)
  {
    if t.bytes > 0 { NextElem(t.bytes, size, s.next); }
    EmitMore(t, size, s.next, s.elems, Elem(s.at, if s.left == -1 then 0 else Min(s.left, size)));
  }

  lemma EmitMore(t: Task, size: nat, next: nat, elems: seq<Elem>, e: Elem)
    requires InQueue(t, size) && Emitted(t, size, next, elems) && next < Count(t.bytes, size)
             && IsElem(t.bytes, size, next, e)
    ensures Emitted(t, size, next + 1, elems + [e])
  {
    var more := elems + [e];
    forall i | 0 <= i < |more| ensures IsElem(t.bytes, size, t.chunk + i, more[i]) {
      if i < |elems| { assert IsElem(t.bytes, size, t.chunk + i, elems[i]); }
    }
  }

  /** The loop over a send task and a receive task, either of which may be missing.  `stop` is the number
      of elements the work budget still allows; when it runs out the tasks stay queued. */
  method Exchange(recv: Task, hasRecv: bool, recvSize: nat, send: Task, hasSend: bool, sendSize: nat, stop: nat)
    returns (r: Side, s: Side, cut: bool)
    requires (hasRecv ==> InQueue(recv, recvSize)) && (hasSend ==> InQueue(send, sendSize)) && (hasRecv || hasSend)
    ensures hasRecv ==> Standing(recv, recvSize, r)
    ensures hasSend ==> Standing(send, sendSize, s)
    ensures !cut ==> (hasRecv ==> r.left == 0) && (hasSend ==> s.left == 0)
    ensures (hasRecv || r.elems == []) && (hasSend || s.elems == [])
  {
    r, s, cut := Side(0, 0, 0, []), Side(0, 0, 0, []), false;
    if hasRecv {
      BeginStands(recv, recvSize);
      r := Begin(recv, recvSize);
    }
    if hasSend {
      BeginStands(send, sendSize);
      s := Begin(send, sendSize);
    }
    var budget := stop;
    while r.left != 0 || s.left != 0
      invariant if hasRecv then Standing(recv, recvSize, r) else r == Side(0, 0, 0, [])
      invariant if hasSend then Standing(send, sendSize, s) else s == Side(0, 0, 0, [])
      decreases budget
    {
      if r.left != 0 {
        if budget < 1 { return r, s, true; }
        r := EmitOne(recv, recvSize, r);
        budget := budget - 1;
      }
      if s.left != 0 {
        if budget < 1 { return r, s, true; }
        s := EmitOne(send, sendSize, s);
        budget := budget - 1;
      }
    }
  }

  /** Resuming a task where a plan was cut continues with the next element: together the plans emit the
      elements of the task once and in order. */
  lemma Resumed(t: Task, size: nat, s: Side, u: Side)
    requires Standing(t, size, s) && s.left != 0 && Standing(Task(t.bytes, s.next), size, u)
    ensures Emitted(t, size, u.next, s.elems + u.elems)
  {
    var all := s.elems + u.elems;
    forall i | 0 <= i < |all| ensures IsElem(t.bytes, size, t.chunk + i, all[i]) {
      if i < |s.elems| {
        assert IsElem(t.bytes, size, t.chunk + i, s.elems[i]);
      } else {
        var j := i - |s.elems|;
        assert IsElem(t.bytes, size, s.next + j, u.elems[j]) && t.chunk + i == s.next + j;
      }
    }
  }
}
