/** The program every rank of a ring AllReduce runs, seen as a sequence of slice operations. */
module RingProgram {

  /** Rank count, slices per operation and number of loops. */
  datatype Shape = Shape(n: nat, slices: nat, loops: nat)

  predicate Valid(h: Shape) { h.n >= 2 && h.slices > 0 }

  datatype Kind = Send | RecvReduceSend | RecvReduceCopySend | RecvCopySend | Recv

  /** Chunk handled at operation `j` of a loop by the rank with ring index `ix`. */
  function ChunkAt(n: nat, ix: nat, j: nat): (c: nat)
    requires ix < n && j <= 2 * n - 2
    ensures c < n
  {
    var r := ix + 2 * n - 1 - j;
    if r >= 2 * n then r - 2 * n else if r >= n then r - n else r
  }

  function KindAt(n: nat, j: nat): Kind
    requires n >= 2 && j <= 2 * n - 2
  {
    if j == 0 then Send
    else if j < n - 1 then RecvReduceSend
    else if j == n - 1 then RecvReduceCopySend
    else if j < 2 * n - 2 then RecvCopySend
    else Recv
  }

  function Prev(n: nat, i: nat): (r: nat)
    requires i < n
    ensures r < n
  {
    if i == 0 then n - 1 else i - 1
  }

  function Next(n: nat, i: nat): (r: nat)
    requires i < n
    ensures r < n && Prev(n, r) == i
  {
    if i == n - 1 then 0 else i + 1
  }

  /** Operation of a loop at which ring index `i` stores chunk `c`. */
  function StoreOp(n: nat, i: nat, c: nat): (j: nat)
    requires i < n && c < n
    ensures n - 1 <= j <= 2 * n - 2
    ensures ChunkAt(n, i, j) == c
    ensures forall j' | n - 1 <= j' <= 2 * n - 2 && ChunkAt(n, i, j') == c :: j' == j
  {
    if c <= i then n - 1 + (i - c) else n - 1 + (i - c + n)
  }

  /** Following a slice along the ring keeps its chunk. */
  lemma ChunkHandedOn(n: nat, i: nat, j: nat)
    requires n >= 2 && i < n && 1 <= j <= 2 * n - 2
    ensures ChunkAt(n, i, j) == ChunkAt(n, Prev(n, i), j - 1)
  {
  }

  /** Position in a rank's program: loop, operation in the loop, slice in the operation. */
  datatype Pc = Pc(l: nat, j: nat, s: nat)

  predicate InProgram(h: Shape, p: Pc) {
    p.j <= 2 * h.n - 2 && p.s < h.slices
  }

  function Succ(h: Shape, p: Pc): Pc
    requires h.n >= 2
  {
    if p.s + 1 < h.slices then Pc(p.l, p.j, p.s + 1)
    else if p.j + 1 < 2 * h.n - 1 then Pc(p.l, p.j + 1, 0)
    else Pc(p.l + 1, 0, 0)
  }

  /** Position after `q` slice operations. */
  function At(h: Shape, q: nat): (p: Pc)
    requires Valid(h)
    ensures InProgram(h, p)
  {
    if q == 0 then Pc(0, 0, 0) else Succ(h, At(h, q - 1))
  }

  predicate Before(p: Pc, p': Pc) {
    p.l < p'.l || (p.l == p'.l && (p.j < p'.j || (p.j == p'.j && p.s < p'.s)))
  }

  lemma {:induction false} AtMonotone(h: Shape, q: nat, q': nat)
    requires Valid(h) && q <= q'
    ensures At(h, q) == At(h, q') || Before(At(h, q), At(h, q'))
    decreases q' - q
  {
    if q < q' { AtMonotone(h, q, q' - 1); }
  }

  function HasSend(h: Shape, p: Pc): bool { p.j < 2 * h.n - 2 }

  function HasRecv(p: Pc): bool { p.j > 0 }

  /** Slices sent among the first `q` slice operations. */
  function Sent(h: Shape, q: nat): nat
    requires Valid(h)
  {
    if q == 0 then 0 else Sent(h, q - 1) + if HasSend(h, At(h, q - 1)) then 1 else 0
  }

  /** Slices received among the first `q` slice operations. */
  function Recvd(h: Shape, q: nat): nat
    requires Valid(h)
  {
    if q == 0 then 0 else Recvd(h, q - 1) + if HasRecv(At(h, q - 1)) then 1 else 0
  }

  lemma {:induction false} CountsMonotone(h: Shape, q: nat, q': nat)
    requires Valid(h) && q <= q'
    ensures Sent(h, q) <= Sent(h, q') && Recvd(h, q) <= Recvd(h, q')
    decreases q' - q
  {
    if q < q' { CountsMonotone(h, q, q' - 1); }
  }

  /** How far a rank's sends run ahead of its own receives. */
  function Lead(h: Shape, p: Pc): int {
    if p.j == 0 then p.s else if p.j < 2 * h.n - 2 then h.slices else h.slices - p.s
  }

  lemma {:induction false} LeadAt(h: Shape, q: nat)
    requires Valid(h)
    ensures Sent(h, q) - Recvd(h, q) == Lead(h, At(h, q))
  {
    if q > 0 { LeadAt(h, q - 1); }
  }

  function SendSucc(h: Shape, p: Pc): Pc
    requires h.n >= 2
  {
    if p.s + 1 < h.slices then Pc(p.l, p.j, p.s + 1)
    else if p.j + 1 < 2 * h.n - 2 then Pc(p.l, p.j + 1, 0)
    else Pc(p.l + 1, 0, 0)
  }

  /** Position at which a rank makes its `m`-th send. */
  function SendAt(h: Shape, m: nat): (p: Pc)
    requires Valid(h)
    ensures InProgram(h, p) && HasSend(h, p)
  {
    if m == 0 then Pc(0, 0, 0) else SendSucc(h, SendAt(h, m - 1))
  }

  lemma {:induction false} SendAtSent(h: Shape, q: nat)
    requires Valid(h)
    ensures var p := At(h, q); SendAt(h, Sent(h, q)) == if HasSend(h, p) then p else Pc(p.l + 1, 0, 0)
  {
    if q > 0 { SendAtSent(h, q - 1); }
  }

  /** The receive a rank is about to make takes the slice its predecessor sent one operation
      earlier in the same loop. */
  lemma {:induction false} SendAtRecvd(h: Shape, q: nat)
    requires Valid(h)
    ensures var p := At(h, q);
            SendAt(h, Recvd(h, q)) == if HasRecv(p) then Pc(p.l, p.j - 1, p.s) else Pc(p.l, 0, 0)
  {
    if q > 0 { SendAtRecvd(h, q - 1); }
  }
}
