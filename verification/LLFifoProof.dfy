/** The low-latency protocol is free of stale and torn lines exactly when no flag can come back. */
module LLFifoProof {
  import opened Arith
  import opened LLFifo

  /** The sender has stored half `j` of step `u`. */
  ghost predicate Past(st: State, u: nat, j: nat) {
    u < st.s || (u == st.s && j in st.wrote)
  }

  /** A half holds the latest write to it. */
  ghost predicate LastWrite(p: Params, st: State, slot: nat, j: nat)
    requires ValidParams(p)
  {
    var a := st.mem(slot, j).at;
    && st.mem(slot, j) == CellOf(p, a, j)
    && a >= -1
    && (a >= 0 ==> a % p.n == slot && Writes(p, a, j) && Past(st, a, j))
    && forall u: nat | u % p.n == slot && Writes(p, u, j) && Past(st, u, j) :: u <= a
  }

  ghost predicate Window(p: Params, st: State) {
    && st.cache <= st.head <= st.r
    && (if st.on then st.s < st.cache + p.n else st.s <= st.cache + p.n && st.wrote == {})
  }

  ghost predicate Memory(p: Params, st: State)
    requires ValidParams(p)
  {
    && (forall j: nat | j in st.wrote :: Writes(p, st.s, j))
    && forall slot: nat, j: nat | slot < p.n :: LastWrite(p, st, slot, j)
  }

  lemma WriteMemory(p: Params, st: State, j0: nat)
    requires ValidParams(p) && Memory(p, st) && Enabled(p, st, Write(j0))
    ensures Memory(p, Next(p, st, Write(j0)))
  {
    var t := Next(p, st, Write(j0));
    forall slot: nat, j: nat | slot < p.n
      ensures LastWrite(p, t, slot, j)
    {
      assert LastWrite(p, st, slot, j);
      assert forall u: nat :: Past(t, u, j) ==> Past(st, u, j) || (u == st.s && j == j0);
    }
  }

  lemma FinishMemory(p: Params, st: State)
    requires ValidParams(p) && Memory(p, st) && Enabled(p, st, Finish)
    ensures Memory(p, Next(p, st, Finish))
  {
    var t := Next(p, st, Finish);
    forall slot: nat, j: nat | slot < p.n
      ensures LastWrite(p, t, slot, j)
    {
      assert LastWrite(p, st, slot, j);
      assert forall u: nat | Writes(p, u, j) :: Past(t, u, j) <==> Past(st, u, j);
    }
  }

  lemma SameMemory(p: Params, st: State, t: State)
    requires ValidParams(p) && Memory(p, st) && t.s == st.s && t.wrote == st.wrote && t.mem == st.mem
    ensures Memory(p, t)
  {
    forall slot: nat, j: nat | slot < p.n
      ensures LastWrite(p, t, slot, j)
    {
      assert LastWrite(p, st, slot, j);
      assert forall u: nat :: Past(t, u, j) <==> Past(st, u, j);
    }
  }

  lemma StepMemory(p: Params, st: State, a: Action, t: State)
    requires ValidParams(p) && Window(p, st) && Memory(p, st) && Takes(p, st, a, t)
    ensures Window(p, t) && Memory(p, t)
  {
    match a
    case Write(j) => WriteMemory(p, st, j);
    case Finish => FinishMemory(p, st);
    case _ => SameMemory(p, st, t);
  }

  lemma {:induction false} RunMemory(p: Params, run: seq<State>)
    requires ValidParams(p) && IsRun(p, run)
    ensures Window(p, run[|run| - 1]) && Memory(p, run[|run| - 1])
    decreases |run|
  {
    if |run| > 1 {
      var k := |run| - 2;
      RunMemory(p, run[..k + 1]);
      assert Step(p, run[k], run[k + 1]);
      var a :| Takes(p, run[k], a, run[k + 1]);
      StepMemory(p, run[k], a, run[k + 1]);
    }
  }

  lemma ReachableMemory(p: Params, st: State)
    requires ValidParams(p) && Reachable(p, st)
    ensures Window(p, st) && Memory(p, st)
  {
    var run :| EndsIn(p, run, st);
    RunMemory(p, run);
  }

  /** Two steps of one slot differ by at least the number of slots. */
  lemma SlotApart(n: nat, a: nat, b: nat)
    requires n > 0 && a % n == b % n && a < b
    ensures a + n <= b
  {
    var qa, qb := a / n, b / n;
    assert a == n * qa + a % n && b == n * qb + b % n;
    MulLess(qa, qb, n);
    MulMono(qa + 1, qb, n);
    assert n * (qa + 1) == n * qa + n;
  }

  /** The sender never writes over a slot the receiver is still at. */
  lemma NeverAhead(p: Params, st: State, u: nat, j: nat)
    requires ValidParams(p) && Window(p, st) && Past(st, u, j) && u % p.n == st.r % p.n
    ensures u <= st.r
  {
    if st.r < u { SlotApart(p.n, st.r, u); }
  }

  /** Once it has seen the head, the sender starts a step exactly when the receiver has given back all earlier
      steps of its slot. */
  lemma StartIff(p: Params, st: State)
    requires ValidParams(p) && !st.on && st.cache == st.head
    ensures Enabled(p, st, Start) <==> forall u: nat | u < st.s && u % p.n == st.s % p.n :: u < st.head
  {
    if Enabled(p, st, Start) {
      forall u: nat | u < st.s && u % p.n == st.s % p.n ensures u < st.head { SlotApart(p.n, u, st.s); }
    } else {
      var u: nat := st.s - p.n;
      ModShift(u, p.n, 1);
      assert u < st.s && u % p.n == st.s % p.n && u >= st.head;
    }
  }

  lemma WrittenIsThere(p: Params, st: State, j: nat)
    requires ValidParams(p) && Window(p, st) && Memory(p, st) && Writes(p, st.r, j) && Past(st, st.r, j)
    ensures st.mem(st.r % p.n, j) == CellOf(p, st.r, j)
  {
    var slot := st.r % p.n;
    assert LastWrite(p, st, slot, j);
    NeverAhead(p, st, st.mem(slot, j).at, j);
  }

  lemma FlagsEqual(m: nat, a: int, b: int)
    requires m > 0 && a % m == b % m
    ensures (b - a) % m == 0
  {
    var qa, qb := a / m, b / m;
    assert b - a == m * (qb - qa);
    MulMod(m, qb - qa);
  }

  /** Every data half of the steps behind the receiver has been stored. */
  ghost predicate Followed(p: Params, st: State) {
    forall u: nat, j: nat | u < st.r && j < 2 * p.cnt(u) :: Past(st, u, j)
  }

  lemma ForcedIsPast(p: Params, st: State, w: nat, j: nat)
    requires Followed(p, st) && w < st.r && Forced(p, w, j, st.r)
    ensures Past(st, w, j)
  {
    if j >= 2 * p.cnt(w) {
      var d: nat :| w < d < st.r && p.cnt(d) > 0;
      assert Past(st, d, 0);
    }
  }

  lemma OldIsHazard(p: Params, st: State, j: nat, a: int)
    requires ValidParams(p) && Followed(p, st) && j < 2 * p.cnt(st.r) && LastWrite(p, st, st.r % p.n, j)
    requires a == st.mem(st.r % p.n, j).at < st.r && (st.r - a) % p.modulus == 0
    ensures Hazard(p, st.r, j, a)
  {
    forall w: nat | a < w < st.r && w % p.n == st.r % p.n && Writes(p, w, j)
      ensures !Forced(p, w, j, st.r)
    {
      if Forced(p, w, j, st.r) { ForcedIsPast(p, st, w, j); }
    }
  }

  /** The heart of it: a half with the expected flag was written at the expected step. */
  lemma MatchIsFresh(p: Params, st: State, j: nat)
    requires ValidParams(p) && NoHazard(p) && Window(p, st) && Memory(p, st) && Followed(p, st)
    requires j < 2 * p.cnt(st.r) && st.mem(st.r % p.n, j).flag == Flag(p, st.r)
    ensures st.mem(st.r % p.n, j) == CellOf(p, st.r, j) && Past(st, st.r, j)
    ensures st.mem(st.r % p.n, j).at == st.r && st.mem(st.r % p.n, j).word == p.data(st.r, j)
  {
    var slot := st.r % p.n;
    assert LastWrite(p, st, slot, j);
    var a := st.mem(slot, j).at;
    if a >= 0 { NeverAhead(p, st, a, j); }
    if a < st.r {
      FlagsEqual(p.modulus, a + 1, st.r + 1);
      OldIsHazard(p, st, j, a);
    }
  }

  ghost predicate LowGood(p: Params, st: State, l: nat)
    requires p.modulus > 0 && l in st.low
  {
    && l < p.cnt(st.r)
    && (st.low[l].flag == Flag(p, st.r) ==> st.low[l] == CellOf(p, st.r, 2 * l) && Past(st, st.r, 2 * l))
  }

  ghost predicate AccGood(p: Params, st: State, l: nat)
    requires p.modulus > 0 && l in st.acc
  {
    && l < p.cnt(st.r)
    && st.acc[l] == (CellOf(p, st.r, 2 * l), CellOf(p, st.r, 2 * l + 1))
    && Past(st, st.r, 2 * l) && Past(st, st.r, 2 * l + 1)
  }

  ghost predicate Receiver(p: Params, st: State)
    requires ValidParams(p)
  {
    && Followed(p, st)
    && (forall l: nat | l in st.low :: LowGood(p, st, l))
    && (forall l: nat | l in st.acc :: AccGood(p, st, l))
  }

  lemma ReadLowReceiver(p: Params, st: State, l: nat)
    requires ValidParams(p) && NoHazard(p) && Window(p, st) && Memory(p, st) && Receiver(p, st)
    requires Enabled(p, st, ReadLow(l))
    ensures Receiver(p, Next(p, st, ReadLow(l)))
  {
    var t := Next(p, st, ReadLow(l));
    if t.low[l].flag == Flag(p, st.r) { MatchIsFresh(p, st, 2 * l); }
    assert LowGood(p, t, l);
    forall i: nat | i in t.low ensures LowGood(p, t, i) { assert i != l ==> LowGood(p, st, i); }
    forall i: nat | i in t.acc ensures AccGood(p, t, i) { assert AccGood(p, st, i); }
    assert forall u: nat, j: nat :: Past(t, u, j) == Past(st, u, j);
  }

  lemma ReadHighReceiver(p: Params, st: State, l: nat)
    requires ValidParams(p) && NoHazard(p) && Window(p, st) && Memory(p, st) && Receiver(p, st)
    requires Enabled(p, st, ReadHigh(l))
    ensures Receiver(p, Next(p, st, ReadHigh(l)))
  {
    var t := Next(p, st, ReadHigh(l));
    assert LowGood(p, st, l);
    if st.mem(st.r % p.n, 2 * l + 1).flag == Flag(p, st.r) { MatchIsFresh(p, st, 2 * l + 1); }
    forall i: nat | i in t.low ensures LowGood(p, t, i) { assert LowGood(p, st, i); }
    forall i: nat | i in t.acc ensures AccGood(p, t, i) { assert i != l ==> AccGood(p, st, i); }
    assert forall u: nat, j: nat :: Past(t, u, j) == Past(st, u, j);
  }

  lemma AdvanceReceiver(p: Params, st: State)
    requires ValidParams(p) && Receiver(p, st) && Enabled(p, st, Advance)
    ensures Receiver(p, Next(p, st, Advance))
  {
    var t := Next(p, st, Advance);
    forall u: nat, j: nat | u < t.r && j < 2 * p.cnt(u)
      ensures Past(t, u, j)
    {
      if u == st.r {
        var l := j / 2;
        assert j == 2 * l || j == 2 * l + 1;
        assert AccGood(p, st, l);
      } else {
        assert Past(st, u, j);
      }
    }
  }

  lemma OtherReceiver(p: Params, st: State, t: State)
    requires ValidParams(p) && Receiver(p, st) && t.r == st.r && t.low == st.low && t.acc == st.acc
    requires forall u: nat, j: nat | Past(st, u, j) :: Past(t, u, j)
    ensures Receiver(p, t)
  {
    forall i: nat | i in t.low ensures LowGood(p, t, i) { assert LowGood(p, st, i); }
    forall i: nat | i in t.acc ensures AccGood(p, t, i) { assert AccGood(p, st, i); }
  }

  lemma StepReceiver(p: Params, st: State, a: Action, t: State)
    requires ValidParams(p) && NoHazard(p) && Window(p, st) && Memory(p, st) && Receiver(p, st)
    requires Takes(p, st, a, t)
    ensures Receiver(p, t)
  {
    match a
    case ReadLow(l) => ReadLowReceiver(p, st, l);
    case ReadHigh(l) => ReadHighReceiver(p, st, l);
    case Advance => AdvanceReceiver(p, st);
    case _ => OtherReceiver(p, st, t);
  }

  lemma {:induction false} RunReceiver(p: Params, run: seq<State>)
    requires ValidParams(p) && NoHazard(p) && IsRun(p, run)
    ensures Receiver(p, run[|run| - 1])
    decreases |run|
  {
    if |run| > 1 {
      var k := |run| - 2;
      RunReceiver(p, run[..k + 1]);
      RunMemory(p, run[..k + 1]);
      assert Step(p, run[k], run[k + 1]);
      var a :| Takes(p, run[k], a, run[k + 1]);
      StepReceiver(p, run[k], a, run[k + 1]);
    }
  }

  // A schedule with a hazard does go wrong: the run is built step by step.

  lemma Extend(p: Params, st: State, a: Action) returns (t: State)
    requires ValidParams(p) && Reachable(p, st) && Enabled(p, st, a)
    ensures t == Next(p, st, a) && Reachable(p, t)
  {
    var run :| EndsIn(p, run, st);
    t := Next(p, st, a);
    assert Takes(p, st, a, t);
    var longer := run + [t];
    forall i: nat | i + 1 < |longer| ensures Step(p, longer[i], longer[i + 1]) {
      if i + 1 < |run| { assert Step(p, run[i], run[i + 1]); }
    }
    assert EndsIn(p, longer, t);
  }

  /** Both ends are about to do step `k`. */
  ghost predicate Level(st: State, k: nat) {
    st.s == k && !st.on && st.wrote == {} && st.head == k && st.r == k && st.low == map[] && st.acc == map[]
  }

  /** The sender is in step `k`, having stored the halves below `m`. */
  ghost predicate Sending(p: Params, st: State, k: nat, m: nat)
    requires p.period > 0
  {
    && st.s == k && st.on && st.head == k && st.r == k && st.low == map[] && st.acc == map[]
    && forall j: nat :: j in st.wrote <==> j < m && Writes(p, k, j)
  }

  lemma Open(p: Params, st: State, k: nat) returns (t: State)
    requires ValidParams(p) && Reachable(p, st) && Level(st, k)
    ensures Reachable(p, t) && Sending(p, t, k, 0)
  {
    t := Extend(p, st, Refresh);
    t := Extend(p, t, Start);
  }

  lemma {:induction false} WriteUpTo(p: Params, st: State, k: nat, m: nat) returns (t: State)
    requires ValidParams(p) && Reachable(p, st) && Sending(p, st, k, 0)
    ensures Reachable(p, t) && Sending(p, t, k, m)
  {
    t := st;
    if m > 0 {
      t := WriteUpTo(p, st, k, m - 1);
      if Writes(p, k, m - 1) { t := Extend(p, t, Write(m - 1)); }
    }
  }

  /** Once a step's data is stored, the receiver can take its lines one by one. */
  lemma {:induction false} ReadUpTo(p: Params, st: State, l: nat) returns (t: State)
    requires ValidParams(p) && Reachable(p, st) && st.low == map[] && st.acc == map[]
    requires l <= p.cnt(st.r) && forall j: nat | j < 2 * p.cnt(st.r) :: Past(st, st.r, j)
    ensures Reachable(p, t) && t == st.(acc := t.acc) && forall i: nat :: i in t.acc <==> i < l
  {
    t := st;
    if l > 0 {
      t := ReadUpTo(p, st, l - 1);
      ReachableMemory(p, t);
      assert Past(st, st.r, 2 * l - 2) && Past(st, st.r, 2 * l - 1);
      WrittenIsThere(p, t, 2 * l - 2);
      WrittenIsThere(p, t, 2 * l - 1);
      var u := Extend(p, t, ReadLow(l - 1));
      u := Extend(p, u, ReadHigh(l - 1));
      assert u.low == map[];
      t := u;
    }
  }

  lemma TakeAll(p: Params, st: State, k: nat, m: nat) returns (t: State)
    requires ValidParams(p) && Reachable(p, st) && Sending(p, st, k, m) && m >= 2 * p.cnt(k)
    ensures Reachable(p, t) && t == st.(r := k + 1)
  {
    t := ReadUpTo(p, st, p.cnt(k));
    t := Extend(p, t, Advance);
  }

  lemma {:induction false} LockStep(p: Params, k: nat) returns (t: State)
    requires ValidParams(p)
    ensures Reachable(p, t) && Level(t, k)
  {
    if k == 0 {
      t := State(0, false, {}, 0, 0, 0, map[], map[], (slot: nat, j: nat) => Cell(0, 0, -1));
      assert EndsIn(p, [t], t);
    } else {
      t := LockStep(p, k - 1);
      t := Open(p, t, k - 1);
      t := WriteUpTo(p, t, k - 1, 2 * p.lines);
      t := TakeAll(p, t, k - 1, 2 * p.lines);
      t := Extend(p, t, Finish);
      t := Extend(p, t, Post);
    }
  }

  /** Over steps without data the receiver runs ahead of the sender. */
  lemma {:induction false} RunAhead(p: Params, st: State, s: nat) returns (t: State)
    requires ValidParams(p) && Reachable(p, st) && st.low == map[] && st.acc == map[]
    requires st.r <= s && forall d: nat | st.r <= d < s :: p.cnt(d) == 0
    ensures Reachable(p, t) && t == st.(r := s)
    decreases s
  {
    t := st;
    if st.r < s {
      t := RunAhead(p, st, s - 1);
      t := Extend(p, t, Advance);
    }
  }

  /** No step strictly between `lo` and `hi` writes half `j` of the slot of `s`. */
  ghost predicate Untouched(p: Params, lo: int, hi: nat, s: nat, j: nat)
    requires ValidParams(p)
  {
    forall x: nat | lo < x < hi && x % p.n == s % p.n :: !Writes(p, x, j)
  }

  lemma OtherHalf(p: Params, lo: int, hi: nat, s: nat, l: nat)
    requires ValidParams(p) && Untouched(p, lo, hi, s, 2 * l)
    ensures Untouched(p, lo, hi, s, 2 * l + 1)
  {
    forall x: nat | lo < x < hi && x % p.n == s % p.n
      ensures !Writes(p, x, 2 * l + 1)
    {
      assert !Writes(p, x, 2 * l);
    }
  }

  /** The next write to half `j` of the slot of `s` after step `u`, or `s` itself. */
  lemma {:induction false} NextWrite(p: Params, u: int, s: nat, j: nat, from: nat) returns (w: nat)
    requires ValidParams(p) && u < from <= s
    requires Untouched(p, u, from, s, j)
    ensures u < w <= s && (w < s ==> w % p.n == s % p.n && Writes(p, w, j))
    ensures Untouched(p, u, w, s, j)
    decreases s - from
  {
    w := from;
    if from < s && !(from % p.n == s % p.n && Writes(p, from, j)) { w := NextWrite(p, u, s, j, from + 1); }
  }

  /** The receiver can stand at step `s` while half `j` still holds what step `u` wrote. */
  lemma HazardState(p: Params, s: nat, j: nat, u: int) returns (st: State, w: nat)
    requires ValidParams(p) && -1 <= u < s && Unforced(p, u, s, j)
    ensures Reachable(p, st) && st.r == s && st.low == map[] && st.acc == map[]
    ensures u < w <= s && Untouched(p, u, w, s, j)
    ensures st.s == w && forall i: nat | i in st.wrote :: w < s && i < 2 * p.cnt(w)
    ensures w < s ==> 2 * p.cnt(w) <= j
  {
    w := NextWrite(p, u, s, j, u + 1);
    st := LockStep(p, w);
    if w < s {
      assert !Forced(p, w, j, s);
      st := Open(p, st, w);
      st := WriteUpTo(p, st, w, 2 * p.cnt(w));
      st := TakeAll(p, st, w, 2 * p.cnt(w));
      st := RunAhead(p, st, s);
    }
  }

  lemma StaleCell(p: Params, st: State, s: nat, j: nat, u: int, w: nat)
    requires ValidParams(p) && Memory(p, st) && st.s == w <= s && -1 <= u < w
    requires u >= 0 ==> u % p.n == s % p.n && Writes(p, u, j)
    requires Untouched(p, u, w, s, j)
    requires j !in st.wrote
    ensures st.mem(s % p.n, j) == CellOf(p, u, j)
  {
    var slot := s % p.n;
    assert LastWrite(p, st, slot, j);
    assert u >= 0 ==> Past(st, u, j);
  }

  lemma FlagReturns(m: nat, u: int, s: int)
    requires m > 0 && (s - u) % m == 0
    ensures (u + 1) % m == (s + 1) % m
  {
    var k := (s - u) / m;
    assert s + 1 == (u + 1) + m * k;
    ModShift(u + 1, m, k);
  }

  lemma HalfBelow(j: nat, k: nat, c: nat)
    requires j / 2 == k / 2
    ensures j < 2 * c <==> k < 2 * c
  {
  }

  lemma SameHalf(p: Params, s: nat, j: nat, k: nat, u: int)
    requires ValidParams(p) && Hazard(p, s, j, u) && j / 2 == k / 2
    ensures Hazard(p, s, k, u)
  {
    forall w: nat
      ensures Writes(p, w, k) <==> Writes(p, w, j)
      ensures Forced(p, w, k, s) <==> Forced(p, w, j, s)
    {
      HalfBelow(j, k, p.cnt(w));
      HalfBelow(j, k, p.lines);
    }
    HalfBelow(j, k, p.cnt(s));
  }

  lemma StaleLine(p: Params, st: State, s: nat, l: nat, u: int, w: nat)
    requires ValidParams(p) && Memory(p, st) && st.s == w <= s && -1 <= u < w
    requires u >= 0 ==> u % p.n == s % p.n && Writes(p, u, 2 * l)
    requires Untouched(p, u, w, s, 2 * l) && 2 * l !in st.wrote && 2 * l + 1 !in st.wrote
    ensures st.mem(s % p.n, 2 * l) == CellOf(p, u, 2 * l) && st.mem(s % p.n, 2 * l + 1) == CellOf(p, u, 2 * l + 1)
  {
    StaleCell(p, st, s, 2 * l, u, w);
    OtherHalf(p, u, w, s, l);
    StaleCell(p, st, s, 2 * l + 1, u, w);
  }

  lemma HazardLine(p: Params, s: nat, l: nat, u: int) returns (st: State)
    requires ValidParams(p) && Visible(p, u, s, 2 * l)
    ensures Reachable(p, st) && st.r == s && st.low == map[] && st.acc == map[]
    ensures st.mem(s % p.n, 2 * l) == CellOf(p, u, 2 * l) && st.mem(s % p.n, 2 * l + 1) == CellOf(p, u, 2 * l + 1)
  {
    var w;
    st, w := HazardState(p, s, 2 * l, u);
    ReachableMemory(p, st);
    assert u >= 0 ==> u % p.n == s % p.n && Writes(p, u, 2 * l);
    assert 2 * l !in st.wrote && 2 * l + 1 !in st.wrote;
    StaleLine(p, st, s, l, u, w);
  }

  lemma AcceptStale(p: Params, st: State, l: nat, u: int) returns (t: State)
    requires ValidParams(p) && Reachable(p, st) && st.low == map[] && st.acc == map[] && l < p.cnt(st.r)
    requires st.mem(st.r % p.n, 2 * l) == CellOf(p, u, 2 * l)
    requires st.mem(st.r % p.n, 2 * l + 1) == CellOf(p, u, 2 * l + 1)
    requires Flag(p, u) == Flag(p, st.r) && u != st.r
    ensures Reachable(p, t) && !Genuine(p, t)
  {
    t := Extend(p, st, ReadLow(l));
    t := Extend(p, t, ReadHigh(l));
    assert l in t.acc && t.acc[l].0.at == u;
  }

  /** A hazard is met by some run: the receiver takes an old line for a new one. */
  lemma HazardIsStale(p: Params, s: nat, j: nat, u: int) returns (t: State)
    requires ValidParams(p) && Hazard(p, s, j, u)
    ensures Reachable(p, t) && !Genuine(p, t)
  {
    SameHalf(p, s, j, 2 * (j / 2), u);
    var st := HazardLine(p, s, j / 2, u);
    FlagReturns(p.modulus, u, s);
    t := AcceptStale(p, st, j / 2, u);
  }

  /** For any schedule: no run ever accepts a stale or torn line exactly when no visible old half
      carries the expected flag. */
  lemma NeverStaleIff(p: Params)
    requires ValidParams(p)
    ensures NeverStale(p) <==> NoHazard(p)
  {
    if NoHazard(p) {
      forall st: State | Reachable(p, st) ensures Genuine(p, st) {
        var run :| EndsIn(p, run, st);
        RunReceiver(p, run);
        assert forall l: nat | l in st.acc :: AccGood(p, st, l);
      }
    } else {
      var s: nat, j: nat, u: int :| Hazard(p, s, j, u);
      var t := HazardIsStale(p, s, j, u);
    }
  }

  /** Every half in memory, in every reachable state: the data of the step that wrote it, or 0 where that step
      cleaned; and it carries that step's flag. */
  lemma MemoryHolds(p: Params, st: State, slot: nat, j: nat)
    requires ValidParams(p) && Reachable(p, st) && slot < p.n
    ensures var c := st.mem(slot, j);
            && -1 <= c.at && (c.at >= 0 ==> c.at % p.n == slot && Writes(p, c.at, j))
            && c.word == (if c.at >= 0 && j < 2 * p.cnt(c.at) then p.data(c.at, j) else 0)
            && c.flag == (c.at + 1) % p.modulus
  {
    ReachableMemory(p, st);
    assert LastWrite(p, st, slot, j);
  }

  /** The two 32-bit words a 64-bit value is stored as. */
  ghost predicate Halves(p: Params, val: (nat, nat) -> nat) {
    forall s: nat, l: nat | l < p.cnt(s) ::
      && val(s, l) < 0x1_0000_0000_0000_0000
      && p.data(s, 2 * l) == val(s, l) % 0x1_0000_0000 && p.data(s, 2 * l + 1) == val(s, l) / 0x1_0000_0000
  }

  /** Without hazards every accepted line gives back the 64-bit value that was stored in it for that step. */
  lemma ValuesArrive(p: Params, val: (nat, nat) -> nat, st: State, l: nat)
    requires ValidParams(p) && NoHazard(p) && Halves(p, val) && Reachable(p, st) && l in st.acc
    ensures l < p.cnt(st.r) && st.acc[l].0.word + 0x1_0000_0000 * st.acc[l].1.word == val(st.r, l)
  {
    NeverStaleIff(p);
    assert Genuine(p, st);
  }

  // Schedules by how far apart their data steps are.

  /** The first number from `lo` on with a given remainder. */
  lemma FirstFrom(period: nat, lo: nat, first: nat) returns (turn: nat)
    requires first < period
    ensures lo <= period * turn + first < lo + period
  {
    var q, m := lo / period, lo % period;
    assert lo == period * q + m;
    assert period * (q + 1) == period * q + period;
    turn := if m <= first then q else q + 1;
  }

  lemma SlotOfClean(n: nat, period: nat, turn: nat, rest: nat)
    requires n > 0 && period % n == 0 && rest < n
    ensures (period * turn + (period - n + rest)) % n == rest
  {
    var k := period / n;
    assert period == n * k;
    assert period * turn == n * (k * turn);
    assert n * (k * turn + k - 1) == n * (k * turn) + n * k - n;
    DivModUnique(period * turn + (period - n + rest), n, k * turn + k - 1, rest);
  }

  /** Every window of one period holds a cleaning step of every slot. */
  lemma CleanIn(p: Params, lo: nat, s: nat) returns (c: nat)
    requires ValidParams(p)
    ensures lo <= c < lo + p.period && c % p.n == s % p.n && Clean(p, c)
  {
    var rest := s % p.n;
    var first := p.period - p.n + rest;
    var turn := FirstFrom(p.period, lo, first);
    c := p.period * turn + first;
    DivModUnique(c, p.period, turn, first);
    SlotOfClean(p.n, p.period, turn, rest);
  }

  lemma VisibleIsRecent(p: Params, u: int, s: nat, j: nat, d: int)
    requires ValidParams(p) && j < 2 * p.lines && Visible(p, u, s, j) && DataBefore(p, s, d)
    ensures s - u <= s - d + p.period
  {
    if u + p.period < d {
      var c := CleanIn(p, d - p.period, s);
      assert Forced(p, c, j, s);
    }
  }

  lemma NotMultiple(x: int, m: nat)
    requires 0 < x < m
    ensures x % m != 0
  {
    DivModUnique(x, m, 0, x);
  }

  /** Data steps less than `modulus - period` apart leave no hazard. */
  lemma DenseIsSafe(p: Params, gap: nat)
    requires ValidParams(p) && Dense(p, gap) && gap + p.period < p.modulus
    ensures NoHazard(p)
  {
    forall s: nat, j: nat, u: int
      ensures !Hazard(p, s, j, u)
    {
      if Hazard(p, s, j, u) {
        var d: int :| DataBefore(p, s, d) && s - d <= gap;
        VisibleIsRecent(p, u, s, j, d);
        NotMultiple(s - u, p.modulus);
      }
    }
  }

  /** Data on one line for a period, then nothing, then two lines when the first flag comes round. */
  ghost function Sparse(n: nat, period: nat, modulus: nat): Params {
    Params(n, period, modulus, 2,
           (s: nat) => if s + 1 == modulus then 2 else if s < period then 1 else 0, (s: nat, j: nat) => 1)
  }

  lemma LastOfPeriod(n: nat, k: nat, q: nat, w: nat)
    requires n > 0 && q > 0 && w < n * k && w >= n * k - n && w % n == (n * q - 1) % n
    ensures w == n * k - 1
  {
    assert n * (q - 1) == n * q - n && n * (k - 1) == n * k - n;
    DivModUnique(n * q - 1, n, q - 1, n - 1);
    DivModUnique(w, n, k - 1, w - n * (k - 1));
  }

  lemma SparseHazard(n: nat, k: nat, q: nat, period: nat, modulus: nat, w: nat)
    requires 0 < n <= period == n * k && q > 0 && modulus == n * q
    requires w + 1 < modulus && w % n == (modulus - 1) % n && Writes(Sparse(n, period, modulus), w, 2)
    ensures !Forced(Sparse(n, period, modulus), w, 2, modulus - 1)
  {
    assert Clean(Sparse(n, period, modulus), w);
    if w < period {
      DivModUnique(w, period, 0, w);
      LastOfPeriod(n, k, q, w);
    }
  }

  lemma SparseIsDense(n: nat, period: nat, modulus: nat, gap: nat)
    requires 0 < n <= period && modulus > 1 && gap > 0 && modulus <= gap + period
    ensures Dense(Sparse(n, period, modulus), gap)
  {
    var p := Sparse(n, period, modulus);
    forall s: nat | p.cnt(s) > 0
      ensures exists d: int :: DataBefore(p, s, d) && s - d <= gap
    {
      var d := if s <= period then s - 1 else period - 1;
      assert DataBefore(p, s, d);
    }
  }

  lemma SparseIsStale(n: nat, period: nat, modulus: nat)
    requires 0 < n <= period && period % n == 0 && modulus > 1 && modulus % n == 0
    ensures !NeverStale(Sparse(n, period, modulus))
  {
    var p, s, k, q := Sparse(n, period, modulus), modulus - 1, period / n, modulus / n;
    assert period == n * k && modulus == n * q;
    forall w: nat | -1 < w < s && w % p.n == s % p.n && Writes(p, w, 2)
      ensures !Forced(p, w, 2, s)
    {
      SparseHazard(n, k, q, period, modulus, w);
    }
    assert Unforced(p, -1, s, 2);
    MulMod(modulus, 1);
    assert Hazard(p, s, 2, -1);
    NeverStaleIff(p);
  }

  ghost predicate Ranges(p: Params, n: nat, period: nat, modulus: nat, gap: nat) {
    ValidParams(p) && p.n == n && p.period == period && p.modulus == modulus && Dense(p, gap)
  }

  /** The protocol is safe on every schedule whose data steps are at most `gap` apart exactly when
      the gap and the cleaning period together stay below the flag modulus. */
  lemma SafeGapIff(n: nat, period: nat, modulus: nat, gap: nat)
    requires 0 < n <= period && period % n == 0 && modulus > 1 && modulus % n == 0 && gap > 0
    ensures (forall p: Params | Ranges(p, n, period, modulus, gap) :: NeverStale(p)) <==> gap + period < modulus
  {
    if gap + period < modulus {
      forall p: Params | Ranges(p, n, period, modulus, gap)
        ensures NeverStale(p)
      {
        DenseIsSafe(p, gap);
        NeverStaleIff(p);
      }
    } else {
      SparseIsDense(n, period, modulus, gap);
      SparseIsStale(n, period, modulus);
      assert Ranges(Sparse(n, period, modulus), n, period, modulus, gap);
    }
  }

  /** The mask test on a 64-bit step selects the last eight steps of every 2^31. */
  lemma MaskSelects(s: bv64)
    ensures s & 0x7ffffff8 == 0x7ffffff8 <==> s % 0x80000000 >= 0x7ffffff8
    ensures s & 0x078 == 0x078 <==> s % 0x80 >= 0x78
  {
  }

  /** With the shipped constants, and with those of the clean-up test build: the gaps between steps with data
      on which no schedule is ever stale are exactly those shorter than the cleaning period. */
  lemma ShippedConstants(gap: nat)
    requires gap > 0
    ensures (forall p: Params | Ranges(p, 8, 0x80000000, 0x1_0000_0000, gap) :: NeverStale(p)) <==> gap < 0x80000000
    ensures (forall p: Params | Ranges(p, 8, 0x80, 0x100, gap) :: NeverStale(p)) <==> gap < 0x80
  {
    SafeGapIff(8, 0x80000000, 0x1_0000_0000, gap);
    SafeGapIff(8, 0x80, 0x100, gap);
  }
}
