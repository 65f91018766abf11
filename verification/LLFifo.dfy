/** The low-latency protocol: every half of a FIFO line carries the flag of the step that wrote it,
    flags wrap, and the writer periodically rewrites whole slots so that old flags cannot return. */
module LLFifo {
  /** `n` slots of `lines` lines, flags modulo `modulus`, cleaning in the last `n` steps of every
      `period`; step `s` carries `cnt(s)` lines, half `j` of it the word `data(s, j)`.  The halves
      of line `l` are `2 * l` and `2 * l + 1`. */
  datatype Params = Params(n: nat, period: nat, modulus: nat, lines: nat, cnt: nat -> nat, data: (nat, nat) -> int)

  ghost predicate ValidParams(p: Params) {
    && 0 < p.n <= p.period && p.period % p.n == 0 && p.modulus > 0
    && forall s: nat :: p.cnt(s) <= p.lines
  }

  predicate Clean(p: Params, s: nat)
    requires p.period > 0
  {
    s % p.period >= p.period - p.n
  }

  /** Step `s` writes half `j`: it holds data, or the step cleans the rest of the slot. */
  predicate Writes(p: Params, s: nat, j: nat)
    requires p.period > 0
  {
    j < 2 * p.cnt(s) || (Clean(p, s) && j < 2 * p.lines)
  }

  function Flag(p: Params, at: int): int
    requires p.modulus > 0
  {
    (at + 1) % p.modulus
  }

  /** Half a line: its word, its flag, and the step that wrote it (-1 for the initial zeros). */
  datatype Cell = Cell(word: int, flag: int, at: int)

  function CellOf(p: Params, at: int, j: nat): Cell
    requires p.modulus > 0
  {
    Cell(if at >= 0 && j < 2 * p.cnt(at) then p.data(at, j) else 0, Flag(p, at), at)
  }

  /** `s`, `on`, `wrote`, `cache`: the sender's step, whether its wait is over, the halves it has
      stored in this step, the last head it saw.  `head`, `r`, `low`, `acc`: the posted head, the
      receiver's step, first halves loaded, lines accepted. */
  datatype State = State(s: nat, on: bool, wrote: set<nat>, cache: nat, head: nat, r: nat,
                         low: map<nat, Cell>, acc: map<nat, (Cell, Cell)>, mem: (nat, nat) -> Cell)

  datatype Action = Refresh | Start | Write(j: nat) | Finish | ReadLow(l: nat) | ReadHigh(l: nat) | Advance | Post

  ghost predicate Enabled(p: Params, st: State, a: Action)
    requires ValidParams(p)
  {
    match a
    case Refresh => !st.on
    case Start => !st.on && st.s + 1 <= st.cache + p.n
    case Write(j) => st.on && Writes(p, st.s, j) && j !in st.wrote
    case Finish => st.on && forall j: nat | Writes(p, st.s, j) :: j in st.wrote
    case ReadLow(l) => l < p.cnt(st.r) && l !in st.acc
    case ReadHigh(l) => l < p.cnt(st.r) && l !in st.acc && l in st.low
    case Advance => forall l: nat | l < p.cnt(st.r) :: l in st.acc
    case Post => st.head < st.r
  }

  function Stored(p: Params, st: State, j: nat): (nat, nat) -> Cell
    requires p.n > 0 && p.modulus > 0
  {
    (slot: nat, k: nat) => if slot == st.s % p.n && k == j then CellOf(p, st.s, j) else st.mem(slot, k)
  }

  /** Both flags must be the expected one; otherwise the load starts over. */
  function Loaded(p: Params, st: State, l: nat, low: Cell): State
    requires p.n > 0 && p.modulus > 0
  {
    var high := st.mem(st.r % p.n, 2 * l + 1);
    if low.flag == Flag(p, st.r) && high.flag == Flag(p, st.r) then
      st.(acc := st.acc[l := (low, high)], low := st.low - {l})
    else
      st.(low := st.low - {l})
  }

  ghost function Next(p: Params, st: State, a: Action): State
    requires ValidParams(p) && Enabled(p, st, a)
  {
    match a
    case Refresh => st.(cache := st.head)
    case Start => st.(on := true)
    case Write(j) => st.(wrote := st.wrote + {j}, mem := Stored(p, st, j))
    case Finish => st.(s := st.s + 1, on := false, wrote := {})
    case ReadLow(l) => st.(low := st.low[l := st.mem(st.r % p.n, 2 * l)])
    case ReadHigh(l) => Loaded(p, st, l, st.low[l])
    case Advance => st.(r := st.r + 1, low := map[], acc := map[])
    case Post => st.(head := st.head + 1)
  }

  ghost predicate Init(p: Params, st: State)
    requires ValidParams(p)
  {
    && st.s == 0 && !st.on && st.wrote == {} && st.cache == 0 && st.head == 0 && st.r == 0
    && st.low == map[] && st.acc == map[]
    && forall slot: nat, j: nat :: st.mem(slot, j) == Cell(0, 0, -1)
  }

  ghost predicate Takes(p: Params, st: State, a: Action, t: State)
    requires ValidParams(p)
  {
    Enabled(p, st, a) && t == Next(p, st, a)
  }

  ghost predicate Step(p: Params, st: State, t: State)
    requires ValidParams(p)
  {
    exists a: Action :: Takes(p, st, a, t)
  }

  ghost predicate IsRun(p: Params, run: seq<State>)
    requires ValidParams(p)
  {
    && |run| > 0 && Init(p, run[0])
    && forall i: nat | i + 1 < |run| :: Step(p, run[i], run[i + 1])
  }

  ghost predicate EndsIn(p: Params, run: seq<State>, st: State)
    requires ValidParams(p)
  {
    IsRun(p, run) && run[|run| - 1] == st
  }

  ghost predicate Reachable(p: Params, st: State)
    requires ValidParams(p)
  {
    exists run: seq<State> :: EndsIn(p, run, st)
  }

  /** The receiver's promise: both halves of what it has accepted for its step were written at exactly that
      step, and their words are the data of the line, in order. */
  ghost predicate Genuine(p: Params, st: State)
    requires ValidParams(p)
  {
    forall l: nat | l in st.acc ::
      && l < p.cnt(st.r) && st.acc[l].0.at == st.acc[l].1.at == st.r
      && st.acc[l].0.word == p.data(st.r, 2 * l) && st.acc[l].1.word == p.data(st.r, 2 * l + 1)
  }

  ghost predicate NeverStale(p: Params)
    requires ValidParams(p)
  {
    forall st: State | Reachable(p, st) :: Genuine(p, st)
  }

  /** By the time the receiver is at step `s`, the write of half `j` at the earlier step `w` must
      have happened: the half was data, or a later step below `s` carried data. */
  ghost predicate Forced(p: Params, w: nat, j: nat, s: nat) {
    j < 2 * p.cnt(w) || exists d: nat :: w < d < s && p.cnt(d) > 0
  }

  /** No write to half `j` of the slot of `s` after step `u` must have happened. */
  ghost predicate Unforced(p: Params, u: int, s: nat, j: nat)
    requires ValidParams(p)
  {
    forall w: nat | u < w < s && w % p.n == s % p.n && Writes(p, w, j) :: !Forced(p, w, j, s)
  }

  /** Half `j` of the slot of step `s` can still hold what step `u` wrote when the receiver looks. */
  ghost predicate Visible(p: Params, u: int, s: nat, j: nat)
    requires ValidParams(p)
  {
    && -1 <= u < s
    && (u >= 0 ==> u % p.n == s % p.n && Writes(p, u, j))
    && Unforced(p, u, s, j)
  }

  /** Such an old half carries the flag expected at step `s`. */
  ghost predicate Hazard(p: Params, s: nat, j: nat, u: int)
    requires ValidParams(p)
  {
    j < 2 * p.cnt(s) && Visible(p, u, s, j) && (s - u) % p.modulus == 0
  }

  ghost predicate NoHazard(p: Params)
    requires ValidParams(p)
  {
    forall s: nat, j: nat, u: int :: !Hazard(p, s, j, u)
  }

  /** Between one step with data and the next there are at most `gap` steps. */
  ghost predicate Dense(p: Params, gap: nat) {
    forall s: nat | p.cnt(s) > 0 :: exists d: int :: DataBefore(p, s, d) && s - d <= gap
  }

  ghost predicate DataBefore(p: Params, s: nat, d: int) {
    -1 <= d < s && (d >= 0 ==> p.cnt(d) > 0)
  }
}
