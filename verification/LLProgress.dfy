/** The low-latency protocol never gets stuck: from every reachable state the two ends can bring the receiver
    past any step. */
module LLProgress {
  import opened LLFifo
  import opened LLFifoProof

  ghost predicate IsPath(p: Params, path: seq<State>, st: State, t: State)
    requires ValidParams(p)
  {
    && |path| > 0 && path[0] == st && path[|path| - 1] == t
    && forall i: nat | i + 1 < |path| :: Step(p, path[i], path[i + 1])
  }

  /** Some steps lead from `st` to `t`. */
  ghost predicate Leads(p: Params, st: State, t: State)
    requires ValidParams(p)
  {
    exists path: seq<State> :: IsPath(p, path, st, t)
  }

  /** `st` was reached from `o`, and satisfies what holds in every reachable state. */
  ghost predicate From(p: Params, o: State, st: State)
    requires ValidParams(p)
  {
    Leads(p, o, st) && Window(p, st) && Memory(p, st)
  }

  lemma Here(p: Params, st: State)
    requires ValidParams(p) && Window(p, st) && Memory(p, st)
    ensures From(p, st, st)
  {
    assert IsPath(p, [st], st, st);
  }

  lemma Go(p: Params, o: State, st: State, a: Action) returns (t: State)
    requires ValidParams(p) && From(p, o, st) && Enabled(p, st, a)
    ensures t == Next(p, st, a) && From(p, o, t)
  {
    t := Next(p, st, a);
    assert Takes(p, st, a, t);
    StepMemory(p, st, a, t);
    var path: seq<State> :| IsPath(p, path, o, st);
    assert IsPath(p, path + [t], o, t);
  }

  // The sender.

  lemma {:induction false} PostAll(p: Params, o: State, st: State) returns (t: State)
    requires ValidParams(p) && From(p, o, st)
    ensures From(p, o, t) && t == st.(head := st.r)
    decreases st.r - st.head
  {
    t := st;
    if st.head < st.r {
      t := Go(p, o, st, Post);
      t := PostAll(p, o, t);
    }
  }

  /** A sender that is not ahead of the receiver gets its credit. */
  lemma Begin(p: Params, o: State, st: State) returns (t: State)
    requires ValidParams(p) && From(p, o, st) && st.s <= st.r
    ensures From(p, o, t) && t.on && t.s == st.s && t.r == st.r
  {
    t := st;
    if !st.on {
      t := PostAll(p, o, t);
      t := Go(p, o, t, Refresh);
      t := Go(p, o, t, LLFifo.Start);
    }
  }

  lemma {:induction false} WriteAll(p: Params, o: State, st: State, m: nat) returns (t: State)
    requires ValidParams(p) && From(p, o, st) && st.on
    ensures From(p, o, t) && t.on && t.s == st.s && t.r == st.r
    ensures forall j: nat | j < m && Writes(p, t.s, j) :: j in t.wrote
  {
    t := st;
    if m > 0 {
      t := WriteAll(p, o, st, m - 1);
      if Writes(p, t.s, m - 1) && m - 1 !in t.wrote { t := Go(p, o, t, Write(m - 1)); }
    }
  }

  lemma SendStep(p: Params, o: State, st: State) returns (t: State)
    requires ValidParams(p) && From(p, o, st) && st.s <= st.r
    ensures From(p, o, t) && t.s == st.s + 1 && t.r == st.r
  {
    t := Begin(p, o, st);
    t := WriteAll(p, o, t, 2 * p.lines);
    t := Go(p, o, t, Finish);
  }

  // The receiver.

  /** A line that has been stored is accepted. */
  lemma TakeLine(p: Params, o: State, st: State, l: nat) returns (t: State)
    requires ValidParams(p) && From(p, o, st) && st.r < st.s && l < p.cnt(st.r) && l !in st.acc
    ensures From(p, o, t) && t.s == st.s && t.r == st.r && t.acc.Keys == st.acc.Keys + {l}
  {
    WrittenIsThere(p, st, 2 * l);
    WrittenIsThere(p, st, 2 * l + 1);
    t := Go(p, o, st, ReadLow(l));
    t := Go(p, o, t, ReadHigh(l));
  }

  lemma {:induction false} TakeLines(p: Params, o: State, st: State, m: nat) returns (t: State)
    requires ValidParams(p) && From(p, o, st) && st.r < st.s && m <= p.cnt(st.r)
    ensures From(p, o, t) && t.s == st.s && t.r == st.r && forall l: nat | l < m :: l in t.acc
  {
    t := st;
    if m > 0 {
      t := TakeLines(p, o, st, m - 1);
      if m - 1 !in t.acc { t := TakeLine(p, o, t, m - 1); }
    }
  }

  lemma RecvStep(p: Params, o: State, st: State) returns (t: State)
    requires ValidParams(p) && From(p, o, st) && st.r < st.s
    ensures From(p, o, t) && t.s == st.s && t.r == st.r + 1
  {
    t := TakeLines(p, o, st, p.cnt(st.r));
    t := Go(p, o, t, Advance);
  }

  lemma {:induction false} Onward(p: Params, o: State, st: State, k: nat) returns (t: State)
    requires ValidParams(p) && From(p, o, st)
    ensures From(p, o, t) && t.r >= k
    decreases if st.r < k then k - st.r else 0, if st.s <= st.r then st.r - st.s + 1 else 0
  {
    t := st;
    if st.r < k {
      if st.r < st.s { t := RecvStep(p, o, st); } else { t := SendStep(p, o, st); }
      t := Onward(p, o, t, k);
    }
  }

  /** Whatever has happened so far, with whatever flags in memory, the two ends can go on until the receiver
      has passed step `k`. */
  lemma NeverStuck(p: Params, st: State, k: nat)
    requires ValidParams(p) && Reachable(p, st)
    ensures exists t :: Leads(p, st, t) && t.r >= k
  {
    ReachableMemory(p, st);
    Here(p, st);
    var t := Onward(p, st, st, k);
  }
}
