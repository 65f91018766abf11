/** The operations along a list of the pool, rank by rank. */
module ProxyLists {
  import opened ProxyPool

  /** Operations of rank `r` along a list, in order. */
  ghost function Log(g: Cfg, op: seq<Op>, r: nat, s: seq<int>): seq<Op> {
    if s == [] then []
    else
      var x := s[|s| - 1];
      Log(g, op, r, s[..|s| - 1]) + (if 0 <= x < |op| && g.home(x) == r then [op[x]] else [])
  }

  lemma {:induction false} LogConcat(g: Cfg, op: seq<Op>, r: nat, a: seq<int>, b: seq<int>)
    ensures Log(g, op, r, a + b) == Log(g, op, r, a) + Log(g, op, r, b)
    decreases |b|
  {
    if b == [] {
      assert a + b == a;
    } else {
      var k := |b| - 1;
      LogConcat(g, op, r, a, b[..k]);
      assert (a + b)[..|a + b| - 1] == a + b[..k];
    }
  }

  lemma {:induction false} LogSame(g: Cfg, op: seq<Op>, op': seq<Op>, r: nat, s: seq<int>)
    requires |op| == |op'| && forall x | 0 <= x < |op| && x in s :: op[x] == op'[x]
    ensures Log(g, op, r, s) == Log(g, op', r, s)
    decreases |s|
  {
    if s != [] {
      assert s[|s| - 1] in s;
      LogSame(g, op, op', r, s[..|s| - 1]);
    }
  }

  lemma LogOne(g: Cfg, op: seq<Op>, r: nat, x: int)
    ensures Log(g, op, r, [x]) == if 0 <= x < |op| && g.home(x) == r then [op[x]] else []
  {
    assert [x][..0] == [];
  }

  lemma {:induction false} LogOther(g: Cfg, op: seq<Op>, r: nat, s: seq<int>)
    requires forall x: nat | x in s :: g.home(x) != r
    ensures Log(g, op, r, s) == []
    decreases |s|
  {
    if s != [] {
      assert s[|s| - 1] in s;
      LogOther(g, op, r, s[..|s| - 1]);
    }
  }
}
