/** Singly linked lists threaded through one array of next pointers, each holding exactly the
    elements marked with its place. */
module PlacedLists {

  predicate NoDup(s: seq<int>) { forall i, j | 0 <= i < j < |s| :: s[i] != s[j] }

  /** Every element of `s` now at place `p`. */
  ghost function Move<P>(own: seq<P>, s: seq<int>, p: P): seq<P> {
    seq(|own|, x requires 0 <= x < |own| => if x in s then p else own[x])
  }

  ghost predicate At<P>(own: seq<P>, p: P, s: seq<int>) {
    && NoDup(s)
    && (forall x | x in s :: 0 <= x < |own|)
    && forall x | 0 <= x < |own| :: x in s <==> own[x] == p
  }

  ghost predicate Linked(next: seq<int>, s: seq<int>) {
    && (forall i | 0 <= i < |s| :: 0 <= s[i] < |next|)
    && forall i | 0 <= i < |s| - 1 :: next[s[i]] == s[i + 1]
  }

  ghost predicate Closed(next: seq<int>, s: seq<int>) {
    s != [] ==> 0 <= s[|s| - 1] < |next| && next[s[|s| - 1]] == -1
  }

  ghost predicate Begins(head: int, s: seq<int>) { head == if s == [] then -1 else s[0] }

  ghost predicate Ends(last: int, s: seq<int>) { s != [] ==> last == s[|s| - 1] }

  /** The elements at place `p` form a list from `head`; `HasList` also says how it ends. */
  ghost predicate HasOpen<P>(own: seq<P>, next: seq<int>, p: P, head: int, s: seq<int>) {
    |own| == |next| && At(own, p, s) && Linked(next, s) && Begins(head, s)
  }

  ghost predicate HasList<P>(own: seq<P>, next: seq<int>, p: P, head: int, s: seq<int>) {
    HasOpen(own, next, p, head, s) && Closed(next, s)
  }

  /** Place `p` keeps its elements and their pointers. */
  ghost predicate SameFor<P>(own: seq<P>, next: seq<int>, own': seq<P>, next': seq<int>, p: P) {
    && |own| == |next| == |own'| == |next'|
    && forall x | 0 <= x < |own| :: (own'[x] == p <==> own[x] == p) && (own[x] == p ==> next'[x] == next[x])
  }

  lemma Keep<P>(own: seq<P>, next: seq<int>, own': seq<P>, next': seq<int>, p: P, head: int, s: seq<int>)
    requires HasOpen(own, next, p, head, s) && SameFor(own, next, own', next', p)
    ensures HasOpen(own', next', p, head, s)
    ensures Closed(next, s) ==> Closed(next', s)
  {
    assert forall i | 0 <= i < |s| :: s[i] in s && own[s[i]] == p;
  }

  /** Moving elements from place `a` to place `b` and changing pointers only there concerns no
      other place. */
  lemma OtherPlace<P>(own: seq<P>, next: seq<int>, s: seq<int>, a: P, b: P, next': seq<int>, p: P)
    requires |own| == |next| == |next'| && p != a && p != b
    requires forall x | 0 <= x < |own| && x in s :: own[x] == a
    requires forall x | 0 <= x < |own| && next'[x] != next[x] :: own[x] == a || own[x] == b
    ensures SameFor(own, next, Move(own, s, b), next', p)
  {
  }

  /** What is left of a list after its first elements moved away. */
  lemma MoveAway<P>(own: seq<P>, a: P, s: seq<int>, t: seq<int>, b: P)
    requires At(own, a, s + t) && a != b
    ensures At(Move(own, s, b), a, t)
  {
    var all, own' := s + t, Move(own, s, b);
    forall i, j | 0 <= i < j < |t| ensures t[i] != t[j] {
      assert all[|s| + i] == t[i] && all[|s| + j] == t[j];
    }
    forall x | x in t ensures 0 <= x < |own'| && x !in s {
      assert x in all;
      var j :| 0 <= j < |t| && t[j] == x;
      assert all[|s| + j] == x;
      forall i | 0 <= i < |s| ensures s[i] != x { assert all[i] == s[i]; }
    }
    forall x | 0 <= x < |own'| ensures x in t <==> own'[x] == a {
      assert x in all <==> x in s || x in t;
    }
  }

  lemma MoveOnto<P>(own: seq<P>, a: P, b: P, s: seq<int>, t: seq<int>, joined: seq<int>)
    requires At(own, b, t) && a != b && NoDup(s) && (forall x | x in s :: 0 <= x < |own| && own[x] == a)
    requires joined == s + t || joined == t + s
    ensures At(Move(own, s, b), b, joined)
  {
    var own' := Move(own, s, b);
    forall x | x in s ensures x !in t { assert own[x] == a; }
    forall x ensures x in joined <==> x in s || x in t {}
    forall i, j | 0 <= i < j < |joined| ensures joined[i] != joined[j] {
      var k := if joined == s + t then |s| else |t|;
      if i < k <= j {
        assert (joined[i] in s && joined[j] in t) || (joined[i] in t && joined[j] in s);
      }
    }
  }

  lemma ListRest<P>(own: seq<P>, next: seq<int>, p: P, s: seq<int>)
    requires s != [] && HasList(own, next, p, s[0], s)
    ensures s == [s[0]] + s[1..] && next[s[0]] == (if |s| == 1 then -1 else s[1])
    ensures Linked(next, s[1..]) && Closed(next, s[1..]) && s[0] !in s[1..]
  {
    assert s[0] in s;
    forall i | 0 <= i < |s| - 1 ensures s[1..][i] != s[0] { assert s[1..][i] == s[i + 1]; }
  }

  lemma Relink(next: seq<int>, next': seq<int>, s: seq<int>)
    requires |next| == |next'| && Linked(next, s) && forall y | y in s :: 0 <= y < |next| && next'[y] == next[y]
    ensures Linked(next', s) && (Closed(next, s) ==> Closed(next', s))
  {
    assert forall i | 0 <= i < |s| :: s[i] in s;
  }

  lemma AppendChain(next: seq<int>, next': seq<int>, s: seq<int>, x: int)
    requires |next| == |next'| && Linked(next, s) && NoDup(s) && x !in s && 0 <= x < |next|
    requires next' == if s == [] then next[x := -1] else next[x := -1][s[|s| - 1] := x]
    ensures Linked(next', s + [x]) && Closed(next', s + [x])
  {
    var l := s + [x];
    forall i | 0 <= i < |l| - 1 ensures next'[l[i]] == l[i + 1] {
      assert l[i] == s[i] && s[i] in s;
    }
  }

  /** Joining two lists by one pointer. */
  lemma JoinChains(next: seq<int>, next': seq<int>, a: seq<int>, b: seq<int>)
    requires |next| == |next'| && Linked(next, a) && Linked(next, b) && b != []
    requires forall i | 0 <= i < |a| - 1 :: next'[a[i]] == next[a[i]]
    requires forall i | 0 <= i < |b| - 1 :: next'[b[i]] == next[b[i]]
    requires a != [] ==> next'[a[|a| - 1]] == b[0]
    ensures Linked(next', a + b)
  {
    var l := a + b;
    forall i | 0 <= i < |l| - 1 ensures next'[l[i]] == l[i + 1] {
      if i < |a| - 1 { assert l[i] == a[i] && l[i + 1] == a[i + 1]; }
      if i >= |a| { assert l[i] == b[i - |a|] && l[i + 1] == b[i - |a| + 1]; }
    }
  }

  lemma SplitChain<P>(own: seq<P>, next: seq<int>, p: P, head: int, s: seq<int>, k: nat)
    requires HasList(own, next, p, head, s) && 0 < k <= |s|
    ensures s == s[..k] + s[k..] && NoDup(s[..k]) && NoDup(s[k..]) && Linked(next, s[..k]) && Linked(next, s[k..])
    ensures Closed(next, s[k..]) && next[s[k - 1]] == (if k == |s| then -1 else s[k])
    ensures forall x | x in s[..k] :: x in s && own[x] == p && x !in s[k..]
    ensures forall x | x in s[k..] :: x in s && own[x] == p
  {
    assert s == s[..k] + s[k..];
    forall x | x in s[..k] ensures x in s && x !in s[k..] {
      var i :| 0 <= i < k && s[..k][i] == x;
      assert s[i] == x;
      forall j | 0 <= j < |s[k..]| ensures s[k..][j] != x { assert s[k..][j] == s[k + j]; }
    }
  }

  /** Putting another element in the place of the `k`-th one. */
  lemma ReplaceNode(next: seq<int>, next': seq<int>, h: seq<int>, k: nat, y: int)
    requires |next| == |next'| && Linked(next, h) && Closed(next, h) && k < |h| && 0 <= y < |next|
    requires forall i | 0 <= i < |h| && i != k && i + 1 != k :: next'[h[i]] == next[h[i]]
    requires (k > 0 ==> next'[h[k - 1]] == y) && next'[y] == next[h[k]]
    ensures Linked(next', h[k := y]) && Closed(next', h[k := y])
  {
    var l := h[k := y];
    forall i | 0 <= i < |l| - 1 ensures next'[l[i]] == l[i + 1] {
      assert i != k ==> l[i] == h[i];
    }
    assert |h| - 1 != k ==> l[|h| - 1] == h[|h| - 1];
  }

  /** Leaving the `k`-th element out. */
  lemma DropNode(next: seq<int>, next': seq<int>, h: seq<int>, k: nat)
    requires |next| == |next'| && Linked(next, h) && Closed(next, h) && k < |h|
    requires forall i | 0 <= i < |h| && i != k && i + 1 != k :: next'[h[i]] == next[h[i]]
    requires k > 0 ==> next'[h[k - 1]] == next[h[k]]
    ensures Linked(next', h[..k] + h[k + 1..]) && Closed(next', h[..k] + h[k + 1..])
  {
    var l := h[..k] + h[k + 1..];
    forall i | 0 <= i < |l| ensures l[i] == h[if i < k then i else i + 1] {}
    forall i | 0 <= i < |l| - 1 ensures next'[l[i]] == l[i + 1] {}
  }

  /** Fewer numbers than a range has leave one out; more distinct ones do not fit. */
  lemma {:induction false} Missing(s: seq<int>, lo: int, n: nat) returns (x: int)
    requires |s| < n
    ensures lo <= x < lo + n && x !in s
    decreases n
  {
    if lo + n - 1 !in s {
      x := lo + n - 1;
    } else {
      var i :| 0 <= i < |s| && s[i] == lo + n - 1;
      var u := s[..i] + s[i + 1..];
      x := Missing(u, lo, n - 1);
      forall j | 0 <= j < |s| ensures s[j] != x {
        assert j < i ==> u[j] == s[j];
        assert j > i ==> u[j - 1] == s[j];
      }
    }
  }

  lemma {:induction false} AtMost(s: seq<int>, n: nat)
    requires NoDup(s) && forall x | x in s :: 0 <= x < n
    ensures |s| <= n
    decreases n
  {
    assert s != [] ==> s[0] in s;
    if n > 0 {
      if n - 1 in s {
        var i :| 0 <= i < |s| && s[i] == n - 1;
        var u := s[..i] + s[i + 1..];
        forall x | x in u ensures 0 <= x < n - 1 {
          var j :| 0 <= j < |u| && u[j] == x;
          var k := if j < i then j else j + 1;
          assert u[j] == s[k] && s[k] in s && s[k] != s[i];
        }
        AtMost(u, n - 1);
      } else {
        AtMost(s, n - 1);
      }
    }
  }

  lemma CoversRange(s: seq<int>, n: nat)
    requires NoDup(s) && forall x :: x in s <==> 0 <= x < n
    ensures |s| == n
  {
    AtMost(s, n);
    if |s| < n { var x := Missing(s, 0, n); }
  }

  /** Of two equal elements one can go. */
  lemma DropOne(s: seq<int>, i: nat, j: nat, x: int)
    requires i < j < |s| && s[i] == s[j] && x in s
    ensures x in s[..j] + s[j + 1..]
  {
    var t := s[..j] + s[j + 1..];
    var k :| 0 <= k < |s| && s[k] == x;
    assert t[if k < j then k else if k == j then i else k - 1] == x;
  }

  /** A sequence of `n` numbers that contains all of a range of `n` contains none twice. */
  lemma NoneTwice(s: seq<int>)
    requires forall x | 0 <= x < |s| :: x in s
    ensures NoDup(s)
  {
    forall i, j | 0 <= i < j < |s| ensures s[i] != s[j] {
      if s[i] == s[j] {
        var t := s[..j] + s[j + 1..];
        forall x | x in s ensures x in t { DropOne(s, i, j, x); }
        var x := Missing(t, 0, |s|);
      }
    }
  }

  /** Lists without a common element and without repetition join to one without repetition. */
  lemma Apart(a: seq<int>, b: seq<int>)
    requires NoDup(a) && NoDup(b) && forall x | x in b :: x !in a
    ensures NoDup(a + b)
  {
    forall i, j | 0 <= i < j < |a + b| ensures (a + b)[i] != (a + b)[j] {
      assert i < |a| <= j ==> a[i] in a && b[j - |a|] in b;
    }
  }
}
