/** The cache of registered buffers: page ranges in address order, each with a reference count. */
module RegCache {
  import opened Arith
  import opened Sequences

  datatype Reg = Reg(handle: nat, addr: nat, pages: nat, refs: nat)

  /** The first page of a buffer and the number of pages it touches. */
  function PageOf(page: nat, data: nat): (a: nat)
    requires page > 0
    ensures a <= data < a + page
  {
    data - data % page
  }

  function Pages(page: nat, data: nat, size: nat): nat
    requires page > 0
  {
    DivUp(data + size - PageOf(page, data), page)
  }

  /** The test of the code: offset in whole pages, plus the pages wanted, within the pages held. */
  predicate Covers(page: nat, r: Reg, addr: nat, pages: nat)
    requires page > 0
  {
    addr >= r.addr && (addr - r.addr) / page + pages <= r.pages
  }

  /** What it is for: every byte of the buffer lies inside the registered range. */
  predicate Holds(page: nat, r: Reg, data: nat, size: nat) {
    r.addr <= data && data + size <= r.addr + r.pages * page
  }

  lemma DivUpLe(x: nat, y: nat, n: int)
    requires y > 0
    ensures DivUp(x, y) <= n <==> x <= y * n
  {
    var q := DivUp(x, y);
    if q <= n { MulMono(q, n, y); } else { if n >= 0 { MulMono(n, q - 1, y); } else { assert y * n < 0; } }
  }

  lemma InPages(page: nat, k: nat, q: nat, rest: nat, pages: nat)
    requires page > 0
    ensures q - k + DivUp(rest, page) <= pages <==> page * q + rest <= page * k + pages * page
  {
    DivUpLe(rest, page, k + pages - q);
    assert page * (k + pages - q) == page * k + page * pages - page * q;
  }

  lemma PageGap(page: nat, k: nat, q: nat)
    requires page > 0
    ensures page * q >= page * k <==> q >= k
    ensures q >= k ==> (page * q - page * k) / page == q - k
  {
    if q >= k {
      MulMono(k, q, page);
      assert page * q - page * k == page * (q - k);
      DivModUnique(page * q - page * k, page, q - k, 0);
    } else {
      MulMono(q + 1, k, page);
      assert page * (q + 1) == page * q + page;
    }
  }

  lemma PageBelow(page: nat, k: nat, q: nat, m: nat)
    requires m < page
    ensures page * k <= page * q + m <==> k <= q
  {
    if k <= q { MulMono(k, q, page); } else {
      MulMono(q + 1, k, page);
      assert page * (q + 1) == page * q + page;
    }
  }

  lemma CoversAt(page: nat, low: nat, high: nat, rest: nat, size: nat, pages: nat)
    requires rest < page && low % page == 0 && high % page == 0
    ensures high >= low && (high - low) / page + DivUp(rest + size, page) <= pages
            <==> low <= high + rest && high + (rest + size) <= low + pages * page
  {
    var k, q := Quot(low, page), Quot(high, page);
    assert low == page * k && high == page * q;
    PageGap(page, k, q);
    PageBelow(page, k, q, rest);
    InPages(page, k, q, rest + size, pages);
  }

  lemma PageAligned(page: nat, data: nat)
    requires page > 0
    ensures PageOf(page, data) % page == 0
  {
    var q := Quot(data, page);
    assert PageOf(page, data) == page * q;
    MulMod(page, q);
  }

  /** The page test is the byte test, for every buffer, empty ones included. */
  lemma CoversIff(page: nat, r: Reg, data: nat, size: nat)
    requires page > 0 && r.addr % page == 0
    ensures Covers(page, r, PageOf(page, data), Pages(page, data, size)) <==> Holds(page, r, data, size)
  {
    var high := PageOf(page, data);
    PageAligned(page, data);
    CoversAt(page, r.addr, high, data - high, size, r.pages);
    assert data - high + size == data + size - high;
  }

  lemma EntryHolds(page: nat, r: Reg, data: nat, size: nat)
    requires page > 0 && r.addr == PageOf(page, data) && r.pages == Pages(page, data, size)
    ensures r.addr % page == 0 && Around(page, r, Buffer(r.handle, data, size))
  {
    PageAligned(page, data);
    var rest := data + size - r.addr;
    if r.pages > 0 { assert page * (r.pages - 1) == r.pages * page - page; }
  }

  /** In address order, on page boundaries, no handle twice. */
  ghost predicate Ordered(page: nat, slots: seq<Reg>)
    requires page > 0
  {
    && (forall i | 0 <= i < |slots| :: slots[i].addr % page == 0)
    && (forall i, j | 0 <= i < j < |slots| :: slots[i].addr <= slots[j].addr)
    && forall i, j | 0 <= i < j < |slots| :: slots[i].handle != slots[j].handle
  }

  /** A buffer that was registered under a handle. */
  datatype Buffer = Buffer(handle: nat, data: nat, size: nat)

  ghost predicate Live(slots: seq<Reg>, h: nat) { exists i :: 0 <= i < |slots| && slots[i].handle == h }

  ghost predicate Inside(page: nat, slots: seq<Reg>, b: Buffer) {
    exists i :: 0 <= i < |slots| && slots[i].handle == b.handle && Holds(page, slots[i], b.data, b.size)
  }

  ghost predicate RefsMatch(slots: seq<Reg>, out: multiset<nat>) {
    forall i | 0 <= i < |slots| :: slots[i].refs == out[slots[i].handle] > 0
  }

  /** Reference counts are the registrations handed out and not given back; every handle out is live, and
      every buffer registered under it lies inside its range. */
  ghost predicate Counted(page: nat, slots: seq<Reg>, out: multiset<nat>, buffers: set<Buffer>) {
    && RefsMatch(slots, out)
    && (forall h | h in out :: Live(slots, h))
    && forall b | b in buffers :: Inside(page, slots, b)
  }

  /** The range is the pages of that buffer and no more. */
  ghost predicate Around(page: nat, r: Reg, b: Buffer) {
    && b.handle == r.handle && Holds(page, r, b.data, b.size)
    && b.data < r.addr + page && r.addr + r.pages * page < b.data + b.size + page
  }

  /** Every range is the pages of some buffer registered under its handle. */
  ghost predicate Tight(page: nat, slots: seq<Reg>, buffers: set<Buffer>) {
    forall i {:trigger TightAt(page, slots[i], buffers)} | 0 <= i < |slots| :: TightAt(page, slots[i], buffers)
  }

  ghost predicate TightAt(page: nat, r: Reg, buffers: set<Buffer>) { exists b :: b in buffers && Around(page, r, b) }

  ghost predicate SameRange(slots: seq<Reg>, r: Reg) {
    exists i :: 0 <= i < |slots| && slots[i].(refs := 0) == r.(refs := 0)
  }

  lemma TightGrows(page: nat, slots: seq<Reg>, slots': seq<Reg>, buffers: set<Buffer>, b: Buffer)
    requires Tight(page, slots, buffers)
    requires forall j | 0 <= j < |slots'| ::
               Around(page, slots'[j], b) || SameRange(slots, slots'[j])
    ensures Tight(page, slots', buffers + {b})
  {
    forall j | 0 <= j < |slots'| ensures TightAt(page, slots'[j], buffers + {b}) {
      if !Around(page, slots'[j], b) {
        var i :| 0 <= i < |slots| && slots[i].(refs := 0) == slots'[j].(refs := 0);
        assert TightAt(page, slots[i], buffers);
        var x :| x in buffers && Around(page, slots[i], x);
        assert Around(page, slots'[j], x);
      }
    }
  }

  lemma TightWithout(page: nat, slots: seq<Reg>, buffers: set<Buffer>, i: nat)
    requires page > 0 && Ordered(page, slots) && Tight(page, slots, buffers) && i < |slots|
    ensures Tight(page, Without(slots, i), buffers - Under(buffers, slots[i].handle))
  {
    var after := Without(slots, i);
    forall j | 0 <= j < |after| ensures TightAt(page, after[j], buffers - Under(buffers, slots[i].handle)) {
      var k := if j < i then j else j + 1;
      assert after[j] == slots[k] && slots[k].handle != slots[i].handle;
      assert TightAt(page, slots[k], buffers);
      var x :| x in buffers && Around(page, slots[k], x);
      assert x !in Under(buffers, slots[i].handle);
    }
  }

  function Insert(slots: seq<Reg>, i: nat, r: Reg): seq<Reg>
    requires i <= |slots|
  {
    slots[..i] + [r] + slots[i..]
  }

  /** Where the scan of the slots stops: at the first range that holds the buffer or starts above it. */
  ghost predicate Stops(page: nat, slots: seq<Reg>, data: nat, size: nat, i: nat)
    requires page > 0
  {
    && i <= |slots|
    && (forall j | 0 <= j < i :: slots[j].addr <= PageOf(page, data) && !Holds(page, slots[j], data, size))
    && (i < |slots| ==> PageOf(page, data) < slots[i].addr || Holds(page, slots[i], data, size))
  }

  lemma InsertOrdered(page: nat, slots: seq<Reg>, i: nat, r: Reg)
    requires page > 0 && Ordered(page, slots) && i <= |slots| && r.addr % page == 0 && !Live(slots, r.handle)
    requires forall j | 0 <= j < i :: slots[j].addr <= r.addr
    requires i < |slots| ==> r.addr < slots[i].addr
    ensures Ordered(page, Insert(slots, i, r))
  {
  }

  lemma InsertCounted(page: nat, slots: seq<Reg>, out: multiset<nat>, buffers: set<Buffer>, i: nat, r: Reg, b: Buffer)
    requires Counted(page, slots, out, buffers) && i <= |slots| && r.refs == 1 && !Live(slots, r.handle)
    requires b.handle == r.handle && Holds(page, r, b.data, b.size)
    ensures Counted(page, Insert(slots, i, r), out + multiset{r.handle}, buffers + {b})
  {
    var after := Insert(slots, i, r);
    assert r.handle !in out;
    assert after[i] == r;
    forall j | 0 <= j < |slots| ensures slots[j] == after[if j < i then j else j + 1] { }
    forall h | h in out + multiset{r.handle} ensures Live(after, h) {
      if h in out {
        var j :| 0 <= j < |slots| && slots[j].handle == h;
        assert after[if j < i then j else j + 1].handle == h;
      }
    }
    forall x | x in buffers + {b} ensures Inside(page, after, x) {
      if x in buffers {
        var j :| 0 <= j < |slots| && slots[j].handle == x.handle && Holds(page, slots[j], x.data, x.size);
        assert after[if j < i then j else j + 1] == slots[j];
      }
    }
  }

  lemma RefCounted(page: nat, slots: seq<Reg>, out: multiset<nat>, buffers: set<Buffer>, i: nat, b: Buffer)
    requires page > 0 && Ordered(page, slots) && Counted(page, slots, out, buffers) && i < |slots|
    requires b.handle == slots[i].handle && Holds(page, slots[i], b.data, b.size)
    ensures Ordered(page, slots[i := slots[i].(refs := slots[i].refs + 1)])
    ensures Counted(page, slots[i := slots[i].(refs := slots[i].refs + 1)], out + multiset{b.handle}, buffers + {b})
  {
    SameShape(page, slots, slots[i := slots[i].(refs := slots[i].refs + 1)], out, buffers + {b});
  }

  lemma SameShape(page: nat, slots: seq<Reg>, slots': seq<Reg>, out: multiset<nat>, buffers: set<Buffer>)
    requires |slots'| == |slots|
    requires forall j | 0 <= j < |slots| :: slots'[j].(refs := 0) == slots[j].(refs := 0)
    ensures forall h :: Live(slots, h) ==> Live(slots', h)
    ensures forall b | b in buffers :: Inside(page, slots, b) ==> Inside(page, slots', b)
  {
    forall h | Live(slots, h) ensures Live(slots', h) {
      var j :| 0 <= j < |slots| && slots[j].handle == h;
      assert slots'[j].handle == slots[j].(refs := 0).handle;
    }
    forall b | b in buffers && Inside(page, slots, b) ensures Inside(page, slots', b) {
      var j :| 0 <= j < |slots| && slots[j].handle == b.handle && Holds(page, slots[j], b.data, b.size);
      assert slots'[j].(refs := 0) == slots[j].(refs := 0);
    }
  }

  lemma UnrefCounted(page: nat, slots: seq<Reg>, out: multiset<nat>, buffers: set<Buffer>, i: nat)
    requires page > 0 && Ordered(page, slots) && Counted(page, slots, out, buffers) && i < |slots| && slots[i].refs > 1
    ensures Ordered(page, slots[i := slots[i].(refs := slots[i].refs - 1)])
    ensures Counted(page, slots[i := slots[i].(refs := slots[i].refs - 1)], out - multiset{slots[i].handle}, buffers)
    ensures Live(slots[i := slots[i].(refs := slots[i].refs - 1)], slots[i].handle)
    ensures slots[i].handle in out - multiset{slots[i].handle}
  {
    assert Live(slots, slots[i].handle);
    SameShape(page, slots, slots[i := slots[i].(refs := slots[i].refs - 1)], out, buffers);
  }

  ghost function Under(buffers: set<Buffer>, h: nat): set<Buffer> { set b | b in buffers && b.handle == h }

  lemma RemoveOrdered(page: nat, slots: seq<Reg>, i: nat)
    requires page > 0 && Ordered(page, slots) && i < |slots|
    ensures Ordered(page, Without(slots, i))
    ensures !Live(Without(slots, i), slots[i].handle)
  {
  }

  lemma RemoveMatch(page: nat, slots: seq<Reg>, out: multiset<nat>, i: nat)
    requires page > 0 && Ordered(page, slots) && RefsMatch(slots, out) && i < |slots| && slots[i].refs == 1
    ensures RefsMatch(Without(slots, i), out - multiset{slots[i].handle})
    ensures slots[i].handle !in out - multiset{slots[i].handle}
  {
    var after := Without(slots, i);
    forall j | 0 <= j < |after| ensures after[j].refs == (out - multiset{slots[i].handle})[after[j].handle] > 0 {
      assert after[j] == slots[if j < i then j else j + 1];
    }
  }

  lemma RemoveCounted(page: nat, slots: seq<Reg>, out: multiset<nat>, buffers: set<Buffer>, i: nat)
    requires page > 0 && Ordered(page, slots) && Counted(page, slots, out, buffers) && i < |slots| && slots[i].refs == 1
    ensures Counted(page, Without(slots, i), out - multiset{slots[i].handle}, buffers - Under(buffers, slots[i].handle))
    ensures slots[i].handle !in out - multiset{slots[i].handle}
  {
    var after, gone := Without(slots, i), slots[i].handle;
    RemoveMatch(page, slots, out, i);
    forall h | h in out - multiset{gone} ensures Live(after, h) {
      var j :| 0 <= j < |slots| && slots[j].handle == h;
      StillThere(slots, i, j);
    }
    forall b | b in buffers - Under(buffers, gone) ensures Inside(page, after, b) {
      var j :| 0 <= j < |slots| && slots[j].handle == b.handle && Holds(page, slots[j], b.data, b.size);
      StillThere(slots, i, j);
    }
  }

  /** The slots after a registration the network refused: the new entry was moved in and the population
      was not raised. */
  function Refused(slots: seq<Reg>, i: nat, r: Reg): seq<Reg>
    requires i <= |slots|
  {
    Insert(slots, i, r)[..|slots|]
  }

  /** A refused registration leaves the cache as it was exactly when its range belongs at the end;
      otherwise the last registration is lost and the counts no longer agree. */
  lemma RefusedIff(page: nat, slots: seq<Reg>, out: multiset<nat>, buffers: set<Buffer>, i: nat, r: Reg)
    requires page > 0 && Ordered(page, slots) && Counted(page, slots, out, buffers)
    requires i <= |slots| && r.refs == 1 && !Live(slots, r.handle)
    ensures Counted(page, Refused(slots, i, r), out, buffers) <==> i == |slots|
    ensures i == |slots| ==> Refused(slots, i, r) == slots
    ensures i < |slots| ==> !Live(Refused(slots, i, r), slots[|slots| - 1].handle)
  {
    var after := Refused(slots, i, r);
    if i < |slots| {
      assert after[i] == r;
      var last := slots[|slots| - 1];
      assert Live(slots, last.handle);
      forall j | 0 <= j < |after| ensures after[j].handle != last.handle {
        if j < i { assert after[j] == slots[j]; } else if i < j { assert after[j] == slots[j - 1]; }
      }
    } else {
      assert after == slots;
    }
  }

  datatype Result<T> = Ok(value: T) | Error

  /** The cache with its history: the handles given out and not given back, and the buffers registered
      under live handles. */
  datatype Book = Book(slots: seq<Reg>, out: multiset<nat>, buffers: set<Buffer>)

  ghost predicate Agrees(page: nat, k: Book) {
    Counted(page, k.slots, k.out, k.buffers) && Tight(page, k.slots, k.buffers)
  }

  ghost predicate Misses(page: nat, slots: seq<Reg>, data: nat, size: nat) {
    forall j | 0 <= j < |slots| :: !Holds(page, slots[j], data, size)
  }

  function Entry(page: nat, data: nat, size: nat, spare: nat): Reg
    requires page > 0
  {
    Reg(spare, PageOf(page, data), Pages(page, data, size), 1)
  }

  /** The scan stopped without finding a range. */
  predicate NotFound(page: nat, slots: seq<Reg>, data: nat, slot: nat)
    requires page > 0
  {
    slot >= |slots| || PageOf(page, data) < slots[slot].addr
  }

  ghost function Registered(page: nat, k: Book, data: nat, size: nat, spare: nat, netOk: bool, slot: nat): Book
    requires page > 0 && slot <= |k.slots|
  {
    if !NotFound(page, k.slots, data, slot) then
      var r := k.slots[slot];
      Book(k.slots[slot := r.(refs := r.refs + 1)], k.out + multiset{r.handle},
           k.buffers + {Buffer(r.handle, data, size)})
    else if netOk then
      Book(Insert(k.slots, slot, Entry(page, data, size, spare)), k.out + multiset{spare},
           k.buffers + {Buffer(spare, data, size)})
    else k.(slots := Refused(k.slots, slot, Entry(page, data, size, spare)))
  }

  /** The scan stops early only when no range holds the buffer. */
  lemma ScanMissesNone(page: nat, slots: seq<Reg>, data: nat, size: nat, slot: nat)
    requires page > 0 && Ordered(page, slots) && Stops(page, slots, data, size, slot)
    ensures NotFound(page, slots, data, slot) <==> Misses(page, slots, data, size)
  {
    if NotFound(page, slots, data, slot) {
      forall j | 0 <= j < |slots| ensures !Holds(page, slots[j], data, size) {
        if j >= slot { CoversIff(page, slots[j], data, size); }
      }
    }
  }

  lemma InsertTight(page: nat, slots: seq<Reg>, buffers: set<Buffer>, i: nat, r: Reg, b: Buffer)
    requires Tight(page, slots, buffers) && i <= |slots| && Around(page, r, b)
    ensures Tight(page, Insert(slots, i, r), buffers + {b})
  {
    var after := Insert(slots, i, r);
    forall j | 0 <= j < |after| && j != i ensures SameRange(slots, after[j]) {
      assert after[j] == slots[if j < i then j else j - 1];
    }
    TightGrows(page, slots, after, buffers, b);
  }

  lemma RefTight(page: nat, slots: seq<Reg>, buffers: set<Buffer>, i: nat, refs: nat, b: Buffer)
    requires Tight(page, slots, buffers) && i < |slots|
    ensures Tight(page, slots[i := slots[i].(refs := refs)], buffers + {b})
  {
    var after := slots[i := slots[i].(refs := refs)];
    forall j | 0 <= j < |after| ensures SameRange(slots, after[j]) {
      assert slots[j].(refs := 0) == after[j].(refs := 0);
    }
    TightGrows(page, slots, after, buffers, b);
  }

  lemma RegisterNew(page: nat, k: Book, data: nat, size: nat, spare: nat, slot: nat)
    requires page > 0 && Ordered(page, k.slots) && Stops(page, k.slots, data, size, slot) && !Live(k.slots, spare)
    requires Agrees(page, k) && NotFound(page, k.slots, data, slot)
    ensures var k' := Registered(page, k, data, size, spare, true, slot); Ordered(page, k'.slots) && Agrees(page, k')
  {
    var r, b := Entry(page, data, size, spare), Buffer(spare, data, size);
    EntryHolds(page, r, data, size);
    InsertOrdered(page, k.slots, slot, r);
    InsertCounted(page, k.slots, k.out, k.buffers, slot, r, b);
    InsertTight(page, k.slots, k.buffers, slot, r, b);
  }

  lemma RegisterRefused(page: nat, k: Book, data: nat, size: nat, spare: nat, slot: nat)
    requires page > 0 && Ordered(page, k.slots) && Stops(page, k.slots, data, size, slot) && !Live(k.slots, spare)
    requires Agrees(page, k) && NotFound(page, k.slots, data, slot)
    ensures var k' := Registered(page, k, data, size, spare, false, slot);
            Ordered(page, k'.slots) && (Agrees(page, k') <==> slot == |k.slots|)
  {
    var r := Entry(page, data, size, spare);
    EntryHolds(page, r, data, size);
    InsertOrdered(page, k.slots, slot, r);
    FirstOrdered(page, Insert(k.slots, slot, r), |k.slots|);
    RefusedIff(page, k.slots, k.out, k.buffers, slot, r);
  }

  lemma FirstOrdered(page: nat, slots: seq<Reg>, n: nat)
    requires page > 0 && Ordered(page, slots) && n <= |slots|
    ensures Ordered(page, slots[..n])
  {
  }

  lemma RegisterShared(page: nat, k: Book, data: nat, size: nat, spare: nat, netOk: bool, slot: nat)
    requires page > 0 && Ordered(page, k.slots) && Stops(page, k.slots, data, size, slot)
    requires Agrees(page, k) && !NotFound(page, k.slots, data, slot)
    ensures var k' := Registered(page, k, data, size, spare, netOk, slot); Ordered(page, k'.slots) && Agrees(page, k')
  {
    var b := Buffer(k.slots[slot].handle, data, size);
    RefCounted(page, k.slots, k.out, k.buffers, slot, b);
    RefTight(page, k.slots, k.buffers, slot, k.slots[slot].refs + 1, b);
  }

  /** Registering keeps the order. A registration that succeeds keeps the counts; one that fails keeps
      them exactly when no range starts above the buffer. */
  lemma RegisterKeeps(page: nat, k: Book, data: nat, size: nat, spare: nat, netOk: bool, slot: nat)
    requires page > 0 && Ordered(page, k.slots) && Stops(page, k.slots, data, size, slot) && !Live(k.slots, spare)
    requires Agrees(page, k)
    ensures var k' := Registered(page, k, data, size, spare, netOk, slot);
            && Ordered(page, k'.slots)
            && (Agrees(page, k') <==> netOk || !Misses(page, k.slots, data, size) || slot == |k.slots|)
  {
    ScanMissesNone(page, k.slots, data, size, slot);
    if NotFound(page, k.slots, data, slot) {
      if netOk {
        RegisterNew(page, k, data, size, spare, slot);
      } else {
        RegisterRefused(page, k, data, size, spare, slot);
      }
    } else {
      RegisterShared(page, k, data, size, spare, netOk, slot);
    }
  }

  ghost function Deregistered(k: Book, slot: nat): Book
    requires slot < |k.slots|
  {
    var r := k.slots[slot];
    if r.refs > 1 then Book(k.slots[slot := r.(refs := r.refs - 1)], k.out - multiset{r.handle}, k.buffers)
    else Book(Without(k.slots, slot), k.out - multiset{r.handle}, k.buffers - Under(k.buffers, r.handle))
  }

  /** Giving back keeps order and counts, and the range leaves exactly with its last registration. */
  lemma DeregisterKeeps(page: nat, k: Book, slot: nat)
    requires page > 0 && Ordered(page, k.slots) && slot < |k.slots| && Agrees(page, k)
    ensures var k' := Deregistered(k, slot);
            && Ordered(page, k'.slots) && Agrees(page, k')
            && (Live(k'.slots, k.slots[slot].handle) <==> k.slots[slot].handle in k'.out)
            && k'.buffers == if k.slots[slot].handle in k'.out then k.buffers
               else k.buffers - Under(k.buffers, k.slots[slot].handle)
  {
    if k.slots[slot].refs > 1 {
      UnrefCounted(page, k.slots, k.out, k.buffers, slot);
      assert TightAt(page, k.slots[slot], k.buffers);
      var b :| b in k.buffers && Around(page, k.slots[slot], b);
      RefTight(page, k.slots, k.buffers, slot, k.slots[slot].refs - 1, b);
      assert k.buffers + {b} == k.buffers;
    } else {
      RemoveOrdered(page, k.slots, slot);
      RemoveCounted(page, k.slots, k.out, k.buffers, slot);
      TightWithout(page, k.slots, k.buffers, slot);
    }
  }

  class Cache {
    const page: nat
    var slots: seq<Reg>
    ghost var out: multiset<nat>
    ghost var buffers: set<Buffer>

    ghost function Value(): Book reads this { Book(slots, out, buffers) }

    ghost predicate Valid() reads this { page > 0 && Ordered(page, slots) && Agrees(page, Value()) }

    constructor (page: nat)
      requires page > 0
      ensures Valid() && this.page == page && Value() == Book([], multiset{}, {})
    {
      this.page, slots, out, buffers := page, [], multiset{}, {};
    }

    /** The scan shared by looking up and registering. */
    method Scan(data: nat, size: nat) returns (slot: nat)
      requires page > 0 && Ordered(page, slots)
      ensures Stops(page, slots, data, size, slot)
    {
      slot := 0;
      while slot < |slots| && PageOf(page, data) >= slots[slot].addr
            && !Covers(page, slots[slot], PageOf(page, data), Pages(page, data, size))
        invariant slot <= |slots|
        invariant forall j | 0 <= j < slot :: slots[j].addr <= PageOf(page, data) && !Holds(page, slots[j], data, size)
      {
        CoversIff(page, slots[slot], data, size);
        slot := slot + 1;
      }
      if slot < |slots| { CoversIff(page, slots[slot], data, size); }
    }

    /** Looking a buffer up: found exactly when some registered range holds all of it, and so always for
        a buffer still registered. */
    method Find(data: nat, size: nat) returns (found: Result<Reg>)
      requires Valid()
      ensures found.Ok? ==> found.value in slots && Holds(page, found.value, data, size)
      ensures found.Ok? ==> exists b :: b in buffers && Around(page, found.value, b)
      ensures found.Error? <==> Misses(page, slots, data, size)
      ensures forall b | b in buffers && b.data == data && b.size == size :: found.Ok?
    {
      var slot := Scan(data, size);
      ScanMissesNone(page, slots, data, size, slot);
      if NotFound(page, slots, data, slot) { found := Error; } else { found := Ok(slots[slot]); }
      assert found.Ok? ==> TightAt(page, found.value, buffers);
      forall b | b in buffers && b.data == data && b.size == size ensures found.Ok? { assert Inside(page, slots, b); }
    }

    /** Registering under the handle of a range that holds the buffer, or under a new one. The cache stays
        valid unless the network refuses a range that belongs before another. */
    method Register(data: nat, size: nat, spare: nat, netOk: bool) returns (r: Result<nat>)
      requires Valid() && !Live(slots, spare)
      modifies this
      ensures exists slot :: Stops(page, old(slots), data, size, slot)
                             && Value() == Registered(page, old(Value()), data, size, spare, netOk, slot)
      ensures r.Error? <==> !netOk && Misses(page, old(slots), data, size)
      ensures r.Ok? ==> Valid() && Buffer(r.value, data, size) in buffers && out == old(out) + multiset{r.value}
    {
      var slot := Scan(data, size);
      ghost var k := Value();
      ScanMissesNone(page, slots, data, size, slot);
      RegisterKeeps(page, k, data, size, spare, netOk, slot);
      if NotFound(page, slots, data, slot) {
        var entry := Entry(page, data, size, spare);
        if netOk {
          slots := Insert(slots, slot, entry);
          out, buffers := out + multiset{spare}, buffers + {Buffer(spare, data, size)};
          r := Ok(spare);
        } else {
          slots := Refused(slots, slot, entry);
          r := Error;
        }
      } else {
        var h := slots[slot].handle;
        slots := slots[slot := slots[slot].(refs := slots[slot].refs + 1)];
        out, buffers := out + multiset{h}, buffers + {Buffer(h, data, size)};
        r := Ok(h);
      }
      assert Value() == Registered(page, k, data, size, spare, netOk, slot);
    }

    /** Giving a handle back, which is refused exactly when the handle is not live. */
    method Deregister(handle: nat) returns (ok: bool)
      requires Valid()
      modifies this
      ensures Valid()
      ensures ok <==> old(Live(slots, handle))
      ensures !ok ==> Value() == old(Value())
      ensures ok ==> out == old(out) - multiset{handle} && (Live(slots, handle) <==> handle in out)
      ensures ok ==> buffers == if handle in out then old(buffers) else old(buffers) - Under(old(buffers), handle)
    {
      var slot := 0;
      while slot < |slots| && slots[slot].handle != handle
        invariant slot <= |slots| && forall j | 0 <= j < slot :: slots[j].handle != handle
      {
        slot := slot + 1;
      }
      ok := slot < |slots|;
      assert ok <==> Live(slots, handle);
      if ok {
        ghost var k := Value();
        ghost var k' := Deregistered(k, slot);
        DeregisterKeeps(page, k, slot);
        if slots[slot].refs > 1 {
          slots := slots[slot := slots[slot].(refs := slots[slot].refs - 1)];
        } else {
          slots := Without(slots, slot);
        }
        out, buffers := k'.out, k'.buffers;
        assert Value() == k';
      }
    }
  }
}
