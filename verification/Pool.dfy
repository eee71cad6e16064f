/** The kernel pool in place (native/kernel/pool.c): first fit over the free list, grown by chunks of
  contiguous memory (native/core/vm.c, nc_vm_alloc_phys_high).
  */
module Pool {
  import opened Wrappers
  import opened GuestState
  import opened Relocation
  import opened Tracking
  import opened Placement
  import opened Windows
  import opened GuestMemory
  import opened FreeList

  const WINDOW: nat := 0x8000_0000     // NC_CONTIG_WINDOW

  function PageAt(a: nat): nat
    requires a >= WINDOW
  {
    (a - WINDOW) / PAGE
  }

  /** The page is the kernel's: used, and no user page is mapped to it. */
  ghost predicate Held(s: State, p: nat) {
    && Shaped(s) && p < s.Pages() && s.used[p] && |s.ram[p]| == PAGE
    && forall v :: 0 <= v < USER_PAGES ==> s.pte[v] != Some(p)
  }

  predicate InArea(area: set<nat>, a: nat) { a >= WINDOW && PageAt(a) in area }

  ghost predicate Within(ranges: seq<Range>, area: set<nat>) { forall a: nat :: Covers(ranges, a) ==> InArea(area, a) }

  ghost predicate AllHeld(s: State, area: set<nat>) { forall p :: p in area ==> Held(s, p) }

  predicate Apart(r: Range, t: Range) { r.End() <= t.va || t.End() <= r.va }

  /** Blocks in use: none overlapping another or the free ranges. */
  ghost predicate LiveOk(free: seq<Range>, live: seq<Range>) {
    && (forall i :: 0 <= i < |live| ==> live[i].len > 0 && live[i].va % ALIGN == 0 && live[i].len % ALIGN == 0)
    && (forall i, j :: 0 <= i < j < |live| ==> Apart(live[i], live[j]))
    && (forall a: nat :: !(Covers(free, a) && Covers(live, a)))
  }

  function ByteAt(s: State, a: nat): nat
    requires a >= WINDOW && PageAt(a) < |s.ram| && |s.ram[PageAt(a)]| == PAGE
  {
    s.ram[PageAt(a)][(a - WINDOW) % PAGE]
  }

  // ---- Growing ----

  /** Contiguous allocation leaves the pool's pages and their bytes, and takes none of them. */
  lemma PlacedLeavesHeld(a: State, b: State, w: nat, n: nat, p: nat)
    requires Placed(a, b, w, n) && Held(a, p)
    ensures Held(b, p) && b.ram[p] == a.ram[p] && !(w <= p < w + n)
  {
    var mid := b.(used := Fill(b.used, w, w + n, false));
    assert !Movable(a, p);
    assert mid.used[p];
  }

  lemma SameLeavesHeld(a: State, b: State, p: nat)
    requires SameMeaning(a, b) && Held(a, p)
    ensures Held(b, p) && b.ram[p] == a.ram[p]
  {
    assert !Movable(a, p);
  }

  /** The block's own pages are the kernel's. */
  lemma PlacedIsHeld(a: State, b: State, w: nat, n: nat, p: nat)
    requires Placed(a, b, w, n) && w <= p < w + n
    ensures b.used[p] && forall v :: 0 <= v < USER_PAGES ==> b.pte[v] != Some(p)
  {
    var mid := b.(used := Fill(b.used, w, w + n, false));
    assert !mid.used[p];
    forall v | 0 <= v < USER_PAGES ensures b.pte[v] != Some(p) {
      assert b.pte[v] == mid.pte[v];
    }
  }

  // ---- The books through one operation ----

  /** What the list, the blocks in use and the counters keep. */
  ghost predicate Books(free: seq<Range>, live: seq<Range>, lost: nat, len: nat, area: set<nat>) {
    && Canonical(free) && LiveOk(free, live) && Total(free) + Total(live) + lost == len
    && Within(free, area) && Within(live, area)
  }

  lemma CoversAdd(live: seq<Range>, r: Range, a: nat)
    ensures Covers(live + [r], a) <==> Covers(live, a) || r.Has(a)
  {
    if Covers(live, a) {
      var i :| 0 <= i < |live| && live[i].Has(a);
      assert (live + [r])[i].Has(a);
    }
    if r.Has(a) { assert (live + [r])[|live|].Has(a); }
  }

  lemma TotalAdd(live: seq<Range>, r: Range)
    ensures Total(live + [r]) == Total(live) + r.len
  {
    TotalConcat(live, [r]);
    assert [r][1..] == [];
  }

  lemma LiveWithin(free: seq<Range>, live: seq<Range>, lost: nat, len: nat, area: set<nat>)
    requires Books(free, live, lost, len, area)
    ensures forall a: nat :: Covers(live, a) ==> InArea(area, a)
  {
  }

  /** A block off the front of a free range, to its user. */
  lemma TakeKeepsBooks(free: seq<Range>, live: seq<Range>, lost: nat, len: nat, area: set<nat>, i: nat, size: nat)
    requires Books(free, live, lost, len, area) && i < |free| && 0 < size <= free[i].len && size % ALIGN == 0
    ensures Books(TakeFrom(free, i, size), live + [Range(free[i].va, size)], lost, len, area)
    ensures forall a: nat :: Range(free[i].va, size).Has(a) ==> InArea(area, a) && !Covers(live, a)
  {
    TakeFromMeans(free, i, size);
    var block := Range(free[i].va, size);
    TotalAdd(live, block);
    hide Canonical, TakeFrom, Total;
    TakenLive(free, live, TakeFrom(free, i, size), block);
    forall a: nat | Covers(live + [block], a) ensures InArea(area, a) { CoversAdd(live, block, a); }
  }

  lemma TakenLive(free: seq<Range>, live: seq<Range>, r: seq<Range>, block: Range)
    requires LiveOk(free, live) && block.len > 0 && block.va % ALIGN == 0 && block.len % ALIGN == 0
    requires forall a: nat :: Covers(r, a) <==> Covers(free, a) && !block.Has(a)
    requires forall a: nat :: block.Has(a) ==> Covers(free, a)
    ensures LiveOk(r, live + [block])
  {
    var now := live + [block];
    forall j | 0 <= j < |live| ensures Apart(live[j], block) { ClearApart(live, j, block); }
    forall a: nat ensures !(Covers(r, a) && Covers(now, a)) { CoversAdd(live, block, a); }
  }

  /** Ranges that share no address are apart. */
  lemma ClearApart(live: seq<Range>, j: nat, block: Range)
    requires j < |live| && live[j].len > 0 && block.len > 0 && forall a: nat :: block.Has(a) ==> !Covers(live, a)
    ensures Apart(live[j], block)
  {
    if !Apart(live[j], block) { OverlapCovers(live, j, block); }
  }

  lemma OverlapCovers(live: seq<Range>, j: nat, block: Range)
    requires j < |live| && live[j].len > 0 && block.len > 0 && !Apart(live[j], block)
    ensures exists a: nat :: block.Has(a) && Covers(live, a)
  {
    var a := if live[j].va > block.va then live[j].va else block.va;
    assert block.Has(a) && live[j].Has(a) && Covers(live, a);
  }

  function Without(live: seq<Range>, i: nat): seq<Range>
    requires i < |live|
  {
    live[..i] + live[i + 1..]
  }

  /** A range no one has, joined to the list; or lost where the list is full. */
  lemma PutKeepsBooks(free: seq<Range>, live: seq<Range>, lost: nat, len: nat, area: set<nat>, r: Range)
    requires Canonical(free) && LiveOk(free, live) && Within(free, area) && Within(live, area)
    requires Clear(free, r) && Clear(live, r) && r.len > 0 && r.va % ALIGN == 0 && r.len % ALIGN == 0
    requires forall a: nat :: r.Has(a) ==> InArea(area, a)
    requires Total(free) + Total(live) + lost + r.len == len
    ensures var gone := if Lost(free, r.va, r.len) then r.len else 0;
      Books(Put(free, r.va, r.len), live, lost + gone, len, area)
  {
    PutTotal(free, r.va, r.len);
    PutCanonical(free, r.va, r.len);
    hide Canonical, Total;
    if !Lost(free, r.va, r.len) {
      forall a: nat ensures Covers(Put(free, r.va, r.len), a) <==> Covers(free, a) || r.Has(a) {
        PutCovers(free, r.va, r.len, a);
      }
    }
    hide Put, Lost, Covers;
  }

  /** A block given back. */
  lemma FreeKeepsBooks(free: seq<Range>, live: seq<Range>, lost: nat, len: nat, area: set<nat>, i: nat)
    requires Books(free, live, lost, len, area) && i < |live|
    ensures var r := live[i]; var gone := if Lost(free, r.va, r.len) then r.len else 0;
      Books(Put(free, r.va, r.len), Without(live, i), lost + gone, len, area)
  {
    var r := live[i];
    TotalUpdate(live, i, r);
    LiveIsClear(free, live, i);
    WithoutLive(free, live, i);
    hide Covers, Total;
    PutKeepsBooks(free, Without(live, i), lost, len, area, r);
  }

  lemma LiveIsClear(free: seq<Range>, live: seq<Range>, i: nat)
    requires LiveOk(free, live) && i < |live|
    ensures Clear(free, live[i]) && forall a: nat :: live[i].Has(a) ==> Covers(live, a)
  {
    forall a: nat | live[i].Has(a) ensures !Covers(free, a) && Covers(live, a) { }
  }

  /** The block's bytes are free again and no others; or the full list is as it was. */
  lemma FreedCovers(free: seq<Range>, live: seq<Range>, lost: nat, len: nat, area: set<nat>, i: nat)
    requires Books(free, live, lost, len, area) && i < |live|
    ensures var r := live[i];
      && (!Lost(free, r.va, r.len) ==> forall a: nat :: Covers(Put(free, r.va, r.len), a) <==> Covers(free, a) || r.Has(a))
      && (Lost(free, r.va, r.len) ==> Put(free, r.va, r.len) == free)
  {
    var r := live[i];
    LiveIsClear(free, live, i);
    if !Lost(free, r.va, r.len) {
      forall a: nat ensures Covers(Put(free, r.va, r.len), a) <==> Covers(free, a) || r.Has(a) { PutCovers(free, r.va, r.len, a); }
    }
  }

  lemma WithoutLive(free: seq<Range>, live: seq<Range>, i: nat)
    requires LiveOk(free, live) && i < |live|
    ensures LiveOk(free, Without(live, i))
    ensures forall a: nat :: Covers(Without(live, i), a) ==> Covers(live, a) && !live[i].Has(a)
  {
    var r := Without(live, i);
    forall j | 0 <= j < |r| ensures r[j] == live[if j < i then j else j + 1] { }
    forall a: nat | Covers(r, a) ensures Covers(live, a) && !live[i].Has(a) {
      var j :| 0 <= j < |r| && r[j].Has(a);
      var k := if j < i then j else j + 1;
      assert live[k].Has(a);
      if k < i { assert Apart(live[k], live[i]); } else { assert Apart(live[i], live[k]); }
    }
  }

  // ---- Bytes ----

  /** Between a and b only bytes of [va, va + n) in the pool's pages changed, to zero; and protection. */
  ghost predicate Zeroed(a: State, b: State, area: set<nat>, va: nat, n: nat) {
    && Shaped(a) && Shaped(b) && AllHeld(a, area) && AllHeld(b, area)
    && b == a.(ram := b.ram, wp := b.wp, na := b.na, contig := b.contig, gpu := b.gpu, view := b.view)
    && (forall x: nat :: InArea(area, x) ==> ByteAt(b, x) == if va <= x < va + n then 0 else ByteAt(a, x))
    && (forall p :: 0 <= p < a.Pages() && p !in area ==> b.ram[p] == a.ram[p])
  }

  lemma ZeroedNothing(a: State, area: set<nat>, va: nat)
    requires Shaped(a) && AllHeld(a, area)
    ensures Zeroed(a, a, area, va, 0)
  {
  }

  lemma ZeroedHeld(a: State, b: State, area: set<nat>, va: nat, n: nat, p: nat)
    requires Zeroed(a, b, area, va, n) && p in area
    ensures Held(b, p)
  {
  }

  lemma FirstBooks(va: nat, size: nat, area: set<nat>)
    requires size > 0 && va % ALIGN == 0 && size % ALIGN == 0
    requires forall a: nat :: va <= a < va + size ==> InArea(area, a)
    ensures Books([Range(va, size)], [], 0, size, area)
  {
    assert [Range(va, size)][1..] == [];
  }

  /** One byte more, stored through the contiguous window. */
  lemma ZeroedMore(a: State, b: State, c: State, area: set<nat>, va: nat, n: nat)
    requires Zeroed(a, b, area, va, n) && InArea(area, va + n) && Tracked(b)
    requires var p := PageAt(va + n);
      Store(b, Contig(p), b.ram[p][(va + n - WINDOW) % PAGE := 0]) == Some(c)
    ensures Zeroed(a, c, area, va, n + 1)
  {
    hide Tracked, Store;
    var x := va + n;
    var p := PageAt(x);
    assert Held(b, p);
    var bytes := b.ram[p][(x - WINDOW) % PAGE := 0];
    StoreKeepsHeld(b, c, area, p, bytes);
    hide Held;
    ZeroedBytes(a, b, c, area, va, n);
  }

  lemma StoreKeepsHeld(b: State, c: State, area: set<nat>, p: nat, bytes: Page)
    requires Tracked(b) && AllHeld(b, area) && p in area && |bytes| == PAGE
    requires p < b.Pages() && Store(b, Contig(p), bytes) == Some(c)
    ensures AllHeld(c, area) && c.ram == b.ram[p := bytes]
    ensures c == b.(ram := c.ram, wp := c.wp, na := c.na, contig := c.contig, gpu := c.gpu, view := c.view)
  {
    StoreGoesThrough(b, Contig(p), bytes);
    hide Tracked, Store;
    forall q | q in area ensures Held(c, q) { assert Held(b, q); }
  }

  lemma ZeroedBytes(a: State, b: State, c: State, area: set<nat>, va: nat, n: nat)
    requires Zeroed(a, b, area, va, n) && InArea(area, va + n) && AllHeld(c, area)
    requires var p := PageAt(va + n); p < |b.ram| && |b.ram[p]| == PAGE && c.ram == b.ram[p := b.ram[p][(va + n - WINDOW) % PAGE := 0]]
    ensures forall y: nat :: InArea(area, y) ==> ByteAt(c, y) == if va <= y < va + n + 1 then 0 else ByteAt(a, y)
  {
    var x := va + n;
    forall y: nat | InArea(area, y) ensures ByteAt(c, y) == if va <= y < x + 1 then 0 else ByteAt(a, y) {
      HeldPage(a, PageAt(y));
      HeldPage(b, PageAt(y));
      HeldPage(c, PageAt(y));
      SameByte(x - WINDOW, y - WINDOW);
      assert ByteAt(c, y) == if y == x then 0 else ByteAt(b, y);
    }
  }

  lemma HeldPage(s: State, p: nat)
    requires Held(s, p)
    ensures Shaped(s) && p < s.Pages() && |s.ram[p]| == PAGE
  {
  }

  lemma SameByte(x: nat, y: nat)
    ensures x == y <==> x / PAGE == y / PAGE && x % PAGE == y % PAGE
  {
  }

  function PageRange(w: nat, n: nat): (r: set<nat>)
    ensures forall p: nat :: p in r <==> w <= p < w + n
  {
    if n == 0 then {} else PageRange(w, n - 1) + {w + n - 1}
  }

  lemma PlacedPages(a: State, b: State, w: nat, n: nat)
    requires Placed(a, b, w, n)
    ensures b.Pages() == a.Pages() && UsedPages(b) == UsedPages(a) + n
  {
    PlacedOk(a, b, w, n);
  }

  lemma SameHeld(a: State, b: State, area: set<nat>)
    requires SameMeaning(a, b) && AllHeld(a, area)
    ensures AllHeld(b, area) && b.Pages() == a.Pages() && forall p :: p in area ==> p < a.Pages() && b.ram[p] == a.ram[p]
  {
    forall p | p in area ensures Held(b, p) && p < a.Pages() && b.ram[p] == a.ram[p] {
      assert Held(a, p);
      SameLeavesHeld(a, b, p);
    }
  }

  /** Pages that are none of the pool's, joined to the list. */
  lemma GrowKeepsBooks(free: seq<Range>, live: seq<Range>, lost: nat, len: nat, area: set<nat>, w: nat, chunk: nat)
    requires Books(free, live, lost, len, area) && chunk > 0 && chunk % CHUNK == 0
    requires forall p: nat :: p in area ==> !(w <= p < w + chunk / PAGE)
    ensures var va := WINDOW + w * PAGE; var gone := if Lost(free, va, chunk) then chunk else 0;
      Books(Put(free, va, chunk), live, lost + gone, len + chunk, area + PageRange(w, chunk / PAGE))
  {
    var more := area + PageRange(w, chunk / PAGE);
    var r := Range(WINDOW + w * PAGE, chunk);
    hide Canonical, Covers, Total, Put, Lost, LiveOk;
    ChunkAligned(w, chunk);
    forall a: nat | r.Has(a) ensures InArea(more, a) && !InArea(area, a) { ChunkPage(w, chunk, a); }
    PutKeepsBooks(free, live, lost, len + chunk, more, r);
  }

  lemma ChunkPage(w: nat, chunk: nat, a: nat)
    requires chunk % CHUNK == 0 && WINDOW + w * PAGE <= a < WINDOW + w * PAGE + chunk
    ensures w <= PageAt(a) < w + chunk / PAGE
  {
  }

  lemma ChunkAligned(w: nat, chunk: nat)
    requires chunk % CHUNK == 0
    ensures chunk % ALIGN == 0 && (WINDOW + w * PAGE) % ALIGN == 0
  {
    ModOf(chunk, ALIGN, CHUNK / ALIGN * (chunk / CHUNK), 0);
    ModOf(WINDOW + w * PAGE, ALIGN, WINDOW / ALIGN + PAGE / ALIGN * w, 0);
  }

  lemma ChunkPages(chunk: nat)
    requires 0 < chunk <= 0xFFFF_0000 && chunk % CHUNK == 0
    ensures AlignUp(chunk, PAGE) / PAGE == chunk / PAGE > 0 && chunk % ALIGN == 0
  {
    var k := chunk / CHUNK;
    SixteenPages(k);
    WholePages(16 * k);
  }

  lemma SixteenPages(k: nat)
    ensures CHUNK * k == PAGE * (16 * k) && (CHUNK * k) % ALIGN == 0
  {
  }

  lemma WholePages(n: nat)
    requires PAGE * n + PAGE - 1 < Windows.WORD
    ensures AlignUp(PAGE * n, PAGE) / PAGE == n && (PAGE * n) / PAGE == n
  {
    var x := PAGE * n + PAGE - 1;
    assert x % Windows.WORD == x;
    assert x / PAGE == n;
  }

  /** The pages of held addresses. */
  lemma PagesHeld(s: State, va: nat, size: nat)
    requires size > 0 && va >= WINDOW && forall a: nat :: va <= a < va + size ==> Held(s, PageAt(a))
    ensures AllHeld(s, PageRange(PageAt(va), PageAt(va + size - 1) - PageAt(va) + 1))
  {
    forall p | p in PageRange(PageAt(va), PageAt(va + size - 1) - PageAt(va) + 1) ensures Held(s, p) {
      var a := if WINDOW + p * PAGE < va then va else WINDOW + p * PAGE;
      assert PageAt(a) == p;
    }
  }

  /** A chunk claimed and zeroed: the pool's pages are as they were, and the chunk's are with them. */
  lemma GrownHeld(a: State, b: State, c: State, area: set<nat>, w: nat, n: nat)
    requires Tracked(a) && AllHeld(a, area) && Placed(a, b, w, n)
    requires Shaped(c) && c == b.(ram := c.ram, wp := c.wp, na := c.na, contig := c.contig, gpu := c.gpu, view := c.view)
    requires forall i :: 0 <= i < c.Pages() ==> c.ram[i] == if w <= i < w + n then ZeroPage() else b.ram[i]
    ensures AllHeld(c, area + PageRange(w, n))
    ensures forall p :: p in area ==> !(w <= p < w + n) && p < a.Pages() == c.Pages() && c.ram[p] == a.ram[p]
  {
    PlacedPages(a, b, w, n);
    hide SameMeaning, Tracked;
    forall p | p in area
      ensures Held(c, p) && !(w <= p < w + n) && p < a.Pages() == c.Pages() && c.ram[p] == a.ram[p]
    {
      assert Held(a, p);
      PlacedLeavesHeld(a, b, w, n, p);
    }
    forall p | w <= p < w + n ensures Held(c, p) {
      PlacedIsHeld(a, b, w, n, p);
    }
  }

  /** The block is new: none of the bytes in use. */
  ghost predicate Given(live: seq<Range>, now: seq<Range>, area: set<nat>, va: nat, size: nat) {
    now == live + [Range(va, size)] && forall a: nat :: va <= a < va + size ==> InArea(area, a) && !Covers(live, a)
  }

  /** It came off the first range that holds it. */
  predicate FromFirstFit(free: seq<Range>, now: seq<Range>, i: nat, size: nat, va: nat) {
    i < |free| && IsFirstFit(free, size, i) && va == free[i].va && now == TakeFrom(free, i, size)
  }

  lemma Inserted(was: seq<Range>, now: seq<Range>, i: nat, r: Range)
    requires i <= |was| && |now| == |was| + 1 && now[i] == r
    requires forall k :: 0 <= k < i ==> now[k] == was[k]
    requires forall k :: i < k < |now| ==> now[k] == was[k - 1]
    ensures now == was[..i] + [r] + was[i..]
  {
  }

  lemma Removed(was: seq<Range>, now: seq<Range>, i: nat)
    requires i < |was| && |now| == |was| - 1
    requires forall k :: 0 <= k < i ==> now[k] == was[k]
    requires forall k :: i <= k < |now| ==> now[k] == was[k + 1]
    ensures now == was[..i] + was[i + 1..]
  {
  }

  lemma JoinedBoth(free: seq<Range>, i: nat, both: Range)
    requires 0 < i < |free|
    ensures free[i - 1 := both][..i] + free[i - 1 := both][i + 1..] == free[..i - 1] + [both] + free[i + 1..]
  {
    assert free[i - 1 := both][..i] == free[..i - 1] + [both];
    assert free[i - 1 := both][i + 1..] == free[i + 1..];
  }

  lemma PutCases(free: seq<Range>, va: nat, size: nat, i: nat)
    requires i == Position(free, va, 0)
    ensures Put(free, va, size) == PutAt(free, i, va, size)
    ensures Lost(free, va, size) <==> !JoinsPrev(free, i, va) && !JoinsNext(free, i, va + size) && |free| >= MAX_RANGES
  {
  }

  // ---- The pool ----

  class KernelPool {
    const m: Memory
    const ranges: array<Range>
    var nfree: nat
    var len: nat
    var lost: nat
    ghost var live: seq<Range>
    ghost var area: set<nat>

    ghost function Free(): seq<Range>
      reads this, ranges
    {
      if nfree <= ranges.Length then ranges[..nfree] else []
    }

    /** The books agree, and the pool's pages are the kernel's. */
    ghost predicate Valid()
      reads this, ranges, m.used, m.pin, m.na, m.wp, m.hdirty, m.rmap, m.ram, m.contig, m.gpu, m.pte, m.view
    {
      && m.Valid() && Tracked(m.S()) && AllHeld(m.S(), area)
      && ranges.Length == MAX_RANGES && nfree <= MAX_RANGES
      && Books(Free(), live, lost, len, area)
    }

    /** nc_pool_init on pages of the kernel's. */
    constructor (mem: Memory, va: nat, size: nat)
      requires mem.Valid() && Tracked(mem.S()) && size > 0 && va % ALIGN == 0 && size % ALIGN == 0
      requires va >= WINDOW && forall a: nat :: va <= a < va + size ==> Held(mem.S(), PageAt(a))
      modifies mem.wp, mem.na, mem.ram, mem.contig, mem.gpu, mem.view
      ensures Valid() && m == mem && fresh(ranges) && Free() == [Range(va, size)] && live == [] && len == size && lost == 0
      ensures Zeroed(old(mem.S()), mem.S(), area, va, size)
    {
      PagesHeld(mem.S(), va, size);
      m := mem;
      ranges := new Range[MAX_RANGES](_ => Range(0, 0));
      nfree, len, lost, live := 1, size, 0, [];
      area := PageRange(PageAt(va), PageAt(va + size - 1) - PageAt(va) + 1);
      new;
      ranges[0] := Range(va, size);
      FirstBooks(va, size, area);
      ZeroBytes(va, size);
    }

    // ---- The array ----

    /** memmove over entry i. */
    method RemoveAt(i: nat)
      requires i < nfree <= ranges.Length
      modifies ranges, this`nfree
      ensures nfree == old(nfree) - 1 && Free() == old(Free())[..i] + old(Free())[i + 1..]
    {
      for j := i to nfree - 1
        invariant nfree == old(nfree)
        invariant forall k :: 0 <= k < i ==> ranges[k] == old(ranges[k])
        invariant forall k :: i <= k < j ==> ranges[k] == old(ranges[k + 1])
        invariant forall k :: j <= k < nfree ==> ranges[k] == old(ranges[k])
      {
        ranges[j] := ranges[j + 1];
      }
      nfree := nfree - 1;
      Removed(old(Free()), Free(), i);
    }

    /** memmove from entry i on, and r there. */
    method InsertAt(i: nat, r: Range)
      requires i <= nfree < ranges.Length
      modifies ranges, this`nfree
      ensures nfree == old(nfree) + 1 && Free() == old(Free())[..i] + [r] + old(Free())[i..]
    {
      ghost var was := ranges[..nfree];
      ShiftUp(i);
      ranges[i] := r;
      nfree := nfree + 1;
      Inserted(was, Free(), i, r);
    }

    method ShiftUp(i: nat)
      requires i <= nfree < ranges.Length
      modifies ranges
      ensures forall k :: 0 <= k < i ==> ranges[k] == old(ranges[k])
      ensures forall k :: i < k <= nfree ==> ranges[k] == old(ranges[k - 1])
    {
      var j := nfree;
      while j > i
        invariant i <= j <= nfree
        invariant forall k :: 0 <= k < j ==> ranges[k] == old(ranges[k])
        invariant forall k :: j < k <= nfree ==> ranges[k] == old(ranges[k - 1])
      {
        ranges[j] := ranges[j - 1];
        j := j - 1;
      }
    }

    /** Entries i - 1 and i become one. */
    method JoinBoth(i: nat, both: Range)
      requires 0 < i < nfree <= ranges.Length
      modifies ranges, this`nfree
      ensures nfree == old(nfree) - 1 && Free() == old(Free())[..i - 1] + [both] + old(Free())[i + 1..]
    {
      ghost var free := Free();
      Change(i - 1, both);
      RemoveAt(i);
      JoinedBoth(free, i, both);
    }

    method Change(i: nat, r: Range)
      requires i < nfree <= ranges.Length
      modifies ranges
      ensures Free() == old(Free())[i := r]
    {
      ranges[i] := r;
    }

    // ---- Giving back ----

    /** nc_pool_free of a rounded size: the sorted insertion. */
    method Insert(va: nat, size: nat)
      requires nfree <= ranges.Length == MAX_RANGES
      modifies ranges, this`nfree, this`lost
      ensures nfree <= MAX_RANGES && Free() == Put(old(Free()), va, size)
      ensures lost == old(lost) + if Lost(old(Free()), va, size) then size else 0
    {
      var i := Place(va);
      PutCases(Free(), va, size, i);
      InsertAtPlace(i, va, size);
    }

    method Place(va: nat) returns (i: nat)
      requires nfree <= ranges.Length
      ensures i <= nfree && i == Position(Free(), va, 0)
    {
      i := 0;
      while i < nfree && ranges[i].va < va
        invariant i <= nfree && Position(Free(), va, 0) == Position(Free(), va, i)
      {
        i := i + 1;
      }
    }

    /** Joined to its neighbours, or an entry of its own, or lost. */
    method InsertAtPlace(i: nat, va: nat, size: nat)
      requires i <= nfree <= ranges.Length == MAX_RANGES
      modifies ranges, this`nfree, this`lost
      ensures nfree <= MAX_RANGES && Free() == PutAt(old(Free()), i, va, size)
      ensures lost == old(lost) +
        if !JoinsPrev(old(Free()), i, va) && !JoinsNext(old(Free()), i, va + size) && old(nfree) >= MAX_RANGES then size else 0
    {
      var joinPrev := i > 0 && ranges[i - 1].va + ranges[i - 1].len == va;
      var joinNext := i < nfree && va + size == ranges[i].va;
      assert joinPrev == JoinsPrev(Free(), i, va) && joinNext == JoinsNext(Free(), i, va + size);
      hide JoinsPrev, JoinsNext;
      if joinPrev && joinNext {
        JoinBoth(i, Range(ranges[i - 1].va, ranges[i - 1].len + size + ranges[i].len));
      } else if joinPrev {
        Change(i - 1, Range(ranges[i - 1].va, ranges[i - 1].len + size));
      } else if joinNext {
        Change(i, Range(va, ranges[i].len + size));
      } else if nfree < MAX_RANGES {
        InsertAt(i, Range(va, size));
      } else {
        lost := lost + size;
      }
    }

    /** nc_pool_free of block i of those in use. */
    method FreeBlock(va: nat, size: nat, ghost i: nat)
      requires Valid() && i < |live| && live[i] == Range(va, BlockSize(size))
      modifies this, ranges
      ensures Valid() && live == Without(old(live), i) && len == old(len) && area == old(area)
      ensures !Lost(old(Free()), va, BlockSize(size)) ==>
        lost == old(lost) && forall a: nat :: Covers(Free(), a) <==> Covers(old(Free()), a) || Range(va, BlockSize(size)).Has(a)
      ensures Lost(old(Free()), va, BlockSize(size)) ==> lost == old(lost) + BlockSize(size) && Free() == old(Free())
    {
      hide Books, Tracked, AllHeld, BlockSize, Put, Covers, Lost;
      ghost var free := Free();
      FreeKeepsBooks(free, live, lost, len, area, i);
      FreedCovers(free, live, lost, len, area, i);
      Insert(va, BlockSize(size));
      live := Without(live, i);
    }

    // ---- Memory ----

    /** memset of [va, va + n) to zero through the contiguous window. */
    method ZeroBytes(va: nat, n: nat)
      requires m.Valid() && Tracked(m.S()) && AllHeld(m.S(), area) && forall a: nat :: va <= a < va + n ==> InArea(area, a)
      modifies m.wp, m.na, m.ram, m.contig, m.gpu, m.view
      ensures m.Valid() && Tracked(m.S()) && Zeroed(old(m.S()), m.S(), area, va, n)
    {
      hide Tracked, Zeroed, Store, AllHeld;
      ghost var a := m.S();
      ZeroedNothing(a, area, va);
      for i := 0 to n
        invariant m.Valid() && Tracked(m.S()) && Zeroed(a, m.S(), area, va, i)
      {
        ghost var b := m.S();
        assert InArea(area, va + i);
        var p := PageAt(va + i);
        ZeroedHeld(a, b, area, va, i, p);
        StoreGoesThrough(b, Contig(p), m.ram[p][(va + i - WINDOW) % PAGE := 0]);
        m.GuestStore(Contig(p), m.ram[p][(va + i - WINDOW) % PAGE := 0]);
        ZeroedMore(a, b, m.S(), area, va, i);
      }
    }

    /** pool_grow. */
    method Grow(size: nat) returns (ok: bool)
      requires Valid() && 0 < size <= 0xFFFF_0000
      modifies this, ranges, m.used, m.rmap, m.ram, m.pte, m.view, m.wp, m.contig, m.gpu, m.na
      ensures Valid() && live == old(live) && old(area) <= area
      ensures forall a: nat :: InArea(old(area), a) ==> ByteAt(m.S(), a) == old(ByteAt(m.S(), a))
      ensures ok ==> CountFree(m.S().used, 0, m.used.Length) < old(CountFree(m.S().used, 0, m.used.Length)) && len > old(len)
      ensures !ok ==> len == old(len)
    {
      hide Tracked, Books, AllHeld, CountFree, ChunkSize, Put, Lost, Held;
      var chunk := ChunkSize(size);
      ChunkFits(size);
      var w := Chunk(chunk);
      if w.None? {
        return false;
      }
      GrowKeepsBooks(Free(), live, lost, len, area, w.value, chunk);
      Insert(WINDOW + w.value * PAGE, chunk);
      len := len + chunk;
      area := area + PageRange(w.value, chunk / PAGE);
      return true;
    }

    /** A chunk of contiguous memory, zeroed. */
    method Chunk(chunk: nat) returns (w: Option<nat>)
      requires m.Valid() && Tracked(m.S()) && AllHeld(m.S(), area) && 0 < chunk <= 0xFFFF_0000 && chunk % CHUNK == 0
      modifies m.used, m.rmap, m.ram, m.pte, m.view, m.wp, m.contig, m.gpu, m.na
      ensures m.Valid() && Tracked(m.S())
      ensures w.None? ==> AllHeld(m.S(), area)
      ensures w.Some? ==> AllHeld(m.S(), area + PageRange(w.value, chunk / PAGE))
      ensures w.Some? ==> forall p: nat :: p in area ==> !(w.value <= p < w.value + chunk / PAGE)
      ensures w.Some? ==> CountFree(m.S().used, 0, m.used.Length) < old(CountFree(m.S().used, 0, m.used.Length))
      ensures forall p :: p in area ==> p < m.ram.Length && m.ram[p] == old(m.ram[p])
    {
      hide Tracked, SameMeaning, Placed, AllHeld, CountFree;
      ghost var a := m.S();
      ChunkPages(chunk);
      w := m.AllocPhysHigh(chunk);
      ghost var b := m.S();
      if w.None? {
        SameHeld(a, b, area);
      } else {
        m.Zero(w.value, chunk / PAGE);
        GrownHeld(a, b, m.S(), area, w.value, chunk / PAGE);
        PlacedPages(a, b, w.value, chunk / PAGE);
      }
    }

    /** nc_pool_alloc: a zeroed block, off the first range that holds it, growing the pool where none does. */
    method Alloc(size: nat) returns (r: Option<nat>)
      requires Valid() && size <= 0xFFFF_0000
      modifies this, ranges, m.used, m.rmap, m.ram, m.pte, m.view, m.wp, m.contig, m.gpu, m.na
      ensures Valid() && old(area) <= area && BlockSize(size) >= size
      ensures r.None? ==> live == old(live) && IsFirstFit(old(Free()), BlockSize(size), |old(Free())|)
      ensures r.Some? ==> Given(old(live), live, area, r.value, BlockSize(size))
      ensures r.Some? ==> forall a: nat :: r.value <= a < r.value + BlockSize(size) ==> InArea(area, a) && ByteAt(m.S(), a) == 0
      ensures r.Some? && len == old(len) ==> exists i :: FromFirstFit(old(Free()), Free(), i, BlockSize(size), r.value)
      ensures len > old(len) ==> IsFirstFit(old(Free()), BlockSize(size), |old(Free())|)
      ensures len >= old(len)
      ensures forall a: nat :: Covers(old(live), a) ==> InArea(old(area), a) && ByteAt(m.S(), a) == old(ByteAt(m.S(), a))
      decreases CountFree(m.S().used, 0, m.used.Length)
    {
      hide Tracked, CountFree, Books, AllHeld, TakeFrom;
      r := AllocNow(size);
      if r.None? {
        var ok := Grow(BlockSize(size));
        if ok {
          r := Alloc(size);
        }
      }
    }

    /** Its search of the free list. */
    method AllocNow(size: nat) returns (r: Option<nat>)
      requires Valid() && size <= 0xFFFF_0000
      modifies this, ranges, m.wp, m.na, m.ram, m.contig, m.gpu, m.view
      ensures Valid() && area == old(area) && len == old(len) && m.S().used == old(m.S().used)
      ensures size <= BlockSize(size) <= 0xFFFF_0000 && BlockSize(size) > 0
      ensures r.None? ==> live == old(live) && Free() == old(Free()) && IsFirstFit(Free(), BlockSize(size), |Free()|)
      ensures r.Some? ==> Given(old(live), live, area, r.value, BlockSize(size))
      ensures r.Some? ==> forall a: nat :: r.value <= a < r.value + BlockSize(size) ==> InArea(area, a) && ByteAt(m.S(), a) == 0
      ensures r.Some? ==> exists i :: FromFirstFit(old(Free()), Free(), i, BlockSize(size), r.value)
      ensures forall a: nat :: Covers(old(live), a) ==> InArea(area, a) && ByteAt(m.S(), a) == old(ByteAt(m.S(), a))
    {
      var want := BlockSize(size);
      BlockFits(size);
      hide Tracked, BlockSize, Books, AllHeld, TakeFrom, Covers;
      var i := SearchFrom(want);
      if i == nfree {
        return None;
      }
      ghost var free := Free();
      var va := TakeBlock(i, want);
      assert FromFirstFit(free, Free(), i, want, va);
      return Some(va);
    }

    /** The first range that holds want bytes. */
    method SearchFrom(want: nat) returns (i: nat)
      requires nfree <= ranges.Length
      ensures i <= nfree && IsFirstFit(Free(), want, i)
    {
      i := 0;
      while i < nfree && ranges[i].len < want
        invariant i <= nfree && forall j :: 0 <= j < i ==> ranges[j].len < want
      {
        i := i + 1;
      }
    }

    /** want bytes off range i, zeroed. */
    method TakeBlock(i: nat, want: nat) returns (va: nat)
      requires Valid() && i < nfree && 0 < want <= ranges[i].len && want % ALIGN == 0
      modifies this, ranges, m.wp, m.na, m.ram, m.contig, m.gpu, m.view
      ensures Valid() && area == old(area) && len == old(len) && lost == old(lost) && m.S().used == old(m.S().used)
      ensures va == old(ranges[i].va) && live == old(live) + [Range(va, want)]
      ensures Free() == TakeFrom(old(Free()), i, want)
      ensures forall a: nat :: va <= a < va + want ==> InArea(area, a) && !Covers(old(live), a) && ByteAt(m.S(), a) == 0
      ensures forall a: nat :: Covers(old(live), a) ==> InArea(area, a) && ByteAt(m.S(), a) == old(ByteAt(m.S(), a))
    {
      hide Tracked, Books, TakeFrom, AllHeld, Covers;
      TakeKeepsBooks(Free(), live, lost, len, area, i, want);
      LiveWithin(Free(), live, lost, len, area);
      va := ranges[i].va;
      TakeRange(i, want);
      live := live + [Range(va, want)];
      ZeroBytes(va, want);
    }

    /** Its bytes off the range. */
    method TakeRange(i: nat, want: nat)
      requires i < nfree <= ranges.Length && want <= ranges[i].len
      modifies ranges, this`nfree
      ensures nfree <= old(nfree) && Free() == TakeFrom(old(Free()), i, want)
    {
      var r := ranges[i];
      var rest := r.len - want;
      ranges[i] := Range(r.va + want, rest);
      if rest == 0 {
        RemoveAt(i);
      }
    }
  }
}
