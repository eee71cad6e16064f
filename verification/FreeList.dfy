/** The pool's free list as values (native/kernel/pool.c): address ranges in order, joined where they
  touch.
  */
module FreeList {
  import Windows

  const ALIGN: nat := 16
  const CHUNK: nat := 0x10000
  const MAX_RANGES: nat := 8192        // NC_POOL_RANGES

  datatype Range = Range(va: nat, len: nat)
  {
    function End(): nat { va + len }

    predicate Has(a: nat) { va <= a < va + len }
  }

  function BlockSize(size: nat): nat { Windows.AlignUp(if size == 0 then 1 else size, ALIGN) }

  /** The chunk pool_grow asks for. */
  function ChunkSize(size: nat): nat { Windows.AlignUp(if size > CHUNK then size else CHUNK, CHUNK) }

  /** A request is rounded to a block that holds it, and growth to a chunk that holds that block,
      exactly for requests up to 0xFFFF0000 bytes; past it the sums wrap. */
  lemma SizesFitExactly(size: nat)
    requires size < Windows.WORD
    ensures BlockSize(size) >= size && ChunkSize(BlockSize(size)) >= BlockSize(size) > 0 <==> size <= 0xFFFF_0000
    ensures size <= 0xFFFF_0000 ==> BlockSize(size) % ALIGN == 0 && ChunkSize(BlockSize(size)) % CHUNK == 0
    ensures size > 0xFFFF_FFF0 ==> BlockSize(size) == 0
  {
    BlockFits(size);
    hide BlockSize;
    ChunkFits(BlockSize(size));
  }

  lemma BlockFits(size: nat)
    requires size < Windows.WORD
    ensures size <= 0xFFFF_FFF0 ==> size <= BlockSize(size) <= size + ALIGN && BlockSize(size) > 0 && BlockSize(size) % ALIGN == 0
    ensures size > 0xFFFF_FFF0 ==> BlockSize(size) == 0
  {
  }

  lemma ChunkFits(size: nat)
    requires size <= 0xFFFF_FFF0
    ensures size <= 0xFFFF_0000 ==> 0xFFFF_0000 >= ChunkSize(size) >= size && ChunkSize(size) > 0 && ChunkSize(size) % CHUNK == 0
    ensures size > 0xFFFF_0000 ==> ChunkSize(size) == 0
  {
  }

  // ---- The list ----

  /** In order, apart, none empty, none touching, each at and of a multiple of 16. */
  predicate Canonical(free: seq<Range>) {
    && (forall i :: 0 <= i < |free| ==> free[i].len > 0 && free[i].va % ALIGN == 0 && free[i].len % ALIGN == 0)
    && (forall i, j :: 0 <= i < j < |free| ==> free[i].End() < free[j].va)
  }

  predicate Covers(free: seq<Range>, a: nat) { exists i :: 0 <= i < |free| && free[i].Has(a) }

  function Total(s: seq<Range>): nat { if s == [] then 0 else s[0].len + Total(s[1..]) }

  /** The list is what the addresses it covers are: there is one canonical list of them. */
  lemma {:induction false} CanonicalIsUnique(a: seq<Range>, b: seq<Range>)
    requires Canonical(a) && Canonical(b) && forall x: nat :: Covers(a, x) <==> Covers(b, x)
    ensures a == b
    decreases |a|
  {
    if a == [] {
      if b != [] { assert Covers(b, b[0].va); }
    } else {
      FirstRangesAgree(a, b);
      forall x: nat ensures Covers(a[1..], x) <==> Covers(b[1..], x) {
        TailCovers(a, x);
        TailCovers(b, x);
      }
      CanonicalIsUnique(a[1..], b[1..]);
    }
  }

  lemma TailCovers(a: seq<Range>, x: nat)
    requires a != [] && Canonical(a)
    ensures Covers(a[1..], x) <==> Covers(a, x) && !a[0].Has(x)
  {
    if Covers(a, x) {
      var i :| 0 <= i < |a| && a[i].Has(x);
      if i > 0 { assert a[1..][i - 1].Has(x); }
    }
    if Covers(a[1..], x) {
      var i :| 0 <= i < |a[1..]| && a[1..][i].Has(x);
      assert a[i + 1].Has(x);
    }
  }

  lemma FirstRangesAgree(a: seq<Range>, b: seq<Range>)
    requires Canonical(a) && Canonical(b) && a != [] && forall x: nat :: Covers(a, x) <==> Covers(b, x)
    ensures b != [] && a[0] == b[0]
  {
    assert a[0].Has(a[0].va) && Covers(a, a[0].va);
    assert b[0].Has(b[0].va) && Covers(b, b[0].va);
    StartsNoLater(a, b[0].va);
    StartsNoLater(b, a[0].va);
    EndsNoLater(a, b);
    EndsNoLater(b, a);
  }

  lemma StartsNoLater(a: seq<Range>, x: nat)
    requires Canonical(a) && Covers(a, x)
    ensures a[0].va <= x
  {
    var i :| 0 <= i < |a| && a[i].Has(x);
    if i > 0 { assert a[0].End() < a[i].va; }
  }

  lemma EndNotCovered(a: seq<Range>)
    requires Canonical(a) && a != []
    ensures !Covers(a, a[0].End())
  {
  }

  /** The byte after a's first range is not covered, so b's first range, which starts with it, ends by then. */
  lemma EndsNoLater(a: seq<Range>, b: seq<Range>)
    requires Canonical(a) && Canonical(b) && a != [] && b != [] && a[0].va == b[0].va
    requires forall x: nat :: Covers(a, x) <==> Covers(b, x)
    ensures b[0].End() <= a[0].End()
  {
    var x := a[0].End();
    if b[0].Has(x) {
      assert Covers(b, x);
      EndNotCovered(a);
    }
  }

  // ---- Taking ----

  /** The first range that holds size bytes, or the list's length. */
  predicate IsFirstFit(free: seq<Range>, size: nat, i: nat) {
    i <= |free| && (forall j :: 0 <= j < i ==> free[j].len < size) && (i < |free| ==> free[i].len >= size)
  }

  /** It holds them, and no range before it does; where none does, the search ends past them all. */
  lemma FirstFitIs(free: seq<Range>, size: nat, i: nat)
    requires IsFirstFit(free, size, i)
    ensures i <= |free| && (i < |free| ==> free[i].len >= size)
    ensures forall j :: 0 <= j < |free| && free[j].len >= size ==> i <= j
  {
  }

  lemma FirstFitIsThere(free: seq<Range>, size: nat, i: nat)
    requires i <= |free| && (i < |free| ==> free[i].len >= size) && forall j :: 0 <= j < |free| && free[j].len >= size ==> i <= j
    ensures IsFirstFit(free, size, i)
  {
  }

  /** size bytes off the front of range i. */
  function TakeFrom(free: seq<Range>, i: nat, size: nat): seq<Range>
    requires i < |free| && size <= free[i].len
  {
    if free[i].len == size then free[..i] + free[i + 1..]
    else free[i := Range(free[i].va + size, free[i].len - size)]
  }

  /** A request whose size wraps to 0 is given the first free range, which stays free. */
  lemma HugeRequestTakesNothing(free: seq<Range>, size: nat)
    requires Canonical(free) && free != [] && 0xFFFF_FFF0 < size < Windows.WORD
    ensures IsFirstFit(free, BlockSize(size), 0) && TakeFrom(free, 0, BlockSize(size)) == free && Covers(free, free[0].va)
  {
    BlockFits(size);
    assert free[0].Has(free[0].va);
  }

  lemma TakeFromMeans(free: seq<Range>, i: nat, size: nat)
    requires Canonical(free) && i < |free| && 0 < size <= free[i].len && size % ALIGN == 0
    ensures var r := TakeFrom(free, i, size); var block := Range(free[i].va, size);
      && Canonical(r) && Total(r) == Total(free) - size && block.va % ALIGN == 0
      && (forall a: nat :: Covers(r, a) <==> Covers(free, a) && !block.Has(a))
      && (forall a: nat :: block.Has(a) ==> Covers(free, a))
  {
    TakeFromTotal(free, i, size);
    TakeFromCanonical(free, i, size);
    hide Canonical, TakeFrom;
    assert free[i].va % ALIGN == 0 by { CanonicalAt(free, i); }
    var r, block := TakeFrom(free, i, size), Range(free[i].va, size);
    forall a: nat
      ensures Covers(r, a) <==> Covers(free, a) && !block.Has(a)
      ensures block.Has(a) ==> Covers(free, a)
    {
      TakeFromCovers(free, i, size, a);
    }
  }

  lemma CanonicalAt(free: seq<Range>, i: nat)
    requires Canonical(free) && i < |free|
    ensures free[i].va % ALIGN == 0 && free[i].len % ALIGN == 0 && free[i].len > 0
  {
  }

  lemma OnlyOne(free: seq<Range>, i: nat, j: nat, a: nat)
    requires Canonical(free) && i < |free| && j < |free| && i != j && free[i].Has(a)
    ensures !free[j].Has(a)
  {
    if i < j { assert free[i].End() < free[j].va; } else { assert free[j].End() < free[i].va; }
  }

  lemma TakeFromCanonical(free: seq<Range>, i: nat, size: nat)
    requires Canonical(free) && i < |free| && 0 < size <= free[i].len && size % ALIGN == 0
    ensures Canonical(TakeFrom(free, i, size))
  {
    hide TakeFrom;
    var r := TakeFrom(free, i, size);
    assert (free[i].va + size) % ALIGN == 0 && (free[i].len - size) % ALIGN == 0;
    forall j | 0 <= j < |r| ensures r[j].len > 0 && r[j].va % ALIGN == 0 && r[j].len % ALIGN == 0 { TakenAt(free, i, size, j); }
    forall j, k | 0 <= j < k < |r| ensures r[j].End() < r[k].va {
      TakenAt(free, i, size, j);
      TakenAt(free, i, size, k);
    }
  }

  lemma TakeFromCovers(free: seq<Range>, i: nat, size: nat, a: nat)
    requires Canonical(free) && i < |free| && 0 < size <= free[i].len
    ensures var r := TakeFrom(free, i, size); var block := Range(free[i].va, size);
      && (Covers(r, a) <==> Covers(free, a) && !block.Has(a))
      && (block.Has(a) ==> Covers(free, a))
  {
    hide TakeFrom;
    var block := Range(free[i].va, size);
    if block.Has(a) { assert free[i].Has(a); }
    if Covers(free, a) && !block.Has(a) { TakeFromLeaves(free, i, size, a); }
    if Covers(TakeFrom(free, i, size), a) { TakeFromOnly(free, i, size, a); }
  }

  lemma TakeFromLeaves(free: seq<Range>, i: nat, size: nat, a: nat)
    requires i < |free| && 0 < size <= free[i].len && Covers(free, a) && !Range(free[i].va, size).Has(a)
    ensures Covers(TakeFrom(free, i, size), a)
  {
    var j :| 0 <= j < |free| && free[j].Has(a);
    var k := if free[i].len == size && j > i then j - 1 else j;
    TakenAt(free, i, size, k);
    assert TakeFrom(free, i, size)[k].Has(a);
  }

  lemma TakeFromOnly(free: seq<Range>, i: nat, size: nat, a: nat)
    requires Canonical(free) && i < |free| && 0 < size <= free[i].len && Covers(TakeFrom(free, i, size), a)
    ensures Covers(free, a) && !Range(free[i].va, size).Has(a)
  {
    hide TakeFrom;
    var r := TakeFrom(free, i, size);
    var j :| 0 <= j < |r| && r[j].Has(a);
    TakenAt(free, i, size, j);
    var k := if free[i].len == size && j >= i then j + 1 else j;
    assert k < |free| && free[k].Has(a);
    if k != i { OnlyOne(free, k, i, a); }
  }

  lemma TakenAt(free: seq<Range>, i: nat, size: nat, j: nat)
    requires i < |free| && 0 < size <= free[i].len && j < |TakeFrom(free, i, size)|
    ensures |TakeFrom(free, i, size)| == |free| - if free[i].len == size then 1 else 0
    ensures TakeFrom(free, i, size)[j] ==
            if free[i].len == size then (if j >= i then free[j + 1] else free[j])
            else if j == i then Range(free[i].va + size, free[i].len - size) else free[j]
  {
  }

  lemma {:induction false} TakeFromTotal(free: seq<Range>, i: nat, size: nat)
    requires i < |free| && size <= free[i].len
    ensures Total(TakeFrom(free, i, size)) == Total(free) - size
    decreases i
  {
    var r := TakeFrom(free, i, size);
    if i > 0 {
      TakeFromTotal(free[1..], i - 1, size);
      assert r[1..] == TakeFrom(free[1..], i - 1, size);
    } else if free[0].len == size {
      assert r == free[1..];
    } else {
      assert r[1..] == free[1..];
    }
  }

  // ---- Giving back ----

  /** How many ranges from i on start below va, in order. */
  function Position(free: seq<Range>, va: nat, i: nat): (r: nat)
    requires i <= |free|
    ensures i <= r <= |free| && (forall j :: i <= j < r ==> free[j].va < va) && (r < |free| ==> free[r].va >= va)
    decreases |free| - i
  {
    if i < |free| && free[i].va < va then Position(free, va, i + 1) else i
  }

  predicate JoinsPrev(free: seq<Range>, i: nat, va: nat)
    requires i <= |free|
  {
    i > 0 && free[i - 1].End() == va
  }

  predicate JoinsNext(free: seq<Range>, i: nat, end: nat)
    requires i <= |free|
  {
    i < |free| && end == free[i].va
  }

  /** The list with [va, va + size) in it at place i; unless it would be a range too many. */
  function PutAt(free: seq<Range>, i: nat, va: nat, size: nat): seq<Range>
    requires i <= |free|
  {
    if JoinsPrev(free, i, va) && JoinsNext(free, i, va + size) then
      free[..i - 1] + [Range(free[i - 1].va, free[i - 1].len + size + free[i].len)] + free[i + 1..]
    else if JoinsPrev(free, i, va) then free[i - 1 := Range(free[i - 1].va, free[i - 1].len + size)]
    else if JoinsNext(free, i, va + size) then free[i := Range(va, free[i].len + size)]
    else if |free| < MAX_RANGES then free[..i] + [Range(va, size)] + free[i..]
    else free
  }

  /** No range is free for it: nc_pool_free loses it. */
  predicate Lost(free: seq<Range>, va: nat, size: nat) {
    var i := Position(free, va, 0);
    !JoinsPrev(free, i, va) && !JoinsNext(free, i, va + size) && |free| >= MAX_RANGES
  }

  function Put(free: seq<Range>, va: nat, size: nat): seq<Range> { PutAt(free, Position(free, va, 0), va, size) }

  ghost predicate Clear(free: seq<Range>, block: Range) { forall a: nat :: block.Has(a) ==> !Covers(free, a) }

  /** Where the block falls among the ranges. */
  lemma ClearPlace(free: seq<Range>, block: Range)
    requires Canonical(free) && block.len > 0 && Clear(free, block)
    ensures var i := Position(free, block.va, 0);
      && (forall j :: 0 <= j < i ==> free[j].End() <= block.va)
      && (forall j :: i <= j < |free| ==> block.End() <= free[j].va)
  {
    var i := Position(free, block.va, 0);
    forall j | 0 <= j < i ensures free[j].End() <= block.va {
      assert free[j].va < block.va;
      if free[j].End() > block.va { assert free[j].Has(block.va) && Covers(free, block.va) && block.Has(block.va); }
    }
    forall j | i <= j < |free| ensures block.End() <= free[j].va {
      if j > i { assert free[i].End() < free[j].va; }
      if block.End() > free[j].va { assert free[j].Has(free[j].va) && Covers(free, free[j].va) && block.Has(free[j].va); }
    }
  }

  lemma PutCovers(free: seq<Range>, va: nat, size: nat, a: nat)
    requires Canonical(free) && size > 0 && Clear(free, Range(va, size)) && !Lost(free, va, size)
    ensures Covers(Put(free, va, size), a) <==> Covers(free, a) || Range(va, size).Has(a)
  {
    ClearPlace(free, Range(va, size));
    var i := Position(free, va, 0);
    var r := Put(free, va, size);
    if Covers(free, a) {
      var j :| 0 <= j < |free| && free[j].Has(a);
      PutKeeps(free, i, va, size, j, a);
    }
    if Range(va, size).Has(a) { PutHas(free, i, va, size, a); }
    if Covers(r, a) {
      var j :| 0 <= j < |r| && r[j].Has(a);
      PutAddsOnly(free, i, va, size, j, a);
    }
  }

  lemma PutKeeps(free: seq<Range>, i: nat, va: nat, size: nat, j: nat, a: nat)
    requires i <= |free| && j < |free| && free[j].Has(a)
    requires (i > 0 ==> free[i - 1].End() <= va) && (i < |free| ==> va + size <= free[i].va)
    ensures Covers(PutAt(free, i, va, size), a)
  {
    var r := PutAt(free, i, va, size);
    var k := if JoinsPrev(free, i, va) && JoinsNext(free, i, va + size) then (if j < i then j else j - 1)
             else if JoinsPrev(free, i, va) || JoinsNext(free, i, va + size) || |free| >= MAX_RANGES then j
             else if j < i then j else j + 1;
    assert r[k].Has(a);
  }

  lemma PutHas(free: seq<Range>, i: nat, va: nat, size: nat, a: nat)
    requires i <= |free| && Range(va, size).Has(a)
    requires (i > 0 ==> free[i - 1].End() <= va) && (i < |free| ==> va + size <= free[i].va)
    requires JoinsPrev(free, i, va) || JoinsNext(free, i, va + size) || |free| < MAX_RANGES
    ensures Covers(PutAt(free, i, va, size), a)
  {
    var r := PutAt(free, i, va, size);
    assert r[if JoinsPrev(free, i, va) then i - 1 else i].Has(a);
  }

  lemma PutAddsOnly(free: seq<Range>, i: nat, va: nat, size: nat, j: nat, a: nat)
    requires i <= |free| && j < |PutAt(free, i, va, size)| && PutAt(free, i, va, size)[j].Has(a)
    ensures Covers(free, a) || Range(va, size).Has(a)
  {
    if JoinsPrev(free, i, va) && JoinsNext(free, i, va + size) {
      if j < i - 1 { assert free[j].Has(a); }
      else if j > i - 1 { assert free[j + 1].Has(a); }
      else if a < va { assert free[i - 1].Has(a); }
      else if a >= va + size { assert free[i].Has(a); }
    } else if JoinsPrev(free, i, va) {
      if j != i - 1 || a < va { assert free[j].Has(a); }
    } else if JoinsNext(free, i, va + size) {
      if j != i || a >= va + size { assert free[j].Has(a); }
    } else if |free| < MAX_RANGES {
      if j < i { assert free[j].Has(a); } else if j > i { assert free[j - 1].Has(a); }
    } else {
      assert free[j].Has(a);
    }
  }

  lemma PutCanonical(free: seq<Range>, va: nat, size: nat)
    requires Canonical(free) && size > 0 && Clear(free, Range(va, size)) && va % ALIGN == 0 && size % ALIGN == 0
    ensures Canonical(Put(free, va, size))
  {
    ClearPlace(free, Range(va, size));
    var i := Position(free, va, 0);
    PutAtCanonical(free, i, va, size);
  }

  predicate Fits(free: seq<Range>, i: nat, va: nat, size: nat)
    requires i <= |free|
  {
    && size > 0 && va % ALIGN == 0 && size % ALIGN == 0
    && (forall j :: 0 <= j < i ==> free[j].End() <= va) && (forall j :: i <= j < |free| ==> va + size <= free[j].va)
  }

  lemma PutAtCanonical(free: seq<Range>, i: nat, va: nat, size: nat)
    requires Canonical(free) && i <= |free| && Fits(free, i, va, size)
    ensures Canonical(PutAt(free, i, va, size))
  {
    if JoinsPrev(free, i, va) && JoinsNext(free, i, va + size) { PutBoth(free, i, va, size); }
    else if JoinsPrev(free, i, va) { PutPrev(free, i, va, size); }
    else if JoinsNext(free, i, va + size) { PutNext(free, i, va, size); }
    else { PutNew(free, i, va, size); }
  }

  /** A list is canonical when each entry is and each is before the next. */
  lemma {:induction false} StepwiseIsCanonical(r: seq<Range>)
    requires forall i :: 0 <= i < |r| ==> r[i].len > 0 && r[i].va % ALIGN == 0 && r[i].len % ALIGN == 0
    requires forall i :: 0 <= i < |r| - 1 ==> r[i].End() < r[i + 1].va
    ensures Canonical(r)
    decreases |r|
  {
    if r != [] {
      var p := r[..|r| - 1];
      StepwiseIsCanonical(p);
      forall i | 0 <= i < |p| ensures r[i].End() < r[|p|].va {
        if i < |p| - 1 { assert p[i].End() < p[|p| - 1].va; }
      }
      forall i, j | 0 <= i < j < |r| ensures r[i].End() < r[j].va {
        if j < |p| { assert p[i].End() < p[j].va; }
      }
    }
  }

  lemma PutBoth(free: seq<Range>, i: nat, va: nat, size: nat)
    requires Canonical(free) && i <= |free| && Fits(free, i, va, size) && JoinsPrev(free, i, va) && JoinsNext(free, i, va + size)
    ensures Canonical(free[..i - 1] + [Range(free[i - 1].va, free[i - 1].len + size + free[i].len)] + free[i + 1..])
  {
    hide Canonical;
    var one := Range(free[i - 1].va, free[i - 1].len + size + free[i].len);
    var r := free[..i - 1] + [one] + free[i + 1..];
    CanonicalAt(free, i);
    CanonicalAt(free, i - 1);
    JoinedLen(free[i - 1].len, size, free[i].len);
    hide Fits;
    forall j | 0 <= j < |r| ensures r[j].len > 0 && r[j].va % ALIGN == 0 && r[j].len % ALIGN == 0 {
      JoinedAt(free, i, one, j);
      CanonicalAt(free, if j < i then j else j + 1);
    }
    forall j | 0 <= j < |r| - 1 ensures r[j].End() < r[j + 1].va {
      JoinedAt(free, i, one, j);
      JoinedAt(free, i, one, j + 1);
      Ascending(free, i, j);
    }
    StepwiseIsCanonical(r);
  }

  lemma JoinedLen(a: nat, b: nat, c: nat)
    requires a % ALIGN == 0 && b % ALIGN == 0 && c % ALIGN == 0
    ensures (a + b + c) % ALIGN == 0
  {
    Windows.ModOf(a + b + c, ALIGN, a / ALIGN + b / ALIGN + c / ALIGN, 0);
  }

  lemma JoinedAt(free: seq<Range>, i: nat, one: Range, j: nat)
    requires 0 < i < |free| && j < |free| - 1
    ensures (free[..i - 1] + [one] + free[i + 1..])[j] == if j == i - 1 then one else free[if j < i then j else j + 1]
  {
  }

  /** Ranges i - 1 and i taken as one, the j-th ends before the next. */
  lemma Ascending(free: seq<Range>, i: nat, j: nat)
    requires Canonical(free) && 0 < i < |free| && j < |free| - 2
    ensures free[if j < i - 1 then j else j + 1].End() < free[if j + 1 < i then j + 1 else j + 2].va
  {
  }

  lemma PutPrev(free: seq<Range>, i: nat, va: nat, size: nat)
    requires Canonical(free) && i <= |free| && Fits(free, i, va, size) && JoinsPrev(free, i, va) && !JoinsNext(free, i, va + size)
    ensures Canonical(free[i - 1 := Range(free[i - 1].va, free[i - 1].len + size)])
  {
    if i < |free| { assert va + size < free[i].va; }
    CanonicalAt(free, i - 1);
    hide Fits;
    StepwiseIsCanonical(free[i - 1 := Range(free[i - 1].va, free[i - 1].len + size)]);
  }

  lemma PutNext(free: seq<Range>, i: nat, va: nat, size: nat)
    requires Canonical(free) && i <= |free| && Fits(free, i, va, size) && !JoinsPrev(free, i, va) && JoinsNext(free, i, va + size)
    ensures Canonical(free[i := Range(va, free[i].len + size)])
  {
    if i > 0 { assert free[i - 1].End() < va; }
    CanonicalAt(free, i);
    StepwiseIsCanonical(free[i := Range(va, free[i].len + size)]);
  }

  lemma PutNew(free: seq<Range>, i: nat, va: nat, size: nat)
    requires Canonical(free) && i <= |free| && Fits(free, i, va, size) && !JoinsPrev(free, i, va) && !JoinsNext(free, i, va + size)
    ensures Canonical(free[..i] + [Range(va, size)] + free[i..])
  {
    var r := free[..i] + [Range(va, size)] + free[i..];
    if i > 0 { assert free[i - 1].End() < va; }
    if i < |free| { assert va + size < free[i].va; }
    forall j | 0 <= j < |r| ensures r[j] == if j == i then Range(va, size) else free[if j < i then j else j - 1] {
    }
    StepwiseIsCanonical(r);
  }

  lemma {:induction false} TotalConcat(a: seq<Range>, b: seq<Range>)
    ensures Total(a + b) == Total(a) + Total(b)
    decreases |a|
  {
    if a == [] {
      assert a + b == b;
    } else {
      assert (a + b)[1..] == a[1..] + b;
      TotalConcat(a[1..], b);
    }
  }

  lemma TotalUpdate(a: seq<Range>, i: nat, r: Range)
    requires i < |a|
    ensures Total(a[i := r]) == Total(a) - a[i].len + r.len
    ensures Total(a[..i] + a[i + 1..]) == Total(a) - a[i].len
  {
    TotalAround(a, i);
    TotalAround(a[i := r], i);
    assert a[i := r][..i] == a[..i] && a[i := r][i + 1..] == a[i + 1..];
    TotalConcat(a[..i], a[i + 1..]);
  }

  lemma TotalAround(a: seq<Range>, i: nat)
    requires i < |a|
    ensures Total(a) == Total(a[..i]) + a[i].len + Total(a[i + 1..])
  {
    assert a == a[..i] + a[i..] && a[i..][1..] == a[i + 1..];
    TotalConcat(a[..i], a[i..]);
  }

  lemma PutTotal(free: seq<Range>, va: nat, size: nat)
    ensures Total(Put(free, va, size)) == Total(free) + if Lost(free, va, size) then 0 else size
  {
    var i := Position(free, va, 0);
    hide Total;
    if JoinsPrev(free, i, va) && JoinsNext(free, i, va + size) {
      BothTotal(free, i, va, size);
    } else if JoinsPrev(free, i, va) {
      TotalUpdate(free, i - 1, Range(free[i - 1].va, free[i - 1].len + size));
    } else if JoinsNext(free, i, va + size) {
      TotalUpdate(free, i, Range(va, free[i].len + size));
    } else if |free| < MAX_RANGES {
      NewTotal(free, i, va, size);
    }
  }

  lemma BothTotal(free: seq<Range>, i: nat, va: nat, size: nat)
    requires 0 < i < |free|
    ensures Total(free[..i - 1] + [Range(free[i - 1].va, free[i - 1].len + size + free[i].len)] + free[i + 1..]) == Total(free) + size
  {
    hide Total;
    var one := Range(free[i - 1].va, free[i - 1].len + size + free[i].len);
    TotalUpdate(free, i - 1, one);
    TotalUpdate(free[i - 1 := one], i, one);
    assert free[..i - 1] + [one] + free[i + 1..] == free[i - 1 := one][..i] + free[i - 1 := one][i + 1..];
  }

  lemma NewTotal(free: seq<Range>, i: nat, va: nat, size: nat)
    requires i <= |free|
    ensures Total(free[..i] + [Range(va, size)] + free[i..]) == Total(free) + size
  {
    hide Total;
    var r := free[..i] + [Range(va, size)] + free[i..];
    TotalUpdate(r, i, r[i]);
    assert r[..i] == free[..i] && r[i + 1..] == free[i..];
    assert free[..i] + free[i..] == free;
  }
}
