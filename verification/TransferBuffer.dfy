/** A transfer descriptor's buffer (native/dev/ohci.c, td_len and td_copy): the bytes from CBP through
  BE, which may continue once, from the end of CBP's page at the start of BE's.
  */
module TransferBuffer {

  const PAGE: nat := 0x1000
  const WORD: nat := 0x1_0000_0000
  const MAX: nat := 8192

  type Byte = x: int | 0 <= x < 256
  type Word = x: int | 0 <= x < 0x1_0000_0000

  predicate Crosses(cbp: Word, be: Word) { cbp / PAGE != be / PAGE }

  /** td_len. */
  function Len(cbp: Word, be: Word): nat {
    if cbp == 0 then 0
    else if Crosses(cbp, be) then PAGE - cbp % PAGE + be % PAGE + 1
    else (be - cbp + 1) % WORD
  }

  /** Bytes before the crossing. */
  function First(cbp: Word): nat { PAGE - cbp % PAGE }

  function PageOf(a: Word): Word { a / PAGE * PAGE }

  /** Where the buffer's i-th byte is. */
  function Address(cbp: Word, be: Word, i: nat): nat {
    if Crosses(cbp, be) && i >= First(cbp) then PageOf(be) + (i - First(cbp)) else cbp + i
  }

  /** CBP after r of len bytes moved. */
  function Advanced(cbp: Word, be: Word, len: nat, r: nat): Word
    requires r <= len <= MAX
  {
    if r == len then 0
    else
      var first := if Crosses(cbp, be) then First(cbp) else len;
      if r < first then (cbp + r) % WORD else (PageOf(be) + (r - first)) % WORD
  }

  /** From next on are the bytes after the first r. */
  predicate Continues(cbp: Word, be: Word, r: nat, next: Word) {
    forall i :: 0 <= i < Len(cbp, be) - r ==> Address(next, be, i) == Address(cbp, be, r + i)
  }

  /** A short transfer leaves the bytes not moved, byte for byte, but in one case: the move stopped at
      the crossing and BE is in page 0, where the new CBP is 0, which means an empty buffer. */
  lemma ShortTransferExactly(cbp: Word, be: Word, r: nat)
    requires r < Len(cbp, be) <= MAX
    ensures var next := Advanced(cbp, be, Len(cbp, be), r);
      && (Len(next, be) == Len(cbp, be) - r <==> !(Crosses(cbp, be) && r == First(cbp) && be < PAGE))
      && (next != 0 ==> Continues(cbp, be, r, next))
      && (next == 0 <==> Crosses(cbp, be) && r == First(cbp) && be < PAGE)
  {
    hide Advanced, Crosses;
    if !Crosses(cbp, be) { ShortWithin(cbp, be, r); }
    else if r < First(cbp) { ShortBefore(cbp, be, r); }
    else { ShortBeyond(cbp, be, r); }
  }

  lemma ShortWithin(cbp: Word, be: Word, r: nat)
    requires r < Len(cbp, be) <= MAX && !Crosses(cbp, be)
    ensures Advanced(cbp, be, Len(cbp, be), r) == cbp + r != 0
    ensures Len(cbp + r, be) == Len(cbp, be) - r
    ensures Continues(cbp, be, r, cbp + r)
  {
    SamePage(cbp, r);
  }

  lemma ShortBefore(cbp: Word, be: Word, r: nat)
    requires r < Len(cbp, be) <= MAX && Crosses(cbp, be) && r < First(cbp)
    ensures Advanced(cbp, be, Len(cbp, be), r) == cbp + r != 0
    ensures Len(cbp + r, be) == Len(cbp, be) - r
    ensures Continues(cbp, be, r, cbp + r)
  {
    SamePage(cbp, r);
  }

  lemma ShortBeyond(cbp: Word, be: Word, r: nat)
    requires First(cbp) <= r < Len(cbp, be) <= MAX && Crosses(cbp, be)
    ensures var next := PageOf(be) + (r - First(cbp));
      && next < WORD && Advanced(cbp, be, Len(cbp, be), r) == next
      && (next == 0 <==> r == First(cbp) && be < PAGE)
      && (next != 0 ==> Len(next, be) == Len(cbp, be) - r && Continues(cbp, be, r, next))
  {
    SamePage(PageOf(be), r - First(cbp));
  }

  lemma SamePage(a: Word, d: nat)
    requires a % PAGE + d < PAGE
    ensures (a + d) / PAGE == a / PAGE && (a + d) % PAGE == a % PAGE + d && a + d < WORD
  {
  }

  /** The whole of it moved, or none that was there, leaves an empty buffer. */
  lemma FullTransfer(cbp: Word, be: Word)
    requires Len(cbp, be) <= MAX
    ensures Len(Advanced(cbp, be, Len(cbp, be), Len(cbp, be)), be) == 0
  {
  }

  lemma AddressesDiffer(cbp: Word, be: Word, i: nat, j: nat)
    requires i < j < Len(cbp, be) <= MAX
    ensures Address(cbp, be, i) != Address(cbp, be, j)
  {
    if Crosses(cbp, be) {
      if i < First(cbp) { SamePage(cbp, i); }
      if j >= First(cbp) { SamePage(PageOf(be), j - First(cbp)); }
    }
  }

  /** A buffer is empty where CBP says so, or BE is the byte before it. */
  lemma EmptyExactly(cbp: Word, be: Word)
    ensures Len(cbp, be) == 0 <==> cbp == 0 || (!Crosses(cbp, be) && be == cbp - 1)
    ensures cbp != 0 && (Crosses(cbp, be) || cbp <= be) ==> 0 < Len(cbp, be) <= MAX
  {
  }

  /** The buffer is CBP through BE, one byte after the other, but for one step from the end of CBP's page to the
      start of BE's where these are two. */
  lemma BufferRuns(cbp: Word, be: Word, i: nat)
    requires i < Len(cbp, be) <= MAX
    ensures i == 0 ==> Address(cbp, be, i) == cbp
    ensures i + 1 == Len(cbp, be) ==> Address(cbp, be, i) == be
    ensures i + 1 < Len(cbp, be) ==>
              || Address(cbp, be, i + 1) == Address(cbp, be, i) + 1
              || (Crosses(cbp, be) && Address(cbp, be, i) == PageOf(cbp) + PAGE - 1 && Address(cbp, be, i + 1) == PageOf(be))
  {
  }

  // ---- Copying ----

  function Min(a: nat, b: nat): nat { if a < b then a else b }

  function Chunk(cbp: Word, be: Word, len: nat): nat { if Crosses(cbp, be) then Min(len, First(cbp)) else len }

  /** Bytes into memory where all of them are in RAM; none otherwise. */
  function Splice(ram: seq<Byte>, at: nat, data: seq<Byte>): (r: seq<Byte>)
    ensures |r| == |ram|
  {
    if at + |data| <= |ram| then ram[..at] + data + ram[at + |data|..] else ram
  }

  function Slice(ram: seq<Byte>, at: nat, was: seq<Byte>): (r: seq<Byte>)
    ensures |r| == |was|
  {
    if at + |was| <= |ram| then ram[at..at + |was|] else was
  }

  /** What a transfer of data to the buffer leaves in memory. */
  function Scatter(ram: seq<Byte>, cbp: Word, be: Word, data: seq<Byte>): (r: seq<Byte>)
    ensures |r| == |ram|
  {
    var first := Chunk(cbp, be, |data|);
    Splice(Splice(ram, cbp, data[..first]), PageOf(be), data[first..])
  }

  /** What a transfer from the buffer reads, over bytes that were there. */
  function Gather(ram: seq<Byte>, cbp: Word, be: Word, was: seq<Byte>): (r: seq<Byte>)
    ensures |r| == |was|
  {
    var first := Chunk(cbp, be, |was|);
    Slice(ram, cbp, was[..first]) + Slice(ram, PageOf(be), was[first..])
  }

  /** The stretch of the i-th of n bytes is in RAM. */
  predicate Reaches(size: nat, cbp: Word, be: Word, n: nat, i: nat) {
    var first := Chunk(cbp, be, n);
    if i < first then cbp + first <= size else PageOf(be) + (n - first) <= size
  }

  lemma GatherReads(ram: seq<Byte>, cbp: Word, be: Word, was: seq<Byte>, i: nat)
    requires i < |was| <= Len(cbp, be) <= MAX
    ensures Reaches(|ram|, cbp, be, |was|, i) ==>
              Address(cbp, be, i) < |ram| && Gather(ram, cbp, be, was)[i] == ram[Address(cbp, be, i)]
    ensures !Reaches(|ram|, cbp, be, |was|, i) ==> Gather(ram, cbp, be, was)[i] == was[i]
  {
  }

  /** r is ram with the data in the buffer where its stretches are in RAM, and every other byte as it was. */
  predicate Written(ram: seq<Byte>, r: seq<Byte>, cbp: Word, be: Word, data: seq<Byte>) {
    && |r| == |ram|
    && (forall i :: 0 <= i < |data| && Reaches(|ram|, cbp, be, |data|, i) ==>
          Address(cbp, be, i) < |ram| && r[Address(cbp, be, i)] == data[i])
    && (forall a :: 0 <= a < |ram| && (forall i :: 0 <= i < |data| && Reaches(|ram|, cbp, be, |data|, i) ==> Address(cbp, be, i) != a) ==>
          r[a] == ram[a])
  }

  lemma ScatterWrites(ram: seq<Byte>, cbp: Word, be: Word, data: seq<Byte>)
    requires |data| <= Len(cbp, be) <= MAX
    ensures Written(ram, Scatter(ram, cbp, be, data), cbp, be, data)
  {
    hide Scatter, Reaches, Address;
    forall i | 0 <= i < |data| && Reaches(|ram|, cbp, be, |data|, i)
      ensures Address(cbp, be, i) < |ram| && Scatter(ram, cbp, be, data)[Address(cbp, be, i)] == data[i]
    {
      ScatterPuts(ram, cbp, be, data, i);
    }
    forall a | 0 <= a < |ram| && (forall i :: 0 <= i < |data| && Reaches(|ram|, cbp, be, |data|, i) ==> Address(cbp, be, i) != a)
      ensures Scatter(ram, cbp, be, data)[a] == ram[a]
    {
      ScatterLeaves(ram, cbp, be, data, a);
    }
  }

  lemma ScatterPuts(ram: seq<Byte>, cbp: Word, be: Word, data: seq<Byte>, i: nat)
    requires i < |data| <= Len(cbp, be) <= MAX && Reaches(|ram|, cbp, be, |data|, i)
    ensures Address(cbp, be, i) < |ram| && Scatter(ram, cbp, be, data)[Address(cbp, be, i)] == data[i]
  {
    var first := Chunk(cbp, be, |data|);
    var one := Splice(ram, cbp, data[..first]);
    hide Splice;
    if i < first {
      SpliceIn(ram, cbp, data[..first], i);
      if Crosses(cbp, be) { SamePage(cbp, i); }
      SpliceOut(one, PageOf(be), data[first..], cbp + i);
    } else {
      SpliceIn(one, PageOf(be), data[first..], i - first);
    }
  }

  lemma SpliceIn(ram: seq<Byte>, at: nat, data: seq<Byte>, k: nat)
    requires at + |data| <= |ram| && k < |data|
    ensures Splice(ram, at, data)[at + k] == data[k]
  {
  }

  lemma SpliceOut(ram: seq<Byte>, at: nat, data: seq<Byte>, a: nat)
    requires a < |ram| && !(at <= a < at + |data|)
    ensures Splice(ram, at, data)[a] == ram[a]
  {
  }

  /** A byte of a stretch that is in RAM is one of the buffer's. */
  lemma StretchAddress(size: nat, cbp: Word, be: Word, n: nat, a: nat)
    requires var first := Chunk(cbp, be, n);
      (cbp + first <= size && cbp <= a < cbp + first) ||
      (PageOf(be) + (n - first) <= size && PageOf(be) <= a < PageOf(be) + (n - first))
    ensures exists i :: 0 <= i < n && Reaches(size, cbp, be, n, i) && Address(cbp, be, i) == a
  {
    var first := Chunk(cbp, be, n);
    if cbp + first <= size && cbp <= a < cbp + first {
      assert Reaches(size, cbp, be, n, a - cbp) && Address(cbp, be, a - cbp) == a;
    } else {
      var i := first + (a - PageOf(be));
      assert Reaches(size, cbp, be, n, i) && Address(cbp, be, i) == a;
    }
  }

  lemma SpliceNone(ram: seq<Byte>, at: nat, data: seq<Byte>)
    requires at + |data| > |ram|
    ensures Splice(ram, at, data) == ram
  {
  }

  lemma ScatterLeaves(ram: seq<Byte>, cbp: Word, be: Word, data: seq<Byte>, a: nat)
    requires |data| <= Len(cbp, be) <= MAX && a < |ram|
    requires forall i :: 0 <= i < |data| && Reaches(|ram|, cbp, be, |data|, i) ==> Address(cbp, be, i) != a
    ensures Scatter(ram, cbp, be, data)[a] == ram[a]
  {
    var first := Chunk(cbp, be, |data|);
    var one := Splice(ram, cbp, data[..first]);
    hide Splice, Crosses, Len;
    if cbp + first > |ram| { SpliceNone(ram, cbp, data[..first]); }
    else {
      if cbp <= a < cbp + first { StretchAddress(|ram|, cbp, be, |data|, a); }
      SpliceOut(ram, cbp, data[..first], a);
    }
    if PageOf(be) + (|data| - first) > |ram| { SpliceNone(one, PageOf(be), data[first..]); }
    else {
      if PageOf(be) <= a < PageOf(be) + (|data| - first) { StretchAddress(|ram|, cbp, be, |data|, a); }
      SpliceOut(one, PageOf(be), data[first..], a);
    }
  }

  /** What a transfer put in the buffer is read back from it. */
  lemma GatherScatter(ram: seq<Byte>, cbp: Word, be: Word, data: seq<Byte>, was: seq<Byte>)
    requires |data| == |was| <= Len(cbp, be) <= MAX && forall i :: 0 <= i < |data| ==> Address(cbp, be, i) < |ram|
    ensures Gather(Scatter(ram, cbp, be, data), cbp, be, was) == data
  {
    ScatterWrites(ram, cbp, be, data);
    var r := Scatter(ram, cbp, be, data);
    var first := Chunk(cbp, be, |data|);
    if first > 0 { assert Address(cbp, be, first - 1) < |ram|; }
    if first < |data| { assert Address(cbp, be, |data| - 1) < |ram|; }
    forall i | 0 <= i < |data| ensures Gather(r, cbp, be, was)[i] == data[i] {
      assert Reaches(|ram|, cbp, be, |data|, i);
      GatherReads(r, cbp, be, was, i);
    }
  }

  method Move(dst: array<Byte>, to: nat, src: array<Byte>, from: nat, n: nat)
    requires dst != src && to + n <= dst.Length && from + n <= src.Length
    modifies dst
    ensures dst[..] == Splice(old(dst[..]), to, src[from..from + n])
  {
    for i := 0 to n
      invariant forall k :: 0 <= k < dst.Length ==> dst[k] == if to <= k < to + i then src[from + (k - to)] else old(dst[k])
    {
      dst[to + i] := src[from + i];
    }
    assert dst[..] == Splice(old(dst[..]), to, src[from..from + n]);
  }

  /** td_copy: each stretch where it is in RAM. */
  method TdCopy(ram: array<Byte>, cbp: Word, be: Word, buf: array<Byte>, len: nat, toGuest: bool)
    requires ram != buf && len <= buf.Length
    modifies ram, buf
    ensures toGuest ==> buf[..] == old(buf[..]) && ram[..] == Scatter(old(ram[..]), cbp, be, buf[..len])
    ensures !toGuest ==> ram[..] == old(ram[..]) && buf[..len] == Gather(ram[..], cbp, be, old(buf[..len])) && buf[len..] == old(buf[len..])
  {
    var first := len;
    if Crosses(cbp, be) {
      first := Min(len, PAGE - cbp % PAGE);
    }
    if toGuest {
      CopyOut(ram, cbp, PageOf(be), buf, len, first);
    } else {
      CopyIn(ram, cbp, PageOf(be), buf, len, first);
    }
  }

  /** Both stretches into memory. */
  method CopyOut(ram: array<Byte>, one: nat, two: nat, buf: array<Byte>, len: nat, first: nat)
    requires ram != buf && first <= len <= buf.Length
    modifies ram
    ensures ram[..] == Splice(Splice(old(ram[..]), one, buf[..len][..first]), two, buf[..len][first..])
  {
    hide Splice;
    assert buf[..len][..first] == buf[0..0 + first] && buf[..len][first..] == buf[first..first + (len - first)];
    Put(ram, one, buf, 0, first);
    Put(ram, two, buf, first, len - first);
  }

  /** One stretch into memory. */
  method Put(ram: array<Byte>, at: nat, buf: array<Byte>, from: nat, n: nat)
    requires ram != buf && from + n <= buf.Length
    modifies ram
    ensures ram[..] == Splice(old(ram[..]), at, buf[from..from + n])
  {
    if at + n <= ram.Length {
      Move(ram, at, buf, from, n);
    }
  }

  /** Both stretches from memory. */
  method CopyIn(ram: array<Byte>, one: nat, two: nat, buf: array<Byte>, len: nat, first: nat)
    requires ram != buf && first <= len <= buf.Length
    modifies buf
    ensures buf[..len] == Slice(ram[..], one, old(buf[..len])[..first]) + Slice(ram[..], two, old(buf[..len])[first..])
    ensures buf[len..] == old(buf[len..])
  {
    hide Slice;
    ghost var was := buf[..];
    Fetch(ram, one, buf, 0, first);
    ghost var mid := buf[..];
    assert mid == was[..0] + Slice(ram[..], one, was[0..0 + first]) + was[0 + first..];
    Fetch(ram, two, buf, first, len - first);
    ghost var now := buf[..];
    assert now == mid[..first] + Slice(ram[..], two, mid[first..first + (len - first)]) + mid[first + (len - first)..];
    Fetched(was, mid, now, Slice(ram[..], one, was[0..0 + first]), Slice(ram[..], two, mid[first..first + (len - first)]), first, len);
    assert was[..len][..first] == was[0..0 + first];
    assert buf[..len] == now[..len] && buf[len..] == now[len..] && was[..len] == old(buf[..len]) && was[len..] == old(buf[len..]);
  }

  /** One stretch from memory. */
  method Fetch(ram: array<Byte>, at: nat, buf: array<Byte>, from: nat, n: nat)
    requires ram != buf && from + n <= buf.Length
    modifies buf
    ensures buf[..] == old(buf[..from]) + Slice(ram[..], at, old(buf[from..from + n])) + old(buf[from + n..])
  {
    if at + n <= ram.Length {
      Move(buf, from, ram, at, n);
    }
  }

  lemma Fetched(was: seq<Byte>, mid: seq<Byte>, now: seq<Byte>, one: seq<Byte>, two: seq<Byte>, first: nat, len: nat)
    requires first <= len <= |was| && |one| == first && |two| == len - first
    requires mid == was[..0] + one + was[first..] && now == mid[..first] + two + mid[len..]
    ensures now[..len] == one + two && now[len..] == was[len..] && mid[first..len] == was[..len][first..]
  {
    assert mid[..first] == one;
    assert mid[len..] == was[len..];
  }
}
