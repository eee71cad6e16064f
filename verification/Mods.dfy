/** Byte patches of mods over the disc's XBE, and a savestate's memory brought from the patches it was
  saved with to the ones of now (native/core/mods.c).
  */
module Mods {
  import opened Wrappers

  type Byte = x: int | 0 <= x < 256

  /** The image's memory: its mapped addresses and their bytes. */
  type Mem = map<nat, Byte>

  /** MemPatch.  image: it is the running XBE's. */
  datatype Patch = Patch(va: nat, was: seq<Byte>, neu: seq<Byte>, on: bool, image: bool)

  const PAGE: nat := 0x1000
  const HEADERS_AT: nat := 0x108       // XBE header: sizeof_headers

  // ---- Memory ----

  /** mem_read. */
  function Read(m: Mem, va: nat, n: nat): (r: Option<seq<Byte>>)
    ensures r.Some? <==> forall i :: va <= i < va + n ==> i in m
    ensures r.Some? ==> |r.value| == n && forall i :: va <= i < va + n ==> r.value[i - va] == m[i]
  {
    if forall i :: va <= i < va + n ==> i in m then Some(seq(n, i requires 0 <= i < n && va + i in m => m[va + i])) else None
  }

  /** mem_write where all of it is mapped. */
  function Write(m: Mem, va: nat, bytes: seq<Byte>): (r: Mem)
    ensures r.Keys == m.Keys
  {
    map a | a in m :: if va <= a < va + |bytes| then bytes[a - va] else m[a]
  }

  /** flip. */
  function Flip(m: Mem, p: Patch, on: bool): (r: (Mem, bool))
    ensures r.0.Keys == m.Keys
  {
    var from, to := if on then p.was else p.neu, if on then p.neu else p.was;
    if Read(m, p.va, |p.neu|) == Some(from) then (Write(m, p.va, to), true) else (m, false)
  }

  /** Memory with the patches put over it in order. */
  function Patched(d: Mem, list: seq<Patch>): (r: Mem)
    ensures r.Keys == d.Keys
  {
    if list == [] then d
    else
      var last := |list| - 1;
      Write(Patched(d, list[..last]), list[last].va, list[last].neu)
  }

  /** Each patch was recorded over what the earlier ones left. */
  predicate Layered(d: Mem, list: seq<Patch>) {
    list == [] ||
    (var last := |list| - 1;
     && |list[last].was| == |list[last].neu|
     && Read(Patched(d, list[..last]), list[last].va, |list[last].was|) == Some(list[last].was)
     && Layered(d, list[..last]))
  }

  /** Patches taken back in reverse, where memory holds them. */
  function Undo(m: Mem, list: seq<Patch>): (r: (Mem, nat))
    ensures r.0.Keys == m.Keys
  {
    if list == [] then (m, 0)
    else
      var last := |list| - 1;
      var (m1, ok) := Flip(m, list[last], false);
      var (m2, n) := Undo(m1, list[..last]);
      (m2, n + if ok then 1 else 0)
  }

  /** Patches put in, the first first, where memory holds what they go over. */
  function Redo(m: Mem, list: seq<Patch>): (r: (Mem, nat))
    ensures r.0.Keys == m.Keys
  {
    if list == [] then (m, 0)
    else
      var last := |list| - 1;
      var (m1, n) := Redo(m, list[..last]);
      var (m2, ok) := Flip(m1, list[last], true);
      (m2, n + if ok then 1 else 0)
  }

  /** A patch goes in, or out, only over the bytes it was recorded over, or its own: then memory holds the other's
      there, and every other byte as it was; else nothing changes. */
  lemma FlipOnlyOver(m: Mem, p: Patch, on: bool)
    requires |p.was| == |p.neu|
    ensures var (r, ok) := Flip(m, p, on); var from, to := if on then p.was else p.neu, if on then p.neu else p.was;
      && (ok <==> Read(m, p.va, |p.neu|) == Some(from))
      && (ok ==> Read(r, p.va, |p.neu|) == Some(to))
      && (!ok ==> r == m)
      && forall x: nat :: x in m && !(p.va <= x < p.va + |p.neu|) ==> r[x] == m[x]
  {
    var (r, ok) := Flip(m, p, on);
    if ok { ReadWritten(m, p.va, if on then p.neu else p.was); }
  }

  /** Patches that memory does not hold are left as they are, and not counted. */
  lemma {:induction false} LeftAsTheyWere(m: Mem, list: seq<Patch>)
    ensures (forall i :: 0 <= i < |list| ==> Read(m, list[i].va, |list[i].neu|) != Some(list[i].neu)) ==> Undo(m, list) == (m, 0)
    ensures (forall i :: 0 <= i < |list| ==> Read(m, list[i].va, |list[i].neu|) != Some(list[i].was)) ==> Redo(m, list) == (m, 0)
    decreases |list|
  {
    hide Read, Write;
    if list != [] {
      var last := |list| - 1;
      LeftAsTheyWere(m, list[..last]);
      assert forall i :: 0 <= i < last ==> list[..last][i] == list[i];
      assert list[last] in list;
    }
  }

  // ---- Undone and redone exactly ----

  /** a and b hold the same bytes at `at`, where both are mapped. */
  ghost predicate Agree(a: Mem, b: Mem, at: iset<nat>) { forall x :: x in at ==> x in a && x in b && a[x] == b[x] }

  /** The addresses include the patches'. */
  ghost predicate Holds(at: iset<nat>, list: seq<Patch>) {
    forall i, x: nat :: 0 <= i < |list| && list[i].va <= x < list[i].va + |list[i].neu| ==> x in at
  }

  lemma ReadAgrees(a: Mem, b: Mem, at: iset<nat>, va: nat, n: nat)
    requires Agree(a, b, at) && forall x: nat :: va <= x < va + n ==> x in at
    ensures Read(a, va, n).Some? && Read(a, va, n) == Read(b, va, n)
  {
    forall x | va <= x < va + n ensures x in a && x in b { assert x in at; }
    assert Read(a, va, n).value == Read(b, va, n).value;
  }

  lemma WriteAgrees(a: Mem, b: Mem, at: iset<nat>, va: nat, bytes: seq<Byte>)
    requires Agree(a, b, at)
    ensures Agree(Write(a, va, bytes), Write(b, va, bytes), at)
  {
  }

  /** The bytes just written are read. */
  lemma ReadWritten(m: Mem, va: nat, bytes: seq<Byte>)
    requires Read(m, va, |bytes|).Some?
    ensures Read(Write(m, va, bytes), va, |bytes|) == Some(bytes)
  {
    assert Read(Write(m, va, bytes), va, |bytes|).value == bytes;
  }

  /** What was there put back. */
  lemma WriteBack(m: Mem, va: nat, bytes: seq<Byte>)
    requires Read(m, va, |bytes|).Some?
    ensures Write(Write(m, va, bytes), va, Read(m, va, |bytes|).value) == m
  {
  }

  /** Memory as the layered patches made it becomes, at any addresses that include theirs, as it was
      under them, every patch taken back; overlapping ones included. */
  lemma {:induction false} UndoRestores(d: Mem, m: Mem, list: seq<Patch>, at: iset<nat>)
    requires Layered(d, list) && Agree(m, Patched(d, list), at) && Holds(at, list)
    ensures Agree(Undo(m, list).0, d, at) && Undo(m, list).1 == |list|
    ensures forall x: nat :: x in m && x !in at ==> Undo(m, list).0[x] == m[x]
    decreases |list|
  {
    if list != [] {
      var last := |list| - 1;
      var p, under := list[last], Patched(d, list[..last]);
      ReadAgrees(m, Patched(d, list), at, p.va, |p.neu|);
      ReadWritten(under, p.va, p.neu);
      WriteAgrees(m, Patched(d, list), at, p.va, p.was);
      WriteBack(under, p.va, p.neu);
      HoldsPrefix(at, list, last);
      UndoRestores(d, Write(m, p.va, p.was), list[..last], at);
    }
  }

  lemma HoldsPrefix(at: iset<nat>, list: seq<Patch>, n: nat)
    requires Holds(at, list) && n <= |list|
    ensures Holds(at, list[..n])
  {
    forall i, x: nat | 0 <= i < n && list[..n][i].va <= x < list[..n][i].va + |list[..n][i].neu| ensures x in at {
      assert list[..n][i] == list[i];
    }
  }

  /** Memory as the disc's becomes, at any addresses that include theirs, as the layered patches make it. */
  lemma {:induction false} RedoApplies(d: Mem, m: Mem, list: seq<Patch>, at: iset<nat>)
    requires Layered(d, list) && Agree(m, d, at) && Holds(at, list)
    ensures Agree(Redo(m, list).0, Patched(d, list), at) && Redo(m, list).1 == |list|
    ensures forall x: nat :: x in m && x !in at ==> Redo(m, list).0[x] == m[x]
    decreases |list|
  {
    if list != [] {
      var last := |list| - 1;
      var p := list[last];
      HoldsPrefix(at, list, last);
      RedoApplies(d, m, list[..last], at);
      var m1 := Redo(m, list[..last]).0;
      ReadAgrees(m1, Patched(d, list[..last]), at, p.va, |p.neu|);
      WriteAgrees(m1, Patched(d, list[..last]), at, p.va, p.neu);
    }
  }

  // ---- Which patches ----

  /** p->va - g_base < 0x1000. */
  predicate InHeader(p: Patch, base: nat) { base <= p.va < base + PAGE }

  /** The running image's; those on (`on`), those in the header page (`header`). */
  predicate Wanted(p: Patch, on: bool, header: bool, base: nat) { p.image && (!on || p.on) && (!header || InHeader(p, base)) }

  function Select(list: seq<Patch>, on: bool, header: bool, base: nat): seq<Patch> {
    if list == [] then [] else One(list[0], on, header, base) + Select(list[1..], on, header, base)
  }

  function One(p: Patch, on: bool, header: bool, base: nat): seq<Patch> { if Wanted(p, on, header, base) then [p] else [] }

  lemma {:induction false} SelectAdd(list: seq<Patch>, p: Patch, on: bool, header: bool, base: nat)
    ensures Select(list + [p], on, header, base) == Select(list, on, header, base) + One(p, on, header, base)
    decreases |list|
  {
    hide One;
    if list == [] {
      assert ([] + [p])[1..] == [];
      assert One(p, on, header, base) + [] == [] + One(p, on, header, base);
    } else {
      SelectAdd(list[1..], p, on, header, base);
      assert (list + [p])[1..] == list[1..] + [p] && (list + [p])[0] == list[0];
    }
  }

  /** same_patch. */
  predicate SamePatch(a: Patch, b: Patch) { a.va == b.va && a.was == b.was && a.neu == b.neu }

  predicate SamePatches(a: seq<Patch>, b: seq<Patch>) {
    |a| == |b| && forall i :: 0 <= i < |a| ==> SamePatch(a[i], b[i])
  }

  /** saved_as_now. */
  predicate SavedAsNow(saved: seq<Patch>, now: seq<Patch>, header: bool, base: nat) {
    SamePatches(Select(saved, false, header, base), Select(now, true, header, base))
  }

  /** The patches selected are those of the running image, and where asked for those on and those in its header page. */
  lemma {:induction false} SelectedExactly(list: seq<Patch>, on: bool, header: bool, base: nat, p: Patch)
    ensures p in Select(list, on, header, base) <==>
              p in list && p.image && (on ==> p.on) && (header ==> p.va >= base && p.va - base < 0x1000)
    decreases |list|
  {
    if list != [] {
      SelectedExactly(list[1..], on, header, base, p);
      assert list == [list[0]] + list[1..];
    }
  }

  /** The lists are the same but for whether patches are on, and of the running image. */
  lemma SameExactly(a: seq<Patch>, b: seq<Patch>)
    ensures SamePatches(a, b) <==> |a| == |b| && forall i :: 0 <= i < |a| ==> b[i] == a[i].(on := b[i].on, image := b[i].image)
  {
  }

  // ---- The header page ----

  predicate OverHeaders(p: Patch, base: nat) {
    p.image && p.va <= base + HEADERS_AT && base + HEADERS_AT + 4 <= p.va + |p.neu|
  }

  function WordOf(b0: nat, b1: nat, b2: nat, b3: nat): nat { b0 + 0x100 * b1 + 0x10000 * b2 + 0x100_0000 * b3 }

  function Word(bytes: seq<Byte>, at: nat): nat
    requires at + 4 <= |bytes|
  {
    WordOf(bytes[at], bytes[at + 1], bytes[at + 2], bytes[at + 3])
  }

  /** The sizeof_headers the first patch over it was recorded over. */
  function HeadersIn(list: seq<Patch>, base: nat): Option<nat> {
    if list == [] then None
    else if OverHeaders(list[0], base) && |list[0].was| == |list[0].neu|
    then Some(Word(list[0].was, base + HEADERS_AT - list[0].va))
    else HeadersIn(list[1..], base)
  }

  /** disc_headers. */
  function DiscHeaders(now: seq<Patch>, saved: seq<Patch>, base: nat): nat {
    match HeadersIn(now, base)
    case Some(h) => h
    case None => match HeadersIn(saved, base)
      case Some(h) => h
      case None => 0
  }

  predicate Clears(m: Mem, base: nat, h0: nat) { 0 < h0 < PAGE && Read(m, base, PAGE).Some? }

  /** clear_header_page. */
  function Clear(m: Mem, base: nat, h0: nat): (r: Mem)
    ensures r.Keys == m.Keys
  {
    if Clears(m, base, h0) then ZeroFrom(m, base + h0, base + PAGE) else m
  }

  function ZeroFrom(m: Mem, lo: nat, hi: nat): (r: Mem)
    ensures r.Keys == m.Keys
  {
    map a | a in m :: if lo <= a < hi then 0 else m[a]
  }

  lemma ZeroMore(m: Mem, lo: nat, hi: nat)
    requires lo <= hi && hi in m
    ensures ZeroFrom(m, lo, hi + 1) == if ZeroFrom(m, lo, hi)[hi] != 0 then ZeroFrom(m, lo, hi)[hi := 0] else ZeroFrom(m, lo, hi)
  {
  }

  lemma ZeroNone(m: Mem, lo: nat)
    ensures ZeroFrom(m, lo, lo) == m
  {
  }

  /** Clearing leaves memory as the disc's exactly where the disc has zeros from h0 on. */
  lemma ClearIsDiscExactly(m: Mem, d: Mem, at: iset<nat>, base: nat, h0: nat)
    requires Agree(m, d, at)
    ensures Agree(Clear(m, base, h0), d, at) <==>
            (Clears(m, base, h0) ==> forall a: nat :: a in at && base + h0 <= a < base + PAGE ==> d[a] == 0)
  {
    var r := Clear(m, base, h0);
    if Agree(r, d, at) && Clears(m, base, h0) {
      forall a: nat | a in at && base + h0 <= a < base + PAGE ensures d[a] == 0 { assert r[a] == d[a]; }
    }
  }

  /** nc_mods_after_load of a state that has its patches saved with it. */
  function AfterLoad(m: Mem, now: seq<Patch>, saved: seq<Patch>, base: nat): Mem {
    if SavedAsNow(saved, now, false, base) then m
    else
      var m1 := Undo(m, Select(saved, false, false, base)).0;
      var m2 := if SavedAsNow(saved, now, true, base) then m1 else Clear(m1, base, DiscHeaders(now, saved, base));
      Redo(m2, Select(now, true, false, base)).0
  }

  /** Clearing zeroes the header page from the headers on, where they end inside it and it is mapped, and nothing else. */
  lemma ClearedExactly(m: Mem, base: nat, h0: nat, a: nat)
    requires a in m
    ensures Clear(m, base, h0)[a] ==
            if 0 < h0 < PAGE && base + h0 <= a < base + PAGE && (forall x :: base <= x < base + PAGE ==> x in m) then 0 else m[a]
  {
    if forall x :: base <= x < base + PAGE ==> x in m { assert Read(m, base, PAGE).Some?; }
    if Read(m, base, PAGE).Some? { assert forall x :: base <= x < base + PAGE ==> x in m; }
  }

  /** A savestate with the patches of now is left as it is. */
  lemma SameModsLeaveMemory(m: Mem, now: seq<Patch>, saved: seq<Patch>, base: nat)
    requires Select(saved, false, false, base) == Select(now, true, false, base)
    ensures AfterLoad(m, now, saved, base) == m
  {
  }

  // ---- Savestates ----

  lemma {:induction false} SamePatched(d: Mem, a: seq<Patch>, b: seq<Patch>)
    requires SamePatches(a, b)
    ensures Patched(d, a) == Patched(d, b)
    decreases |a|
  {
    if a != [] { SamePatched(d, a[..|a| - 1], b[..|b| - 1]); }
  }

  /** Where the disc's file is zero past the headers that disc_headers finds. */
  ghost predicate ZeroPast(d: Mem, at: iset<nat>, base: nat, h0: nat) {
    0 < h0 < PAGE ==> forall a: nat :: a in at && base + h0 <= a < base + PAGE ==> a in d && d[a] == 0
  }

  /** A savestate whose memory is the disc's with its patches in order, overlapping ones included, has
      after loading the disc's with exactly the patches on now; and outside the patches only the header
      page past the disc's headers can have changed, to zeros. */
  lemma StatesGetTheirPatches(d: Mem, m: Mem, now: seq<Patch>, saved: seq<Patch>, base: nat, at: iset<nat>)
    requires var s, n := Select(saved, false, false, base), Select(now, true, false, base);
      Layered(d, s) && Layered(d, n) && Holds(at, s) && Holds(at, n) && Agree(m, Patched(d, s), at)
    requires ZeroPast(d, at, base, DiscHeaders(now, saved, base))
    ensures var r := AfterLoad(m, now, saved, base); var h0 := DiscHeaders(now, saved, base);
      && Agree(r, Patched(d, Select(now, true, false, base)), at)
      && r.Keys == m.Keys
      && forall x: nat :: x in m && x !in at ==> r[x] == m[x] || (h0 > 0 && base + h0 <= x < base + PAGE && r[x] == 0)
  {
    var s, n := Select(saved, false, false, base), Select(now, true, false, base);
    if SavedAsNow(saved, now, false, base) {
      SamePatched(d, s, n);
    } else {
      UndoRestores(d, m, s, at);
      var m1 := Undo(m, s).0;
      ClearIsDiscExactly(m1, d, at, base, DiscHeaders(now, saved, base));
      var m2 := if SavedAsNow(saved, now, true, base) then m1 else Clear(m1, base, DiscHeaders(now, saved, base));
      RedoApplies(d, m2, n, at);
    }
  }

  // ---- From the disc's own headers ----

  /** Patch i of the list is the first over sizeof_headers. */
  predicate FirstOver(list: seq<Patch>, base: nat, i: nat) {
    i < |list| && OverHeaders(list[i], base) && forall j :: 0 <= j < i ==> !OverHeaders(list[j], base)
  }

  /** If a patch of the list is over sizeof_headers, the first such was recorded over that word. */
  predicate OverWord(list: seq<Patch>, base: nat, word: nat) {
    forall i :: 0 <= i < |list| && FirstOver(list, base, i) ==>
      |list[i].was| == |list[i].neu| && Word(list[i].was, base + HEADERS_AT - list[i].va) == word
  }

  lemma {:induction false} FoundOverWord(list: seq<Patch>, base: nat, word: nat)
    requires OverWord(list, base, word)
    ensures HeadersIn(list, base).None? || HeadersIn(list, base) == Some(word)
    decreases |list|
  {
    hide Word;
    if list != [] {
      if OverHeaders(list[0], base) {
        assert FirstOver(list, base, 0);
      } else {
        forall i | 0 <= i < |list[1..]| && FirstOver(list[1..], base, i)
          ensures var p := list[1..][i]; |p.was| == |p.neu| && Word(p.was, base + HEADERS_AT - p.va) == word
        {
          assert FirstOver(list, base, i + 1);
        }
        FoundOverWord(list[1..], base, word);
      }
    }
  }

  /** So a savestate gets the patches on now wherever the disc's file is zero past the disc's own
      sizeof_headers, once the first patch over that word, of the mods' of now and of the savestate's,
      was recorded over the disc's four bytes, or there is none. */
  lemma StatesGetTheirPatchesOfTheDisc(d: Mem, m: Mem, now: seq<Patch>, saved: seq<Patch>, base: nat, at: iset<nat>)
    requires var s, n := Select(saved, false, false, base), Select(now, true, false, base);
      Layered(d, s) && Layered(d, n) && Holds(at, s) && Holds(at, n) && Agree(m, Patched(d, s), at)
    requires Read(d, base + HEADERS_AT, 4).Some?
    requires var h0 := Word(Read(d, base + HEADERS_AT, 4).value, 0);
      OverWord(now, base, h0) && OverWord(saved, base, h0) && ZeroPast(d, at, base, h0)
    ensures var r := AfterLoad(m, now, saved, base); var h0 := Word(Read(d, base + HEADERS_AT, 4).value, 0);
      && Agree(r, Patched(d, Select(now, true, false, base)), at)
      && r.Keys == m.Keys
      && forall x: nat :: x in m && x !in at ==> r[x] == m[x] || (h0 > 0 && base + h0 <= x < base + PAGE && r[x] == 0)
  {
    hide Word, Read, Layered, Agree, Holds, AfterLoad;
    var h0 := Word(Read(d, base + HEADERS_AT, 4).value, 0);
    FoundOverWord(now, base, h0);
    FoundOverWord(saved, base, h0);
    hide OverWord, HeadersIn;
    StatesGetTheirPatches(d, m, now, saved, base, at);
  }

  // ---- Recording ----

  /** patch of a mod that is on: over the bytes the disc has with the earlier ones, if they are those
      the line says (`want`, [] for any). */
  function Record(d: Mem, now: seq<Patch>, va: nat, want: seq<Byte>, neu: seq<Byte>): seq<Patch> {
    var cur := Read(Patched(d, Select(now, true, false, 0)), va, |neu|);
    if cur.Some? && neu != [] && (want == [] || want == cur.value) then now + [Patch(va, cur.value, neu, true, true)] else now
  }

  /** patch of a mod that is off: remembered with the disc's own bytes. */
  function RecordOff(d: Mem, now: seq<Patch>, va: nat, neu: seq<Byte>): seq<Patch> {
    var cur := Read(d, va, |neu|);
    if cur.Some? && neu != [] then now + [Patch(va, cur.value, neu, false, true)] else now
  }

  /** However mods are listed, the patches of the ones on are recorded layered. */
  lemma RecordKeepsLayers(d: Mem, now: seq<Patch>, va: nat, want: seq<Byte>, neu: seq<Byte>)
    requires Layered(d, Select(now, true, false, 0))
    ensures Layered(d, Select(Record(d, now, va, want, neu), true, false, 0))
    ensures Layered(d, Select(RecordOff(d, now, va, neu), true, false, 0))
  {
    hide Layered, Read;
    var cur := Read(Patched(d, Select(now, true, false, 0)), va, |neu|);
    if cur.Some? {
      var p := Patch(va, cur.value, neu, true, true);
      SelectAdd(now, p, true, false, 0);
      LayeredAdd(d, Select(now, true, false, 0), p);
    }
    var orig := Read(d, va, |neu|);
    if orig.Some? {
      SelectAdd(now, Patch(va, orig.value, neu, false, true), true, false, 0);
      assert Select(now, true, false, 0) + [] == Select(now, true, false, 0);
    }
  }

  /** A line of a mod that is on is recorded over the bytes the disc has with the earlier ones, exactly where there are
      some and they are those the line says; of one that is off, over the disc's own. */
  lemma RecordsOver(d: Mem, now: seq<Patch>, va: nat, want: seq<Byte>, neu: seq<Byte>)
    requires neu != []
    ensures var here := Read(Patched(d, Select(now, true, false, 0)), va, |neu|); var r := Record(d, now, va, want, neu);
      && (here.Some? && (want == [] || want == here.value) ==>
            |r| == |now| + 1 && r[..|now|] == now && r[|now|].va == va && r[|now|].neu == neu && r[|now|].was == here.value && r[|now|].on)
      && (here.None? || (want != [] && want != here.value) ==> r == now)
    ensures var here := Read(d, va, |neu|); var r := RecordOff(d, now, va, neu);
      && (here.Some? ==>
            |r| == |now| + 1 && r[..|now|] == now && r[|now|].va == va && r[|now|].neu == neu && r[|now|].was == here.value && !r[|now|].on)
      && (here.None? ==> r == now)
  {
    hide Read, Patched, Select;
  }

  lemma LayeredAdd(d: Mem, s: seq<Patch>, p: Patch)
    requires Layered(d, s) && |p.was| == |p.neu| && Read(Patched(d, s), p.va, |p.was|) == Some(p.was)
    ensures Layered(d, s + [p])
  {
    assert (s + [p])[..|s|] == s;
  }

  // ---- The disc's headers ----

  predicate Touches(p: Patch, x: nat) { p.image && p.on && p.va <= x < p.va + |p.neu| }

  predicate Untouched(list: seq<Patch>, x: nat) { forall p :: p in list ==> !Touches(p, x) }

  lemma {:induction false} UntouchedIsDisc(d: Mem, list: seq<Patch>, x: nat)
    requires x in d && Untouched(list, x)
    requires forall p :: p in list ==> p.image && p.on
    ensures Patched(d, list)[x] == d[x]
    decreases |list|
  {
    if list != [] { UntouchedIsDisc(d, list[..|list| - 1], x); }
  }

  lemma {:induction false} SelectedAre(list: seq<Patch>)
    ensures forall p :: p in Select(list, true, false, 0) ==> p in list && p.image && p.on
    decreases |list|
  {
    if list != [] { SelectedAre(list[1..]); }
  }

  lemma {:induction false} HeadersFound(pre: seq<Patch>, p: Patch, post: seq<Patch>, base: nat)
    requires forall i :: 0 <= i < |pre| ==> !OverHeaders(pre[i], base)
    requires OverHeaders(p, base) && |p.was| == |p.neu|
    ensures HeadersIn(pre + [p] + post, base) == Some(Word(p.was, base + HEADERS_AT - p.va))
    decreases |pre|
  {
    var list := pre + [p] + post;
    if pre != [] {
      assert list[1..] == pre[1..] + [p] + post;
      HeadersFound(pre[1..], p, post, base);
    }
  }

  /** What the patch was recorded over: the disc with the earlier patches that are on, or the disc. */
  function Under(d: Mem, pre: seq<Patch>, p: Patch): Mem { if p.on then Patched(d, Select(pre, true, false, 0)) else d }

  /** disc_headers is the disc's sizeof_headers exactly when the first patch that covers it was recorded
      over the disc's four bytes: the first of the mods' of now, or where none does of the savestate's. */
  lemma HeadersAreTheDiscsExactly(d: Mem, pre: seq<Patch>, p: Patch, post: seq<Patch>, other: seq<Patch>, base: nat)
    requires Read(d, base + HEADERS_AT, 4).Some? && OverHeaders(p, base) && |p.was| == |p.neu|
    requires Read(Under(d, pre, p), p.va, |p.was|) == Some(p.was)
    requires forall i :: 0 <= i < |pre| ==> !OverHeaders(pre[i], base)
    ensures DiscHeaders(pre + [p] + post, other, base) == Word(Read(d, base + HEADERS_AT, 4).value, 0) <==>
            Read(Under(d, pre, p), base + HEADERS_AT, 4) == Read(d, base + HEADERS_AT, 4)
    ensures HeadersIn(other, base).None? ==>
            DiscHeaders(other, pre + [p] + post, base) == DiscHeaders(pre + [p] + post, other, base)
  {
    hide OverHeaders, HeadersIn, Under, Read, Patched, Word, WordOf;
    var at := base + HEADERS_AT;
    HeadersFound(pre, p, post, base);
    OverHeadersIs(p, base);
    RecordedWord(Under(d, pre, p), p, at);
    SameWord(d, Under(d, pre, p), at);
  }

  /** The word a patch was recorded over. */
  lemma RecordedWord(m: Mem, p: Patch, at: nat)
    requires Read(m, p.va, |p.was|) == Some(p.was) && p.va <= at && at + 4 <= p.va + |p.was|
    ensures Read(m, at, 4).Some? && Word(p.was, at - p.va) == Word(Read(m, at, 4).value, 0)
  {
    hide Read, WordOf;
    ReadByte(m, p.va, |p.was|, at);
    ReadByte(m, p.va, |p.was|, at + 1);
    ReadByte(m, p.va, |p.was|, at + 2);
    ReadByte(m, p.va, |p.was|, at + 3);
    ReadFour(m, at);
  }

  lemma ReadFour(m: Mem, at: nat)
    requires at in m && at + 1 in m && at + 2 in m && at + 3 in m
    ensures Read(m, at, 4) == Some([m[at], m[at + 1], m[at + 2], m[at + 3]])
  {
    forall i | at <= i < at + 4 ensures i in m { assert i == at || i == at + 1 || i == at + 2 || i == at + 3; }
    assert Read(m, at, 4).value == [m[at], m[at + 1], m[at + 2], m[at + 3]];
  }

  lemma ReadOne(m: Mem, at: nat)
    requires at in m
    ensures Read(m, at, 1) == Some([m[at]])
  {
    assert Read(m, at, 1).value == [m[at]];
  }

  /** Words are the same exactly when their bytes are. */
  lemma SameWord(d: Mem, m: Mem, at: nat)
    requires Read(d, at, 4).Some? && Read(m, at, 4).Some?
    ensures Word(Read(m, at, 4).value, 0) == Word(Read(d, at, 4).value, 0) <==> Read(m, at, 4) == Read(d, at, 4)
  {
    var x, y := Read(m, at, 4).value, Read(d, at, 4).value;
    if Word(x, 0) == Word(y, 0) {
      SameBytes(x[0], x[1], x[2], x[3], y[0], y[1], y[2], y[3]);
      assert x == y;
    }
  }

  lemma SameBytes(a: nat, b: nat, c: nat, d: nat, e: nat, f: nat, g: nat, h: nat)
    requires a < 256 && b < 256 && c < 256 && e < 256 && f < 256 && g < 256
    requires WordOf(a, b, c, d) == WordOf(e, f, g, h)
    ensures a == e && b == f && c == g && d == h
  {
    LowByte(a, b + 0x100 * (c + 0x100 * d), e, f + 0x100 * (g + 0x100 * h));
    LowByte(b, c + 0x100 * d, f, g + 0x100 * h);
    LowByte(c, d, g, h);
  }

  lemma LowByte(a: nat, m: nat, e: nat, n: nat)
    requires a < 256 && e < 256 && a + 0x100 * m == e + 0x100 * n
    ensures a == e && m == n
  {
  }

  /** So it is when no patch that is on touches it before the first that covers it. */
  lemma HeadersAreTheDiscs(d: Mem, pre: seq<Patch>, p: Patch, post: seq<Patch>, saved: seq<Patch>, base: nat)
    requires Read(d, base + HEADERS_AT, 4).Some? && OverHeaders(p, base) && |p.was| == |p.neu|
    requires Read(Under(d, pre, p), p.va, |p.was|) == Some(p.was)
    requires forall x: nat :: base + HEADERS_AT <= x < base + HEADERS_AT + 4 ==> Untouched(pre, x)
    requires forall i :: 0 <= i < |pre| ==> !OverHeaders(pre[i], base)
    ensures DiscHeaders(pre + [p] + post, saved, base) == Word(Read(d, base + HEADERS_AT, 4).value, 0)
  {
    var at := base + HEADERS_AT;
    HeadersAreTheDiscsExactly(d, pre, p, post, saved, base);
    UntouchedWord(d, pre, p, at);
  }

  lemma UntouchedWord(d: Mem, pre: seq<Patch>, p: Patch, at: nat)
    requires Read(d, at, 4).Some? && forall x: nat :: at <= x < at + 4 ==> Untouched(pre, x)
    ensures Read(Under(d, pre, p), at, 4) == Read(d, at, 4)
  {
    SelectedAre(pre);
    hide Patched, Select;
    forall x: nat | at <= x < at + 4 ensures x in d && Under(d, pre, p)[x] == d[x] {
      assert Untouched(pre, x);
      UntouchedIsDisc(d, Select(pre, true, false, 0), x);
    }
    ReadsAlike(d, Under(d, pre, p), at, 4);
  }

  lemma ReadsAlike(d: Mem, m: Mem, va: nat, n: nat)
    requires m.Keys == d.Keys && Read(d, va, n).Some? && forall x :: va <= x < va + n ==> x in d && m[x] == d[x]
    ensures Read(m, va, n) == Read(d, va, n)
  {
    assert Read(m, va, n).value == Read(d, va, n).value;
  }

  lemma OverHeadersIs(p: Patch, base: nat)
    requires OverHeaders(p, base)
    ensures p.va <= base + HEADERS_AT && base + HEADERS_AT + 4 <= p.va + |p.neu|
  {
  }

  lemma ReadByte(m: Mem, va: nat, n: nat, x: nat)
    requires Read(m, va, n).Some? && va <= x < va + n
    ensures x in m && |Read(m, va, n).value| == n && Read(m, va, n).value[x - va] == m[x]
  {
  }

  /** A patch over one byte of sizeof_headers, and then one over the word: the word recorded, and taken
      for the disc's, is part the first patch's. */
  lemma PartialPatchMisreadsHeaders(d: Mem, base: nat, b: Byte, neu: seq<Byte>)
    requires |neu| == 4 && Read(d, base + HEADERS_AT, 4).Some?
    ensures var word := Read(d, base + HEADERS_AT, 4).value;
      var now := Record(d, Record(d, [], base + HEADERS_AT + 1, [], [b]), base + HEADERS_AT, [], neu);
      && DiscHeaders(now, [], base) == WordOf(word[0], b, word[2], word[3])
      && (DiscHeaders(now, [], base) == Word(word, 0) <==> b == word[1])
  {
    var at := base + HEADERS_AT;
    var word := Read(d, at, 4).value;
    var cur := [word[0], b, word[2], word[3]];
    var p, q := Patch(at + 1, [word[1]], [b], true, true), Patch(at, cur, neu, true, true);
    RecordedOver(d, at, b, neu);
    hide Read, Record;
    assert [p, q][1..] == [q];
    assert HeadersIn([p, q], base) == HeadersIn([q], base) == Some(Word(cur, 0));
  }

  /** A patch over a word recorded after one over its second byte is recorded over that one's. */
  lemma RecordedOver(d: Mem, at: nat, b: Byte, neu: seq<Byte>)
    requires |neu| == 4 && Read(d, at, 4).Some?
    ensures var word := Read(d, at, 4).value;
      Record(d, Record(d, [], at + 1, [], [b]), at, [], neu) ==
      [Patch(at + 1, [word[1]], [b], true, true), Patch(at, [word[0], b, word[2], word[3]], neu, true, true)]
  {
    var word := Read(d, at, 4).value;
    var p := Patch(at + 1, [word[1]], [b], true, true);
    OneByteOver(d, at, b);
    hide Read, Write;
    assert Select([], true, false, 0) == [];
    assert Record(d, [], at + 1, [], [b]) == [p];
    PatchedOne(d, p);
    hide Select, Patched;
  }

  lemma PatchedOne(d: Mem, p: Patch)
    requires p.on && p.image
    ensures Patched(d, Select([p], true, false, 0)) == Write(d, p.va, p.neu)
  {
    hide Write;
    assert [p][1..] == [] && [p][..0] == [];
    assert Select([p], true, false, 0) == [p];
  }

  lemma OneByteOver(d: Mem, at: nat, b: Byte)
    requires Read(d, at, 4).Some?
    ensures var word := Read(d, at, 4).value;
      Read(d, at + 1, 1) == Some([word[1]]) && Read(Write(d, at + 1, [b]), at, 4) == Some([word[0], b, word[2], word[3]])
  {
    hide Read;
    ReadByte(d, at, 4, at);
    ReadByte(d, at, 4, at + 1);
    ReadByte(d, at, 4, at + 2);
    ReadByte(d, at, 4, at + 3);
    ReadOne(d, at + 1);
    ReadFour(Write(d, at + 1, [b]), at);
  }

  // ---- In place ----

  /** The guest's memory, and the lists of patches: a savestate's and the mods' of now. */
  class Loader {
    var mem: Mem
    var now: seq<Patch>
    var saved: seq<Patch>
    const base: nat

    constructor (m: Mem, at: nat)
      ensures mem == m && base == at && now == [] && saved == []
    {
      mem, base, now, saved := m, at, [], [];
    }

    /** patch, on the disc d. */
    method AddPatch(d: Mem, va: nat, want: seq<Byte>, neu: seq<Byte>, on: bool)
      requires neu != []
      modifies this`now
      ensures now == if on then Record(d, old(now), va, want, neu) else RecordOff(d, old(now), va, neu)
    {
      if on {
        var cur := Read(Patched(d, Select(now, true, false, 0)), va, |neu|);
        if cur.Some? && (want == [] || want == cur.value) {
          now := now + [Patch(va, cur.value, neu, true, true)];
        }
      } else {
        var cur := Read(d, va, |neu|);
        if cur.Some? {
          now := now + [Patch(va, cur.value, neu, false, true)];
        }
      }
    }

    method FlipOne(p: Patch, on: bool) returns (ok: bool)
      modifies this`mem
      ensures (mem, ok) == Flip(old(mem), p, on)
    {
      var from, to := if on then p.was else p.neu, if on then p.neu else p.was;
      var cur := Read(mem, p.va, |p.neu|);
      ok := cur == Some(from);
      if ok {
        mem := Write(mem, p.va, to);
      }
    }

    /** saved_as_now: both lists at once, each past what isn't wanted. */
    method SameAsNow(header: bool) returns (same: bool)
      ensures same == SavedAsNow(saved, now, header, base)
    {
      hide Wanted, Select, SamePatch;
      var i, k := 0, 0;
      while true
        invariant i <= |saved| && k <= |now|
        invariant SavedAsNow(saved, now, header, base) ==
                  SamePatches(Select(saved[i..], false, header, base), Select(now[k..], true, header, base))
        decreases |saved| - i + |now| - k
      {
        i := NextWanted(saved, i, false, header);
        k := NextWanted(now, k, true, header);
        if i == |saved| || k == |now| {
          SameEnd(saved[i..], now[k..], header, base);
          return i == |saved| && k == |now|;
        }
        SameFront(saved[i..], now[k..], header, base);
        if !SamePatch(saved[i], now[k]) {
          return false;
        }
        assert saved[i..][1..] == saved[i + 1..] && now[k..][1..] == now[k + 1..];
        i, k := i + 1, k + 1;
      }
    }

    method NextWanted(list: seq<Patch>, from: nat, on: bool, header: bool) returns (i: nat)
      requires from <= |list|
      ensures from <= i <= |list| && (i < |list| ==> Wanted(list[i], on, header, base))
      ensures Select(list[from..], on, header, base) == Select(list[i..], on, header, base)
    {
      i := from;
      while i < |list| && !Wanted(list[i], on, header, base)
        invariant from <= i <= |list| && Select(list[from..], on, header, base) == Select(list[i..], on, header, base)
      {
        assert list[i..][1..] == list[i + 1..];
        i := i + 1;
      }
    }

    method HeadersOf(list: seq<Patch>) returns (h: Option<nat>)
      ensures h == HeadersIn(list, base)
    {
      for i := 0 to |list|
        invariant HeadersIn(list, base) == HeadersIn(list[i..], base)
      {
        var p := list[i];
        if OverHeaders(p, base) && |p.was| == |p.neu| {
          return Some(Word(p.was, base + HEADERS_AT - p.va));
        }
        assert list[i..][1..] == list[i + 1..];
      }
      return None;
    }

    method ClearPage()
      modifies this`mem
      ensures mem == Clear(old(mem), base, DiscHeaders(now, saved, base))
    {
      var h := HeadersOf(now);
      if h.None? {
        h := HeadersOf(saved);
      }
      var h0 := if h.Some? then h.value else 0;
      if h0 == 0 || h0 >= PAGE || Read(mem, base, PAGE).None? {
        return;
      }
      ZeroBytes(base + h0, base + PAGE);
    }

    method ZeroBytes(lo: nat, hi: nat)
      requires lo <= hi && forall a :: lo <= a < hi ==> a in mem
      modifies this`mem
      ensures mem == ZeroFrom(old(mem), lo, hi)
    {
      ghost var m0 := mem;
      ZeroNone(m0, lo);
      hide ZeroFrom;
      for o := lo to hi
        invariant mem == ZeroFrom(m0, lo, o)
      {
        ZeroMore(m0, lo, o);
        if mem[o] != 0 {
          mem := mem[o := 0];
        }
      }
    }

    /** nc_mods_after_load. */
    method Loaded()
      modifies this`mem
      ensures mem == AfterLoad(old(mem), now, saved, base)
    {
      var same := SameAsNow(false);
      if same {
        return;
      }
      var headerSame := SameAsNow(true);
      TakeBack();
      if !headerSame {
        ClearPage();
      }
      PutIn();
    }

    /** The saved patches in reverse. */
    method TakeBack()
      modifies this`mem
      ensures mem == Undo(old(mem), Select(saved, false, false, base)).0
    {
      hide Undo, Flip;
      var i := |saved|;
      assert saved[..i] == saved;
      while i > 0
        invariant i <= |saved|
        invariant Undo(old(mem), Select(saved, false, false, base)).0 == Undo(mem, Select(saved[..i], false, false, base)).0
      {
        i := i - 1;
        SelectAdd(saved[..i], saved[i], false, false, base);
        assert saved[..i + 1] == saved[..i] + [saved[i]];
        ghost var s := Select(saved[..i], false, false, base);
        if saved[i].image {
          UndoAdd(mem, s, saved[i]);
          var ok := FlipOne(saved[i], false);
        } else {
          assert s + [] == s;
        }
      }
      UndoNone(mem);
    }

    /** The mods' that are on, the first first. */
    method PutIn()
      modifies this`mem
      ensures mem == Redo(old(mem), Select(now, true, false, base)).0
    {
      RedoNone(mem);
      hide Redo, Flip;
      for i := 0 to |now|
        invariant mem == Redo(old(mem), Select(now[..i], true, false, base)).0
      {
        SelectAdd(now[..i], now[i], true, false, base);
        assert now[..i + 1] == now[..i] + [now[i]];
        ghost var s := Select(now[..i], true, false, base);
        if now[i].on && now[i].image {
          RedoAdd(old(mem), s, now[i]);
          var ok := FlipOne(now[i], true);
        } else {
          assert s + [] == s;
        }
      }
      assert now[..|now|] == now;
    }
  }

  lemma UndoAdd(m: Mem, s: seq<Patch>, p: Patch)
    ensures Undo(m, s + [p]).0 == Undo(Flip(m, p, false).0, s).0
  {
    assert (s + [p])[..|s|] == s;
  }

  lemma UndoNone(m: Mem)
    ensures Undo(m, []).0 == m
  {
  }

  lemma RedoAdd(m: Mem, s: seq<Patch>, p: Patch)
    ensures Redo(m, s + [p]).0 == Flip(Redo(m, s).0, p, true).0
  {
    assert (s + [p])[..|s|] == s;
  }

  lemma RedoNone(m: Mem)
    ensures Redo(m, []).0 == m
  {
  }

  lemma SameEnd(a: seq<Patch>, b: seq<Patch>, header: bool, base: nat)
    requires a == [] || b == []
    requires (a != [] ==> Wanted(a[0], false, header, base)) && (b != [] ==> Wanted(b[0], true, header, base))
    ensures SamePatches(Select(a, false, header, base), Select(b, true, header, base)) <==> a == [] && b == []
  {
  }

  lemma SameFront(a: seq<Patch>, b: seq<Patch>, header: bool, base: nat)
    requires a != [] && b != [] && Wanted(a[0], false, header, base) && Wanted(b[0], true, header, base)
    ensures SamePatches(Select(a, false, header, base), Select(b, true, header, base)) <==>
            SamePatch(a[0], b[0]) && SamePatches(Select(a[1..], false, header, base), Select(b[1..], true, header, base))
  {
    var s, t := Select(a, false, header, base), Select(b, true, header, base);
    var s1, t1 := Select(a[1..], false, header, base), Select(b[1..], true, header, base);
    assert s == [a[0]] + s1 && t == [b[0]] + t1;
    if SamePatches(s, t) {
      assert SamePatch(s[0], t[0]);
      forall i | 0 <= i < |s1| ensures SamePatch(s1[i], t1[i]) { assert SamePatch(s[i + 1], t[i + 1]); }
    }
    if SamePatch(a[0], b[0]) && SamePatches(s1, t1) {
      forall i | 0 <= i < |s| ensures SamePatch(s[i], t[i]) { assert i > 0 ==> SamePatch(s1[i - 1], t1[i - 1]); }
    }
  }
}
