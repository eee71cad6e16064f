/** Mods' files over the disc (native/core/xdvdfs.c): entries sealed into a sorted table and found by
  binary search, and patches read over a file's bytes.
  */
module Overlay {
  import opened Wrappers

  type Byte = x: int | 0 <= x < 256

  /** A normalized path's bytes. */
  type Path = seq<nat>

  /** host None: a folder.  order: entries pushed before it. */
  datatype Entry = Entry(path: Path, host: Option<nat>, size: nat, order: nat)

  // ---- strcmp ----

  predicate Before(a: Path, b: Path) {
    b != [] && (a == [] || a[0] < b[0] || (a[0] == b[0] && Before(a[1..], b[1..])))
  }

  lemma {:induction false} BeforeIsStrict(a: Path, b: Path)
    ensures !(Before(a, b) && Before(b, a)) && !Before(a, a)
    ensures a == b || Before(a, b) || Before(b, a)
  {
    if a != [] && b != [] {
      BeforeIsStrict(a[1..], b[1..]);
      if a[0] == b[0] && a[1..] == b[1..] { assert a == [a[0]] + a[1..] == b; }
      BeforeIsStrict(a[1..], a[1..]);
    } else if a != [] {
      BeforeIsStrict(a[1..], a[1..]);
    }
  }

  lemma {:induction false} BeforeIsTransitive(a: Path, b: Path, c: Path)
    requires Before(a, b) && Before(b, c)
    ensures Before(a, c)
  {
    if a != [] && a[0] == b[0] == c[0] { BeforeIsTransitive(a[1..], b[1..], c[1..]); }
  }

  /** ov_cmp: by path, then by the order added. */
  predicate Less(x: Entry, y: Entry) { Before(x.path, y.path) || (x.path == y.path && x.order < y.order) }

  lemma LessIsTransitive(x: Entry, y: Entry, z: Entry)
    requires Less(x, y) && Less(y, z)
    ensures Less(x, z)
  {
    if Before(x.path, y.path) && Before(y.path, z.path) { BeforeIsTransitive(x.path, y.path, z.path); }
  }

  lemma LessIsStrict(x: Entry, y: Entry)
    ensures !(Less(x, y) && Less(y, x)) && !Less(x, x)
    ensures x.order != y.order ==> Less(x, y) || Less(y, x)
  {
    BeforeIsStrict(x.path, y.path);
  }

  // ---- What was added ----

  /** The entries at a path, in the order of the list. */
  function At(s: seq<Entry>, path: Path): seq<Entry> {
    if s == [] then []
    else
      var last := |s| - 1;
      At(s[..last], path) + if s[last].path == path then [s[last]] else []
  }

  /** The last file, else the last folder. */
  function Winner(s: seq<Entry>): Option<Entry> {
    if s == [] then None
    else
      var last, w := s[|s| - 1], Winner(s[..|s| - 1]);
      if last.host.None? && w.Some? && w.value.host.Some? then w else Some(last)
  }

  /** What is at a path: of the entries added there the last file, else the last folder. */
  function Meant(added: seq<Entry>, path: Path): Option<Entry> { Winner(At(added, path)) }

  lemma {:induction false} WinnerIsLast(s: seq<Entry>)
    ensures s == [] <==> Winner(s).None?
    ensures forall i :: 0 <= i < |s| && s[i].host.Some? && (forall j :: i < j < |s| ==> s[j].host.None?) ==> Winner(s) == Some(s[i])
    ensures s != [] && (forall j :: 0 <= j < |s| ==> s[j].host.None?) ==> Winner(s) == Some(s[|s| - 1])
  {
    if s != [] {
      var p := s[..|s| - 1];
      WinnerIsLast(p);
      if forall j :: 0 <= j < |p| ==> p[j].host.None? {
        assert p != [] ==> Winner(p) == Some(p[|p| - 1]);
      }
      forall i | 0 <= i < |s| && s[i].host.Some? && (forall j :: i < j < |s| ==> s[j].host.None?)
        ensures Winner(s) == Some(s[i])
      {
        if i < |p| { assert p[i] == s[i]; }
      }
      if forall j :: 0 <= j < |s| ==> s[j].host.None? {
        assert forall j :: 0 <= j < |p| ==> p[j] == s[j];
      }
    }
  }

  // ---- Sorting ----

  predicate Sorted(s: seq<Entry>) { forall i, j :: 0 <= i < j < |s| ==> Less(s[i], s[j]) }

  /** Entries numbered as they were added. */
  predicate Numbered(s: seq<Entry>) { forall i :: 0 <= i < |s| ==> s[i].order == i }

  /** e after every entry that comes before it. */
  function Insert(s: seq<Entry>, e: Entry): seq<Entry> {
    if s == [] || Less(s[|s| - 1], e) then s + [e] else Insert(s[..|s| - 1], e) + [s[|s| - 1]]
  }

  function Sort(s: seq<Entry>): seq<Entry> {
    if s == [] then [] else Insert(Sort(s[..|s| - 1]), s[|s| - 1])
  }

  lemma {:induction false} InsertAt(s: seq<Entry>, e: Entry, path: Path)
    requires forall i :: 0 <= i < |s| ==> s[i].order < e.order
    ensures At(Insert(s, e), path) == At(s, path) + if e.path == path then [e] else []
    decreases |s|
  {
    if s == [] || Less(s[|s| - 1], e) {
      assert (s + [e])[..|s|] == s;
    } else {
      var last, t := s[|s| - 1], Insert(s[..|s| - 1], e);
      InsertAt(s[..|s| - 1], e, path);
      assert (t + [last])[..|t|] == t;
      BeforeIsStrict(last.path, e.path);
    }
  }

  lemma {:induction false} InsertSorts(s: seq<Entry>, e: Entry)
    requires Sorted(s) && forall i :: 0 <= i < |s| ==> s[i].order < e.order
    ensures Sorted(Insert(s, e)) && multiset(Insert(s, e)) == multiset(s) + multiset{e}
    decreases |s|
  {
    if s != [] {
      var last := s[|s| - 1];
      assert s == s[..|s| - 1] + [last];
      LessIsStrict(last, e);
      if Less(last, e) {
        forall i | 0 <= i < |s| ensures Less(s[i], e) { if i < |s| - 1 { LessIsTransitive(s[i], last, e); } }
      } else {
        InsertSorts(s[..|s| - 1], e);
        var t := Insert(s[..|s| - 1], e);
        hide Less;
        SortedThen(s[..|s| - 1], e, t, last);
      }
    }
  }

  lemma SortedThen(p: seq<Entry>, e: Entry, t: seq<Entry>, last: Entry)
    requires Sorted(t) && multiset(t) == multiset(p) + multiset{e} && Less(e, last)
    requires forall i :: 0 <= i < |p| ==> Less(p[i], last)
    ensures Sorted(t + [last])
  {
    hide Less;
    forall i | 0 <= i < |t| ensures Less(t[i], last) {
      assert t[i] in multiset(t);
      if t[i] != e { assert t[i] in p; }
    }
  }

  lemma EarlierOrders(p: seq<Entry>, r: seq<Entry>)
    requires Numbered(p) && multiset(r) == multiset(p)
    ensures forall i :: 0 <= i < |r| ==> r[i].order < |p|
  {
    forall i | 0 <= i < |r| ensures r[i].order < |p| {
      assert r[i] in multiset(p);
    }
  }

  lemma AtAdd(s: seq<Entry>, e: Entry, path: Path)
    ensures At(s + [e], path) == At(s, path) + if e.path == path then [e] else []
  {
    assert (s + [e])[..|s|] == s;
  }

  lemma {:induction false} SortIs(s: seq<Entry>, path: Path)
    requires Numbered(s)
    ensures Sorted(Sort(s)) && multiset(Sort(s)) == multiset(s) && At(Sort(s), path) == At(s, path)
  {
    if s != [] {
      hide Less, Insert, At;
      var p := s[..|s| - 1];
      SortIs(p, path);
      assert s == p + [s[|s| - 1]];
      EarlierOrders(p, Sort(p));
      InsertSorts(Sort(p), s[|s| - 1]);
      InsertAt(Sort(p), s[|s| - 1], path);
      AtAdd(p, s[|s| - 1], path);
    }
  }

  lemma TailMultiset(a: seq<Entry>)
    requires a != []
    ensures multiset(a[1..]) == multiset(a) - multiset{a[0]}
  {
    assert a == [a[0]] + a[1..];
  }

  lemma FirstIsLeast(a: seq<Entry>, e: Entry)
    requires Sorted(a) && a != [] && (e in multiset(a) || e in a)
    ensures e == a[0] || Less(a[0], e)
  {
    hide Less;
    var i :| 0 <= i < |a| && a[i] == e;
  }

  lemma FirstsAgree(a: seq<Entry>, b: seq<Entry>)
    requires Sorted(a) && Sorted(b) && multiset(a) == multiset(b) && a != []
    ensures b != [] && a[0] == b[0] && multiset(a[1..]) == multiset(b[1..])
  {
    assert |a| == |multiset(a)| == |multiset(b)| == |b|;
    assert a[0] in multiset(b) && b[0] in multiset(a);
    hide Less;
    FirstIsLeast(a, b[0]);
    FirstIsLeast(b, a[0]);
    LessIsStrict(a[0], b[0]);
    TailMultiset(a);
    TailMultiset(b);
  }

  lemma SortedTail(a: seq<Entry>)
    requires Sorted(a) && a != []
    ensures Sorted(a[1..]) && a == [a[0]] + a[1..]
  {
    hide Less;
  }

  /** The order is total, so there is one way to sort: whatever algorithm qsort has. */
  lemma {:induction false} SortedIsUnique(a: seq<Entry>, b: seq<Entry>)
    requires Sorted(a) && Sorted(b) && multiset(a) == multiset(b)
    ensures a == b
    decreases |a|
  {
    hide Sorted;
    if a != [] {
      FirstsAgree(a, b);
      SortedTail(a);
      SortedTail(b);
      SortedIsUnique(a[1..], b[1..]);
    } else {
      assert |b| == |multiset(b)| == 0;
    }
  }

  // ---- Sealing ----

  /** The loop of nc_disc_overlay_seal: one entry a path, a file over a folder. */
  function Compact(s: seq<Entry>): (r: seq<Entry>)
    ensures |r| <= |s|
  {
    if s == [] then [] else Added(Compact(s[..|s| - 1]), s[|s| - 1])
  }

  function Added(c: seq<Entry>, e: Entry): (r: seq<Entry>)
    ensures |r| <= |c| + 1
  {
    if c != [] && c[|c| - 1].path == e.path then
      (if e.host.None? && c[|c| - 1].host.Some? then c else c[..|c| - 1] + [e])
    else c + [e]
  }

  lemma CompactAdd(s: seq<Entry>, e: Entry)
    ensures Compact(s + [e]) == Added(Compact(s), e)
  {
    assert (s + [e])[..|s|] == s;
  }

  lemma CompactNone()
    ensures Compact([]) == []
  {
  }

  lemma InsertBefore(s: seq<Entry>, e: Entry)
    requires s != [] && !Less(s[|s| - 1], e)
    ensures Insert(s, e) == Insert(s[..|s| - 1], e) + [s[|s| - 1]]
  {
  }

  /** The entry goes below the j-th of the first i. */
  lemma InsertLower(s: seq<Entry>, x: Entry, j: nat, i: nat)
    requires 0 < j <= i <= |s| && !Less(s[j - 1], x) && Insert(s[..i], x) == Insert(s[..j], x) + s[j..i]
    ensures Insert(s[..i], x) == Insert(s[..j - 1], x) + s[j - 1..i]
  {
    hide Insert, Less;
    InsertBefore(s[..j], x);
    assert s[..j][..j - 1] == s[..j - 1];
    assert s[j - 1..i] == [s[j - 1]] + s[j..i];
  }

  /** Those from j on a place up and x put there. */
  lemma ShiftedPut(all: seq<Entry>, r: seq<Entry>, i: nat, j: nat, x: Entry)
    requires j <= i < |all| == |r|
    requires forall k :: 0 <= k < |r| ==> r[k] == if k == j then x else all[if j < k <= i then k - 1 else k]
    ensures r[..i + 1] == all[..j] + [x] + all[j..i] && r[i + 1..] == all[i + 1..]
  {
  }

  lemma InsertHere(s: seq<Entry>, e: Entry)
    requires s == [] || Less(s[|s| - 1], e)
    ensures Insert(s, e) == s + [e]
  {
  }

  lemma SortAdd(s: seq<Entry>, e: Entry)
    ensures Sort(s + [e]) == Insert(Sort(s), e)
  {
    assert (s + [e])[..|s|] == s;
  }

  lemma SortNone()
    ensures Sort([]) == []
  {
  }

  predicate StrictPaths(s: seq<Entry>) { forall i, j :: 0 <= i < j < |s| ==> Before(s[i].path, s[j].path) }

  function Lookup(s: seq<Entry>, path: Path): Option<Entry> {
    if s == [] then None else if s[|s| - 1].path == path then Some(s[|s| - 1]) else Lookup(s[..|s| - 1], path)
  }

  lemma {:induction false} LookupNone(s: seq<Entry>, path: Path)
    requires forall i :: 0 <= i < |s| ==> s[i].path != path
    ensures Lookup(s, path) == None
  {
    if s != [] { LookupNone(s[..|s| - 1], path); }
  }

  lemma {:induction false} LookupFinds(s: seq<Entry>, i: nat)
    requires StrictPaths(s) && i < |s|
    ensures Lookup(s, s[i].path) == Some(s[i])
  {
    if i < |s| - 1 {
      BeforeIsStrict(s[i].path, s[|s| - 1].path);
      LookupFinds(s[..|s| - 1], i);
    }
  }

  /** The compacted table is in strict order and ends at the last path. */
  lemma {:induction false} CompactStrict(s: seq<Entry>)
    requires Sorted(s)
    ensures StrictPaths(Compact(s)) && (s != [] ==> Compact(s) != [] && Compact(s)[|Compact(s)| - 1].path == s[|s| - 1].path)
  {
    hide Less, Before, Sorted, Added, StrictPaths;
    if s != [] {
      var p, e := s[..|s| - 1], s[|s| - 1];
      SortedPrefix(s);
      CompactStrict(p);
      LastAdded(s, []);
      if p != [] { LessIs(p[|p| - 1], e); }
      AddedStrict(Compact(p), e);
    } else {
      NoneStrict();
    }
  }

  lemma NoneStrict()
    ensures StrictPaths([])
  {
  }

  lemma LessIs(x: Entry, y: Entry)
    requires Less(x, y)
    ensures x.path == y.path || Before(x.path, y.path)
  {
  }

  lemma AddedStrict(c: seq<Entry>, e: Entry)
    requires StrictPaths(c) && (c != [] ==> c[|c| - 1].path == e.path || Before(c[|c| - 1].path, e.path))
    ensures StrictPaths(Added(c, e)) && Added(c, e) != [] && Added(c, e)[|Added(c, e)| - 1].path == e.path
  {
    if c != [] && c[|c| - 1].path != e.path {
      forall i | 0 <= i < |c| ensures Before(c[i].path, e.path) {
        if i < |c| - 1 { BeforeIsTransitive(c[i].path, c[|c| - 1].path, e.path); }
      }
    }
    hide Before;
  }

  /** The table holds at each path the winner of the entries there. */
  lemma {:induction false} CompactHolds(s: seq<Entry>, path: Path)
    requires Sorted(s)
    ensures Lookup(Compact(s), path) == Winner(At(s, path))
  {
    hide At, Less, Before, Sorted, StrictPaths, Added;
    if s != [] {
      var p, e := s[..|s| - 1], s[|s| - 1];
      SortedPrefix(s);
      CompactHolds(p, path);
      CompactStrict(p);
      LastAdded(s, path);
      hide Compact, Winner, Lookup;
      var c := Compact(p);
      if e.path != path {
        OtherPath(c, e, path);
      } else {
        if c == [] || c[|c| - 1].path != path { NewPath(p, e, path); }
        ThisPath(c, e, At(p, path));
      }
    } else {
      NothingThere(path);
    }
  }

  lemma NothingThere(path: Path)
    ensures At([], path) == [] && Winner([]) == None && Lookup(Compact([]), path) == None
  {
  }

  lemma SortedPrefix(s: seq<Entry>)
    requires Sorted(s) && s != []
    ensures Sorted(s[..|s| - 1]) && (|s| > 1 ==> Less(s[..|s| - 1][|s| - 2], s[|s| - 1]))
  {
    hide Less;
  }

  lemma LastAdded(s: seq<Entry>, path: Path)
    requires s != []
    ensures var p, e := s[..|s| - 1], s[|s| - 1];
      && Compact(s) == Added(Compact(p), e)
      && At(s, path) == if e.path == path then At(p, path) + [e] else At(p, path)
  {
    hide Added;
  }

  /** The table's entry at the path of one more. */
  lemma ThisPath(c: seq<Entry>, e: Entry, at: seq<Entry>)
    requires Lookup(c, e.path) == Winner(at)
    requires c == [] || c[|c| - 1].path != e.path ==> Lookup(c, e.path) == None
    ensures Lookup(Added(c, e), e.path) == Winner(at + [e])
  {
    assert (at + [e])[..|at|] == at;
    WinnerIsLast(at);
  }

  /** What the table has at other paths stays. */
  lemma OtherPath(c: seq<Entry>, e: Entry, path: Path)
    requires e.path != path
    ensures Lookup(Added(c, e), path) == Lookup(c, path)
  {
    assert (c + [e])[..|c|] == c;
    if c != [] { assert (c[..|c| - 1] + [e])[..|c| - 1] == c[..|c| - 1]; }
  }

  /** The first entry at its path. */
  lemma NewPath(p: seq<Entry>, e: Entry, path: Path)
    requires Sorted(p) && StrictPaths(Compact(p)) && (p != [] ==> Less(p[|p| - 1], e)) && e.path == path
    requires p != [] ==> Compact(p) != [] && Compact(p)[|Compact(p)| - 1].path == p[|p| - 1].path != e.path
    ensures Lookup(Compact(p), path) == None
  {
    var c := Compact(p);
    forall i | 0 <= i < |c| ensures c[i].path != path {
      BeforeIsStrict(path, path);
      if i < |c| - 1 { BeforeIsTransitive(c[i].path, c[|c| - 1].path, path); }
    }
    LookupNone(c, path);
  }

  /** Sealed, however it was sorted, the table has at any path what the additions mean there. */
  lemma SealedIsMeant(added: seq<Entry>, sorted: seq<Entry>, path: Path)
    requires Numbered(added) && Sorted(sorted) && multiset(sorted) == multiset(added)
    ensures Lookup(Compact(sorted), path) == Meant(added, path)
  {
    SortIs(added, path);
    SortedIsUnique(sorted, Sort(added));
    CompactHolds(sorted, path);
  }

  lemma SealedMeans(added: seq<Entry>)
    requires Numbered(added)
    ensures StrictPaths(Compact(Sort(added))) && forall path: Path :: Lookup(Compact(Sort(added)), path) == Meant(added, path)
  {
    SortIs(added, []);
    CompactStrict(Sort(added));
    forall path: Path ensures Lookup(Compact(Sort(added)), path) == Meant(added, path) {
      SealedIsMeant(added, Sort(added), path);
    }
  }

  // ---- Reading ----

  /** A patch: bytes from `off` on. */
  datatype Patch = Patch(off: nat, bytes: seq<Byte>)

  function Put(content: seq<Byte>, p: Patch): (r: seq<Byte>)
    ensures |r| == |content|
  {
    if p.off + |p.bytes| <= |content| then content[..p.off] + p.bytes + content[p.off + |p.bytes|..] else content
  }

  /** A file's bytes with its patches: the later over the earlier. */
  function Content(file: seq<Byte>, patches: seq<Patch>): (r: seq<Byte>)
    ensures |r| == |file|
  {
    if patches == [] then file else Put(Content(file, patches[..|patches| - 1]), patches[|patches| - 1])
  }

  /** What one patch does to bytes [off, off + |buf|) read of the file. */
  function Over(buf: seq<Byte>, off: nat, p: Patch): (r: seq<Byte>)
    ensures |r| == |buf|
  {
    if p.off >= off + |buf| || p.off + |p.bytes| <= off then buf
    else
      var a := if p.off > off then p.off else off;
      var b := if p.off + |p.bytes| < off + |buf| then p.off + |p.bytes| else off + |buf|;
      Splice(buf, a - off, p.bytes[a - p.off..b - p.off])
  }

  function Splice(buf: seq<Byte>, at: nat, part: seq<Byte>): (r: seq<Byte>)
    requires at + |part| <= |buf|
    ensures |r| == |buf|
    ensures forall k :: 0 <= k < |buf| ==> r[k] == if at <= k < at + |part| then part[k - at] else buf[k]
  {
    buf[..at] + part + buf[at + |part|..]
  }

  function ReadOver(file: seq<Byte>, patches: seq<Patch>, off: nat, len: nat): (r: seq<Byte>)
    requires off + len <= |file|
    ensures |r| == len
  {
    if patches == [] then file[off..off + len]
    else Over(ReadOver(file, patches[..|patches| - 1], off, len), off, patches[|patches| - 1])
  }

  lemma OverIsSlice(content: seq<Byte>, off: nat, len: nat, p: Patch)
    requires off + len <= |content| && p.off + |p.bytes| <= |content|
    ensures Over(content[off..off + len], off, p) == Put(content, p)[off..off + len]
  {
    hide Over, Put;
    var x, y := Over(content[off..off + len], off, p), Put(content, p)[off..off + len];
    forall k | 0 <= k < len ensures x[k] == y[k] {
      OverAt(content[off..off + len], off, p, k);
      PutAt(content, p, off + k);
    }
  }

  lemma PutAt(content: seq<Byte>, p: Patch, k: nat)
    requires k < |content| && p.off + |p.bytes| <= |content|
    ensures Put(content, p)[k] == if p.off <= k < p.off + |p.bytes| then p.bytes[k - p.off] else content[k]
  {
  }

  lemma OverAt(buf: seq<Byte>, off: nat, p: Patch, k: nat)
    requires k < |buf|
    ensures Over(buf, off, p)[k] == if p.off <= off + k < p.off + |p.bytes| then p.bytes[off + k - p.off] else buf[k]
  {
    hide Splice;
  }

  /** Any range read is that slice of one fixed content. */
  lemma {:induction false} ReadsAreSlices(file: seq<Byte>, patches: seq<Patch>, off: nat, len: nat)
    requires off + len <= |file| && forall i :: 0 <= i < |patches| ==> patches[i].off + |patches[i].bytes| <= |file|
    ensures ReadOver(file, patches, off, len) == Content(file, patches)[off..off + len]
  {
    if patches != [] {
      ReadsAreSlices(file, patches[..|patches| - 1], off, len);
      OverIsSlice(Content(file, patches[..|patches| - 1]), off, len, patches[|patches| - 1]);
    }
  }

  /** Read in pieces, the bytes are those read at once. */
  lemma PiecesAreTheWhole(file: seq<Byte>, patches: seq<Patch>, off: nat, n: nat, m: nat)
    requires off + n + m <= |file| && forall i :: 0 <= i < |patches| ==> patches[i].off + |patches[i].bytes| <= |file|
    ensures ReadOver(file, patches, off, n) + ReadOver(file, patches, off + n, m) == ReadOver(file, patches, off, n + m)
  {
    hide ReadOver, Content;
    ReadsAreSlices(file, patches, off, n);
    ReadsAreSlices(file, patches, off + n, m);
    ReadsAreSlices(file, patches, off, n + m);
    Slices(Content(file, patches), off, n, m);
  }

  lemma Slices(c: seq<Byte>, off: nat, n: nat, m: nat)
    requires off + n + m <= |c|
    ensures c[off..off + n] + c[off + n..off + n + m] == c[off..off + (n + m)]
  {
  }

  /** A later patch wins: the byte is the last patch's over it, or else the file's. */
  lemma {:induction false} LaterPatchesWin(file: seq<Byte>, patches: seq<Patch>, k: nat, i: nat)
    requires k < |file| && i < |patches| && patches[i].off + |patches[i].bytes| <= |file| && patches[i].off <= k < patches[i].off + |patches[i].bytes|
    requires forall j :: i < j < |patches| ==> !(patches[j].off <= k < patches[j].off + |patches[j].bytes|)
    ensures Content(file, patches)[k] == patches[i].bytes[k - patches[i].off]
  {
    if i < |patches| - 1 {
      var p := patches[..|patches| - 1];
      LaterPatchesWin(file, p, k, i);
    }
  }

  // ---- Paths ----

  const SLASH: nat := 0x2F
  const BACKSLASH: nat := 0x5C
  const PATH_MAX: nat := 256

  function Lower(c: nat): nat { if 0x41 <= c <= 0x5A then c + 0x20 else c }

  function NormChar(c: nat, lower: bool): nat { if c == SLASH then BACKSLASH else if lower then Lower(c) else c }

  predicate IsSlash(c: nat) { c == SLASH || c == BACKSLASH }

  function SkipSlashes(s: seq<nat>): seq<nat> { if s != [] && IsSlash(s[0]) then SkipSlashes(s[1..]) else s }

  /** The characters after out, one backslash for each run of slashes, while they fit. */
  function NormFrom(s: seq<nat>, out: Path, lower: bool): Path
    decreases |s|
  {
    if s == [] || |out| + 1 >= PATH_MAX then out
    else
      var c := NormChar(s[0], lower);
      NormFrom(s[1..], if c == BACKSLASH && out != [] && out[|out| - 1] == BACKSLASH then out else out + [c], lower)
  }

  function StripEnd(out: Path): Path {
    if out != [] && out[|out| - 1] == BACKSLASH then StripEnd(out[..|out| - 1]) else out
  }

  /** norm_case. */
  function Norm(s: seq<nat>, lower: bool): Path { StripEnd(NormFrom(SkipSlashes(s), [], lower)) }

  /** What a key is: names apart by single backslashes, none at its ends, and no longer than fits. */
  predicate Inner(p: Path, lower: bool) {
    && |p| < PATH_MAX
    && (forall i :: 0 <= i < |p| ==> NormChar(p[i], lower) == p[i])
    && (forall i :: 0 < i < |p| && p[i] == BACKSLASH ==> p[i - 1] != BACKSLASH)
    && (p != [] ==> p[0] != BACKSLASH)
  }

  predicate Normal(p: Path, lower: bool) { Inner(p, lower) && (p != [] ==> p[|p| - 1] != BACKSLASH) }

  lemma {:induction false} NormFromInner(s: seq<nat>, out: Path, lower: bool)
    requires Inner(out, lower) && (out == [] && s != [] ==> !IsSlash(s[0]))
    ensures Inner(NormFrom(s, out, lower), lower)
    decreases |s|
  {
    if s != [] && |out| + 1 < PATH_MAX {
      var c := NormChar(s[0], lower);
      var next := if c == BACKSLASH && out != [] && out[|out| - 1] == BACKSLASH then out else out + [c];
      NormFromInner(s[1..], next, lower);
    }
  }

  lemma {:induction false} StripEndNormal(p: Path, lower: bool)
    requires Inner(p, lower)
    ensures Normal(StripEnd(p), lower)
    decreases |p|
  {
    if p != [] && p[|p| - 1] == BACKSLASH { StripEndNormal(p[..|p| - 1], lower); }
  }

  lemma {:induction false} SkipSlashesStops(s: seq<nat>)
    ensures var r := SkipSlashes(s); r != [] ==> !IsSlash(r[0])
  {
    if s != [] && IsSlash(s[0]) { SkipSlashesStops(s[1..]); }
  }

  lemma {:induction false} NormFromKeeps(s: seq<nat>, out: Path, lower: bool)
    requires Inner(out + s, lower)
    ensures NormFrom(s, out, lower) == out + s
    decreases |s|
  {
    if s != [] {
      var c := NormChar(s[0], lower);
      assert (out + s)[|out|] == s[0];
      if out != [] { assert (out + s)[|out| - 1] == out[|out| - 1]; }
      assert out + s == (out + [s[0]]) + s[1..];
      NormFromKeeps(s[1..], out + [s[0]], lower);
    } else {
      assert out + s == out;
    }
  }

  /** Every path is keyed normally, whatever slashes it has, and a normal one by itself. */
  lemma NormIsNormal(s: seq<nat>, lower: bool)
    ensures Normal(Norm(s, lower), lower)
    ensures Normal(s, lower) ==> Norm(s, lower) == s
  {
    hide NormFrom;
    SkipSlashesStops(s);
    NormFromInner(SkipSlashes(s), [], lower);
    StripEndNormal(NormFrom(SkipSlashes(s), [], lower), lower);
    if Normal(s, lower) { NormalIsItsNorm(s, lower); }
  }

  lemma NormalIsItsNorm(s: Path, lower: bool)
    requires Normal(s, lower)
    ensures Norm(s, lower) == s
  {
    if s != [] { assert NormChar(s[0], lower) == s[0]; }
    assert SkipSlashes(s) == s && [] + s == s;
    hide NormFrom;
    NormFromKeeps(s, [], lower);
  }

  // ---- Case ----

  predicate Capital(c: nat) { 0x41 <= c <= 0x5A }

  /** The same character, or the same letter. */
  predicate SameButCase(c: nat, d: nat) { c == d || (Capital(c) && d == c + 0x20) || (Capital(d) && c == d + 0x20) }

  predicate SameButCases(s: seq<nat>, t: seq<nat>) { |s| == |t| && forall i :: 0 <= i < |s| ==> SameButCase(s[i], t[i]) }

  lemma {:induction false} SkipFolds(s: seq<nat>, t: seq<nat>)
    requires SameButCases(s, t)
    ensures SameButCases(SkipSlashes(s), SkipSlashes(t))
    decreases |s|
  {
    if s != [] {
      assert SameButCase(s[0], t[0]);
      if IsSlash(s[0]) {
        forall i | 0 <= i < |s| - 1 ensures SameButCase(s[1..][i], t[1..][i]) { assert SameButCase(s[i + 1], t[i + 1]); }
        SkipFolds(s[1..], t[1..]);
      }
    }
  }

  lemma {:induction false} NormFolds(s: seq<nat>, t: seq<nat>, out: Path)
    requires SameButCases(s, t)
    ensures NormFrom(s, out, true) == NormFrom(t, out, true)
    decreases |s|
  {
    if s != [] && |out| + 1 < PATH_MAX {
      assert SameButCase(s[0], t[0]);
      var c := NormChar(s[0], true);
      assert NormChar(t[0], true) == c;
      forall i | 0 <= i < |s| - 1 ensures SameButCase(s[1..][i], t[1..][i]) { assert SameButCase(s[i + 1], t[i + 1]); }
      NormFolds(s[1..], t[1..], if c == BACKSLASH && out != [] && out[|out| - 1] == BACKSLASH then out else out + [c]);
    }
  }

  /** Paths that differ in case alone have one key, and no key has a capital. */
  lemma KeyFoldsCase(s: seq<nat>, t: seq<nat>)
    requires SameButCases(s, t)
    ensures Norm(s, true) == Norm(t, true)
    ensures forall i :: 0 <= i < |Norm(s, true)| ==> !Capital(Norm(s, true)[i])
  {
    NormIsNormal(s, true);
    SkipFolds(s, t);
    NormFolds(SkipSlashes(s), SkipSlashes(t), []);
    var key := Norm(s, true);
    hide Norm;
    forall i | 0 <= i < |key| ensures !Capital(key[i]) { assert NormChar(key[i], true) == key[i]; }
  }

  /** A path as the disc has it: names apart by single backslashes. */
  predicate Plain(s: seq<nat>) {
    && |s| < PATH_MAX && (forall i :: 0 <= i < |s| ==> s[i] != SLASH)
    && (forall i :: 0 < i < |s| && s[i] == BACKSLASH ==> s[i - 1] != BACKSLASH)
    && (s != [] ==> s[0] != BACKSLASH && s[|s| - 1] != BACKSLASH)
  }

  function Folded(s: seq<nat>): (r: seq<nat>)
    ensures |r| == |s|
  {
    seq(|s|, i requires 0 <= i < |s| => Lower(s[i]))
  }

  /** A plain path is shown as it is, and its key is the path but for case. */
  lemma PlainIsShown(s: seq<nat>)
    requires Plain(s)
    ensures Norm(s, false) == s && SameButCases(Norm(s, true), s)
  {
    assert Normal(s, false);
    NormalIsItsNorm(s, false);
    var f := Folded(s);
    assert Normal(f, true);
    NormalIsItsNorm(f, true);
    assert SameButCases(f, s);
    KeyFoldsCase(f, s);
    hide Norm;
  }

  /** As long, with backslashes at the same places. */
  predicate Alike(a: Path, b: Path) { |a| == |b| && forall i :: 0 <= i < |a| ==> (a[i] == BACKSLASH <==> b[i] == BACKSLASH) }

  lemma {:induction false} NormFromAlike(s: seq<nat>, a: Path, b: Path)
    requires Alike(a, b)
    ensures Alike(NormFrom(s, a, true), NormFrom(s, b, false))
    decreases |s|
  {
    if s != [] && |a| + 1 < PATH_MAX {
      var c, d := NormChar(s[0], true), NormChar(s[0], false);
      var skip := c == BACKSLASH && a != [] && a[|a| - 1] == BACKSLASH;
      NormFromAlike(s[1..], if skip then a else a + [c], if skip then b else b + [d]);
    }
  }

  lemma {:induction false} StripEndAlike(a: Path, b: Path)
    requires Alike(a, b)
    ensures Alike(StripEnd(a), StripEnd(b))
    decreases |a|
  {
    if a != [] && a[|a| - 1] == BACKSLASH { StripEndAlike(a[..|a| - 1], b[..|b| - 1]); }
  }

  /** A path's key is its shown form but for case: as long, with the same slashes. */
  lemma ShownIsAsLong(s: seq<nat>)
    ensures Alike(Norm(s, true), Norm(s, false))
  {
    hide NormFrom, StripEnd;
    NormFromAlike(SkipSlashes(s), [], []);
    StripEndAlike(NormFrom(SkipSlashes(s), [], true), NormFrom(SkipSlashes(s), [], false));
  }

  // ---- In place ----

  /** The table of a disc's overlay. */
  class Table {
    var e: array<Entry>
    var n: nat
    var sealed: bool

    ghost predicate Valid()
      reads this
    {
      n <= e.Length
    }

    ghost function Entries(): seq<Entry>
      reads this, e
      requires Valid()
    {
      e[..n]
    }

    constructor ()
      ensures Valid() && Entries() == [] && !sealed && fresh(e)
    {
      e := new Entry[0];
      n, sealed := 0, false;
    }

    /** ov_push. */
    method Push(path: Path, host: Option<nat>, size: nat)
      requires Valid()
      modifies this`e, this`n, e
      ensures Valid() && Entries() == old(Entries()) + [Entry(path, host, size, old(n))]
      ensures e == old(e) || fresh(e)
      ensures Numbered(old(Entries())) ==> Numbered(Entries())
    {
      if n == e.Length {
        Grow();
      }
      e[n] := Entry(path, host, size, n);
      n := n + 1;
    }

    /** realloc to twice the room. */
    method Grow()
      requires Valid()
      modifies this`e
      ensures Valid() && Entries() == old(Entries()) && fresh(e) && e.Length > n
    {
      var more := new Entry[if e.Length != 0 then 2 * e.Length else 64](_ => Entry([], None, 0, 0));
      for i := 0 to n
        invariant e == old(e) && n == old(n) && Valid() && e[..n] == old(Entries()) && more[..i] == e[..i]
      {
        more[i] := e[i];
      }
      e := more;
    }

    /** nc_disc_overlay_file past the host's stat: the file, and the folders on its way not on the disc. */
    method AddFile(path: seq<nat>, host: nat, size: nat, disc: set<Path>) returns (ok: bool)
      requires Valid() && Numbered(Entries())
      modifies this`e, this`n, e
      ensures Valid() && Numbered(Entries()) && ok == (!sealed && Norm(path, true) != [])
      ensures !ok ==> Entries() == old(Entries())
      ensures ok ==> Entries() == old(Entries()) + Pushed(Norm(path, true), host, size, disc, old(n), |Norm(path, true)|)
    {
      var p := Norm(path, true);
      ok := !sealed && p != [];
      if !ok {
        return;
      }
      ghost var before := Entries();
      Push(p, Some(host), size);
      ghost var m := n;
      for k := 0 to |p|
        invariant Valid() && Numbered(Entries()) && (e == old(e) || fresh(e))
        invariant Entries() == before + Pushed(p, host, size, disc, |before|, k)
      {
        if p[k] == BACKSLASH && p[..k] !in disc {
          Push(p[..k], None, 0);
        }
      }
    }

    /** qsort by ov_cmp: an insertion sort. */
    method SortEntries()
      requires Valid()
      modifies e
      ensures Entries() == Sort(old(Entries()))
    {
      hide Sort, Insert;
      ghost var s := e[..n];
      SortNone();
      for i := 0 to n
        invariant e[..i] == Sort(s[..i]) && e[i..n] == s[i..]
      {
        ghost var before := e[..];
        InsertLast(i);
        SortAdd(s[..i], s[i]);
        assert s[..i + 1] == s[..i] + [s[i]];
        assert before[i] == s[i] && before[..i] == Sort(s[..i]);
        assert e[i + 1..n] == e[i + 1..][..n - i - 1] == before[i + 1..n] == before[i..n][1..] == s[i + 1..];
      }
      assert s[..n] == s;
    }

    /** Entry i into the sorted ones before it. */
    method InsertLast(i: nat)
      requires Valid() && i < n
      modifies e
      ensures e[..i + 1] == Insert(old(e[..i]), old(e[i])) && e[i + 1..] == old(e[i + 1..])
    {
      hide Insert, Less;
      ghost var all := e[..];
      var x := e[i];
      var j := Shift(i, x, all);
      e[j] := x;
      InsertHere(all[..j], x);
      ShiftedPut(all, e[..], i, j, x);
      assert all[..i] == old(e[..i]) && all[i + 1..] == old(e[i + 1..]);
      assert e[..][..i + 1] == e[..i + 1] && e[..][i + 1..] == e[i + 1..];
    }

    /** Of the first i entries those not below x, each a place up. */
    method Shift(i: nat, x: Entry, ghost all: seq<Entry>) returns (j: nat)
      requires i < e.Length && all == e[..]
      modifies e
      ensures j <= i && (j == 0 || Less(all[j - 1], x)) && Insert(all[..i], x) == Insert(all[..j], x) + all[j..i]
      ensures forall k :: 0 <= k < e.Length ==> e[k] == all[if j < k <= i then k - 1 else k]
    {
      hide Insert, Less;
      j := i;
      assert all[i..i] == [];
      while j > 0 && !Less(e[j - 1], x)
        invariant j <= i && Insert(all[..i], x) == Insert(all[..j], x) + all[j..i]
        invariant forall k :: 0 <= k < e.Length ==> e[k] == all[if j < k <= i then k - 1 else k]
      {
        InsertLower(all, x, j, i);
        e[j] := e[j - 1];
        j := j - 1;
      }
    }

    /** nc_disc_overlay_seal. */
    method Seal()
      requires Valid()
      modifies this`n, this`sealed, e
      ensures Valid() && sealed && e == old(e)
      ensures Entries() == if old(sealed) then old(Entries()) else Compact(Sort(old(Entries())))
      ensures !old(sealed) && Numbered(old(Entries())) ==>
        StrictPaths(Entries()) && forall path: Path :: Lookup(Entries(), path) == Meant(old(Entries()), path)
    {
      if sealed {
        return;
      }
      hide Compact, Sort, Added;
      ghost var added := Entries();
      SortEntries();
      CompactEntries();
      sealed := true;
      if Numbered(added) { SealedMeans(added); }
    }

    /** Its loop over the sorted entries. */
    method CompactEntries()
      requires Valid()
      modifies this`n, e
      ensures Valid() && e == old(e) && Entries() == Compact(old(Entries()))
    {
      hide Compact, Added;
      ghost var s := Entries();
      var k: nat := 0;
      CompactNone();
      for i := 0 to n
        invariant Valid() && k <= i <= n == |s| && e[..k] == Compact(s[..i]) && e[i..n] == s[i..]
      {
        ghost var rest := e[i..n];
        assert e[i] == rest[0] == s[i] && s[..i + 1] == s[..i] + [s[i]];
        CompactAdd(s[..i], s[i]);
        assert e[i + 1..n] == rest[1..];
        k := CompactOne(i, k);
      }
      assert s[..n] == s;
      n := k;
    }

    /** Entry i after the k kept, or in the last's place, or dropped. */
    method CompactOne(i: nat, k: nat) returns (r: nat)
      requires Valid() && k <= i < n
      modifies e
      ensures r <= i + 1 && e[..r] == Added(old(e[..k]), old(e[i])) && e[i + 1..n] == old(e[i + 1..n])
    {
      ghost var c := e[..k];
      r := k;
      if k != 0 && e[k - 1].path == e[i].path {
        assert c[|c| - 1] == e[k - 1];
        if !(e[i].host.None? && e[k - 1].host.Some?) {
          e[k - 1] := e[i];
          assert e[..k] == c[..k - 1] + [old(e[i])];
        }
      } else {
        e[k] := e[i];
        r := k + 1;
        assert e[..r] == c + [old(e[i])];
      }
    }

    /** ov_find: a binary search. */
    method Find(path: Path) returns (r: Option<nat>)
      requires Valid() && StrictPaths(Entries())
      ensures r.Some? ==> r.value < n && Lookup(Entries(), path) == Some(e[r.value])
      ensures r.None? ==> Lookup(Entries(), path) == None
    {
      var lo, hi := 0, n;
      while lo < hi
        invariant lo <= hi <= n
        invariant forall i :: 0 <= i < lo ==> Before(e[i].path, path)
        invariant forall i :: hi <= i < n ==> Before(path, e[i].path)
      {
        var mid := (lo + hi) / 2;
        if e[mid].path == path {
          LookupFinds(Entries(), mid);
          return Some(mid);
        }
        BeforeIsStrict(e[mid].path, path);
        if Before(e[mid].path, path) {
          Under(Entries(), mid, path);
          lo := mid + 1;
        } else {
          Above(Entries(), mid, path);
          hi := mid;
        }
      }
      BeforeIsStrict(path, path);
      LookupNone(Entries(), path);
      return None;
    }
  }

  /** What nc_disc_overlay_file pushes: the file, and folders at the first k bytes' backslashes. */
  function Pushed(p: Path, host: nat, size: nat, disc: set<Path>, order: nat, k: nat): seq<Entry>
    requires k <= |p|
  {
    if k == 0 then [Entry(p, Some(host), size, order)]
    else
      var before := Pushed(p, host, size, disc, order, k - 1);
      if p[k - 1] == BACKSLASH && p[..k - 1] !in disc then before + [Entry(p[..k - 1], None, 0, order + |before|)] else before
  }

  /** An added folder: a part of the file's way that is none of the disc's. */
  predicate OnWay(e: Entry, p: Path, disc: set<Path>, k: nat) {
    && e.host.None? && |e.path| < k && |e.path| < |p|
    && e.path == p[..|e.path|] && p[|e.path|] == BACKSLASH && e.path !in disc
  }

  /** What is pushed is the file first, and then numbered folders of its way that are none of the disc's. */
  lemma {:induction false} PushedOnly(p: Path, host: nat, size: nat, disc: set<Path>, order: nat, k: nat)
    requires k <= |p|
    ensures var all := Pushed(p, host, size, disc, order, k);
      && all != [] && all[0] == Entry(p, Some(host), size, order)
      && forall i :: 0 < i < |all| ==> OnWay(all[i], p, disc, k) && all[i].order == order + i
  {
    if k > 0 {
      PushedOnly(p, host, size, disc, order, k - 1);
      var before := Pushed(p, host, size, disc, order, k - 1);
      var all := Pushed(p, host, size, disc, order, k);
      forall i | 0 < i < |all| ensures OnWay(all[i], p, disc, k) && all[i].order == order + i {
        if i < |before| { assert all[i] == before[i]; }
      }
    }
  }

  lemma Under(s: seq<Entry>, mid: nat, path: Path)
    requires StrictPaths(s) && mid < |s| && Before(s[mid].path, path)
    ensures forall i :: 0 <= i <= mid ==> Before(s[i].path, path)
  {
    forall i | 0 <= i <= mid ensures Before(s[i].path, path) {
      if i < mid { BeforeIsTransitive(s[i].path, s[mid].path, path); }
    }
  }

  lemma Above(s: seq<Entry>, mid: nat, path: Path)
    requires StrictPaths(s) && mid < |s| && Before(path, s[mid].path)
    ensures forall i :: mid <= i < |s| ==> Before(path, s[i].path)
  {
    forall i | mid <= i < |s| ensures Before(path, s[i].path) {
      if i > mid { BeforeIsTransitive(path, s[mid].path, s[i].path); }
    }
  }

  /** Every folder on an added file's way is found, whatever is added later: on the disc, or among the
      additions, and so in the table once they are sealed. */
  lemma FoldersAreFound(added: seq<Entry>, p: Path, host: nat, size: nat, disc: set<Path>, more: seq<Entry>, sorted: seq<Entry>, k: nat)
    requires k < |p| && p[k] == BACKSLASH
    requires var all := added + Pushed(p, host, size, disc, |added|, |p|) + more;
      Numbered(all) && Sorted(sorted) && multiset(sorted) == multiset(all)
    ensures p[..k] in disc || Meant(added + Pushed(p, host, size, disc, |added|, |p|) + more, p[..k]).Some?
    ensures p[..k] in disc || Lookup(Compact(sorted), p[..k]).Some?
  {
    hide Compact, Lookup, Sorted, Numbered;
    if p[..k] in disc {
      return;
    }
    PushedHas(p, host, size, disc, |added|, |p|, k);
    var q := Pushed(p, host, size, disc, |added|, |p|);
    var r := added + q;
    var i :| 0 <= i < |q| && q[i].path == p[..k];
    assert r[|added| + i].path == p[..k];
    AtHas(r, p[..k]);
    AtStays(r, more, p[..k]);
    WinnerIsLast(At(r + more, p[..k]));
    SealedIsMeant(r + more, sorted, p[..k]);
  }

  lemma {:induction false} AtStays(s: seq<Entry>, t: seq<Entry>, path: Path)
    requires At(s, path) != []
    ensures At(s + t, path) != []
    decreases |t|
  {
    if t == [] {
      assert s + t == s;
    } else {
      AtStays(s, t[..|t| - 1], path);
      assert (s + t)[..|s + t| - 1] == s + t[..|t| - 1];
    }
  }

  lemma {:induction false} PushedHas(p: Path, host: nat, size: nat, disc: set<Path>, order: nat, j: nat, k: nat)
    requires k < j <= |p| && p[k] == BACKSLASH && p[..k] !in disc
    ensures exists i :: 0 <= i < |Pushed(p, host, size, disc, order, j)| && Pushed(p, host, size, disc, order, j)[i].path == p[..k]
    decreases j
  {
    var before := Pushed(p, host, size, disc, order, j - 1);
    var now := Pushed(p, host, size, disc, order, j);
    if k == j - 1 {
      assert now[|before|].path == p[..k];
    } else {
      PushedHas(p, host, size, disc, order, j - 1, k);
      var i :| 0 <= i < |before| && before[i].path == p[..k];
      assert now[i].path == p[..k];
    }
  }

  lemma {:induction false} AtHas(s: seq<Entry>, path: Path)
    requires exists i :: 0 <= i < |s| && s[i].path == path
    ensures At(s, path) != []
  {
    var i :| 0 <= i < |s| && s[i].path == path;
    if i < |s| - 1 {
      assert s[..|s| - 1][i].path == path;
      AtHas(s[..|s| - 1], path);
    }
  }

  // ---- Reads in place ----

  /** nc_disc_read of [off, off + buf.Length). */
  method ReadFile(file: seq<Byte>, patches: seq<Patch>, off: nat, buf: array<Byte>) returns (ok: bool)
    modifies buf
    ensures ok <==> off + buf.Length <= |file|
    ensures ok ==> buf[..] == ReadOver(file, patches, off, buf.Length)
    ensures ok && (forall i :: 0 <= i < |patches| ==> patches[i].off + |patches[i].bytes| <= |file|) ==>
      buf[..] == Content(file, patches)[off..off + buf.Length]
    ensures !ok ==> buf[..] == old(buf[..])
  {
    ok := off + buf.Length <= |file|;
    if !ok {
      return;
    }
    Copy(buf, 0, file[off..off + buf.Length]);
    for i := 0 to |patches|
      invariant buf[..] == ReadOver(file, patches[..i], off, buf.Length)
    {
      assert patches[..i + 1][..i] == patches[..i];
      PutOver(buf, off, patches[i]);
    }
    assert patches[..|patches|] == patches;
    if forall i :: 0 <= i < |patches| ==> patches[i].off + |patches[i].bytes| <= |file| { ReadsAreSlices(file, patches, off, buf.Length); }
  }

  /** memcpy of the patch's part of the range. */
  method PutOver(buf: array<Byte>, off: nat, p: Patch)
    modifies buf
    ensures buf[..] == Over(old(buf[..]), off, p)
  {
    hide Over, Splice;
    OverCases(buf[..], off, p);
    if p.off >= off + buf.Length || p.off + |p.bytes| <= off {
      return;
    }
    var a := if p.off > off then p.off else off;
    var b := if p.off + |p.bytes| < off + buf.Length then p.off + |p.bytes| else off + buf.Length;
    Copy(buf, a - off, p.bytes[a - p.off..b - p.off]);
  }

  lemma OverCases(buf: seq<Byte>, off: nat, p: Patch)
    ensures p.off >= off + |buf| || p.off + |p.bytes| <= off ==> Over(buf, off, p) == buf
    ensures p.off < off + |buf| && p.off + |p.bytes| > off ==>
      var a := if p.off > off then p.off else off;
      var b := if p.off + |p.bytes| < off + |buf| then p.off + |p.bytes| else off + |buf|;
      Over(buf, off, p) == Splice(buf, a - off, p.bytes[a - p.off..b - p.off])
  {
    hide Splice;
  }

  method Copy(buf: array<Byte>, at: nat, bytes: seq<Byte>)
    requires at + |bytes| <= buf.Length
    modifies buf
    ensures buf[..] == Splice(old(buf[..]), at, bytes)
  {
    for i := 0 to |bytes|
      invariant forall k :: 0 <= k < buf.Length ==> buf[k] == if at <= k < at + i then bytes[k - at] else old(buf[k])
    {
      buf[at + i] := bytes[i];
    }
  }
}
