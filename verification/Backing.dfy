/** Zeroed pages behind a user range, all of them or none (native/core/vm.c, nc_vm_alloc_at). */
module Backing {
  import opened Wrappers
  import opened GuestState
  import opened Protection
  import opened Relocation
  import opened Tracking

  /** nc_vm_map of pages [p, p + n) at user pages [v, v + n), a page at a time. */
  function MapRange(s: State, v: nat, p: nat, n: nat): (r: State)
    requires Shaped(s) && p + n <= s.Pages() && v + n <= USER_PAGES
    ensures Shaped(r) && r.Pages() == s.Pages()
  {
    if n == 0 then s else MapPage(MapRange(s, v, p, n - 1), v + n - 1, p + n - 1)
  }

  predicate NotMapped(s: State, p: nat, n: nat)
    requires Shaped(s)
  {
    forall u :: 0 <= u < USER_PAGES && s.pte[u].Some? ==> !(p <= s.pte[u].value < p + n)
  }

  /** r is s with only the mappings of v.. to p.. new. */
  predicate RangeMapped(s: State, r: State, v: nat, p: nat, n: nat)
    requires Shaped(s) && Shaped(r) && r.Pages() == s.Pages()
  {
    && r == s.(pte := r.pte, rmap := r.rmap, view := r.view)
    && (forall u :: 0 <= u < USER_PAGES ==> r.pte[u] == if v <= u < v + n then Some(p + (u - v)) else s.pte[u])
    && (forall i :: 0 <= i < s.Pages() ==> r.rmap[i] == if p <= i < p + n then v + (i - p) else s.rmap[i])
  }

  lemma RangeNext(s: State, m: State, v: nat, p: nat, n: nat)
    requires Shaped(s) && Shaped(m) && m.Pages() == s.Pages() && RangeMapped(s, m, v, p, n)
    requires p + n < s.Pages() && 0 < v && v + n < USER_PAGES && NotMapped(s, p, n + 1)
    ensures RangeMapped(s, MapPage(m, v + n, p + n), v, p, n + 1)
    ensures m.used == s.used && !MappedElsewhere(m, v + n, p + n)
  {
  }

  /** Pages no address maps, mapped in order: only their mappings are new. */
  lemma {:induction false} MapRangeKeeps(s: State, v: nat, p: nat, n: nat)
    requires Tracked(s) && p + n <= s.Pages() && 0 < v && v + n <= USER_PAGES
    requires NotMapped(s, p, n) && forall i :: p <= i < p + n ==> s.used[i]
    ensures Tracked(MapRange(s, v, p, n)) && RangeMapped(s, MapRange(s, v, p, n), v, p, n)
  {
    if n != 0 {
      hide Tracked, RangeMapped, NotMapped;
      NotMappedLess(s, p, n);
      MapRangeKeeps(s, v, p, n - 1);
      MapRangeStep(s, MapRange(s, v, p, n - 1), v, p, n - 1);
    }
  }

  lemma NotMappedLess(s: State, p: nat, n: nat)
    requires Shaped(s) && n > 0 && NotMapped(s, p, n)
    ensures NotMapped(s, p, n - 1)
  {
  }

  lemma MapRangeStep(s: State, m: State, v: nat, p: nat, n: nat)
    requires Tracked(s) && Tracked(m) && m.Pages() == s.Pages() && RangeMapped(s, m, v, p, n)
    requires p + n < s.Pages() && 0 < v && v + n < USER_PAGES && NotMapped(s, p, n + 1) && s.used[p + n]
    ensures Tracked(MapPage(m, v + n, p + n)) && RangeMapped(s, MapPage(m, v + n, p + n), v, p, n + 1)
  {
    RangeNext(s, m, v, p, n);
    hide Tracked, RangeMapped, NotMapped;
    MapKeepsExactlyWithoutAlias(m, v + n, p + n);
  }

  /** `done` pages of user range v are backed so far: by pages that were free, holding zeros, and
      nothing else has changed. */
  ghost predicate Grown(s0: State, s: State, v: nat, done: nat)
  {
    && Tracked(s0) && Tracked(s) && s.Pages() == s0.Pages() && s.pin == s0.pin && s.hdirty == s0.hdirty
    && 0 < v && v + done <= USER_PAGES
    && GrownMaps(s0, s, v, done)
    && GrownPages(s0, s, v, done)
    && CountFree(s.used, 0, s.Pages()) + done == CountFree(s0.used, 0, s0.Pages())
  }

  predicate GrownMaps(s0: State, s: State, v: nat, done: nat)
    requires Shaped(s0) && Shaped(s) && s.Pages() == s0.Pages() && v + done <= USER_PAGES
  {
    && (forall u :: 0 <= u < USER_PAGES && !(v <= u < v + done) ==> s.pte[u] == s0.pte[u])
    && (forall u :: v <= u < v + done ==>
          s.pte[u].Some? && !s0.used[s.pte[u].value] && s.ram[s.pte[u].value] == ZeroPage())
  }

  predicate GrownPages(s0: State, s: State, v: nat, done: nat)
    requires Shaped(s0) && Shaped(s) && s.Pages() == s0.Pages()
  {
    && (forall p :: 0 <= p < s.Pages() && s0.used[p] ==> s.used[p] && s.ram[p] == s0.ram[p] && s.rmap[p] == s0.rmap[p])
    && (forall p :: 0 <= p < s.Pages() && !s0.used[p] && s.used[p] ==>
          v <= s.rmap[p] < v + done && s.pte[s.rmap[p]] == Some(p))
  }

  lemma GrownFrom(s: State, v: nat)
    requires Tracked(s) && 0 < v <= USER_PAGES
    ensures Grown(s, s, v, 0)
  {
  }

  lemma GrownTracked(s0: State, s: State, v: nat, done: nat)
    requires Grown(s0, s, v, done)
    ensures Tracked(s) && s.Pages() == s0.Pages() && 0 < v
  {
  }

  lemma GrownCount(s0: State, s: State, v: nat, done: nat)
    requires Grown(s0, s, v, done)
    ensures CountFree(s.used, 0, s.Pages()) + done == CountFree(s0.used, 0, s0.Pages()) && s.Pages() == s0.Pages()
  {
  }

  /** A piece added to the range, in terms of the tables alone. */
  predicate PieceAdded(s: State, v: nat, p: nat, k: nat, t: State)
  {
    && Shaped(s) && Shaped(t) && t.Pages() == s.Pages() && p + k <= s.Pages() && AllFree(s.used, p, p + k)
    && t.pin == s.pin && t.hdirty == s.hdirty && t.used == Fill(s.used, p, p + k, true)
    && (forall i :: 0 <= i < s.Pages() ==> t.ram[i] == if p <= i < p + k then ZeroPage() else s.ram[i])
    && (forall u :: 0 <= u < USER_PAGES ==> t.pte[u] == if v <= u < v + k then Some(p + (u - v)) else s.pte[u])
    && (forall i :: 0 <= i < s.Pages() ==> t.rmap[i] == if p <= i < p + k then v + (i - p) else s.rmap[i])
  }

  lemma GrowMaps(s0: State, s: State, v: nat, done: nat, p: nat, k: nat, t: State)
    requires Grown(s0, s, v, done) && v + done + k <= USER_PAGES && PieceAdded(s, v + done, p, k, t)
    ensures GrownMaps(s0, t, v, done + k)
  {
    hide TrackInv, ZeroPage, CountFree;
    forall u | v <= u < v + done + k
      ensures t.pte[u].Some? && !s0.used[t.pte[u].value] && t.ram[t.pte[u].value] == ZeroPage()
    {
      if u < v + done { assert s.used[s.pte[u].value]; }
    }
  }

  lemma GrowPage(s0: State, s: State, v: nat, done: nat, p: nat, k: nat, t: State, i: nat)
    requires Grown(s0, s, v, done) && v + done + k <= USER_PAGES && PieceAdded(s, v + done, p, k, t)
    requires i < t.Pages()
    ensures s0.used[i] ==> t.used[i] && t.ram[i] == s0.ram[i] && t.rmap[i] == s0.rmap[i]
    ensures !s0.used[i] && t.used[i] ==> v <= t.rmap[i] < v + done + k && t.pte[t.rmap[i]] == Some(i)
  {
    hide TrackInv, ZeroPage, CountFree, GrownMaps, MapInv;
    if !(p <= i < p + k) { assert t.used[i] == s.used[i] && t.rmap[i] == s.rmap[i]; }
  }

  lemma GrowPages(s0: State, s: State, v: nat, done: nat, p: nat, k: nat, t: State)
    requires Grown(s0, s, v, done) && v + done + k <= USER_PAGES && PieceAdded(s, v + done, p, k, t)
    ensures GrownPages(s0, t, v, done + k)
  {
    forall i | 0 <= i < t.Pages()
      ensures s0.used[i] ==> t.used[i] && t.ram[i] == s0.ram[i] && t.rmap[i] == s0.rmap[i]
      ensures !s0.used[i] && t.used[i] ==> v <= t.rmap[i] < v + done + k && t.pte[t.rmap[i]] == Some(i)
    {
      GrowPage(s0, s, v, done, p, k, t, i);
    }
  }

  lemma GrowTables(s0: State, s: State, v: nat, done: nat, p: nat, k: nat, t: State)
    requires Grown(s0, s, v, done) && v + done + k <= USER_PAGES && PieceAdded(s, v + done, p, k, t) && Tracked(t)
    ensures Grown(s0, t, v, done + k)
  {
    hide PieceAdded, Tracked;
    GrowMaps(s0, s, v, done, p, k, t);
    GrowPages(s0, s, v, done, p, k, t);
    PieceCount(s, v + done, p, k, t);
    hide GrownMaps, GrownPages, TrackInv, CountFree, AllFree;
  }

  lemma PieceCount(s: State, v: nat, p: nat, k: nat, t: State)
    requires PieceAdded(s, v, p, k, t)
    ensures CountFree(t.used, 0, t.Pages()) + k == CountFree(s.used, 0, s.Pages())
    ensures t.Pages() == s.Pages() && t.pin == s.pin && t.hdirty == s.hdirty
  {
    CountFreeFill(s.used, p, p + k);
    CountFreeAll(s.used, p, p + k);
  }

  lemma PieceIsAdded(s: State, v: nat, p: nat, k: nat, t: State)
    requires Tracked(s) && 0 < v && v + k <= USER_PAGES && p + k <= s.Pages() && AllFree(s.used, p, p + k)
    requires var c := s.(used := Fill(s.used, p, p + k, true));
             var m := MapRange(c, v, p, k);
             && Tracked(t) && t == m.(ram := t.ram, wp := t.wp, na := t.na, contig := t.contig, gpu := t.gpu, view := t.view)
             && forall i :: 0 <= i < s.Pages() ==> t.ram[i] == if p <= i < p + k then ZeroPage() else s.ram[i]
    ensures PieceAdded(s, v, p, k, t)
  {
    hide MapRange, ZeroPage, MapInv, TrackInv;
    var c := s.(used := Fill(s.used, p, p + k, true));
    ClaimTracked(s, p, k);
    MapRangeKeeps(c, v, p, k);
  }

  /** One more piece: claimed, mapped, zeroed. */
  lemma GrowPiece(s0: State, s: State, v: nat, done: nat, p: nat, k: nat, t: State)
    requires Grown(s0, s, v, done) && v + done + k <= USER_PAGES && p + k <= s.Pages() && AllFree(s.used, p, p + k)
    requires var c := s.(used := Fill(s.used, p, p + k, true));
             var m := MapRange(c, v + done, p, k);
             && Tracked(t) && t == m.(ram := t.ram, wp := t.wp, na := t.na, contig := t.contig, gpu := t.gpu, view := t.view)
             && forall i :: 0 <= i < s.Pages() ==> t.ram[i] == if p <= i < p + k then ZeroPage() else s.ram[i]
    ensures Grown(s0, t, v, done + k)
  {
    GrownTracked(s0, s, v, done);
    hide Grown, Tracked, MapRange, PieceAdded;
    PieceIsAdded(s, v + done, p, k, t);
    GrowTables(s0, s, v, done, p, k, t);
  }

  /** Free pages claimed: nothing maps them. */
  lemma ClaimTracked(s: State, p: nat, k: nat)
    requires Tracked(s) && p + k <= s.Pages() && AllFree(s.used, p, p + k)
    ensures Tracked(s.(used := Fill(s.used, p, p + k, true)))
    ensures NotMapped(s.(used := Fill(s.used, p, p + k, true)), p, k)
  {
  }

  // ---- The outcome ----

  /** Backed: exactly the n pages from v are newly mapped, and read zeros; pages mapped there before keep
      their bytes, mapped no more. */
  ghost predicate Backed(s0: State, s: State, v: nat, n: nat)
  {
    && Ok(s0) && Ok(s) && s.Pages() == s0.Pages() && v + n <= USER_PAGES
    && (forall u: nat :: s.Mapped(u) <==> s0.Mapped(u) || v <= u < v + n)
    && (forall u: nat :: v <= u < v + n ==> s.Read(u) == ZeroPage())
    && (forall u: nat :: v <= u < v + n ==> s.pte[u].Some? && !s0.used[s.pte[u].value])
    && (forall u: nat :: s0.Mapped(u) && !(v <= u < v + n) ==> s.pte[u] == s0.pte[u] && s.Read(u) == s0.Read(u))
    && (forall p :: 0 <= p < s.Pages() && s0.used[p] ==> s.used[p] && s.ram[p] == s0.ram[p] && s.rmap[p] == s0.rmap[p])
    && UsedPages(s) == UsedPages(s0) + n
  }

  lemma GrownIsBacked(s0: State, s: State, v: nat, n: nat)
    requires Grown(s0, s, v, n)
    ensures Backed(s0, s, v, n)
  {
  }

  /** Restored: as before, but for the `done` pages from v, which are not mapped, and the reverse map and
      the pins of free pages. */
  ghost predicate Restored(s0: State, s: State, v: nat, done: nat)
  {
    && Ok(s0) && Ok(s) && s.Pages() == s0.Pages() && s.used == s0.used && s.hdirty == s0.hdirty
    && (forall u :: 0 <= u < USER_PAGES ==> s.pte[u] == if v <= u < v + done then None else s0.pte[u])
    && (forall p :: 0 <= p < s.Pages() && s0.used[p] ==> s.ram[p] == s0.ram[p])
    && (forall p :: 0 <= p < s.Pages() ==> s.rmap[p] == if s0.used[p] then s0.rmap[p] else 0)
    && (forall p :: 0 <= p < s.Pages() ==> s.pin[p] == if s0.used[p] then s0.pin[p] else 0)
  }

  /** The reverse map is restored too exactly when no free page had a stale entry. */
  lemma RestoredReverseMap(s0: State, s: State, v: nat, done: nat)
    requires Restored(s0, s, v, done)
    ensures s.rmap == s0.rmap <==> forall p :: 0 <= p < s0.Pages() && !s0.used[p] ==> s0.rmap[p] == 0
  {
    if forall p :: 0 <= p < s0.Pages() && !s0.used[p] ==> s0.rmap[p] == 0 {
      assert s.rmap == s0.rmap;
    }
  }

  /** The mappings are restored exactly when the pages given up were not mapped before. */
  lemma RestoredMappings(s0: State, s: State, v: nat, done: nat)
    requires Restored(s0, s, v, done) && v + done <= USER_PAGES
    ensures s.pte == s0.pte <==> forall u :: v <= u < v + done ==> s0.pte[u] == None
  {
    if s.pte == s0.pte {
      forall u | v <= u < v + done ensures s0.pte[u] == None { assert s.pte[u] == None; }
    }
  }

  /** Rolling back: user pages [v, v + i) are given up, [v + i, v + done) still backed. */
  ghost predicate Undoing(s0: State, s: State, v: nat, done: nat, i: nat)
  {
    && Tracked(s0) && Tracked(s) && s.Pages() == s0.Pages() && s.hdirty == s0.hdirty
    && 0 < v && i <= done && v + done <= USER_PAGES
    && (forall u :: 0 <= u < USER_PAGES && !(v <= u < v + done) ==> s.pte[u] == s0.pte[u])
    && (forall u :: v <= u < v + i ==> s.pte[u] == None)
    && (forall u :: v + i <= u < v + done ==> s.pte[u].Some? && !s0.used[s.pte[u].value])
    && (forall p :: 0 <= p < s.Pages() && s0.used[p] ==>
          s.used[p] && s.ram[p] == s0.ram[p] && s.rmap[p] == s0.rmap[p] && s.pin[p] == s0.pin[p])
    && (forall p :: 0 <= p < s.Pages() && !s0.used[p] && s.used[p] ==>
          v + i <= s.rmap[p] < v + done && s.pte[s.rmap[p]] == Some(p))
    && (forall p :: 0 <= p < s.Pages() && !s.used[p] ==> s.rmap[p] == 0 && s.pin[p] == 0)
  }

  lemma UndoingFrom(s0: State, s: State, v: nat, done: nat)
    requires Grown(s0, s, v, done) && forall p :: 0 <= p < s.Pages() ==> s.used[p]
    ensures Undoing(s0, s, v, done, 0)
  {
  }

  lemma UndoOne(s0: State, s: State, v: nat, done: nat, i: nat)
    requires Undoing(s0, s, v, done, i) && i < done
    ensures s.pte[v + i].Some? && Undoing(s0, FreePage(UnmapPage(s, v + i), s.pte[v + i].value), v, done, i + 1)
  {
    UndoTracked(s0, s, v, done, i);
    hide Tracked;
    UndoTables(s0, s, v, done, i);
  }

  lemma UndoTracked(s0: State, s: State, v: nat, done: nat, i: nat)
    requires Undoing(s0, s, v, done, i) && i < done
    ensures s.pte[v + i].Some? && s.rmap[s.pte[v + i].value] == v + i && s.used[s.pte[v + i].value] && Shaped(s)
    ensures Tracked(FreePage(UnmapPage(s, v + i), s.pte[v + i].value))
  {
    MappedHere(s, v + i);
    hide Undoing;
    UnmapKeeps(s, v + i);
    UnmappedAlone(s, v + i);
    hide Tracked, FreePage, UnmapPage;
    FreeKeeps(UnmapPage(s, v + i), s.pte[v + i].value);
  }

  lemma MappedHere(s: State, u: nat)
    requires Tracked(s) && u < USER_PAGES && s.pte[u].Some?
    ensures s.rmap[s.pte[u].value] == u && s.used[s.pte[u].value] && u != 0
  {
  }

  lemma UnmappedAlone(s: State, u: nat)
    requires Tracked(s) && u < USER_PAGES && s.pte[u].Some?
    ensures UnmapPage(s, u).Pages() == s.Pages() && !MappedElsewhere(UnmapPage(s, u), 0, s.pte[u].value)
  {
  }

  lemma UndoTables(s0: State, s: State, v: nat, done: nat, i: nat)
    requires Undoing(s0, s, v, done, i) && i < done && Shaped(s)
    requires s.pte[v + i].Some? && s.rmap[s.pte[v + i].value] == v + i && s.used[s.pte[v + i].value]
    requires Tracked(FreePage(UnmapPage(s, v + i), s.pte[v + i].value))
    ensures Undoing(s0, FreePage(UnmapPage(s, v + i), s.pte[v + i].value), v, done, i + 1)
  {
    hide Tracked;
    var p := s.pte[v + i].value;
    assert !s0.used[p];
    assert FreePage(UnmapPage(s, v + i), p) ==
      s.(pte := s.pte[v + i := None], view := s.view[v + i := Closed], rmap := s.rmap[p := 0], used := s.used[p := false], pin := s.pin[p := 0]);
  }

  lemma UndoingTracked(s0: State, s: State, v: nat, done: nat, i: nat)
    requires Undoing(s0, s, v, done, i)
    ensures Tracked(s)
  {
  }

  lemma UndoneIsRestored(s0: State, s: State, v: nat, done: nat)
    requires Undoing(s0, s, v, done, done)
    ensures Restored(s0, s, v, done)
  {
    assert s.used == s0.used;
  }

  /** The first page of the reserve at the top of RAM. */
  function ReserveFrom(pages: nat): nat { pages - if TOP_RESERVE < pages then TOP_RESERVE else 0 }

  /** It is the last TOP_RESERVE pages, where RAM has more. */
  lemma ReserveIsLast(pages: nat, p: nat)
    requires p < pages
    ensures p >= ReserveFrom(pages) <==> pages > TOP_RESERVE && pages - p <= TOP_RESERVE
  {
  }

  /** Page p is the highest free one below `reserve`, or the highest free one where none is below. */
  predicate TopFree(used: seq<bool>, reserve: nat, p: nat) {
    && p < |used| && reserve <= |used| && !used[p]
    && if p < reserve then forall i :: p < i < reserve ==> used[i]
       else (forall i :: p < i < |used| ==> used[i]) && forall i :: 0 <= i < reserve ==> used[i]
  }

  // ---- A stale entry ----

  /** A page mapped, its address mapped to another page, and the page freed. */
  function StaleRun(v: nat, p: nat, to: nat): seq<Op> { [Claim(p), Claim(to), Map(v, p), Map(v, to), Free(p)] }

  /** From boot that leaves a free page's entry naming the address, and any rollback of a failed
      nc_vm_alloc_at after it loses the entry. */
  lemma StaleEntryIsLost(pages: nat, v: nat, p: nat, to: nat)
    requires CLAIMED_AT_BOOT <= p < pages && CLAIMED_AT_BOOT <= to < pages && p != to && 0 < v < USER_PAGES
    ensures CanRun(Boot(pages), StaleRun(v, p, to))
    ensures var s := Execute(Boot(pages), StaleRun(v, p, to)).s;
      && Tracked(s) && !s.used[p] && s.rmap[p] == v
      && forall r, u, n :: Restored(s, r, u, n) ==> r.rmap[p] == 0 && r.rmap != s.rmap
  {
    hide Apply, Boot, Restored;
    var run := StaleRun(v, p, to);
    var r1, r2, r3 := StaleMapped(pages, v, p, to);
    var r4, r5 := StaleFreed(r3, v, p, to);
    OneOp(r4, Free(p), []);
    OneOp(r3, Map(v, to), [Free(p)] + []);
    OneOp(r2, Map(v, p), [Map(v, to)] + ([Free(p)] + []));
    OneOp(r1, Claim(to), [Map(v, p)] + ([Map(v, to)] + ([Free(p)] + [])));
    OneOp(Boot(pages), Claim(p), [Claim(to)] + ([Map(v, p)] + ([Map(v, to)] + ([Free(p)] + []))));
    assert run == [Claim(p)] + ([Claim(to)] + ([Map(v, p)] + ([Map(v, to)] + ([Free(p)] + []))));
    WritesAreReported(pages, run, 0, 0);
    forall r, u, n | Restored(r5.s, r, u, n) ensures p < |r.rmap| && r.rmap[p] == 0 && r.rmap != r5.s.rmap {
      RestoredEntry(r5.s, r, u, n, p);
    }
  }

  lemma RestoredEntry(s: State, r: State, v: nat, done: nat, p: nat)
    requires Restored(s, r, v, done) && p < s.Pages() && !s.used[p]
    ensures p < |r.rmap| && r.rmap[p] == 0
  {
  }

  /** The run's steps are allowed, and where they lead. */
  lemma StaleMapped(pages: nat, v: nat, p: nat, to: nat) returns (r1: Run, r2: Run, r3: Run)
    requires CLAIMED_AT_BOOT <= p < pages && CLAIMED_AT_BOOT <= to < pages && p != to && 0 < v < USER_PAGES
    ensures Allowed(Boot(pages).s, Claim(p)) && r1 == Apply(Boot(pages), Claim(p))
    ensures Allowed(r1.s, Claim(to)) && r2 == Apply(r1, Claim(to))
    ensures Allowed(r2.s, Map(v, p)) && r3 == Apply(r2, Map(v, p))
    ensures r3.s.Pages() == pages && r3.s.used[to] && r3.s.rmap[to] == 0 && r3.s.rmap[p] == v
  {
    r1 := Apply(Boot(pages), Claim(p));
    r2 := Apply(r1, Claim(to));
    r3 := Apply(r2, Map(v, p));
  }

  lemma StaleFreed(r3: Run, v: nat, p: nat, to: nat) returns (r4: Run, r5: Run)
    requires Shaped(r3.s) && |r3.written| == r3.s.Pages() && p < r3.s.Pages() && to < r3.s.Pages() && p != to && 0 < v < USER_PAGES
    requires r3.s.used[to] && r3.s.rmap[to] == 0 && r3.s.rmap[p] == v
    ensures Allowed(r3.s, Map(v, to)) && r4 == Apply(r3, Map(v, to))
    ensures Allowed(r4.s, Free(p)) && r5 == Apply(r4, Free(p))
    ensures r5.s.Pages() == r3.s.Pages() && !r5.s.used[p] && r5.s.rmap[p] == v
  {
    r4 := Apply(r3, Map(v, to));
    r5 := Apply(r4, Free(p));
  }
}
