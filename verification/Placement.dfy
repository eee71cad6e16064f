/** Making room for a contiguous block by moving pages out of its window
  (native/core/vm.c, nc_vm_alloc_phys_top and nc_vm_alloc_phys_compact): the pages searched for a
  new home, and what the caller may rely on afterwards.
  */
module Placement {
  import opened Wrappers
  import opened GuestState
  import opened Protection
  import opened Relocation
  import opened Tracking
  import opened Windows

  /** Where the search for moved pages' new homes stands: from below the top reserve down to page 0,
      then from the top of RAM down to the reserve's start. */
  datatype Cursor = Cursor(to: nat, reserve: bool)

  predicate CursorOk(c: Cursor, below: nat, n: nat) {
    below <= n && c.to <= n && (if c.reserve then below <= c.to else c.to <= below)
  }

  /** Free pages outside the window that the cursor has still to reach. */
  function Ahead(used: seq<bool>, w: nat, k: nat, below: nat, c: Cursor): nat
    requires CursorOk(c, below, |used|)
  {
    if c.reserve then FreeOutside(used, w, k, below, c.to)
    else FreeOutside(used, w, k, 0, c.to) + FreeOutside(used, w, k, below, |used|)
  }

  predicate NoClosedPages(s: State) { forall p :: 0 <= p < |s.na| ==> !s.na[p] }

  /** Part-way through clearing a window: [w, q) is free, the rest of it is as it was. */
  ghost predicate Clearing(s0: State, s: State, w: nat, k: nat, q: nat)
  {
    && SameMeaning(s0, s) && Tracked(s)
    && w <= q <= w + k <= s.Pages()
    && AllFree(s.used, w, q)
    && CanClear(s, w, k)
    && (forall i :: q <= i < w + k ==> s.used[i] == s0.used[i])
  }

  lemma ClearingStart(s: State, w: nat, k: nat, below: nat)
    requires Tracked(s) && w + k <= s.Pages() && CanClear(s, w, k) && below <= s.Pages()
    ensures Clearing(s, s, w, k, w)
    ensures Ahead(s.used, w, k, below, Cursor(below, false)) == FreeOutside(s.used, w, k, 0, s.Pages())
  {
    SameMeaningReflexive(s);
    FreeOutsideSplit(s.used, w, k, 0, below, s.Pages());
  }

  lemma ClearingMeans(s0: State, s: State, w: nat, k: nat, q: nat)
    requires Clearing(s0, s, w, k, q)
    ensures Tracked(s) && SameMeaning(s0, s) && s.na == s0.na && CanClear(s, w, k)
  {
  }

  lemma ClearingSkip(s0: State, s: State, w: nat, k: nat, q: nat)
    requires Clearing(s0, s, w, k, q) && q < w + k && !s.used[q]
    ensures Clearing(s0, s, w, k, q + 1)
  {
  }

  /** Nothing left to move: either the window was free from the start or the loop reached its end. */
  lemma ClearingDone(s0: State, s: State, w: nat, k: nat, q: nat, need: nat)
    requires Clearing(s0, s, w, k, q) && need == NeedOf(s0, w, k) && (q == w + k || (need == 0 && q == w))
    ensures Tracked(s) && SameMeaning(s0, s) && AllFree(s.used, w, w + k)
  {
    if q < w + k {
      forall i | w <= i < w + k ensures !s.used[i] {
        if s.used[i] { UsedTakesFromCount(s0.used, i, w, w + k); }
      }
    }
  }

  lemma {:induction false} UsedTakesFromCount(used: seq<bool>, i: nat, lo: nat, hi: nat)
    requires lo <= i < hi <= |used| && used[i]
    ensures CountFree(used, lo, hi) < hi - lo
    decreases hi
  {
    if i < hi - 1 { UsedTakesFromCount(used, i, lo, hi - 1); }
  }

  lemma MovedMeans(s0: State, s: State, q: nat, to: nat)
    requires SameMeaning(s0, s) && Tracked(s)
    requires q < s.Pages() && to < s.Pages() && s.used[q] && Movable(s, q) && TakesMove(s, to)
    ensures Ok(s) && SameMeaning(s0, Relocate(s, q, to)) && Tracked(Relocate(s, q, to))
    ensures Relocate(s, q, to).used == s.used[to := true][q := false]
  {
    TrackedOk(s);
    RelocateKeepsMeaning(s, q, to);
    RelocateKeepsTracking(s, q, to);
    hide SameMeaning, Tracked, Relocate, Movable, TakesMove;
    SameMeaningTransitive(s0, s, Relocate(s, q, to));
  }

  /** One page of the window moved out. */
  lemma ClearOne(s0: State, s: State, w: nat, k: nat, q: nat, to: nat)
    requires Clearing(s0, s, w, k, q) && q < w + k && s.used[q]
    requires to < s.Pages() && TakesMove(s, to) && !(w <= to < w + k)
    ensures Clearing(s0, Relocate(s, q, to), w, k, q + 1)
    ensures Relocate(s, q, to).used == s.used[to := true][q := false]
  {
    hide SameMeaning, Tracked, Relocate, Movable, TakesMove, Ok;
    MovedMeans(s0, s, q, to);
    StillClear(s, w, k, q, to);
  }

  lemma StillClear(s: State, w: nat, k: nat, q: nat, to: nat)
    requires Ok(s) && w <= q < w + k <= s.Pages() && to < s.Pages() && !(w <= to < w + k)
    requires CanClear(s, w, k) && s.used[q] && TakesMove(s, to)
    requires Relocate(s, q, to).used == s.used[to := true][q := false]
    ensures CanClear(Relocate(s, q, to), w, k)
  {
    hide Relocate, Movable, TakesMove;
    var t := Relocate(s, q, to);
    forall i | w <= i < w + k && t.used[i] ensures Movable(t, i) {
      RelocateKeepsMovable(s, q, to, i);
    }
  }

  /** The moved page's new home was one of those ahead; the cursor is past it now. */
  lemma AheadAfterMove(used: seq<bool>, w: nat, k: nat, below: nat, c: Cursor, q: nat)
    requires CursorOk(c, below, |used|) && c.to < |used| && w <= q < w + k <= |used| && (c.reserve || c.to < below)
    ensures Ahead(used[c.to := true][q := false], w, k, below, c) == Ahead(used, w, k, below, c)
  {
    var u := used[c.to := true][q := false];
    if c.reserve {
      FreeOutsideSame(used, u, w, k, below, c.to);
    } else {
      FreeOutsideSame(used, u, w, k, 0, c.to);
      FreeOutsideSame(used, u, w, k, below, |used|);
    }
  }

  // ---- The result of a contiguous allocation ----

  /** The block [w, w + k) was made: nothing the guest could read has changed, and as many more pages
      are used as the block has. */
  ghost predicate Placed(a: State, b: State, w: nat, k: nat)
  {
    && Shaped(b) && w + k <= b.Pages()
    && (forall i :: w <= i < w + k ==> b.used[i])
    && SameMeaning(a, b.(used := Fill(b.used, w, w + k, false)))
  }

  lemma FillBack(used: seq<bool>, w: nat, k: nat)
    requires w + k <= |used| && AllFree(used, w, w + k)
    ensures Fill(Fill(used, w, w + k, true), w, w + k, false) == used
  {
  }

  lemma FilledOver(used: seq<bool>, w: nat, k: nat)
    requires w + k <= |used| && forall i :: w <= i < w + k ==> used[i]
    ensures Fill(Fill(used, w, w + k, false), w, w + k, true) == used
  {
  }

  lemma PlacedOk(a: State, b: State, w: nat, k: nat)
    requires Placed(a, b, w, k)
    ensures Ok(b) && UsedPages(b) == UsedPages(a) + k
  {
    hide CountFree;
    var mid := b.(used := Fill(b.used, w, w + k, false));
    FilledOver(b.used, w, k);
    CountFreeFill(mid.used, w, w + k);
    CountFreeAll(mid.used, w, w + k);
    FilledMapped(mid, b, w, k);
  }

  lemma FilledMapped(mid: State, b: State, w: nat, k: nat)
    requires Ok(mid) && Shaped(b) && w + k <= b.Pages() && mid == b.(used := mid.used)
    requires forall i :: 0 <= i < b.Pages() && mid.used[i] ==> b.used[i]
    ensures MapInv(b)
  {
    forall v | 0 <= v < USER_PAGES && b.pte[v].Some?
      ensures v != 0 && b.used[b.pte[v].value] && b.rmap[b.pte[v].value] == v
    {
      assert mid.pte[v].Some?;
    }
  }

  /** What a placed block means: every user VA is still mapped and reads the same bytes, from pages
      outside the block; mappings are still injective with rmap as their inverse; what is pinned,
      closed or the kernel's own stayed; and exactly the block's pages are used more. */
  lemma PlacedMeans(a: State, b: State, w: nat, k: nat)
    requires Placed(a, b, w, k)
    ensures Ok(b) && UsedPages(b) == UsedPages(a) + k
    ensures forall v: nat :: a.Mapped(v) <==> b.Mapped(v)
    ensures forall v: nat :: a.Mapped(v) ==> b.Read(v) == a.Read(v) && !(w <= b.pte[v].value < w + k)
    ensures forall v: nat :: a.Mapped(v) && (a.pin[a.pte[v].value] != 0 || a.na[a.pte[v].value]) ==> b.pte[v] == a.pte[v]
    ensures forall p :: 0 <= p < a.Pages() && a.used[p] && !Movable(a, p) ==>
              b.used[p] && b.ram[p] == a.ram[p] && !(w <= p < w + k)
  {
    hide CountFree;
    PlacedOk(a, b, w, k);
    var mid := b.(used := Fill(b.used, w, w + k, false));
    forall v: nat | a.Mapped(v) ensures b.Mapped(v) && b.Read(v) == a.Read(v) && !(w <= b.pte[v].value < w + k) {
      assert mid.Mapped(v) && mid.used[mid.pte[v].value];
    }
  }

  lemma PlacedAfter(a: State, mid: State, b: State, w: nat, k: nat)
    requires SameMeaning(a, mid) && Placed(mid, b, w, k)
    ensures Placed(a, b, w, k)
  {
    hide SameMeaning;
    SameMeaningTransitive(a, mid, b.(used := Fill(b.used, w, w + k, false)));
  }

  /** w is the highest window of the request with no page in the way. */
  ghost predicate Highest(s: State, q: Request, w: nat)
    requires Shaped(s) && q.step > 0 && q.last <= s.Pages()
  {
    && IsWindow(q, w) && CanClear(s, w, q.pages)
    && forall x: nat :: IsWindow(q, x) && CanClear(s, x, q.pages) ==> x <= w
  }

  /** As many free pages outside the window as used ones in it. */
  predicate RoomFor(s: State, w: nat, k: nat)
    requires Shaped(s) && w + k <= s.Pages()
  {
    NeedOf(s, w, k) <= FreeOutside(s.used, w, k, 0, s.Pages())
  }

  /** The window nc_vm_alloc_phys_top takes: the highest clearable one, if there is room outside it. */
  ghost predicate Best(s: State, q: Request, w: nat)
    requires Shaped(s) && q.step > 0 && q.last <= s.Pages()
  {
    Highest(s, q, w) && RoomFor(s, w, q.pages)
  }

  /** nc_vm_alloc_phys_high's two requests: below the reserve at the top of RAM, and anywhere. */
  function BelowReserve(len: nat, pages: nat): (q: Request)
    ensures q.step > 0 && q.last <= pages
  {
    RequestOf(len, 0, if pages * PAGE > TOP_RESERVE * PAGE then pages * PAGE - TOP_RESERVE * PAGE else 0, PAGE, pages)
  }

  function AnyWhere(len: nat, pages: nat): (q: Request)
    ensures q.step > 0 && q.last <= pages
  {
    RequestOf(len, 0, pages * PAGE, PAGE, pages)
  }

  /** Their windows: all that end below the reserve, where RAM is larger than it, and all in RAM. */
  lemma BelowReserveIs(len: nat, pages: nat, w: nat)
    requires 0 < len <= WORD - PAGE
    ensures var n := (len + PAGE - 1) / PAGE;
      && (IsWindow(BelowReserve(len, pages), w) <==> w + n <= if pages > TOP_RESERVE then pages - TOP_RESERVE else pages)
      && (IsWindow(AnyWhere(len, pages), w) <==> w + n <= pages)
  {
    PagesFor(len);
  }

  lemma TrackedOk(s: State)
    requires Tracked(s)
    ensures Ok(s)
  {
  }

  /** There is one highest window, and the code's count of room is RoomFor. */
  lemma HighestRoom(s: State, q: Request, w: nat)
    requires Shaped(s) && q.step > 0 && q.last <= s.Pages() && Highest(s, q, w)
    ensures forall x: nat :: Highest(s, q, x) ==> x == w
    ensures w + q.pages <= s.Pages()
    ensures RoomFor(s, w, q.pages) <==>
              var need := NeedOf(s, w, q.pages);
              need == 0 || CountFree(s.used, 0, s.Pages()) - (q.pages - need) >= need
  {
    FreeOutsideTotal(s.used, w, q.pages);
  }

  lemma RoomIs(s: State, w: nat, k: nat)
    requires Shaped(s) && w + k <= s.Pages()
    ensures var need := NeedOf(s, w, k);
            RoomFor(s, w, k) <==> CountFree(s.used, 0, s.Pages()) - (k - need) >= need
  {
    FreeOutsideTotal(s.used, w, k);
  }

  /** A window with no page in the way and room outside it for what it holds. */
  predicate Clearable(s: State, w: nat, k: nat)
    requires Shaped(s) && w + k <= s.Pages()
  {
    CanClear(s, w, k) && RoomFor(s, w, k)
  }

  /** Of the clearable windows from `from` up, w takes the least moving, and no later one as little. */
  ghost predicate FewestIn(s: State, q: Request, w: nat, from: int)
    requires Shaped(s) && q.step > 0 && q.last <= s.Pages()
  {
    && IsWindow(q, w) && Clearable(s, w, q.pages)
    && forall x: nat :: x >= from && IsWindow(q, x) && Clearable(s, x, q.pages) ==>
         NeedOf(s, w, q.pages) < NeedOf(s, x, q.pages) || (NeedOf(s, w, q.pages) == NeedOf(s, x, q.pages) && x <= w)
  }

  lemma FewestMeans(s: State, q: Request, w: nat)
    requires Shaped(s) && q.step > 0 && q.last <= s.Pages() && FewestIn(s, q, w, q.first)
    ensures IsWindow(q, w) && w + q.pages <= s.Pages() && CanClear(s, w, q.pages) && RoomFor(s, w, q.pages)
  {
  }

  lemma StepDown(w: int, step: nat)
    requires step > 0 && w % step == 0
    ensures (w - step) % step == 0
    ensures forall x: nat :: x % step == 0 && x > w - step && x <= w ==> x == w
  {
    var j := w / step;
    assert w == j * step && w - step == (j - 1) * step;
    ModInt(w - step, step, j - 1);
    forall x: nat | x % step == 0 && x > w - step && x <= w ensures x == w {
      var i := x / step;
      assert x == i * step;
      if i < j { MulMonotonic(i, j - 1, step); } else if i > j { MulMonotonic(j + 1, i, step); }
    }
  }

  lemma ModInt(x: int, d: nat, q: int)
    requires d > 0 && x == q * d
    ensures x % d == 0
  {
    var q', m' := x / d, x % d;
    assert x == q' * d + m';
    if q < q' {
      MulMonotonic(q + 1, q', d);
    } else if q' < q {
      MulMonotonic(q' + 1, q, d);
    }
  }

  lemma AheadUpAfterMove(used: seq<bool>, w: nat, k: nat, to: nat, q: nat)
    requires to < |used| && !used[to] && !(w <= to < w + k) && w <= q < w + k <= |used|
    ensures FreeOutside(used[to := true][q := false], w, k, to, |used|) == FreeOutside(used, w, k, to, |used|) - 1
  {
    var u := used[to := true][q := false];
    FreeOutsideSplit(used, w, k, to, to + 1, |used|);
    FreeOutsideSplit(u, w, k, to, to + 1, |used|);
    FreeOutsideSame(used, u, w, k, to + 1, |used|);
    assert FreeOutside(used, w, k, to, to + 1) == 1 && FreeOutside(u, w, k, to, to + 1) == 0;
  }

  lemma FreeOutsideNone(used: seq<bool>, w: nat, k: nat)
    ensures FreeOutside(used, w, k, |used|, |used|) == 0
  {
  }

  lemma CountNothing(used: seq<bool>, hi: nat)
    requires hi <= |used|
    ensures CountFree(used, hi, hi) == 0
  {
  }

  lemma ClaimKeeps(s: State, w: nat, k: nat)
    requires Tracked(s) && w + k <= s.Pages()
    ensures Tracked(s.(used := Fill(s.used, w, w + k, true)))
  {
  }

  lemma PlacedFrom(a: State, mid: State, b: State, w: nat, k: nat)
    requires SameMeaning(a, mid) && Tracked(mid) && w + k <= mid.Pages() && AllFree(mid.used, w, w + k)
    requires b == mid.(used := Fill(mid.used, w, w + k, true))
    ensures Placed(a, b, w, k) && Tracked(b)
  {
    hide SameMeaning, Tracked;
    TrackedOk(mid);
    ClaimKeeps(mid, w, k);
    FillBack(mid.used, w, k);
    assert b.(used := Fill(b.used, w, w + k, false)) == mid;
  }

  // ---- The copy through the window ----

  /** MovePage with the copy already made. */
  function MoveMapping(s: State, q: nat, to: nat, v: nat): (r: State)
    requires Shaped(s) && q < s.Pages() && to < s.Pages() && v < USER_PAGES
    ensures Shaped(r) && r.Pages() == s.Pages()
  {
    var mapped := MapPage(s.(used := s.used[to := true]), v, to);
    mapped.(rmap := mapped.rmap[q := 0], used := mapped.used[q := false])
  }

  /** a and b differ at most in how page `to`, mapped at v, is tracked and protected. */
  predicate AlikeBut(a: State, b: State, to: nat, v: nat)
  {
    && Shaped(a) && Shaped(b) && a == b.(contig := a.contig, wp := a.wp, view := a.view)
    && (forall p :: 0 <= p < a.Pages() && p != to ==> a.contig[p] == b.contig[p] && a.wp[p] == b.wp[p])
    && (forall u :: 0 <= u < USER_PAGES && u != v ==> a.view[u] == b.view[u])
    && to < a.Pages() && 0 < v < USER_PAGES && a.pte[v] == Some(to) && a.rmap[to] == v && !a.na[to]
  }

  lemma RetrackOther(a: State, b: State, to: nat, v: nat, q: nat)
    requires AlikeBut(a, b, to, v) && q < a.Pages() && q != to
    ensures AlikeBut(Retrack(a, q, 1, false), Retrack(b, q, 1, false), to, v)
    ensures Retrack(a, q, 1, false).wp[to] == a.wp[to] && Retrack(b, q, 1, false).wp[to] == b.wp[to]
  {
  }

  lemma RetrackSame(a: State, b: State, to: nat, v: nat)
    requires AlikeBut(a, b, to, v) && a.wp[to] != Untracked && b.wp[to] != Untracked
    ensures Retrack(a, to, 1, false) == Retrack(b, to, 1, false)
  {
    var c, d := Retrack(a, to, 1, false), Retrack(b, to, 1, false);
    assert c.contig == d.contig;
    assert c.gpu == d.gpu;
    assert c.wp == d.wp;
    assert c.view == d.view;
  }

  /** What a store through the window to a page with access does. */
  lemma StoreThroughWindow(s: State, to: nat, bytes: Page)
    requires Tracked(s) && to < s.Pages() && !s.na[to]
    ensures Store(s, Contig(to), bytes) ==
            Some((if s.contig[to] == ReadWrite then s else OpenView(s, Contig(to))).(ram := s.ram[to := bytes]))
    ensures s.contig[to] != ReadWrite ==> s.wp[to] != Untracked
  {
    StoreGoesThrough(s, Contig(to), bytes);
    StoreUnfold(s, Contig(to), bytes);
    if s.contig[to] != ReadWrite {
      StoreUnfold(OpenView(s, Contig(to)), Contig(to), bytes);
    }
  }

  lemma MovedAlike(s: State, q: nat, to: nat)
    requires Tracked(s) && q < s.Pages() && to < s.Pages() && s.contig[to] != ReadWrite
    requires s.used[q] && Movable(s, q) && TakesMove(s, to)
    ensures AlikeBut(MovePage(s, q, to),
                     MoveMapping(OpenView(s, Contig(to)).(ram := s.ram[to := s.ram[q]]), q, to, s.rmap[q]), to, s.rmap[q])
  {
  }

  /** Copying through the contiguous window may fault and open that view; reported as written, both
      pages end as if the copy had gone past the tracking. */
  lemma CopyThroughWindow(s: State, q: nat, to: nat)
    requires Tracked(s) && q < s.Pages() && to < s.Pages()
    requires s.used[q] && Movable(s, q) && TakesMove(s, to)
    ensures Store(s, Contig(to), s.ram[q]).Some?
    ensures var left := MoveMapping(Store(s, Contig(to), s.ram[q]).value, q, to, s.rmap[q]);
            Relocate(s, q, to) ==
            if s.wp[q] != Untracked || s.wp[to] != Untracked then Retrack(Retrack(left, q, 1, false), to, 1, false) else left
  {
    hide Retrack, Store;
    StoreThroughWindow(s, to, s.ram[q]);
    var left := MoveMapping(Store(s, Contig(to), s.ram[q]).value, q, to, s.rmap[q]);
    if s.contig[to] != ReadWrite {
      hide AlikeBut;
      MovedAlike(s, q, to);
      RetrackOther(MovePage(s, q, to), left, to, s.rmap[q], q);
      RetrackSame(Retrack(MovePage(s, q, to), q, 1, false), Retrack(left, q, 1, false), to, s.rmap[q]);
    } else {
      assert left == MovePage(s, q, to);
    }
  }
}
