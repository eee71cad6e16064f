/** What moving pages keeps (native/core/vm.c, relocate and its two callers). */
module Relocation {
  import opened Wrappers
  import opened GuestState
  import opened Protection

  /** What q holds, and the address that maps q, moved to the free page `to`. */
  function MovePage(s: State, q: nat, to: nat): (r: State)
    requires Shaped(s) && q < s.Pages() && to < s.Pages()
    ensures Shaped(r) && r.Pages() == s.Pages()
  {
    var copied := s.(ram := s.ram[to := s.ram[q]], used := s.used[to := true]);
    var mapped := MapPage(copied, s.rmap[q], to);
    mapped.(rmap := mapped.rmap[q := 0], used := mapped.used[q := false])
  }

  /** relocate: a tracked page's move is reported as a write to both pages. */
  function Relocate(s: State, q: nat, to: nat): (r: State)
    requires Shaped(s) && q < s.Pages() && to < s.Pages()
    ensures Shaped(r) && r.Pages() == s.Pages()
  {
    var left := MovePage(s, q, to);
    if s.wp[q] != Untracked || s.wp[to] != Untracked then Retrack(Retrack(left, q, 1, false), to, 1, false) else left
  }

  /** `b` means to the guest, and to everything that holds a page in place, what `a` did. */
  ghost predicate SameMeaning(a: State, b: State)
  {
    && Ok(a) && Ok(b)
    && a.Pages() == b.Pages() && a.pin == b.pin && a.na == b.na && a.hdirty == b.hdirty
    // every user VA stays mapped and reads the same bytes
    && (forall v: nat :: a.Mapped(v) <==> b.Mapped(v))
    && (forall v: nat :: a.Mapped(v) ==> b.Read(v) == a.Read(v))
    // what can't move didn't: pinned and no-access pages, contiguous blocks, the kernel's own
    && (forall v: nat :: a.Mapped(v) && !Movable(a, a.pte[v].value) ==> b.pte[v] == a.pte[v])
    && (forall p :: 0 <= p < a.Pages() && a.used[p] && !Movable(a, p) ==>
          b.used[p] && !Movable(b, p) && b.ram[p] == a.ram[p] && b.rmap[p] == a.rmap[p])
    // and nothing moved onto it
    && (forall v: nat :: b.Mapped(v) && a.used[b.pte[v].value] && !Movable(a, b.pte[v].value) ==> a.pte[v] == b.pte[v])
    // as many pages used as before
    && UsedPages(b) == UsedPages(a)
  }

  lemma SameMeaningReflexive(a: State)
    requires Ok(a)
    ensures SameMeaning(a, a)
  {
  }

  lemma SameMeaningTransitive(a: State, b: State, c: State)
    requires SameMeaning(a, b) && SameMeaning(b, c)
    ensures SameMeaning(a, c)
  {
    forall v: nat | a.Mapped(v) && !Movable(a, a.pte[v].value) ensures c.pte[v] == a.pte[v] {
      assert b.pte[v] == a.pte[v] && !Movable(b, a.pte[v].value);
      assert b.Mapped(v);
    }
    forall v: nat | a.Mapped(v) ensures c.Read(v) == a.Read(v) {
      assert b.Mapped(v);
    }
    forall v: nat | c.Mapped(v) && a.used[c.pte[v].value] && !Movable(a, c.pte[v].value) ensures a.pte[v] == c.pte[v] {
      assert b.used[c.pte[v].value] && !Movable(b, c.pte[v].value);
    }
  }

  /** What a move does, protection aside. */
  lemma RelocateEffect(s: State, q: nat, to: nat)
    requires Shaped(s) && q < s.Pages() && to < s.Pages() && q != to
    ensures var t := Relocate(s, q, to);
            && t.used == s.used[to := true][q := false] && t.pin == s.pin && t.na == s.na && t.hdirty == s.hdirty
            && t.rmap == s.rmap[to := s.rmap[q]][q := 0] && t.ram == s.ram[to := s.ram[q]]
            && t.pte == s.pte[s.rmap[q] := Some(to)]
  {
  }

  /** One move keeps the meaning of all of memory, and frees q for `to`. */
  lemma RelocateKeepsMeaning(s: State, q: nat, to: nat)
    requires Ok(s) && q < s.Pages() && to < s.Pages()
    requires s.used[q] && Movable(s, q) && TakesMove(s, to)
    ensures SameMeaning(s, Relocate(s, q, to))
    ensures Relocate(s, q, to).used == s.used[to := true][q := false]
  {
    hide Relocate, CountFree;
    RelocateEffect(s, q, to);
    RelocateOk(s, q, to);
    CountFreeUpdate(s.used, to, true, 0, |s.used|);
    CountFreeUpdate(s.used[to := true], q, false, 0, |s.used|);
  }

  lemma RelocateOk(s: State, q: nat, to: nat)
    requires Ok(s) && q < s.Pages() && to < s.Pages()
    requires s.used[q] && Movable(s, q) && TakesMove(s, to)
    ensures Ok(Relocate(s, q, to))
  {
    RelocateEffect(s, q, to);
    hide Relocate;
    var t := Relocate(s, q, to);
    forall v | 0 <= v < USER_PAGES && t.pte[v].Some?
      ensures v != 0 && t.used[t.pte[v].value] && t.rmap[t.pte[v].value] == v
    {
    }
  }

  /** A page that can move still can after another moved, and no other becomes able to. */
  lemma RelocateKeepsMovable(s: State, q: nat, to: nat, p: nat)
    requires Ok(s) && q < s.Pages() && to < s.Pages() && p < s.Pages()
    requires s.used[q] && Movable(s, q) && TakesMove(s, to)
    requires s.used[p] && p != q
    ensures Relocate(s, q, to).used[p] && (Movable(Relocate(s, q, to), p) <==> Movable(s, p))
  {
    RelocateEffect(s, q, to);
  }

  // ---- Free pages outside a window: where moved pages go ----

  /** Free pages of [lo, hi) outside the window [w, w + n). */
  function FreeOutside(used: seq<bool>, w: nat, n: nat, lo: nat, hi: nat): nat
    requires lo <= hi <= |used|
    decreases hi - lo
  {
    if lo == hi then 0
    else FreeOutside(used, w, n, lo, hi - 1) + if !used[hi - 1] && !(w <= hi - 1 < w + n) then 1 else 0
  }

  lemma {:induction false} FreeOutsideSplit(used: seq<bool>, w: nat, n: nat, lo: nat, mid: nat, hi: nat)
    requires lo <= mid <= hi <= |used|
    ensures FreeOutside(used, w, n, lo, hi) == FreeOutside(used, w, n, lo, mid) + FreeOutside(used, w, n, mid, hi)
    decreases hi
  {
    if mid < hi { FreeOutsideSplit(used, w, n, lo, mid, hi - 1); }
  }

  lemma {:induction false} FreeOutsideSame(a: seq<bool>, b: seq<bool>, w: nat, n: nat, lo: nat, hi: nat)
    requires lo <= hi <= |a| && hi <= |b|
    requires forall i :: lo <= i < hi && !(w <= i < w + n) ==> a[i] == b[i]
    ensures FreeOutside(a, w, n, lo, hi) == FreeOutside(b, w, n, lo, hi)
    decreases hi
  {
    if lo < hi { FreeOutsideSame(a, b, w, n, lo, hi - 1); }
  }

  lemma {:induction false} FreeOutsideInside(used: seq<bool>, w: nat, n: nat, lo: nat, hi: nat)
    requires w <= lo <= hi <= w + n && hi <= |used|
    ensures FreeOutside(used, w, n, lo, hi) == 0
    decreases hi
  {
    if lo < hi { FreeOutsideInside(used, w, n, lo, hi - 1); }
  }

  lemma {:induction false} FreeOutsideApart(used: seq<bool>, w: nat, n: nat, lo: nat, hi: nat)
    requires lo <= hi <= |used| && (hi <= w || w + n <= lo)
    ensures FreeOutside(used, w, n, lo, hi) == CountFree(used, lo, hi)
    decreases hi
  {
    if lo < hi { FreeOutsideApart(used, w, n, lo, hi - 1); }
  }

  /** All the free pages are inside the window or outside it. */
  lemma FreeOutsideTotal(used: seq<bool>, w: nat, n: nat)
    requires w + n <= |used|
    ensures FreeOutside(used, w, n, 0, |used|) == CountFree(used, 0, |used|) - CountFree(used, w, w + n)
  {
    FreeOutsideSplit(used, w, n, 0, w, |used|);
    FreeOutsideSplit(used, w, n, w, w + n, |used|);
    FreeOutsideApart(used, w, n, 0, w);
    FreeOutsideInside(used, w, n, w, w + n);
    FreeOutsideApart(used, w, n, w + n, |used|);
    CountFreeSplit(used, 0, w, |used|);
    CountFreeSplit(used, w, w + n, |used|);
  }
}
