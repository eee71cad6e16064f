/** Guest memory as values: what the arrays of `NcVm` and of the write tracker hold
  (native/core/vm.h, native/core/vm.c, native/hle/dirty.c), a page at a time.

  Physical pages are numbered 0, 1, ...  A user address is its page number, below the contiguous
  window (0x80000000); the two windows map all of RAM and never change, so only their protection
  is kept.
  */
module GuestState {
  import opened Wrappers

  const PAGE: nat := 0x1000
  const USER_PAGES: nat := 0x80000     // user VAs: [0, 0x80000000) / PAGE
  const TOP_RESERVE: nat := 0x100      // NC_TOP_RESERVE in pages

  type Page = seq<nat>                 // a page's bytes

  function ZeroPage(): Page { seq(PAGE, _ => 0) }

  /** mprotect's protection of one page of one guest view. */
  datatype Perm = Closed | ReadOnly | ReadWrite

  /** NcVm.wp: 0, NC_WP_CLEAN, NC_WP_WRITTEN. */
  datatype Track = Untracked | Clean | Written

  datatype State = State(
    used: seq<bool>,            // page_used
    pin: seq<nat>,              // lock count, and NC_PIN_KNOWN as 0x80
    na: seq<bool>,              // g_na: no guest access
    wp: seq<Track>,
    hdirty: seq<bool>,          // g_hdirty
    rmap: seq<nat>,             // the user page mapping it, or 0
    ram: seq<Page>,
    contig: seq<Perm>,          // the contiguous window's view of each page
    gpu: seq<Perm>,             // the GPU window's
    pte: seq<Option<nat>>,      // per user page: the physical page behind it
    view: seq<Perm>)            // per user page: its protection
  {
    function Pages(): nat { |used| }

    predicate Mapped(v: nat) { v < |pte| && pte[v].Some? }

    /** The bytes the guest reads at user page v. */
    function Read(v: nat): Page
      requires Mapped(v) && pte[v].value < |ram|
    {
      ram[pte[v].value]
    }
  }

  /** The arrays' lengths. */
  predicate Shaped(s: State) {
    var n := s.Pages();
    && |s.pin| == |s.na| == |s.wp| == |s.hdirty| == |s.rmap| == |s.ram| == |s.contig| == |s.gpu| == n
    && |s.pte| == |s.view| == USER_PAGES
    && (forall p :: 0 <= p < n ==> s.rmap[p] < USER_PAGES)
    && (forall v :: 0 <= v < USER_PAGES && s.pte[v].Some? ==> s.pte[v].value < n)
  }

  /** Every user mapping is to a used page whose reverse map names it: mappings are injective and
      rmap is their inverse.  (Page 0 is never mapped: rmap's 0 means none.) */
  predicate MapInv(s: State)
    requires Shaped(s)
  {
    forall v :: 0 <= v < USER_PAGES && s.pte[v].Some? ==>
      v != 0 && s.used[s.pte[v].value] && s.rmap[s.pte[v].value] == v
  }

  predicate Ok(s: State) { Shaped(s) && MapInv(s) }

  // ---- Runs of flags ----

  /** `x` over [lo, hi), as memset does. */
  function Fill<T>(s: seq<T>, lo: nat, hi: nat, x: T): (r: seq<T>)
    requires lo <= hi <= |s|
    ensures |r| == |s|
    ensures forall i :: 0 <= i < |s| ==> r[i] == if lo <= i < hi then x else s[i]
  {
    s[..lo] + seq(hi - lo, _ => x) + s[hi..]
  }

  predicate AllFree(used: seq<bool>, lo: nat, hi: nat)
    requires hi <= |used|
  {
    forall i :: lo <= i < hi ==> !used[i]
  }

  /** How many of pages [lo, hi) are free. */
  function CountFree(used: seq<bool>, lo: nat, hi: nat): (n: nat)
    requires lo <= hi <= |used|
    ensures n <= hi - lo
    decreases hi - lo
  {
    if lo == hi then 0 else CountFree(used, lo, hi - 1) + if used[hi - 1] then 0 else 1
  }

  function UsedPages(s: State): nat { |s.used| - CountFree(s.used, 0, |s.used|) }

  lemma {:induction false} CountFreeSplit(used: seq<bool>, lo: nat, mid: nat, hi: nat)
    requires lo <= mid <= hi <= |used|
    ensures CountFree(used, lo, hi) == CountFree(used, lo, mid) + CountFree(used, mid, hi)
    decreases hi
  {
    if mid < hi { CountFreeSplit(used, lo, mid, hi - 1); }
  }

  lemma CountFirst(used: seq<bool>, lo: nat, hi: nat)
    requires lo < hi <= |used|
    ensures CountFree(used, lo, hi) == CountFree(used, lo + 1, hi) + if used[lo] then 0 else 1
    ensures CountFree(used, hi, hi) == 0
  {
    CountFreeSplit(used, lo, lo + 1, hi);
  }

  lemma {:induction false} CountFreeSame(a: seq<bool>, b: seq<bool>, lo: nat, hi: nat)
    requires lo <= hi <= |a| && hi <= |b|
    requires forall i :: lo <= i < hi ==> a[i] == b[i]
    ensures CountFree(a, lo, hi) == CountFree(b, lo, hi)
    decreases hi
  {
    if lo < hi { CountFreeSame(a, b, lo, hi - 1); }
  }

  /** One page changing hands changes the count by one. */
  lemma CountFreeUpdate(used: seq<bool>, p: nat, x: bool, lo: nat, hi: nat)
    requires lo <= hi <= |used| && p < |used|
    ensures CountFree(used[p := x], lo, hi) ==
            CountFree(used, lo, hi) + (if lo <= p < hi && used[p] != x then (if x then -1 else 1) else 0)
  {
    if lo <= p < hi {
      CountFreeSplit(used, lo, p, hi);
      CountFreeSplit(used[p := x], lo, p, hi);
      CountFreeSplit(used, p, p + 1, hi);
      CountFreeSplit(used[p := x], p, p + 1, hi);
      CountFreeSame(used, used[p := x], lo, p);
      CountFreeSame(used, used[p := x], p + 1, hi);
      assert CountFree(used, p, p) == 0 && CountFree(used[p := x], p, p) == 0;
    } else {
      CountFreeSame(used, used[p := x], lo, hi);
    }
  }

  lemma {:induction false} CountFreeAll(used: seq<bool>, lo: nat, hi: nat)
    requires lo <= hi <= |used| && AllFree(used, lo, hi)
    ensures CountFree(used, lo, hi) == hi - lo
    decreases hi
  {
    if lo < hi { CountFreeAll(used, lo, hi - 1); }
  }

  lemma {:induction false} CountFreeNone(used: seq<bool>, lo: nat, hi: nat)
    requires lo <= hi <= |used| && forall i :: lo <= i < hi ==> used[i]
    ensures CountFree(used, lo, hi) == 0
    decreases hi
  {
    if lo < hi { CountFreeNone(used, lo, hi - 1); }
  }

  /** Marking a window used takes its free pages off the count. */
  lemma CountFreeFill(used: seq<bool>, lo: nat, hi: nat)
    requires lo <= hi <= |used|
    ensures CountFree(Fill(used, lo, hi, true), 0, |used|) == CountFree(used, 0, |used|) - CountFree(used, lo, hi)
  {
    var r := Fill(used, lo, hi, true);
    CountFreeSplit(used, 0, lo, |used|);
    CountFreeSplit(used, lo, hi, |used|);
    CountFreeSplit(r, 0, lo, |used|);
    CountFreeSplit(r, lo, hi, |used|);
    CountFreeSame(used, r, 0, lo);
    CountFreeSame(used, r, hi, |used|);
    CountFreeNone(r, lo, hi);
  }

  // ---- Single-page steps ----

  /** A contiguous block may push page p elsewhere: one user address maps it, the one in rmap, and
      neither a lock nor a closed view holds it. */
  predicate Movable(s: State, p: nat)
    requires Shaped(s) && p < s.Pages()
  {
    s.rmap[p] != 0 && s.pin[p] == 0 && !s.na[p] && s.pte[s.rmap[p]] == Some(p)
  }

  /** Page p has room for a page pushed out of a block. */
  predicate TakesMove(s: State, p: nat)
    requires Shaped(s) && p < s.Pages()
  {
    !s.used[p] && !s.na[p]
  }

  /** A page can be moved exactly where some address maps it and no lock, no mark and no closed view holds it; and
      takes one exactly where it is neither used nor closed. */
  lemma MovableExactly(s: State, p: nat)
    requires Ok(s) && p < s.Pages()
    ensures Movable(s, p) <==> s.pin[p] == 0 && !s.na[p] && exists v :: 0 <= v < USER_PAGES && s.pte[v] == Some(p)
    ensures TakesMove(s, p) <==> !(s.used[p] || s.na[p])
  {
    if v :| 0 <= v < USER_PAGES && s.pte[v] == Some(p) { assert s.rmap[s.pte[v].value] == v; }
  }

  /** A new view's protection: what no-access and write tracking say of the page. */
  function ViewFor(s: State, p: nat): Perm
    requires Shaped(s) && p < s.Pages()
  {
    if s.na[p] then Closed else if s.wp[p] == Clean then ReadOnly else ReadWrite
  }

  /** nc_vm_map of one page. */
  function MapPage(s: State, v: nat, p: nat): (r: State)
    requires Shaped(s) && p < s.Pages() && v < USER_PAGES
    ensures Shaped(r) && r.Pages() == s.Pages()
  {
    s.(pte := s.pte[v := Some(p)], rmap := s.rmap[p := v], view := s.view[v := ViewFor(s, p)])
  }

  /** nc_vm_unmap of one page. */
  function UnmapPage(s: State, v: nat): (r: State)
    requires Shaped(s) && v < USER_PAGES
    ensures Shaped(r) && r.Pages() == s.Pages()
  {
    s.(pte := s.pte[v := None],
       view := s.view[v := Closed],
       rmap := if s.pte[v].Some? && s.rmap[s.pte[v].value] == v then s.rmap[s.pte[v].value := 0] else s.rmap)
  }

  /** nc_vm_free_phys of one page. */
  function FreePage(s: State, p: nat): (r: State)
    requires Shaped(s) && p < s.Pages()
    ensures Shaped(r) && r.Pages() == s.Pages()
  {
    s.(used := s.used[p := false], pin := s.pin[p := 0])
  }

  const PIN_KNOWN: nat := 0x80

  /** A page's pin byte after nc_vm_pin: the lock count saturates at 127 and stops at 0. */
  function PinValue(byte: nat, known: bool, lock: int): nat {
    var count := byte % PIN_KNOWN;
    var locked := if lock > 0 && count < PIN_KNOWN - 1 then byte + 1 else if lock < 0 && count > 0 then byte - 1 else byte;
    if known && locked < PIN_KNOWN then locked + PIN_KNOWN else locked
  }

  /** The flag is set once it was or is asked for; the count goes up to 127 and down to 0, one at a time. */
  lemma PinIsFlagAndCount(byte: nat, known: bool, lock: int)
    requires byte < 2 * PIN_KNOWN
    ensures var r := PinValue(byte, known, lock); var count := byte % PIN_KNOWN;
      && r < 2 * PIN_KNOWN
      && (r >= PIN_KNOWN <==> known || byte >= PIN_KNOWN)
      && r % PIN_KNOWN == (if lock > 0 then (if count == PIN_KNOWN - 1 then count else count + 1)
                           else if lock < 0 then (if count == 0 then 0 else count - 1) else count)
  {
  }
}
