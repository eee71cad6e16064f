/** The protection of guest views, and what write tracking makes of it
  (native/core/vm.c, prot_views to nc_vm_noaccess; native/hle/dirty.c, protect_runs).
  */
module Protection {
  import opened Wrappers
  import opened GuestState

  /** User page v is the view its physical page's reverse map names, and that page is one of `pages`. */
  predicate ViewIn(s: State, v: nat, pages: nat -> bool)
    requires Shaped(s) && v < USER_PAGES
  {
    v != 0 && s.pte[v].Some? && pages(s.pte[v].value) && s.rmap[s.pte[v].value] == v
  }

  /** mprotect of every guest view of `pages`: both windows, and the user mappings in rmap. */
  function SetPerms(s: State, pages: nat -> bool, perm: Perm): (r: State)
    requires Shaped(s)
    ensures Shaped(r) && r.Pages() == s.Pages()
  {
    s.(contig := seq(|s.contig|, p requires 0 <= p < |s.contig| => if pages(p) then perm else s.contig[p]),
       gpu := seq(|s.gpu|, p requires 0 <= p < |s.gpu| => if pages(p) then perm else s.gpu[p]),
       view := seq(|s.view|, v requires 0 <= v < |s.view| => if ViewIn(s, v, pages) then perm else s.view[v]))
  }

  /** Pages [p, p + n). */
  function Range(p: nat, n: nat): nat -> bool { i => p <= i < p + n }

  /** Of the views as they were, the user views of pages [p, p + n) changed to perm. */
  predicate ViewsSet(s: State, was: seq<Perm>, now: seq<Perm>, p: nat, n: nat, perm: Perm)
    requires Shaped(s) && |was| == |s.view|
  {
    |now| == |was| && forall v :: 0 <= v < |now| ==> now[v] == if ViewIn(s, v, Range(p, n)) then perm else was[v]
  }

  /** The n pages from p + done on are mapped at consecutive VAs from va on. */
  predicate RunMapped(s: State, p: nat, done: nat, va: nat, n: nat)
    requires Shaped(s) && p + done + n <= s.Pages()
  {
    n != 0 ==>
      && va != 0 && va + n <= USER_PAGES
      && (forall k :: p + done <= k < p + done + n ==> s.rmap[k] == va + (k - p - done))
      && (forall v :: va <= v < va + n ==> s.pte[v] == Some(v - va + p + done))
  }

  lemma RunGrows(s: State, p: nat, done: nat, va: nat, n: nat)
    requires Shaped(s) && p + done + n < s.Pages() && RunMapped(s, p, done, va, n) && va + n < USER_PAGES && va + n != 0
    requires s.rmap[p + done + n] == va + n && s.pte[va + n] == Some(p + done + n)
    ensures RunMapped(s, p, done, va, n + 1)
  {
  }

  lemma RunFrom(s: State, p: nat, done: nat, va: nat, n: nat)
    requires Shaped(s) && n <= 1 && p + done + n <= s.Pages()
    requires n == 1 ==> 0 < va < USER_PAGES && s.rmap[p + done] == va && s.pte[va] == Some(p + done)
    ensures RunMapped(s, p, done, va, n)
  {
  }

  lemma NothingSet(s: State, p: nat, perm: Perm)
    requires Shaped(s)
    ensures ViewsSet(s, s.view, s.view, p, 0, perm) && (p <= s.Pages() ==> RunMapped(s, p, 0, 0, 0))
  {
    EmptyRange(s, p);
  }

  lemma SkipView(s: State, was: seq<Perm>, now: seq<Perm>, p: nat, n: nat, perm: Perm)
    requires Shaped(s) && |was| == |s.view| && p + n < s.Pages() && ViewsSet(s, was, now, p, n, perm)
    requires s.rmap[p + n] == 0 || s.pte[s.rmap[p + n]] != Some(p + n)
    ensures ViewsSet(s, was, now, p, n + 1, perm)
  {
    NoView(s, p, n, n + 1);
  }

  /** The views of a run of pages mapped at consecutive VAs, after those of the n pages before it. */
  lemma RunViews(s: State, p: nat, n: nat, m: nat, va: nat)
    requires Shaped(s) && n <= m && p + m <= s.Pages() && va != 0 && va + (m - n) <= USER_PAGES
    requires forall k :: p + n <= k < p + m ==> s.rmap[k] == va + (k - p - n)
    requires forall v :: va <= v < va + (m - n) ==> s.pte[v] == Some(v - va + p + n)
    ensures forall v :: 0 <= v < USER_PAGES ==>
      (ViewIn(s, v, Range(p, m)) <==> ViewIn(s, v, Range(p, n)) || va <= v < va + (m - n))
  {
  }

  lemma EmptyRange(s: State, p: nat)
    requires Shaped(s)
    ensures forall v :: 0 <= v < USER_PAGES ==> !ViewIn(s, v, Range(p, 0))
  {
  }

  /** A page without a view of its own. */
  lemma NoView(s: State, p: nat, n: nat, m: nat)
    requires Shaped(s) && p + n < s.Pages() && (s.rmap[p + n] == 0 || s.pte[s.rmap[p + n]] != Some(p + n)) && m == n + 1
    ensures forall v :: 0 <= v < USER_PAGES ==> (ViewIn(s, v, Range(p, m)) <==> ViewIn(s, v, Range(p, n)))
  {
  }

  /** Those of pages [p, p + n) the guest has access to. */
  function Accessible(s: State, p: nat, n: nat): nat -> bool
    requires Shaped(s)
  {
    i => p <= i < p + n && i < |s.na| && !s.na[i]
  }

  /** nc_vm_protect_pages. */
  function Protect(s: State, p: nat, n: nat, ro: bool): (r: State)
    requires Shaped(s) && p + n <= s.Pages()
    ensures Shaped(r) && r.Pages() == s.Pages()
  {
    SetPerms(s, Accessible(s, p, n), if ro then ReadOnly else ReadWrite)
      .(wp := Fill(s.wp, p, p + n, if ro then Clean else Untracked))
  }

  /** The views of pages [p, p + n) as write tracking wants them. */
  function Reopen(s: State, p: nat, n: nat): (r: State)
    requires Shaped(s) && p + n <= s.Pages()
    ensures Shaped(r) && r.Pages() == s.Pages()
  {
    SetPerms(SetPerms(s, i => p <= i < p + n && i < |s.wp| && s.wp[i] == Clean, ReadOnly),
             i => p <= i < p + n && i < |s.wp| && s.wp[i] != Clean, ReadWrite)
  }

  /** nc_vm_noaccess. */
  function SetAccess(s: State, p: nat, n: nat, on: bool): (r: State)
    requires Shaped(s) && p + n <= s.Pages()
    ensures Shaped(r) && r.Pages() == s.Pages()
  {
    if on then SetPerms(s, Range(p, n), Closed).(na := Fill(s.na, p, p + n, true))
    else Reopen(s, p, n).(na := Fill(s.na, p, p + n, false))
  }

  /** Two batches with one protection are one batch. */
  lemma SetPermsTwice(s: State, f: nat -> bool, g: nat -> bool, h: nat -> bool, perm: Perm)
    requires Shaped(s) && forall i: nat :: i < s.Pages() ==> (h(i) <==> f(i) || g(i))
    ensures SetPerms(SetPerms(s, f, perm), g, perm) == SetPerms(s, h, perm)
  {
    var a, b := SetPerms(SetPerms(s, f, perm), g, perm), SetPerms(s, h, perm);
    assert a.contig == b.contig && a.gpu == b.gpu && a.view == b.view;
  }

  /** Only mappings decide which views a batch changes. */
  lemma SetPermsFrame(s: State, t: State, f: nat -> bool, g: nat -> bool, perm: Perm)
    requires Shaped(s) && Shaped(t) && t == s.(wp := t.wp) && forall i: nat :: i < s.Pages() ==> (f(i) <==> g(i))
    ensures SetPerms(t, g, perm) == SetPerms(s, f, perm).(wp := t.wp)
  {
    var a, b := SetPerms(t, g, perm), SetPerms(s, f, perm);
    assert a.contig == b.contig && a.gpu == b.gpu && a.view == b.view;
  }

  lemma SetPermsNaFrame(s: State, t: State, f: nat -> bool, perm: Perm)
    requires Shaped(s) && Shaped(t) && t == s.(na := t.na)
    ensures SetPerms(t, f, perm) == SetPerms(s, f, perm).(na := t.na)
  {
    var a, b := SetPerms(t, f, perm), SetPerms(s, f, perm);
    assert a.contig == b.contig && a.gpu == b.gpu && a.view == b.view;
  }

  lemma SetPermsSame(s: State, f: nat -> bool, g: nat -> bool, perm: Perm)
    requires Shaped(s) && forall i: nat :: i < s.Pages() ==> (f(i) <==> g(i))
    ensures SetPerms(s, f, perm) == SetPerms(s, g, perm)
  {
    var a, b := SetPerms(s, f, perm), SetPerms(s, g, perm);
    assert a.contig == b.contig && a.gpu == b.gpu && a.view == b.view;
  }

  lemma SetPermsNone(s: State, f: nat -> bool, perm: Perm)
    requires Shaped(s) && forall i: nat :: i < s.Pages() ==> !f(i)
    ensures SetPerms(s, f, perm) == s
  {
    var a := SetPerms(s, f, perm);
    assert a.contig == s.contig && a.gpu == s.gpu && a.view == s.view;
  }

  lemma ReopenNone(s: State, p: nat)
    requires Shaped(s) && p <= s.Pages()
    ensures Reopen(s, p, 0) == s
  {
    var a := Reopen(s, p, 0);
    assert a.contig == s.contig && a.gpu == s.gpu && a.view == s.view;
  }

  lemma ReopenMore(s: State, p: nat, n: nat, k: nat, w: Track)
    requires Shaped(s) && p + n + k <= s.Pages() && forall j :: p + n <= j < p + n + k ==> s.wp[j] == w
    ensures SetPerms(Reopen(s, p, n), Range(p + n, k), if w == Clean then ReadOnly else ReadWrite)
            == Reopen(s, p, n + k)
  {
    var a := SetPerms(Reopen(s, p, n), Range(p + n, k), if w == Clean then ReadOnly else ReadWrite);
    var b := Reopen(s, p, n + k);
    assert a.contig == b.contig && a.gpu == b.gpu && a.view == b.view;
  }

  /** protect_runs over pages [p, p + n): those not tracked as `ro` says get it. */
  function Retrack(s: State, p: nat, n: nat, ro: bool): (r: State)
    requires Shaped(s) && p + n <= s.Pages()
    ensures Shaped(r) && r.Pages() == s.Pages()
  {
    SetPerms(s, Stale(s, p, n, ro), if ro then ReadOnly else ReadWrite)
      .(wp := Fill(s.wp, p, p + n, Target(ro)))
  }

  function Target(ro: bool): Track { if ro then Clean else Untracked }

  function Stale(s: State, p: nat, n: nat, ro: bool): nat -> bool
    requires Shaped(s)
  {
    i => p <= i < p + n && i < |s.wp| && i < |s.na| && s.wp[i] != Target(ro) && !s.na[i]
  }

  lemma RetrackNone(s: State, p: nat, ro: bool)
    requires Shaped(s) && p <= s.Pages()
    ensures Retrack(s, p, 0, ro) == s
  {
    var a := Retrack(s, p, 0, ro);
    assert a.contig == s.contig && a.gpu == s.gpu && a.view == s.view && a.wp == s.wp;
  }

  lemma RetrackSkip(s: State, p: nat, n: nat, ro: bool)
    requires Shaped(s) && p + n < s.Pages() && s.wp[p + n] == Target(ro)
    ensures Retrack(s, p, n + 1, ro) == Retrack(s, p, n, ro)
  {
    var a, b := Retrack(s, p, n + 1, ro), Retrack(s, p, n, ro);
    assert a.contig == b.contig && a.gpu == b.gpu && a.view == b.view && a.wp == b.wp;
  }

  lemma RetrackWp(s: State, p: nat, n: nat, ro: bool)
    requires Shaped(s) && p + n <= s.Pages()
    ensures Retrack(s, p, n, ro).wp == Fill(s.wp, p, p + n, Target(ro)) && Retrack(s, p, n, ro).hdirty == s.hdirty
  {
  }

  /** A run's protection added to what was done before it. */
  lemma RetrackFlush(s: State, p: nat, n: nat, run: nat, k: nat, ro: bool)
    requires Shaped(s) && p + n + k <= s.Pages() && forall j :: p + n <= j < p + n + k ==> s.wp[j] != Target(ro)
    requires run + k <= s.Pages() && (k != 0 ==> run == p + n)
    ensures Protect(Retrack(s, p, n, ro), run, k, ro) == Retrack(s, p, n + k, ro)
  {
    var a, b := Protect(Retrack(s, p, n, ro), run, k, ro), Retrack(s, p, n + k, ro);
    assert a.contig == b.contig && a.gpu == b.gpu && a.view == b.view && a.wp == b.wp;
  }
}
