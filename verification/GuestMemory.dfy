/** Guest memory in place: the arrays of `NcVm` and the loops of native/core/vm.c over them. */
module GuestMemory {
  import opened Wrappers
  import opened GuestState
  import opened Protection
  import opened Relocation
  import opened Tracking
  import opened Windows
  import opened Placement
  import opened Backing

  method FillArray<T>(a: array<T>, lo: nat, n: nat, x: T)
    requires lo + n <= a.Length
    modifies a
    ensures a[..] == Fill(old(a[..]), lo, lo + n, x)
  {
    for i := 0 to n
      invariant forall k :: 0 <= k < a.Length ==> a[k] == if lo <= k < lo + i then x else old(a[k])
    {
      a[lo + i] := x;
    }
  }

  class Memory {
    const used: array<bool>
    const pin: array<nat>
    const na: array<bool>
    const wp: array<Track>
    const hdirty: array<bool>
    const rmap: array<nat>
    const ram: array<Page>
    const contig: array<Perm>
    const gpu: array<Perm>
    const pte: array<Option<nat>>
    const view: array<Perm>

    ghost function S(): State
      reads used, pin, na, wp, hdirty, rmap, ram, contig, gpu, pte, view
    {
      State(used[..], pin[..], na[..], wp[..], hdirty[..], rmap[..], ram[..], contig[..], gpu[..], pte[..], view[..])
    }

    ghost predicate Valid()
      reads used, pin, na, wp, hdirty, rmap, ram, contig, gpu, pte, view
    {
      && used != na && used != hdirty && na != hdirty && pin != rmap && contig != gpu && contig != view && gpu != view
      && Shaped(S())
    }

    /** nc_vm_init, then nc_hle_dirty_init. */
    constructor (pages: nat)
      ensures Valid() && S() == Boot(pages).s
    {
      used := new bool[pages](i => i < CLAIMED_AT_BOOT <= pages);
      pin := new nat[pages](_ => 0);
      na := new bool[pages](_ => false);
      wp := new Track[pages](_ => Untracked);
      hdirty := new bool[pages](_ => false);
      rmap := new nat[pages](_ => 0);
      ram := new Page[pages](_ => ZeroPage());
      contig := new Perm[pages](_ => ReadWrite);
      gpu := new Perm[pages](_ => ReadWrite);
      pte := new Option<nat>[USER_PAGES](_ => None);
      view := new Perm[USER_PAGES](_ => Closed);
      new;
      ghost var b := Boot(pages).s;
      assert used[..] == b.used && pin[..] == b.pin && na[..] == b.na;
      assert wp[..] == b.wp && hdirty[..] == b.hdirty && rmap[..] == b.rmap;
      assert ram[..] == b.ram && contig[..] == b.contig && gpu[..] == b.gpu;
      assert pte[..] == b.pte;
      assert view[..] == b.view;
    }

    method MapOne(v: nat, p: nat)
      requires Valid() && p < used.Length && v < USER_PAGES
      modifies pte, rmap, view
      ensures Valid() && S() == MapPage(old(S()), v, p)
    {
      pte[v] := Some(p);
      rmap[p] := v;
      if na[p] {
        view[v] := Closed;
      } else if wp[p] == Clean {
        view[v] := ReadOnly;
      } else {
        view[v] := ReadWrite;
      }
    }

    method MapPages(v: nat, p: nat, n: nat)
      requires Valid() && p + n <= used.Length && v + n <= USER_PAGES
      modifies pte, rmap, view
      ensures Valid() && S() == MapRange(old(S()), v, p, n)
    {
      for i := 0 to n
        invariant Valid() && S() == MapRange(old(S()), v, p, i)
      {
        MapOne(v + i, p + i);
      }
    }

    // ---- Protection ----

    /** mprotect of one run of user mappings, those of the `done` pages from p before it done. */
    method ProtRun(p: nat, ghost done: nat, va: nat, run: nat, perm: Perm, ghost s0: State, ghost was: seq<Perm>)
      requires Valid() && Shaped(s0) && p + done + run <= s0.Pages() && |was| == view.Length
      requires run != 0 && RunMapped(s0, p, done, va, run) && ViewsSet(s0, was, view[..], p, done, perm)
      modifies view
      ensures ViewsSet(s0, was, view[..], p, done + run, perm)
    {
      hide ViewIn, Range;
      RunViews(s0, p, done, done + run, va);
      FillArray(view, va, run, perm);
    }

    /** The user mappings of pages [p, p + n), as runs of consecutive VAs. */
    method ProtUserViews(p: nat, n: nat, perm: Perm)
      requires Valid() && p + n <= used.Length
      modifies view
      ensures ViewsSet(old(S()), old(view[..]), view[..], p, n, perm)
    {
      hide ViewIn, Range, ViewsSet, RunMapped;
      ghost var s0 := old(S());
      NothingSet(s0, p, perm);
      var runVa, runN := 0, 0;
      ghost var done := 0;   // the first `done` pages have their user views; the next runN are the run
      for i := 0 to n + 1
        invariant done + runN == (if i <= n then i else n) && (i == n + 1 ==> runN == 0)
        invariant RunMapped(s0, p, done, runVa, runN)
        invariant ViewsSet(s0, old(view[..]), view[..], p, done, perm)
      {
        var va := 0;
        if i < n {
          va := rmap[p + i];
          if pte[va] != Some(p + i) {
            va := 0;
          }
        }
        if runN != 0 && va == runVa + runN {
          RunGrows(s0, p, done, runVa, runN);
          runN := runN + 1;
          continue;
        }
        if runN != 0 {
          ProtRun(p, done, runVa, runN, perm, s0, old(view[..]));
          done := done + runN;
        }
        if i < n && va == 0 {
          SkipView(s0, old(view[..]), view[..], p, done, perm);
          done := done + 1;
        }
        runVa := va;
        runN := if va != 0 then 1 else 0;
        RunFrom(s0, p, done, runVa, runN);
      }
    }

    /** prot_views: both windows at once, then the user mappings. */
    method ProtViews(p: nat, n: nat, perm: Perm)
      requires Valid() && p + n <= used.Length
      modifies contig, gpu, view
      ensures Valid() && S() == SetPerms(old(S()), Range(p, n), perm)
    {
      FillArray(contig, p, n, perm);
      FillArray(gpu, p, n, perm);
      ProtUserViews(p, n, perm);
      assert contig[..] == SetPerms(old(S()), Range(p, n), perm).contig;
      assert gpu[..] == SetPerms(old(S()), Range(p, n), perm).gpu;
      assert view[..] == SetPerms(old(S()), Range(p, n), perm).view;
    }

    /** How many pages from p on, n at most, have guest access like the first. */
    method AccessibleRun(p: nat, n: nat) returns (k: nat)
      requires p + n <= na.Length && n > 0 && !na[p]
      ensures 0 < k <= n && forall j :: p <= j < p + k ==> !na[j]
    {
      k := 1;
      while k < n && !na[p + k]
        invariant k <= n && forall j :: p <= j < p + k ==> !na[j]
      {
        k := k + 1;
      }
    }

    /** The protection of pages [p, p + n) with guest access, a run at a time. */
    method ProtectAccessible(p: nat, n: nat, perm: Perm)
      requires Valid() && p + n <= used.Length
      modifies contig, gpu, view
      ensures Valid() && S() == SetPerms(old(S()), Accessible(old(S()), p, n), perm)
    {
      hide SetPerms;
      ghost var s0 := S();
      SetPermsNone(s0, Accessible(s0, p, 0), perm);
      var i := 0;
      while i < n
        invariant i <= n
        invariant Valid() && S() == SetPerms(s0, Accessible(s0, p, i), perm)
      {
        if na[p + i] {
          SetPermsSame(s0, Accessible(s0, p, i), Accessible(s0, p, i + 1), perm);
          i := i + 1;
        } else {
          var k := AccessibleRun(p + i, n - i);
          assert forall j :: p + i <= j < p + i + k ==> !s0.na[j];
          ProtViews(p + i, k, perm);
          SetPermsTwice(s0, Accessible(s0, p, i), Range(p + i, k), Accessible(s0, p, i + k), perm);
          i := i + k;
        }
      }
    }

    /** nc_vm_protect_pages: the no-access bits are raised ahead of the views' protection, lowered behind it
        writable again. */
    method ProtectPages(p: nat, n: nat, ro: bool)
      requires Valid() && p + n <= used.Length
      modifies contig, gpu, view, wp
      ensures Valid() && S() == Protect(old(S()), p, n, ro)
    {
      ghost var s0 := S();
      if ro {
        FillArray(wp, p, n, Clean);
        ghost var s1 := S();
        assert s1 == s0.(wp := Fill(s0.wp, p, p + n, Clean));
        ProtectAccessible(p, n, ReadOnly);
        SetPermsFrame(s0, s1, Accessible(s0, p, n), Accessible(s1, p, n), ReadOnly);
      } else {
        ProtectAccessible(p, n, ReadWrite);
        ghost var s1 := S();
        FillArray(wp, p, n, Untracked);
        assert S() == s1.(wp := Fill(s1.wp, p, p + n, Untracked));
      }
    }

    /** How many pages from p on, n at most, are tracked like the first. */
    method TrackedRun(p: nat, n: nat) returns (k: nat)
      requires p + n <= wp.Length && n > 0
      ensures 0 < k <= n && forall j :: p <= j < p + k ==> wp[j] == wp[p]
    {
      k := 1;
      while k < n && wp[p + k] == wp[p]
        invariant k <= n && forall j :: p <= j < p + k ==> wp[j] == wp[p]
      {
        k := k + 1;
      }
    }

    method ReopenPages(p: nat, n: nat)
      requires Valid() && p + n <= used.Length
      modifies contig, gpu, view
      ensures Valid() && S() == Reopen(old(S()), p, n)
    {
      hide SetPerms, Reopen;
      ghost var s0 := S();
      ReopenNone(s0, p);
      var i := 0;
      while i < n
        invariant i <= n
        invariant Valid() && S() == Reopen(s0, p, i)
      {
        var k := TrackedRun(p + i, n - i);
        var w := wp[p + i];
        assert forall j :: p + i <= j < p + i + k ==> s0.wp[j] == w;
        ProtViews(p + i, k, if w == Clean then ReadOnly else ReadWrite);
        ReopenMore(s0, p, i, k, w);
        i := i + k;
      }
    }

    /** nc_vm_noaccess: every page closed, or each given its tracked protection, equal neighbours together. */
    method NoAccess(p: nat, n: nat, on: bool)
      requires Valid() && p + n <= used.Length
      modifies contig, gpu, view, na
      ensures Valid() && S() == SetAccess(old(S()), p, n, on)
    {
      ghost var s0 := S();
      if on {
        FillArray(na, p, n, true);
        ghost var s1 := S();
        assert s1 == s0.(na := Fill(s0.na, p, p + n, true));
        ProtViews(p, n, Closed);
        SetPermsNaFrame(s0, s1, Range(p, n), Closed);
      } else {
        ReopenPages(p, n);
        ghost var s1 := S();
        FillArray(na, p, n, false);
        assert S() == s1.(na := Fill(s1.na, p, p + n, false));
      }
    }

    // ---- Write tracking ----

    /** The pending run of protect_runs, protected: what was done before it now reaches its end. */
    method FlushRun(runP: nat, runN: nat, ro: bool, ghost s0: State, ghost lo: nat, ghost n: nat)
      requires Valid() && Shaped(s0) && lo + n + runN <= s0.Pages() && S() == Retrack(s0, lo, n, ro)
      requires runP + runN <= used.Length && (runN != 0 ==> runP == lo + n)
      requires forall p :: lo + n <= p < lo + n + runN ==> s0.wp[p] != Target(ro)
      modifies contig, gpu, view, wp
      ensures Valid() && S() == Retrack(s0, lo, n + runN, ro)
      ensures forall p :: lo + n + runN <= p < used.Length ==> wp[p] == s0.wp[p]
    {
      ProtectPages(runP, runN, ro);
      RetrackFlush(s0, lo, n, runP, runN, ro);
      RetrackWp(s0, lo, n + runN, ro);
      assert wp[..] == S().wp;
    }

    /** protect_runs over pages [lo, lo + n), stretch by stretch; true if there were any. */
    method ProtectRuns(lo: nat, n: nat, ro: bool) returns (any: bool)
      requires Valid() && lo + n <= used.Length
      modifies contig, gpu, view, wp
      ensures Valid() && S() == Retrack(old(S()), lo, n, ro)
      ensures any <==> exists p :: lo <= p < lo + n && old(S()).wp[p] != Target(ro)
    {
      hide Retrack, Protect;
      ghost var s0 := S();
      any := false;
      var runP: nat, runN: nat := lo, 0;
      RetrackNone(s0, lo, ro);
      for i := 0 to n
        invariant runN <= i && runP + runN <= lo + i && (runN != 0 ==> runP == lo + i - runN)
        invariant Valid() && S() == Retrack(s0, lo, i - runN, ro)
        invariant forall p :: lo + i - runN <= p < used.Length ==> wp[p] == s0.wp[p]
        invariant forall p :: lo + i - runN <= p < lo + i ==> s0.wp[p] != Target(ro)
        invariant any <==> exists p :: lo <= p < lo + i && s0.wp[p] != Target(ro)
      {
        if wp[lo + i] == Target(ro) {
          FlushRun(runP, runN, ro, s0, lo, i - runN);
          RetrackSkip(s0, lo, i, ro);
          runN := 0;
        } else {
          any := true;
          runP := if runN == 0 then lo + i else runP;
          runN := runN + 1;
        }
      }
      FlushRun(runP, runN, ro, s0, lo, n - runN);
    }

    /** hdirty_take: whether any of the pages was written before a re-arm; forgotten from here on. */
    method HdirtyTake(p: nat, n: nat) returns (any: bool)
      requires Valid() && p + n <= used.Length
      modifies hdirty
      ensures Valid() && S() == old(S()).(hdirty := Fill(old(hdirty[..]), p, p + n, false))
      ensures any <==> exists i :: p <= i < p + n && old(hdirty[i])
    {
      any := false;
      for i := 0 to n
        invariant forall k :: 0 <= k < hdirty.Length ==> hdirty[k] == if p <= k < p + i then false else old(hdirty[k])
        invariant any <==> exists k :: p <= k < p + i && old(hdirty[k])
      {
        if hdirty[p + i] {
          any := true;
          hdirty[p + i] := false;
        }
      }
      assert hdirty[..] == Fill(old(hdirty[..]), p, p + n, false);
    }

    /** hle_host_mem_test_and_clear. */
    method TestAndClear(p: nat, n: nat) returns (any: bool)
      requires Valid() && p + n <= used.Length
      modifies hdirty, contig, gpu, view, wp
      ensures Valid() && S() == Tracking.TestAndClear(old(S()), p, n)
      ensures any <==> AnyDirty(old(S()), p, n)
    {
      hide Retrack;
      ghost var s0 := S();
      var sticky := HdirtyTake(p, n);
      var stale := ProtectRuns(p, n, true);
      any := stale || sticky;
      assert forall i :: p <= i < p + n ==> (Dirty(s0, i) <==> s0.wp[i] != Clean || s0.hdirty[i]);
    }

    /** Flags the pages of [p, p + n) tracked as `clean` says. */
    method MarkHdirty(p: nat, n: nat, clean: bool)
      requires Valid() && p + n <= used.Length
      modifies hdirty
      ensures Valid() && S() == old(S()).(hdirty := MarkWhere(old(S()), p, n, w => (w == Clean) == clean))
    {
      for i := 0 to n
        invariant forall k :: 0 <= k < hdirty.Length ==>
          hdirty[k] == (old(hdirty[k]) || (p <= k < p + i && (wp[k] == Clean) == clean))
      {
        if (wp[p + i] == Clean) == clean {
          hdirty[p + i] := true;
        }
      }
      assert hdirty[..] == MarkWhere(old(S()), p, n, w => (w == Clean) == clean);
    }

    /** hle_host_mem_rearm. */
    method Rearm(p: nat, n: nat)
      requires Valid() && p + n <= used.Length
      modifies hdirty, contig, gpu, view, wp
      ensures Valid() && S() == Tracking.Rearm(old(S()), p, n)
    {
      hide Retrack;
      ghost var s0 := S();
      MarkHdirty(p, n, false);
      assert MarkWhere(s0, p, n, w => (w == Clean) == false) == MarkWhere(s0, p, n, w => w != Clean);
      var _ := ProtectRuns(p, n, true);
    }

    /** hle_host_mem_landed. */
    method Landed(p: nat, n: nat)
      requires Valid() && p + n <= used.Length
      modifies hdirty
      ensures Valid() && S() == Tracking.Landed(old(S()), p, n)
    {
      ghost var s0 := S();
      MarkHdirty(p, n, true);
      assert MarkWhere(s0, p, n, w => (w == Clean) == true) == MarkWhere(s0, p, n, w => w == Clean);
    }

    /** hle_host_mem_set_dirty. */
    method SetDirty(p: nat, n: nat)
      requires Valid() && p + n <= used.Length
      modifies contig, gpu, view, wp
      ensures Valid() && S() == Retrack(old(S()), p, n, false)
    {
      var _ := ProtectRuns(p, n, false);
    }

    /** hle_va_store of one page. */
    method VaStore(p: nat)
      requires Valid() && p < used.Length
      modifies contig, gpu, view, wp, na
      ensures Valid() && S() == HostOpen(old(S()), p)
    {
      if na[p] {
        NoAccess(p, 1, false);
      }
      SetDirty(p, 1);
    }

    /** open_view. */
    method Open(w: View)
      requires Valid() && IsView(S(), w)
      modifies contig, gpu, view, wp
      ensures Valid() && S() == OpenView(old(S()), w)
    {
      ghost var p0 := PageOf(S(), w);
      match w {
        case Contig(p) => contig[p] := ReadWrite; wp[p] := Written;
        case Gpu(p) => gpu[p] := ReadWrite; wp[p] := Written;
        case User(v) => view[v] := ReadWrite; wp[pte[v].value] := Written;
      }
    }

    method PageBehind(w: View) returns (p: nat, perm: Perm)
      requires Valid() && IsView(S(), w)
      ensures p == PageOf(S(), w) && perm == PermOf(S(), w) && p < used.Length
    {
      match w {
        case Contig(q) => p, perm := q, contig[q];
        case Gpu(q) => p, perm := q, gpu[q];
        case User(v) => p, perm := pte[v].value, view[v];
      }
    }

    /** nc_hle_dirty_fault: false where tracking does not hold the page protected. */
    method HandleFault(w: View) returns (handled: bool)
      requires Valid() && IsView(S(), w)
      modifies contig, gpu, view, wp, na
      ensures Valid() && handled == Fault(old(S()), w).Some?
      ensures S() == if handled then Fault(old(S()), w).value else old(S())
    {
      var p, _ := PageBehind(w);
      if na[p] {
        NoAccess(p, 1, false);
        return true;
      }
      if wp[p] == Untracked {
        return false;
      }
      Open(w);
      return true;
    }

    /** A guest store, run again after each fault; tracking never loses it. */
    method GuestStore(w: View, bytes: Page)
      requires Valid() && Tracked(S()) && IsView(S(), w)
      modifies contig, gpu, view, wp, na, ram
      ensures Valid() && Store(old(S()), w, bytes) == Some(S())
    {
      hide Store, Fault, TrackInv, MapInv, SetAccess;
      ghost var s0 := S();
      StoreGoesThrough(s0, w, bytes);
      var p, perm := PageBehind(w);
      while perm != ReadWrite
        invariant Valid() && Tracked(S()) && IsView(S(), w) && p == PageOf(S(), w) && perm == PermOf(S(), w)
        invariant ram[..] == s0.ram && Store(S(), w, bytes) == Store(s0, w, bytes)
        decreases (if S().na[p] then 2 else 0) + (if perm != ReadWrite then 1 else 0)
      {
        StoreUnfold(S(), w, bytes);
        var handled := HandleFault(w);
        p, perm := PageBehind(w);
      }
      StoreUnfold(S(), w, bytes);
      ram[p] := bytes;
    }

    // ---- Allocation ----

    /** How many pages from p on are free, n at most. */
    method FreeRun(p: nat, n: nat) returns (run: nat)
      requires Valid() && p + n <= used.Length
      ensures run <= n && AllFree(used[..], p, p + run) && (run < n ==> used[p + run])
    {
      run := 0;
      while run < n && !used[p + run]
        invariant run <= n && AllFree(used[..], p, p + run)
      {
        run := run + 1;
      }
    }

    /** memset of page_used over a free window. */
    method Claim(p: nat, n: nat)
      requires Valid() && p + n <= used.Length
      modifies used
      ensures Valid() && S() == old(S()).(used := Fill(old(S()).used, p, p + n, true))
    {
      FillArray(used, p, n, true);
    }

    /** The search of nc_vm_alloc_phys_ex: past a used page the next window tried is the first that does
        not hold it.  What it finds is what trying every aligned window finds. */
    method FindFree(q: Request, topDown: bool) returns (r: Option<nat>)
      requires Valid() && q.step > 0 && q.last <= used.Length && q.first % q.step == 0
      ensures match r
        case None => forall w: nat :: IsWindow(q, w) ==> !AllFree(S().used, w, w + q.pages)
        case Some(p) =>
          && IsWindow(q, p) && AllFree(S().used, p, p + q.pages)
          && (forall w: nat :: IsWindow(q, w) && AllFree(S().used, w, w + q.pages) ==> if topDown then w <= p else p <= w)
    {
      if q.last < q.pages || q.first > q.last - q.pages {
        return None;
      }
      var top := (q.last - q.pages) / q.step * q.step;
      FloorMultiple(q.last - q.pages, q.step);
      var p := if topDown then top else q.first;
      while true
        invariant p % q.step == 0 && (if topDown then p <= top else q.first <= p)
        invariant forall w: nat :: IsWindow(q, w) && (if topDown then w > p else w < p) ==> !AllFree(used[..], w, w + q.pages)
        decreases if topDown then p else top - p
      {
        if p < q.first || p > top {
          return None;
        }
        var run := FreeRun(p, q.pages);
        if run == q.pages {
          return Some(p);
        }
        var u := p + run;
        if topDown {
          if u < q.pages {
            return None;
          }
          FloorMultiple(u - q.pages, q.step);
          p := (u - q.pages) / q.step * q.step;
        } else {
          NextMultiple(u, q.step);
          p := (u + 1 + q.step - 1) / q.step * q.step;
        }
      }
    }

    /** nc_vm_alloc_phys_ex: the lowest or the highest wholly free window, marked used. */
    method AllocPhysEx(len: nat, lo: nat, hi: nat, align: nat, topDown: bool) returns (r: Option<nat>)
      requires Valid()
      modifies used
      ensures Valid()
      ensures var q := RequestOf(len, lo, hi, align, |old(S()).used|);
        match r
        case None => S() == old(S()) && forall w: nat :: IsWindow(q, w) ==> !AllFree(old(S()).used, w, w + q.pages)
        case Some(p) =>
          && IsWindow(q, p) && AllFree(old(S()).used, p, p + q.pages)
          && (forall w: nat :: IsWindow(q, w) && AllFree(old(S()).used, w, w + q.pages) ==> if topDown then w <= p else p <= w)
          && S() == old(S()).(used := Fill(old(S()).used, p, p + q.pages, true))
    {
      hide RequestOf;
      var q := RequestOf(len, lo, hi, align, used.Length);
      r := FindFree(q, topDown);
      if r.Some? {
        Claim(r.value, q.pages);
      }
    }

    method CanMove(p: nat) returns (r: bool)
      requires Valid() && p < used.Length
      ensures r == Movable(S(), p)
    {
      var v := rmap[p];
      r := v != 0 && pin[p] == 0 && !na[p] && pte[v] == Some(p);
    }

    /** page_used[p], and p recorded as looked at. */
    method Look(p: nat, ghost seen: seq<nat>) returns (u: bool, ghost now: seq<nat>)
      requires Valid() && p < used.Length
      ensures u == used[p] && now == seen + [p]
    {
      u, now := used[p], seen + [p];
    }

    /** The window from its top down to the highest page that can't move: that page is at p + i - 1. */
    method ScanDown(p: nat, n: nat, ghost seen: seq<nat>) returns (i: nat, need: nat, ghost now: seq<nat>)
      requires Valid() && p + n <= used.Length && Downward(seen, p + n)
      ensures i <= n && need == (n - i) - CountFree(S().used, p + i, p + n)
      ensures forall k :: p + i <= k < p + n && used[k] ==> Movable(S(), k)
      ensures i == 0 ==> CanClear(S(), p, n) && need == NeedOf(S(), p, n)
      ensures i > 0 ==> used[p + i - 1] && !Movable(S(), p + i - 1)
      ensures LookedOn(seen, now, if i > 0 then p + i - 1 else p, p + n)
    {
      hide Downward, LookedOn, CountFree;
      CountNothing(used[..], p + n);
      i, need, now := n, 0, seen;
      LookedNone(seen, p + n);
      while i > 0
        invariant i <= n && need == (n - i) - CountFree(used[..], p + i, p + n)
        invariant forall k :: p + i <= k < p + n && used[k] ==> Movable(S(), k)
        invariant LookedOn(seen, now, p + i, p + n)
      {
        CountFirst(used[..], p + i - 1, p + n);
        var u;
        LookedMore(seen, now, p + i, p + n);
        u, now := Look(p + i - 1, now);
        if u {
          var ok := CanMove(p + i - 1);
          if !ok {
            break;
          }
          need := need + 1;
        }
        i := i - 1;
      }
    }

    /** The search of nc_vm_alloc_phys_top: the highest window with no page in the way.  The
        pages looked at go down, so no page is looked at twice. */
    method HighestClearable(q: Request) returns (r: Option<nat>, need: nat, ghost looked: seq<nat>)
      requires Valid() && q.step > 0 && q.last <= used.Length && q.first % q.step == 0
      ensures match r
        case None => forall w: nat :: IsWindow(q, w) ==> !CanClear(S(), w, q.pages)
        case Some(p) =>
          && IsWindow(q, p) && CanClear(S(), p, q.pages) && need == NeedOf(S(), p, q.pages)
          && (forall w: nat :: IsWindow(q, w) && CanClear(S(), w, q.pages) ==> w <= p)
      ensures forall i, j :: 0 <= i < j < |looked| ==> looked[i] > looked[j]
      ensures forall i :: 0 <= i < |looked| ==> q.first <= looked[i] < q.last
    {
      hide CanClear, NeedOf, CountFree, Movable;
      need, looked := 0, [];
      if q.last < q.pages || q.first > q.last - q.pages {
        return None, need, looked;
      }
      FloorMultiple(q.last - q.pages, q.step);
      var p: nat := (q.last - q.pages) / q.step * q.step;
      while true
        invariant p % q.step == 0 && p + q.pages <= q.last
        invariant Downward(looked, p + q.pages) && forall i :: 0 <= i < |looked| ==> q.first <= looked[i] < q.last
        invariant forall w: nat :: IsWindow(q, w) && w > p ==> !CanClear(S(), w, q.pages)
        decreases p
      {
        if p < q.first {
          return None, need, looked;
        }
        var i;
        i, need, looked := ScanDown(p, q.pages, looked);
        if i == 0 {
          return Some(p), need, looked;
        }
        var u := p + i - 1;
        Blocked(S(), q, p, u);
        if u < q.first + q.pages {
          return None, need, looked;
        }
        FloorMultiple(u - q.pages, q.step);
        p := (u - q.pages) / q.step * q.step;
      }
    }

    /** relocate: the copy goes through the contiguous window, where a tracked page faults. */
    method RelocatePage(q: nat, to: nat)
      requires Valid() && Tracked(S()) && q < used.Length && to < used.Length
      requires used[q] && Movable(S(), q) && TakesMove(S(), to)
      modifies used, rmap, ram, pte, view, wp, contig, gpu, na
      ensures Valid() && S() == Relocate(old(S()), q, to)
    {
      ghost var s0 := S();
      var tracked := wp[q] != Untracked || wp[to] != Untracked;
      var v := rmap[q];
      GuestStore(Contig(to), ram[q]);
      SetUsed(to);
      MapOne(v, to);
      Vacate(q);
      if tracked {
        SetDirty(q, 1);
        SetDirty(to, 1);
      }
      CopyThroughWindow(s0, q, to);
    }

    method Vacate(q: nat)
      requires Valid() && q < used.Length
      modifies rmap, used
      ensures Valid() && S() == old(S()).(rmap := old(S()).rmap[q := 0], used := old(S()).used[q := false])
    {
      rmap[q] := 0;
      used[q] := false;
    }

    method SetUsed(p: nat)
      requires Valid() && p < used.Length
      modifies used
      ensures Valid() && S() == old(S()).(used := old(S()).used[p := true])
    {
      used[p] := true;
    }

    /** The next free page outside the window, from the cursor down; then in the top reserve. */
    method NextHome(c0: Cursor, below: nat, w: nat, k: nat) returns (found: bool, c: Cursor)
      requires Valid() && CursorOk(c0, below, used.Length)
      ensures CursorOk(c, below, used.Length)
      ensures found ==> c.to < used.Length && TakesMove(S(), c.to) && !(w <= c.to < w + k) && (c.reserve || c.to < below)
      ensures NoClosedPages(S()) ==>
                Ahead(S().used, w, k, below, c0) == Ahead(S().used, w, k, below, c) + (if found then 1 else 0)
      ensures !found && NoClosedPages(S()) ==> Ahead(S().used, w, k, below, c0) == 0
    {
      c := c0;
      while true
        invariant CursorOk(c, below, used.Length)
        invariant NoClosedPages(S()) ==> Ahead(used[..], w, k, below, c0) == Ahead(used[..], w, k, below, c)
        decreases !c.reserve, c.to
      {
        if c.to == (if c.reserve then below else 0) {
          if c.reserve {
            return false, c;
          }
          c := Cursor(used.Length, true);
          continue;
        }
        c := c.(to := c.to - 1);
        if !used[c.to] && !na[c.to] && !(w <= c.to < w + k) {
          return true, c;
        }
      }
    }

    /** Page q of the window to the home the cursor found. */
    method MoveOut(w: nat, k: nat, q: nat, c: Cursor, below: nat, ghost s0: State)
      requires Valid() && Clearing(s0, S(), w, k, q) && q < w + k && used[q]
      requires CursorOk(c, below, used.Length) && c.to < used.Length && TakesMove(S(), c.to) && !(w <= c.to < w + k)
      requires c.reserve || c.to < below
      modifies used, rmap, ram, pte, view, wp, contig, gpu, na
      ensures Valid() && Clearing(s0, S(), w, k, q + 1)
      ensures Ahead(S().used, w, k, below, c) == Ahead(old(S()).used, w, k, below, c)
      ensures CountFree(S().used, q + 1, w + k) == CountFree(old(S()).used, q + 1, w + k)
    {
      hide Relocate, SameMeaning, Ahead, CountFree;
      ghost var s := S();
      ClearingMeans(s0, s, w, k, q);
      hide Clearing, Tracked;
      ClearOne(s0, s, w, k, q, c.to);
      AheadAfterMove(s.used, w, k, below, c, q);
      RelocatePage(q, c.to);
      CountFreeSame(s.used, S().used, q + 1, w + k);
    }

    /** The moves of nc_vm_alloc_phys_top: what the window holds goes to the highest free pages left of the
        others, the top reserve's last of all. */
    method ClearFromTop(w: nat, k: nat, need: nat) returns (ok: bool, moved: nat)
      requires Valid() && Tracked(S()) && w + k <= used.Length
      requires CanClear(S(), w, k) && need == NeedOf(S(), w, k)
      modifies used, rmap, ram, pte, view, wp, contig, gpu, na
      ensures Valid() && Tracked(S()) && SameMeaning(old(S()), S())
      ensures ok ==> AllFree(S().used, w, w + k) && moved == need
      ensures NoClosedPages(old(S())) && FreeOutside(old(S()).used, w, k, 0, used.Length) >= need ==> ok
    {
      hide Clearing, SameMeaning, Tracked, CanClear, Ahead, CountFree, FreeOutside;
      ghost var s0 := S();
      var below := if TOP_RESERVE < used.Length then used.Length - TOP_RESERVE else used.Length;
      var c := Cursor(below, false);
      moved := 0;
      ClearingStart(s0, w, k, below);
      var q := w;
      while need != 0 && q < w + k
        invariant Valid() && w <= q <= w + k && CursorOk(c, below, used.Length) && (need == 0 ==> q == w)
        invariant Clearing(s0, S(), w, k, q)
        invariant moved + (w + k - q) - CountFree(S().used, q, w + k) == need
        invariant NoClosedPages(s0) && FreeOutside(s0.used, w, k, 0, used.Length) >= need ==>
                    Ahead(S().used, w, k, below, c) >= (w + k - q) - CountFree(S().used, q, w + k)
      {
        ClearingMeans(s0, S(), w, k, q);
        CountFirst(S().used, q, w + k);
        if used[q] {
          var found;
          found, c := NextHome(c, below, w, k);
          if !found {
            return false, moved;
          }
          MoveOut(w, k, q, c, below, s0);
          moved := moved + 1;
        } else {
          ClearingSkip(s0, S(), w, k, q);
        }
        q := q + 1;
      }
      ClearingDone(s0, S(), w, k, q, need);
      return true, moved;
    }

    method FreePages() returns (n: nat)
      requires Valid()
      ensures n == CountFree(S().used, 0, used.Length)
    {
      n := 0;
      for p := 0 to used.Length
        invariant n == CountFree(used[..], 0, p)
      {
        if !used[p] {
          n := n + 1;
        }
      }
    }

    /** nc_vm_alloc_phys_top: the highest window with no page in the way, cleared and taken.
        Without closed pages it fails exactly when there is no such window or the highest needs more
        moves than there are free pages outside it, and then moves nothing. */
    method AllocPhysTop(len: nat, lo: nat, hi: nat, align: nat) returns (r: Option<nat>, moved: nat)
      requires Valid() && Tracked(S())
      modifies used, rmap, ram, pte, view, wp, contig, gpu, na
      ensures Valid()
      ensures var q := RequestOf(len, lo, hi, align, |old(S()).used|);
        match r
        case None =>
          && SameMeaning(old(S()), S()) && Tracked(S())
          && (NoClosedPages(old(S())) ==>
                S() == old(S()) && forall w: nat :: Highest(old(S()), q, w) ==> !RoomFor(old(S()), w, q.pages))
        case Some(w) =>
          && Highest(old(S()), q, w) && RoomFor(old(S()), w, q.pages) && moved == NeedOf(old(S()), w, q.pages)
          && Placed(old(S()), S(), w, q.pages) && Tracked(S())
    {
      hide RequestOf, SameMeaning, Tracked, CanClear, IsWindow;
      ghost var s0 := S();
      moved := 0;
      SameMeaningReflexive(s0) by { TrackedOk(s0); }
      var q := RequestOf(len, lo, hi, align, used.Length);
      var found, need, _ := HighestClearable(q);
      if found.None? {
        return None, moved;
      }
      var w := found.value;
      var free := FreePages();
      HighestRoom(s0, q, w);
      if need != 0 && free - (q.pages - need) < need {
        return None, moved;
      }
      var ok;
      ok, moved := ClearFromTop(w, q.pages, need);
      if !ok {
        return None, moved;
      }
      ghost var mid := S();
      Claim(w, q.pages);
      PlacedFrom(s0, mid, S(), w, q.pages);
      return Some(w), moved;
    }

    /** The used pages of a window, as long as they can all move. */
    method CountMovable(w: nat, k: nat) returns (ok: bool, need: nat)
      requires Valid() && w + k <= used.Length
      ensures ok <==> CanClear(S(), w, k)
      ensures ok ==> need == NeedOf(S(), w, k)
    {
      ok, need := true, 0;
      var i := 0;
      while i < k && ok
        invariant i <= k
        invariant ok ==> CanClear(S(), w, i) && need == NeedOf(S(), w, i)
        invariant !ok ==> !CanClear(S(), w, k)
      {
        CountFreeSplit(used[..], w, w + i, w + i + 1);
        if used[w + i] {
          ok := CanMove(w + i);
          need := need + 1;
        }
        i := i + 1;
      }
    }

    /** The window of nc_vm_alloc_phys_compact: of those that can be cleared and have room for what
        moves out, the one with the fewest used pages, the last such. */
    method FewestMoves(q: Request) returns (best: Option<nat>)
      requires Valid() && q.step > 0 && q.last <= used.Length && q.first % q.step == 0
      ensures best.None? ==> forall w: nat :: IsWindow(q, w) ==> !Clearable(S(), w, q.pages)
      ensures best.Some? ==> FewestIn(S(), q, best.value, q.first)
    {
      best := None;
      if q.last < q.pages || q.first > q.last - q.pages {
        return;
      }
      var free := FreePages();
      FloorMultiple(q.last - q.pages, q.step);
      var w: int := (q.last - q.pages) / q.step * q.step;
      var least := 0;
      while w >= q.first
        invariant w % q.step == 0 && w + q.pages <= q.last
        invariant forall x: nat :: IsWindow(q, x) && Clearable(S(), x, q.pages) && x > w ==> best.Some?
        invariant best.Some? ==> best.value > w && FewestIn(S(), q, best.value, w + 1) && least == NeedOf(S(), best.value, q.pages)
        decreases w
      {
        var ok, need := CountMovable(w, q.pages);
        if ok { RoomIs(S(), w, q.pages); }
        if ok && free - (q.pages - need) >= need && (best.None? || need < least) {
          best, least := Some(w), need;
        }
        StepDown(w, q.step);
        w := w - q.step;
      }
    }

    method NextHomeUp(to0: nat, w: nat, k: nat) returns (to: nat)
      requires Valid() && to0 <= used.Length
      ensures to0 <= to <= used.Length
      ensures to < used.Length ==> TakesMove(S(), to) && !(w <= to < w + k)
      ensures NoClosedPages(S()) ==>
                FreeOutside(S().used, w, k, to0, used.Length) == FreeOutside(S().used, w, k, to, used.Length)
    {
      to := to0;
      while to < used.Length && (used[to] || na[to] || w <= to < w + k)
        invariant to0 <= to <= used.Length
        invariant NoClosedPages(S()) ==>
                    FreeOutside(used[..], w, k, to0, used.Length) == FreeOutside(used[..], w, k, to, used.Length)
      {
        FreeOutsideSplit(used[..], w, k, to, to + 1, used.Length);
        to := to + 1;
      }
    }

    method MoveOutUp(w: nat, k: nat, q: nat, to: nat, ghost s0: State)
      requires Valid() && Clearing(s0, S(), w, k, q) && q < w + k && used[q]
      requires to < used.Length && TakesMove(S(), to) && !(w <= to < w + k)
      modifies used, rmap, ram, pte, view, wp, contig, gpu, na
      ensures Valid() && Clearing(s0, S(), w, k, q + 1)
      ensures FreeOutside(S().used, w, k, to, used.Length) == FreeOutside(old(S()).used, w, k, to, used.Length) - 1
      ensures CountFree(S().used, q + 1, w + k) == CountFree(old(S()).used, q + 1, w + k)
    {
      hide Relocate, SameMeaning, FreeOutside, CountFree;
      ghost var s := S();
      ClearingMeans(s0, s, w, k, q);
      hide Clearing, Tracked;
      ClearOne(s0, s, w, k, q, to);
      AheadUpAfterMove(s.used, w, k, to, q);
      RelocatePage(q, to);
      CountFreeSame(s.used, S().used, q + 1, w + k);
    }

    /** The moves of nc_vm_alloc_phys_compact: what the window holds goes to the lowest free pages of the others. */
    method ClearFromBottom(w: nat, k: nat) returns (ok: bool, moved: nat)
      requires Valid() && Tracked(S()) && w + k <= used.Length && CanClear(S(), w, k)
      modifies used, rmap, ram, pte, view, wp, contig, gpu, na
      ensures Valid() && Tracked(S()) && SameMeaning(old(S()), S())
      ensures ok ==> AllFree(S().used, w, w + k) && moved == NeedOf(old(S()), w, k)
      ensures NoClosedPages(old(S())) && RoomFor(old(S()), w, k) ==> ok
    {
      hide Clearing, SameMeaning, Tracked, CanClear, CountFree, FreeOutside;
      ghost var s0 := S();
      moved := 0;
      var to := 0;
      ClearingStart(s0, w, k, 0);
      var q := w;
      while q < w + k
        invariant Valid() && w <= q <= w + k && to <= used.Length
        invariant Clearing(s0, S(), w, k, q)
        invariant moved + (w + k - q) - CountFree(S().used, q, w + k) == NeedOf(s0, w, k)
        invariant NoClosedPages(s0) && RoomFor(s0, w, k) ==>
                    FreeOutside(S().used, w, k, to, used.Length) >= (w + k - q) - CountFree(S().used, q, w + k)
      {
        ClearingMeans(s0, S(), w, k, q);
        CountFirst(S().used, q, w + k);
        if used[q] {
          to := NextHomeUp(to, w, k);
          if to >= used.Length {
            FreeOutsideNone(S().used, w, k);
            return false, moved;
          }
          MoveOutUp(w, k, q, to, s0);
          moved := moved + 1;
        } else {
          ClearingSkip(s0, S(), w, k, q);
        }
        q := q + 1;
      }
      ClearingDone(s0, S(), w, k, q, NeedOf(s0, w, k));
      CountNothing(S().used, w + k);
      return true, moved;
    }

    /** nc_vm_alloc_phys_compact. */
    method AllocPhysCompact(len: nat, lo: nat, hi: nat, align: nat) returns (r: Option<nat>, moved: nat)
      requires Valid() && Tracked(S())
      modifies used, rmap, ram, pte, view, wp, contig, gpu, na
      ensures Valid()
      ensures var q := RequestOf(len, lo, hi, align, |old(S()).used|);
        match r
        case None =>
          && SameMeaning(old(S()), S()) && Tracked(S())
          && (NoClosedPages(old(S())) ==>
                S() == old(S()) && forall w: nat :: IsWindow(q, w) ==> !Clearable(old(S()), w, q.pages))
        case Some(w) =>
          && FewestIn(old(S()), q, w, q.first) && moved == NeedOf(old(S()), w, q.pages)
          && Placed(old(S()), S(), w, q.pages) && Tracked(S())
    {
      hide RequestOf, SameMeaning, Tracked, CanClear, IsWindow;
      ghost var s0 := S();
      moved := 0;
      SameMeaningReflexive(s0) by { TrackedOk(s0); }
      var q := RequestOf(len, lo, hi, align, used.Length);
      var best := FewestMoves(q);
      if best.None? {
        return None, moved;
      }
      var w := best.value;
      FewestMeans(s0, q, w);
      var ok;
      ok, moved := ClearFromBottom(w, q.pages);
      if !ok {
        return None, moved;
      }
      ghost var mid := S();
      Claim(w, q.pages);
      PlacedFrom(s0, mid, S(), w, q.pages);
      return Some(w), moved;
    }

    /** smallest_run: of the free runs of [first, last) that hold `want` pages the smallest, the highest
        of equals. */
    method SmallestRun(first: nat, last: nat, want: nat) returns (r: Option<(nat, nat)>)
      requires Valid() && last <= used.Length
      ensures r.None? ==> forall a: nat, b: nat :: FreeStretch(S().used, first, last, a, b) ==> b - a < want
      ensures r.Some? ==> BestStretch(S().used, first, last, want, last, r.value.0, r.value.1)
    {
      r := None;
      var p := first;
      while p < last
        invariant first <= p && (p <= last || p == first)
        invariant p == first || p >= last || used[p - 1] || used[p]
        invariant r.None? ==> forall a: nat, b: nat :: FreeStretch(used[..], first, last, a, b) && b <= p ==> b - a < want
        invariant r.Some? ==> BestStretch(used[..], first, last, want, p, r.value.0, r.value.1)
      {
        if used[p] {
          p := p + 1;
          continue;
        }
        var q := p;
        while q < last && !used[q]
          invariant p <= q <= last && AllFree(used[..], p, q)
        {
          q := q + 1;
        }
        if q - p >= want && (r.None? || q - p <= r.value.1 - r.value.0) {
          r := Some((p, q));
        }
        p := q;
      }
    }

    /** nc_vm_alloc_phys: the top end of the best-fitting free run. */
    method AllocPhys(len: nat, lo: nat, hi: nat) returns (r: Option<nat>, ghost start: nat)
      requires Valid()
      modifies used
      ensures Valid()
      ensures var n := AlignUp(if len == 0 then 1 else len, PAGE) / PAGE;
        var first, last := lo / PAGE, (if hi < |old(S()).used| * PAGE then hi else |old(S()).used| * PAGE) / PAGE;
        match r
        case None =>
          && S() == old(S())
          && (forall a: nat, b: nat :: FreeStretch(old(S()).used, first, last, a, b) ==> b - a < n)
          && (n > 0 ==> forall w: nat :: !FreeWindow(old(S()).used, first, last, w, n))
        case Some(p) =>
          && BestStretch(old(S()).used, first, last, n, last, start, p + n)
          && S() == old(S()).(used := Fill(old(S()).used, p, p + n, true))
    {
      var n := AlignUp(if len == 0 then 1 else len, PAGE) / PAGE;
      var first, last := lo / PAGE, (if hi < used.Length * PAGE then hi else used.Length * PAGE) / PAGE;
      hide AlignUp;
      var best := SmallestRun(first, last, n);
      if best.None? {
        if n > 0 { NoStretchNoWindow(S().used, first, last, n); }
        return None, 0;
      }
      var p := best.value.1 - n;
      Claim(p, n);
      return Some(p), best.value.0;
    }

    /** nc_vm_alloc_phys_high: a block of the kernel's own, clear of the top reserve where one fits there. */
    method AllocPhysHigh(len: nat) returns (r: Option<nat>)
      requires Valid() && Tracked(S())
      modifies used, rmap, ram, pte, view, wp, contig, gpu, na
      ensures Valid() && Tracked(S())
      ensures var n := AlignUp(if len == 0 then 1 else len, PAGE) / PAGE;
        match r
        case None => SameMeaning(old(S()), S())
        case Some(w) => w + n <= used.Length && Placed(old(S()), S(), w, n)
      ensures NoClosedPages(old(S())) ==>
        var low, whole := BelowReserve(len, used.Length), AnyWhere(len, used.Length);
        match r
        case None => S() == old(S()) && forall v: nat :: !Best(old(S()), low, v) && !Best(old(S()), whole, v)
        case Some(w) => Best(old(S()), low, w) || (Best(old(S()), whole, w) && forall v: nat :: !Best(old(S()), low, v))
    {
      hide SameMeaning, Tracked, Highest, RoomFor;
      ghost var s0 := S();
      var all := used.Length * PAGE;
      var below := if all > TOP_RESERVE * PAGE then all - TOP_RESERVE * PAGE else 0;
      var moved;
      r, moved := AllocPhysTop(len, 0, below, PAGE);
      if r.None? {
        ghost var s1 := S();
        r, moved := AllocPhysTop(len, 0, all, PAGE);
        if r.Some? {
          PlacedAfter(s0, s1, S(), r.value, AlignUp(if len == 0 then 1 else len, PAGE) / PAGE);
        } else {
          SameMeaningTransitive(s0, s1, S());
        }
      }
    }

    // ---- Backing a user range ----

    /** nc_vm_unmap of one page. */
    method Unmap(v: nat)
      requires Valid() && v < USER_PAGES
      modifies pte, rmap, view
      ensures Valid() && S() == UnmapPage(old(S()), v)
    {
      if pte[v].Some? && rmap[pte[v].value] == v {
        rmap[pte[v].value] := 0;
      }
      pte[v] := None;
      view[v] := Closed;
    }

    /** nc_vm_free_phys of one page. */
    method FreePhys(p: nat)
      requires Valid() && p < used.Length
      modifies used, pin
      ensures Valid() && S() == FreePage(old(S()), p)
    {
      used[p] := false;
      pin[p] := 0;
    }

    /** memset of pages [p, p + k) to zero through the contiguous window. */
    method Zero(p: nat, k: nat)
      requires Valid() && Tracked(S()) && p + k <= used.Length
      modifies contig, gpu, view, wp, na, ram
      ensures Valid() && Tracked(S())
      ensures S() == old(S()).(ram := S().ram, wp := S().wp, na := S().na, contig := S().contig, gpu := S().gpu, view := S().view)
      ensures forall i :: 0 <= i < used.Length ==> S().ram[i] == if p <= i < p + k then ZeroPage() else old(S()).ram[i]
    {
      hide Tracked, Store;
      for j := 0 to k
        invariant Valid() && Tracked(S())
        invariant S() == old(S()).(ram := S().ram, wp := S().wp, na := S().na, contig := S().contig, gpu := S().gpu, view := S().view)
        invariant forall i :: 0 <= i < used.Length ==> S().ram[i] == if p <= i < p + j then ZeroPage() else old(S()).ram[i]
      {
        StoreGoesThrough(S(), Contig(p + j), ZeroPage());
        GuestStore(Contig(p + j), ZeroPage());
      }
    }

    /** The highest free page of [lo, hi). */
    method HighestFree(lo: nat, hi: nat) returns (r: Option<nat>)
      requires Valid() && lo <= hi <= used.Length
      ensures r.Some? ==> lo <= r.value < hi && !used[r.value] && forall p :: r.value < p < hi ==> used[p]
      ensures r.None? ==> forall p :: lo <= p < hi ==> used[p]
    {
      var p := hi;
      while p > lo
        invariant lo <= p <= hi && forall i :: p <= i < hi ==> used[i]
      {
        p := p - 1;
        if !used[p] {
          return Some(p);
        }
      }
      return None;
    }

    /** The next piece: from the page TopFree names down, as far as free pages go. */
    method TopRun(want: nat) returns (found: bool, p: nat, k: nat)
      requires Valid() && want > 0
      ensures found ==> 0 < k <= want && p + k <= used.Length && AllFree(S().used, p, p + k)
      ensures found ==> TopFree(used[..], ReserveFrom(used.Length), p + k - 1) && (k == want || p == 0 || used[p - 1])
      ensures !found ==> forall i :: 0 <= i < used.Length ==> used[i]
    {
      var reserve := if TOP_RESERVE < used.Length then TOP_RESERVE else 0;
      p, k := 0, 0;
      var top := HighestFree(0, used.Length - reserve);
      if top.None? {
        top := HighestFree(used.Length - reserve, used.Length);
      }
      if top.None? {
        return false, p, k;
      }
      p, k := RunDown(top.value, want);
      return true, p, k;
    }

    /** The free run down from page top, `want` pages of it at most. */
    method RunDown(top: nat, want: nat) returns (p: nat, k: nat)
      requires want > 0 && top < used.Length && !used[top]
      ensures 0 < k <= want && p + k == top + 1 && AllFree(used[..], p, p + k) && (k == want || p == 0 || used[p - 1])
    {
      p, k := top, 1;
      while p > 0 && !used[p - 1] && k < want
        invariant 0 < k <= want && p + k == top + 1 && AllFree(used[..], p, p + k)
      {
        p, k := p - 1, k + 1;
      }
    }

    method GrowBy(v: nat, done: nat, p: nat, k: nat, ghost s0: State)
      requires Valid() && Grown(s0, S(), v, done) && v + done + k <= USER_PAGES
      requires p + k <= used.Length && AllFree(S().used, p, p + k)
      modifies used, pte, rmap, view, contig, gpu, wp, na, ram
      ensures Valid() && Grown(s0, S(), v, done + k)
    {
      ghost var s := S();
      GrownTracked(s0, s, v, done);
      hide Grown, Tracked, MapRange;
      ClaimTracked(s, p, k);
      Claim(p, k);
      ghost var c := S();
      MapRangeKeeps(c, v + done, p, k);
      MapPages(v + done, p, k);
      Zero(p, k);
      GrowPiece(s0, s, v, done, p, k, S());
    }

    method Undo(v: nat, done: nat, ghost s0: State)
      requires Valid() && Undoing(s0, S(), v, done, 0) && v + done <= USER_PAGES
      modifies used, pin, pte, rmap, view
      ensures Valid() && Tracked(S()) && Restored(s0, S(), v, done)
    {
      hide Undoing, UnmapPage, FreePage;
      for i := 0 to done
        invariant Valid() && Undoing(s0, S(), v, done, i)
      {
        UndoOne(s0, S(), v, done, i);
        var got := pte[v + i];
        if got.Some? {
          Unmap(v + i);
          FreePhys(got.value);
        }
      }
      UndoneIsRestored(s0, S(), v, done);
      UndoingTracked(s0, S(), v, done, done);
    }

    /** nc_vm_alloc_at without pa_out: all or nothing.  Out of memory it has mapped, and unmaps, as many
        pages from v as were free. */
    method AllocAt(v: nat, n: nat) returns (ok: bool)
      requires Valid() && Tracked(S()) && 0 < v && v + n <= USER_PAGES
      modifies used, pin, pte, rmap, view, contig, gpu, wp, na, ram
      ensures Valid() && Tracked(S())
      ensures ok <==> n <= CountFree(old(S()).used, 0, used.Length)
      ensures if ok then Backed(old(S()), S(), v, n) else Restored(old(S()), S(), v, CountFree(old(S()).used, 0, used.Length))
    {
      hide Grown, Tracked, CountFree;
      ghost var s0 := S();
      GrownFrom(s0, v);
      var done := 0;
      while done < n
        invariant Valid() && done <= n && Grown(s0, S(), v, done)
      {
        var found, p, k := TopRun(n - done);
        if !found {
          GrownCount(s0, S(), v, done);
          CountFreeNone(S().used, 0, used.Length);
          UndoingFrom(s0, S(), v, done);
          Undo(v, done, s0);
          return false;
        }
        GrowBy(v, done, p, k, s0);
        done := done + k;
      }
      GrownCount(s0, S(), v, done);
      GrownTracked(s0, S(), v, done);
      GrownIsBacked(s0, S(), v, n);
      return true;
    }

    // ---- Pins ----

    /** nc_vm_pin: known, or one more or one less lock. */
    method Pin(p: nat, known: bool, lock: int)
      requires Valid() && p < used.Length
      modifies pin
      ensures Valid() && S() == old(S()).(pin := old(S()).pin[p := PinValue(old(S()).pin[p], known, lock)])
    {
      var count := pin[p] % PIN_KNOWN;
      var kept := pin[p] - count;
      if lock > 0 && count < PIN_KNOWN - 1 {
        pin[p] := kept + count + 1;
      } else if lock < 0 && count > 0 {
        pin[p] := kept + count - 1;
      }
      if known && pin[p] < PIN_KNOWN {
        pin[p] := pin[p] + PIN_KNOWN;
      }
      assert pin[..] == old(S()).pin[p := pin[p]];
    }
  }
}
