/** Guest-write tracking (native/hle/dirty.c): which pages are reported written, and why no guest
  store escapes the report.
  */
module Tracking {
  import opened Wrappers
  import opened GuestState
  import opened Protection
  import opened Relocation

  /** Where a guest store comes through. */
  datatype View = Contig(p: nat) | Gpu(p: nat) | User(v: nat)

  predicate IsView(s: State, w: View)
    requires Shaped(s)
  {
    match w
    case Contig(p) => p < s.Pages()
    case Gpu(p) => p < s.Pages()
    case User(v) => v < USER_PAGES && s.pte[v].Some?
  }

  function PageOf(s: State, w: View): (p: nat)
    requires Shaped(s) && IsView(s, w)
    ensures p < s.Pages()
  {
    match w
    case Contig(p) => p
    case Gpu(p) => p
    case User(v) => s.pte[v].value
  }

  function PermOf(s: State, w: View): Perm
    requires Shaped(s) && IsView(s, w)
  {
    match w
    case Contig(p) => s.contig[p]
    case Gpu(p) => s.gpu[p]
    case User(v) => s.view[v]
  }

  /** A view's protection is what no-access and write tracking allow its page. */
  predicate PermFits(s: State, p: nat, perm: Perm)
    requires Shaped(s) && p < s.Pages()
  {
    if s.na[p] then perm == Closed
    else match s.wp[p]
         case Untracked => perm == ReadWrite
         case Clean => perm == ReadOnly
         case Written => perm != Closed
  }

  /** "protected <=> clean": a clean page has no writable guest view, an untracked one with access
      has all views writable, and one without access has none at all. */
  predicate TrackInv(s: State)
    requires Shaped(s)
  {
    && (forall p :: 0 <= p < s.Pages() ==> PermFits(s, p, s.contig[p]) && PermFits(s, p, s.gpu[p]))
    && (forall v :: 0 <= v < USER_PAGES && s.pte[v].Some? ==> PermFits(s, s.pte[v].value, s.view[v]))
  }

  ghost predicate Tracked(s: State) { Ok(s) && TrackInv(s) }

  // ---- Queries ----

  /** hle_host_mem_dirty of a page. */
  predicate Dirty(s: State, p: nat)
    requires Shaped(s) && p < s.Pages()
  {
    s.wp[p] != Clean || s.hdirty[p]
  }

  predicate AnyDirty(s: State, p: nat, n: nat)
    requires Shaped(s) && p + n <= s.Pages()
  {
    exists i :: p <= i < p + n && Dirty(s, i)
  }

  /** hle_host_mem_test_and_clear: any page of the range written; all clean from here on. */
  function TestAndClear(s: State, p: nat, n: nat): (r: State)
    requires Shaped(s) && p + n <= s.Pages()
    ensures Shaped(r) && r.Pages() == s.Pages()
  {
    Retrack(s.(hdirty := Fill(s.hdirty, p, p + n, false)), p, n, true)
  }

  /** hle_host_mem_rearm: protected again, remembering what was written. */
  function Rearm(s: State, p: nat, n: nat): (r: State)
    requires Shaped(s) && p + n <= s.Pages()
    ensures Shaped(r) && r.Pages() == s.Pages()
  {
    Retrack(s.(hdirty := MarkWhere(s, p, n, w => w != Clean)), p, n, true)
  }

  /** hle_host_mem_landed: clean pages dirty through g_hdirty, their protection left as it is. */
  function Landed(s: State, p: nat, n: nat): (r: State)
    requires Shaped(s) && p + n <= s.Pages()
    ensures Shaped(r) && r.Pages() == s.Pages()
  {
    s.(hdirty := MarkWhere(s, p, n, w => w == Clean))
  }

  function MarkWhere(s: State, p: nat, n: nat, pick: Track -> bool): (r: seq<bool>)
    requires Shaped(s) && p + n <= s.Pages()
    ensures |r| == |s.hdirty|
  {
    seq(|s.hdirty|, i requires 0 <= i < |s.hdirty| => s.hdirty[i] || (p <= i < p + n && pick(s.wp[i])))
  }

  // ---- A guest store and its faults ----

  /** open_view: only the view the store came through, then the page marked written. */
  function OpenView(s: State, w: View): (r: State)
    requires Shaped(s) && IsView(s, w)
    ensures Shaped(r) && r.Pages() == s.Pages()
  {
    var t := s.(wp := s.wp[PageOf(s, w) := Written]);
    match w
    case Contig(p) => t.(contig := s.contig[p := ReadWrite])
    case Gpu(p) => t.(gpu := s.gpu[p := ReadWrite])
    case User(v) => t.(view := s.view[v := ReadWrite])
  }

  /** nc_hle_dirty_fault; None where tracking does not hold the page protected (the store is lost). */
  function Fault(s: State, w: View): (r: Option<State>)
    requires Shaped(s) && IsView(s, w)
    ensures r.Some? ==> Shaped(r.value) && r.value.pte == s.pte && r.value.used == s.used
  {
    var p := PageOf(s, w);
    if s.na[p] then Some(SetAccess(s, p, 1, false))
    else if s.wp[p] == Untracked then None
    else Some(OpenView(s, w))
  }

  /** The store, run again after each fault until it goes through. */
  function Store(s: State, w: View, bytes: Page): (r: Option<State>)
    requires Shaped(s) && IsView(s, w)
    ensures r.Some? ==> Shaped(r.value) && r.value.Pages() == s.Pages()
    decreases (if s.na[PageOf(s, w)] then 2 else 0) + (if PermOf(s, w) != ReadWrite then 1 else 0)
  {
    if PermOf(s, w) == ReadWrite then Some(s.(ram := s.ram[PageOf(s, w) := bytes]))
    else match Fault(s, w)
         case None => None
         case Some(t) => Store(t, w, bytes)
  }

  // ---- Each operation keeps the invariant ----

  lemma RetrackKeeps(s: State, p: nat, n: nat, ro: bool)
    requires Tracked(s) && p + n <= s.Pages()
    ensures Tracked(Retrack(s, p, n, ro))
  {
  }

  lemma SetAccessKeeps(s: State, p: nat, n: nat, on: bool)
    requires Tracked(s) && p + n <= s.Pages()
    ensures Tracked(SetAccess(s, p, n, on))
  {
    assert Ok(SetAccess(s, p, n, on)) by { hide TrackInv; }
    hide Ok;
  }

  lemma OpenViewKeeps(s: State, w: View)
    requires Tracked(s) && IsView(s, w) && !s.na[PageOf(s, w)] && s.wp[PageOf(s, w)] != Untracked
    ensures Tracked(OpenView(s, w))
  {
  }

  /** A tracked guest store always goes through, and leaves its page reported. */
  lemma {:induction false} StoreGoesThrough(s: State, w: View, bytes: Page)
    requires Tracked(s) && IsView(s, w)
    ensures var r := Store(s, w, bytes); var p := PageOf(s, w);
            && r.Some? && Tracked(r.value)
            && r.value.ram == s.ram[p := bytes] && r.value.wp[p] != Clean
            && r.value == s.(ram := r.value.ram, wp := r.value.wp, na := r.value.na, contig := r.value.contig,
                             gpu := r.value.gpu, view := r.value.view)
            && forall i :: 0 <= i < s.Pages() && i != p ==> r.value.wp[i] == s.wp[i]
    decreases (if s.na[PageOf(s, w)] then 2 else 0) + (if PermOf(s, w) != ReadWrite then 1 else 0)
  {
    hide TrackInv, SetAccess, Store;
    if PermOf(s, w) == ReadWrite {
      StoresOpen(s, w, bytes);
    } else if s.na[PageOf(s, w)] {
      AccessOpens(s, w, bytes);
      StoreGoesThrough(SetAccess(s, PageOf(s, w), 1, false), w, bytes);
    } else {
      ViewOpens(s, w, bytes);
    }
  }

  /** A store through an open view. */
  lemma StoresOpen(s: State, w: View, bytes: Page)
    requires Tracked(s) && IsView(s, w) && PermOf(s, w) == ReadWrite
    ensures var p := PageOf(s, w); var t := s.(ram := s.ram[p := bytes]);
      Store(s, w, bytes) == Some(t) && Tracked(t) && s.wp[p] != Clean
  {
  }

  /** A fault without access gives it back and changes protections alone. */
  lemma AccessOpens(s: State, w: View, bytes: Page)
    requires Tracked(s) && IsView(s, w) && s.na[PageOf(s, w)] && PermOf(s, w) != ReadWrite
    ensures var p := PageOf(s, w); var t := SetAccess(s, p, 1, false);
      && Tracked(t) && IsView(t, w) && PageOf(t, w) == p && !t.na[p] && Store(s, w, bytes) == Store(t, w, bytes)
      && t == s.(na := t.na, contig := t.contig, gpu := t.gpu, view := t.view)
  {
    hide TrackInv;
    SetAccessKeeps(s, PageOf(s, w), 1, false);
  }

  /** A fault of a page write tracking holds opens the view, and the store goes through. */
  lemma ViewOpens(s: State, w: View, bytes: Page)
    requires Tracked(s) && IsView(s, w) && !s.na[PageOf(s, w)] && PermOf(s, w) != ReadWrite
    ensures var p := PageOf(s, w); var o := OpenView(s, w);
      Store(s, w, bytes) == Some(o.(ram := s.ram[p := bytes])) && Tracked(o.(ram := s.ram[p := bytes]))
  {
    NotUntracked(s, w);
    hide TrackInv;
    OpenViewKeeps(s, w);
    RamKeeps(OpenView(s, w), PageOf(s, w), bytes);
  }

  lemma NotUntracked(s: State, w: View)
    requires Tracked(s) && IsView(s, w) && !s.na[PageOf(s, w)] && PermOf(s, w) != ReadWrite
    ensures s.wp[PageOf(s, w)] != Untracked
  {
  }

  lemma RamKeeps(s: State, p: nat, bytes: Page)
    requires Tracked(s) && p < s.Pages()
    ensures Tracked(s.(ram := s.ram[p := bytes]))
  {
  }

  /** One fault of a tracked store: handled, and nearer to going through. */
  lemma StoreUnfold(s: State, w: View, bytes: Page)
    requires Tracked(s) && IsView(s, w)
    ensures PermOf(s, w) == ReadWrite ==> Store(s, w, bytes) == Some(s.(ram := s.ram[PageOf(s, w) := bytes]))
    ensures PermOf(s, w) != ReadWrite ==>
              var f := Fault(s, w);
              && f.Some? && Tracked(f.value) && IsView(f.value, w) && PageOf(f.value, w) == PageOf(s, w)
              && f.value.ram == s.ram && Store(s, w, bytes) == Store(f.value, w, bytes)
              && (s.na[PageOf(s, w)] || PermOf(f.value, w) == ReadWrite) && !f.value.na[PageOf(s, w)]
  {
    var p := PageOf(s, w);
    if PermOf(s, w) != ReadWrite {
      if s.na[p] {
        SetAccessKeeps(s, p, 1, false);
      } else {
        OpenViewKeeps(s, w);
      }
    }
  }

  lemma MovePageKeeps(s: State, q: nat, to: nat)
    requires Tracked(s) && q < s.Pages() && to < s.Pages()
    requires s.used[q] && Movable(s, q) && TakesMove(s, to)
    ensures Tracked(MovePage(s, q, to))
  {
    var t := MovePage(s, q, to);
    forall v | 0 <= v < USER_PAGES && t.pte[v].Some?
      ensures v != 0 && t.used[t.pte[v].value] && t.rmap[t.pte[v].value] == v
      ensures PermFits(t, t.pte[v].value, t.view[v])
    {
      assert v != s.rmap[q] ==> t.pte[v] == s.pte[v] && PermFits(s, s.pte[v].value, s.view[v]);
    }
  }

  /** A move leaves both pages untracked, every view of them open, so both are reported. */
  lemma RelocateKeepsTracking(s: State, q: nat, to: nat)
    requires Tracked(s) && q < s.Pages() && to < s.Pages()
    requires s.used[q] && Movable(s, q) && TakesMove(s, to)
    ensures Tracked(Relocate(s, q, to))
    ensures Relocate(s, q, to).wp == s.wp[q := Untracked][to := Untracked]
  {
    hide Retrack;
    MovePageKeeps(s, q, to);
    var left := MovePage(s, q, to);
    RetrackKeeps(left, q, 1, false);
    RetrackKeeps(Retrack(left, q, 1, false), to, 1, false);
    RetrackWp(left, q, 1, false);
    RetrackWp(Retrack(left, q, 1, false), to, 1, false);
    assert left.wp == s.wp && |left.wp| == |left.used|;
    assert Fill(s.wp, q, q + 1, Untracked) == s.wp[q := Untracked];
    assert Fill(s.wp[q := Untracked], to, to + 1, Untracked) == s.wp[q := Untracked][to := Untracked];
    assert s.wp[q] == Untracked && s.wp[to] == Untracked ==> s.wp == s.wp[q := Untracked][to := Untracked];
  }

  // ---- A page mapped twice ----

  /** Another user address still maps page p (what nc_vm_map logs). */
  predicate MappedElsewhere(s: State, v: nat, p: nat)
    requires Shaped(s) && p < s.Pages()
  {
    s.rmap[p] != 0 && s.rmap[p] != v && s.pte[s.rmap[p]] == Some(p)
  }

  /** Mapping a page keeps the invariants exactly when no other user address maps it. */
  lemma MapKeepsExactlyWithoutAlias(s: State, v: nat, p: nat)
    requires Tracked(s) && p < s.Pages() && 0 < v < USER_PAGES && s.used[p]
    ensures Tracked(MapPage(s, v, p)) <==> !MappedElsewhere(s, v, p)
  {
    var t := MapPage(s, v, p);
    if MappedElsewhere(s, v, p) {
      var u := s.rmap[p];
      assert t.pte[u] == Some(p) && t.rmap[p] == v;
    }
  }

  // ---- Whole runs ----

  datatype Op =
    | GuestStore(w: View, bytes: Page)
    | HostStore(p: nat, bytes: Page)                 // hle_va_store, then the host's write
    | DeviceWrite(p: nat, pages: seq<Page>)          // through the RAM view, then hle_host_mem_set_dirty
    | Land(p: nat, pages: seq<Page>)                 // through the RAM view, then hle_host_mem_landed
    | Arm(p: nat, n: nat)
    | Query(p: nat, n: nat)                          // hle_host_mem_test_and_clear
    | Access(p: nat, n: nat, on: bool)
    | Map(v: nat, p: nat)
    | Unmap(v: nat)
    | Claim(p: nat)
    | Free(p: nat)
    | Move(q: nat, to: nat)

  /** A run's state, and which pages were written since they were last taken as clean. */
  datatype Run = Run(s: State, written: seq<bool>)

  predicate Allowed(s: State, op: Op)
    requires Shaped(s)
  {
    match op
    case GuestStore(w, _) => IsView(s, w)
    case HostStore(p, _) => p < s.Pages()
    case DeviceWrite(p, pages) => p + |pages| <= s.Pages()
    case Land(p, pages) => p + |pages| <= s.Pages()
    case Arm(p, n) => p + n <= s.Pages()
    case Query(p, n) => p + n <= s.Pages()
    case Access(p, n, _) => p + n <= s.Pages()
    case Map(v, p) => 0 < v < USER_PAGES && p < s.Pages() && s.used[p] && !MappedElsewhere(s, v, p)
    case Unmap(v) => v < USER_PAGES
    case Claim(p) => p < s.Pages() && !s.used[p]
    case Free(p) => p < s.Pages() && !MappedElsewhere(s, 0, p)
    case Move(q, to) => q < s.Pages() && to < s.Pages() && s.used[q] && Movable(s, q) && TakesMove(s, to)
  }

  function PutPages(s: State, p: nat, pages: seq<Page>): (r: State)
    requires Shaped(s) && p + |pages| <= s.Pages()
    ensures Shaped(r) && r.Pages() == s.Pages()
  {
    s.(ram := s.ram[..p] + pages + s.ram[p + |pages|..])
  }

  /** hle_va_store of one page: access given back, then every view opened unless it was untracked. */
  function HostOpen(s: State, p: nat): (r: State)
    requires Shaped(s) && p < s.Pages()
    ensures Shaped(r) && r.Pages() == s.Pages()
  {
    Retrack(if s.na[p] then SetAccess(s, p, 1, false) else s, p, 1, false)
  }

  /** The operation's effect; a guest store that faults for ever is left out by StoreGoesThrough. */
  ghost function Apply(r: Run, op: Op): (t: Run)
    requires Shaped(r.s) && |r.written| == r.s.Pages() && Allowed(r.s, op)
    ensures Shaped(t.s) && |t.written| == t.s.Pages() == r.s.Pages()
  {
    match op
    case GuestStore(w, bytes) =>
      var n := Store(r.s, w, bytes);
      if n.Some? then Run(n.value, r.written[PageOf(r.s, w) := true]) else r
    case HostStore(p, bytes) =>
      var o := HostOpen(r.s, p);
      Run(o.(ram := o.ram[p := bytes]), r.written[p := true])
    case DeviceWrite(p, pages) =>
      Run(Retrack(PutPages(r.s, p, pages), p, |pages|, false), Fill(r.written, p, p + |pages|, true))
    case Land(p, pages) =>
      Run(Landed(PutPages(r.s, p, pages), p, |pages|), Fill(r.written, p, p + |pages|, true))
    case Arm(p, n) => Run(Rearm(r.s, p, n), r.written)
    case Query(p, n) => Run(TestAndClear(r.s, p, n), Fill(r.written, p, p + n, false))
    case Access(p, n, on) => Run(SetAccess(r.s, p, n, on), r.written)
    case Map(v, p) => Run(MapPage(r.s, v, p), r.written)
    case Unmap(v) => Run(UnmapPage(r.s, v), r.written)
    case Claim(p) => Run(r.s.(used := r.s.used[p := true]), r.written)
    case Free(p) => Run(FreePage(r.s, p), r.written)
    case Move(q, to) => Run(Relocate(r.s, q, to), r.written[q := true][to := true])
  }

  /** What an operation is for: the bytes it writes, and what it makes of mappings, claims and reports. */
  ghost predicate Does(a: State, op: Op, b: State)
    requires Shaped(a) && Shaped(b) && b.Pages() == a.Pages() && Allowed(a, op)
  {
    match op
    case GuestStore(w, bytes) => b.ram == a.ram[PageOf(a, w) := bytes] && Dirty(b, PageOf(a, w)) && SameMaps(a, b)
    case HostStore(p, bytes) => b.ram == a.ram[p := bytes] && Dirty(b, p) && !b.na[p] && SameMaps(a, b)
    case DeviceWrite(p, pages) => PagesPut(a, p, pages, b) && AllDirty(b, p, |pages|) && SameMaps(a, b)
    case Land(p, pages) => PagesPut(a, p, pages, b) && AllDirty(b, p, |pages|) && SameMaps(a, b) && SamePerms(a, b)
    case Arm(p, n) => b.ram == a.ram && Protected(b, p, n) && (forall i :: 0 <= i < a.Pages() ==> (Dirty(b, i) <==> Dirty(a, i))) && SameMaps(a, b)
    case Query(p, n) => b.ram == a.ram && Protected(b, p, n) && !AnyDirty(b, p, n) && SameMaps(a, b)
    case Access(p, n, on) => b.ram == a.ram && (forall i :: 0 <= i < a.Pages() ==> b.na[i] == if p <= i < p + n then on else a.na[i]) && SameMaps(a, b)
    case Map(v, p) => b.ram == a.ram && b.pte == a.pte[v := Some(p)] && b.rmap[p] == v && b.used == a.used
    case Unmap(v) => b.ram == a.ram && b.pte == a.pte[v := None] && b.used == a.used
    case Claim(p) => b == a.(used := a.used[p := true])
    case Free(p) => b.ram == a.ram && b.used == a.used[p := false] && b.pin[p] == 0 && b.pte == a.pte
    case Move(q, to) => SameMeaning(a, b) && b.ram[to] == a.ram[q] && b.used == a.used[to := true][q := false]
  }

  predicate SameMaps(a: State, b: State) { b.pte == a.pte && b.rmap == a.rmap && b.used == a.used && b.pin == a.pin }

  predicate SamePerms(a: State, b: State) { b.contig == a.contig && b.gpu == a.gpu && b.view == a.view && b.na == a.na }

  predicate PagesPut(a: State, p: nat, pages: seq<Page>, b: State)
    requires Shaped(a) && Shaped(b) && b.Pages() == a.Pages() && p + |pages| <= a.Pages()
  {
    forall i :: 0 <= i < a.Pages() ==> b.ram[i] == if p <= i < p + |pages| then pages[i - p] else a.ram[i]
  }

  predicate AllDirty(s: State, p: nat, n: nat)
    requires Shaped(s) && p + n <= s.Pages()
  {
    forall i :: p <= i < p + n ==> Dirty(s, i)
  }

  /** The next store to any of the pages is caught: tracking holds them protected. */
  predicate Protected(s: State, p: nat, n: nat)
    requires Shaped(s) && p + n <= s.Pages()
  {
    forall i :: p <= i < p + n ==>
      && s.wp[i] == Clean && s.contig[i] != ReadWrite && s.gpu[i] != ReadWrite
      && forall v :: 0 <= v < USER_PAGES && s.pte[v] == Some(i) ==> s.view[v] != ReadWrite
  }

  /** Tracking is consistent, and what was written is reported. */
  ghost predicate RunInv(r: Run) {
    && Tracked(r.s)
    && |r.written| == r.s.Pages()
    && forall p :: 0 <= p < |r.written| && r.written[p] ==> Dirty(r.s, p)
  }

  lemma HostOpenKeeps(s: State, p: nat)
    requires Tracked(s) && p < s.Pages()
    ensures Tracked(HostOpen(s, p)) && HostOpen(s, p).wp == s.wp[p := Untracked] && HostOpen(s, p).hdirty == s.hdirty
  {
    hide Retrack;
    var o := if s.na[p] then SetAccess(s, p, 1, false) else s;
    SetAccessKeeps(s, p, 1, false);
    RetrackKeeps(o, p, 1, false);
    RetrackWp(o, p, 1, false);
  }

  lemma PutPagesKeeps(s: State, p: nat, pages: seq<Page>)
    requires Tracked(s) && p + |pages| <= s.Pages()
    ensures Tracked(PutPages(s, p, pages))
  {
  }

  lemma UnmapKeeps(s: State, v: nat)
    requires Tracked(s) && v < USER_PAGES
    ensures Tracked(UnmapPage(s, v))
  {
  }

  lemma FreeKeeps(s: State, p: nat)
    requires Tracked(s) && p < s.Pages() && !MappedElsewhere(s, 0, p)
    ensures Tracked(FreePage(s, p))
  {
  }

  lemma UseKeeps(s: State, p: nat)
    requires Tracked(s) && p < s.Pages()
    ensures Tracked(s.(used := s.used[p := true]))
  {
  }

  lemma FlagsKeep(s: State, p: nat, n: nat)
    requires Tracked(s) && p + n <= s.Pages()
    ensures Tracked(TestAndClear(s, p, n)) && Tracked(Rearm(s, p, n)) && Tracked(Landed(s, p, n))
  {
    hide Retrack;
    RetrackKeeps(s.(hdirty := MarkWhere(s, p, n, w => w != Clean)), p, n, true);
    RetrackKeeps(s.(hdirty := Fill(s.hdirty, p, p + n, false)), p, n, true);
  }

  lemma ApplyKeepsTracked(r: Run, op: Op)
    requires Tracked(r.s) && |r.written| == r.s.Pages() && Allowed(r.s, op)
    ensures Tracked(Apply(r, op).s)
  {
    hide TrackInv, Retrack, SetAccess, MapPage, UnmapPage, FreePage, Relocate, HostOpen, TestAndClear, Rearm, Landed, PutPages, Store;
    match op
    case GuestStore(w, bytes) => StoreGoesThrough(r.s, w, bytes);
    case HostStore(p, bytes) =>
      HostOpenKeeps(r.s, p);
      RamKeeps(HostOpen(r.s, p), p, bytes);
    case DeviceWrite(p, pages) =>
      PutPagesKeeps(r.s, p, pages);
      RetrackKeeps(PutPages(r.s, p, pages), p, |pages|, false);
    case Land(p, pages) =>
      PutPagesKeeps(r.s, p, pages);
      FlagsKeep(PutPages(r.s, p, pages), p, |pages|);
    case Arm(p, n) => FlagsKeep(r.s, p, n);
    case Query(p, n) => FlagsKeep(r.s, p, n);
    case Access(p, n, on) => SetAccessKeeps(r.s, p, n, on);
    case Map(v, p) => MapKeepsExactlyWithoutAlias(r.s, v, p);
    case Unmap(v) => UnmapKeeps(r.s, v);
    case Claim(p) => UseKeeps(r.s, p);
    case Free(p) => FreeKeeps(r.s, p);
    case Move(q, to) => RelocateKeepsTracking(r.s, q, to);
  }

  lemma HostStoreDoes(r: Run, p: nat, bytes: Page)
    requires Tracked(r.s) && |r.written| == r.s.Pages() && p < r.s.Pages()
    ensures Does(r.s, HostStore(p, bytes), Apply(r, HostStore(p, bytes)).s)
  {
    HostOpenKeeps(r.s, p);
  }

  lemma PutDoes(s: State, p: nat, pages: seq<Page>)
    requires Tracked(s) && p + |pages| <= s.Pages()
    ensures PagesPut(s, p, pages, PutPages(s, p, pages))
    ensures SameMaps(s, PutPages(s, p, pages)) && SamePerms(s, PutPages(s, p, pages)) && PutPages(s, p, pages).wp == s.wp
  {
  }

  lemma WritesDo(r: Run, p: nat, pages: seq<Page>)
    requires Tracked(r.s) && |r.written| == r.s.Pages() && p + |pages| <= r.s.Pages()
    ensures Does(r.s, DeviceWrite(p, pages), Apply(r, DeviceWrite(p, pages)).s) && Does(r.s, Land(p, pages), Apply(r, Land(p, pages)).s)
  {
    PutDoes(r.s, p, pages);
    PutPagesKeeps(r.s, p, pages);
    hide PutPages, TrackInv;
    RetrackWp(PutPages(r.s, p, pages), p, |pages|, false);
  }

  lemma HeldAfter(s: State, t: State, p: nat, n: nat)
    requires Tracked(t) && p + n <= t.Pages() && forall i :: p <= i < p + n ==> t.wp[i] == Clean
    ensures Protected(t, p, n)
  {
  }

  lemma FlagsDo(r: Run, p: nat, n: nat)
    requires Tracked(r.s) && |r.written| == r.s.Pages() && p + n <= r.s.Pages()
    ensures Does(r.s, Arm(p, n), Apply(r, Arm(p, n)).s) && Does(r.s, Query(p, n), Apply(r, Query(p, n)).s)
  {
    FlagsKeep(r.s, p, n);
    RetrackWp(r.s.(hdirty := MarkWhere(r.s, p, n, w => w != Clean)), p, n, true);
    RetrackWp(r.s.(hdirty := Fill(r.s.hdirty, p, p + n, false)), p, n, true);
    HeldAfter(r.s, Rearm(r.s, p, n), p, n);
    HeldAfter(r.s, TestAndClear(r.s, p, n), p, n);
    hide TrackInv, Protected;
  }

  lemma GuestStoreDoes(r: Run, w: View, bytes: Page)
    requires Tracked(r.s) && |r.written| == r.s.Pages() && IsView(r.s, w)
    ensures Does(r.s, GuestStore(w, bytes), Apply(r, GuestStore(w, bytes)).s)
  {
    StoreGoesThrough(r.s, w, bytes);
    hide Store, TrackInv;
  }

  /** Every operation does what it is for. */
  lemma ApplyDoes(r: Run, op: Op)
    requires Tracked(r.s) && |r.written| == r.s.Pages() && Allowed(r.s, op)
    ensures Does(r.s, op, Apply(r, op).s)
  {
    match op
    case GuestStore(w, bytes) => GuestStoreDoes(r, w, bytes);
    case HostStore(p, bytes) => HostStoreDoes(r, p, bytes);
    case DeviceWrite(p, pages) => WritesDo(r, p, pages);
    case Land(p, pages) => WritesDo(r, p, pages);
    case Arm(p, n) => FlagsDo(r, p, n);
    case Query(p, n) => FlagsDo(r, p, n);
    case Move(q, to) => MoveDoes(r, q, to);
    case _ => OthersDo(r, op);
  }

  lemma MoveDoes(r: Run, q: nat, to: nat)
    requires Tracked(r.s) && |r.written| == r.s.Pages() && Allowed(r.s, Move(q, to))
    ensures Does(r.s, Move(q, to), Apply(r, Move(q, to)).s)
  {
    hide TrackInv, SameMeaning, Relocate;
    RelocateKeepsMeaning(r.s, q, to);
    RelocateEffect(r.s, q, to);
  }

  lemma OthersDo(r: Run, op: Op)
    requires Tracked(r.s) && |r.written| == r.s.Pages() && Allowed(r.s, op) && (op.Access? || op.Map? || op.Unmap? || op.Claim? || op.Free?)
    ensures Does(r.s, op, Apply(r, op).s)
  {
    hide TrackInv, MapInv;
  }

  lemma ApplyKeepsWritten(r: Run, op: Op)
    requires RunInv(r) && Allowed(r.s, op)
    ensures var t := Apply(r, op);
            |t.written| == t.s.Pages() && forall p :: 0 <= p < |t.written| && t.written[p] ==> Dirty(t.s, p)
  {
    hide TrackInv, Retrack, SetAccess, Store, HostOpen, Relocate;
    match op
    case GuestStore(w, bytes) => StoreGoesThrough(r.s, w, bytes);
    case HostStore(p, _) => HostOpenKeeps(r.s, p);
    case Move(q, to) =>
      RelocateKeepsTracking(r.s, q, to);
      RelocateEffect(r.s, q, to);
    case _ => OthersKeepWritten(r, op);
  }

  lemma OthersKeepWritten(r: Run, op: Op)
    requires RunInv(r) && Allowed(r.s, op) && !op.GuestStore? && !op.HostStore? && !op.Move?
    ensures var t := Apply(r, op);
            |t.written| == t.s.Pages() && forall p :: 0 <= p < |t.written| && t.written[p] ==> Dirty(t.s, p)
  {
  }

  lemma ApplyKeeps(r: Run, op: Op)
    requires RunInv(r) && Allowed(r.s, op)
    ensures RunInv(Apply(r, op))
  {
    hide Apply;
    ApplyKeepsTracked(r, op);
    ApplyKeepsWritten(r, op);
  }

  /** Every operation is allowed where it comes. */
  ghost predicate CanRun(r: Run, ops: seq<Op>)
    requires Shaped(r.s) && |r.written| == r.s.Pages()
    decreases |ops|
  {
    ops == [] || (Allowed(r.s, ops[0]) && CanRun(Apply(r, ops[0]), ops[1..]))
  }

  ghost function Execute(r: Run, ops: seq<Op>): (t: Run)
    requires Shaped(r.s) && |r.written| == r.s.Pages() && CanRun(r, ops)
    ensures Shaped(t.s) && |t.written| == t.s.Pages() == r.s.Pages()
    decreases |ops|
  {
    if ops == [] then r else Execute(Apply(r, ops[0]), ops[1..])
  }

  lemma FirstOp(r: Run, op: Op, rest: seq<Op>)
    requires Shaped(r.s) && |r.written| == r.s.Pages() && CanRun(r, [op] + rest)
    ensures Allowed(r.s, op) && CanRun(Apply(r, op), rest) && Execute(r, [op] + rest) == Execute(Apply(r, op), rest)
  {
    hide Apply;
    assert ([op] + rest)[1..] == rest;
  }

  lemma NoOp(r: Run)
    requires Shaped(r.s) && |r.written| == r.s.Pages()
    ensures CanRun(r, []) && Execute(r, []) == r
  {
  }

  lemma OneOp(r: Run, op: Op, rest: seq<Op>)
    requires Shaped(r.s) && |r.written| == r.s.Pages() && Allowed(r.s, op) && CanRun(Apply(r, op), rest)
    ensures CanRun(r, [op] + rest) && Execute(r, [op] + rest) == Execute(Apply(r, op), rest)
  {
    hide Apply;
    assert ([op] + rest)[1..] == rest;
  }

  lemma {:induction false} ExecuteKeeps(r: Run, ops: seq<Op>)
    requires RunInv(r) && CanRun(r, ops)
    ensures RunInv(Execute(r, ops))
    decreases |ops|
  {
    if ops != [] {
      ApplyKeeps(r, ops[0]);
      ExecuteKeeps(Apply(r, ops[0]), ops[1..]);
    }
  }

  const CLAIMED_AT_BOOT: nat := 16     // physical [0, 0x10000) is never handed out

  /** Memory as nc_vm_init and nc_hle_dirty_init leave it: nothing mapped, every view open. */
  function Boot(pages: nat): (r: Run)
    ensures Shaped(r.s) && |r.written| == r.s.Pages() == pages
  {
    Run(State(seq(pages, i => i < CLAIMED_AT_BOOT <= pages), seq(pages, _ => 0), seq(pages, _ => false), seq(pages, _ => Untracked),
              seq(pages, _ => false), seq(pages, _ => 0), seq(pages, _ => ZeroPage()), seq(pages, _ => ReadWrite),
              seq(pages, _ => ReadWrite), seq(USER_PAGES, _ => None), seq(USER_PAGES, _ => Closed)),
        seq(pages, _ => false))
  }

  /** Write tracking loses nothing, whatever the run: a clean page has no writable guest view, an
      untracked accessible page has all of them writable, and a query of any range that holds a page
      written since it was last taken as clean says so. */
  lemma WritesAreReported(pages: nat, ops: seq<Op>, p: nat, n: nat)
    requires CanRun(Boot(pages), ops) && p + n <= pages
    ensures Tracked(Execute(Boot(pages), ops).s)
    ensures (exists i :: p <= i < p + n && Execute(Boot(pages), ops).written[i]) ==>
              AnyDirty(Execute(Boot(pages), ops).s, p, n)
  {
    ExecuteKeeps(Boot(pages), ops);
  }

  // ---- Nothing else is reported ----

  /** What is reported was written: `written` starts out true where nothing is known yet. */
  ghost predicate Founded(r: Run) {
    && Shaped(r.s) && |r.written| == r.s.Pages()
    && forall p :: 0 <= p < |r.written| && Dirty(r.s, p) ==> r.written[p]
  }

  lemma StoreFounds(s: State, w: View, bytes: Page)
    requires Tracked(s) && IsView(s, w)
    ensures Store(s, w, bytes).Some? && Store(s, w, bytes).value.hdirty == s.hdirty
    ensures forall i :: 0 <= i < s.Pages() && i != PageOf(s, w) ==> Store(s, w, bytes).value.wp[i] == s.wp[i]
  {
    hide TrackInv, Store;
    StoreGoesThrough(s, w, bytes);
  }

  lemma ApplyKeepsFounded(r: Run, op: Op)
    requires Tracked(r.s) && Founded(r) && Allowed(r.s, op)
    ensures Founded(Apply(r, op))
  {
    hide TrackInv, Store, HostOpen, Relocate, SetAccess;
    match op
    case GuestStore(w, bytes) => StoreFounds(r.s, w, bytes);
    case HostStore(p, _) => HostOpenKeeps(r.s, p);
    case Access(p, n, on) => SetAccessWp(r.s, p, n, on);
    case Move(q, to) =>
      RelocateKeepsTracking(r.s, q, to);
      RelocateEffect(r.s, q, to);
    case _ => OthersKeepFounded(r, op);
  }

  lemma SetAccessWp(s: State, p: nat, n: nat, on: bool)
    requires Shaped(s) && p + n <= s.Pages()
    ensures SetAccess(s, p, n, on).wp == s.wp && SetAccess(s, p, n, on).hdirty == s.hdirty
  {
  }

  lemma OthersKeepFounded(r: Run, op: Op)
    requires Founded(r) && Allowed(r.s, op)
    requires !op.GuestStore? && !op.HostStore? && !op.Access? && !op.Move?
    ensures Founded(Apply(r, op))
  {
    hide Store, HostOpen, Relocate, SetAccess;
  }

  /** From boot, with every page taken for written until it is queried. */
  function Unknown(pages: nat): Run { Run(Boot(pages).s, seq(pages, _ => true)) }

  /** The operations query page p. */
  predicate Queried(ops: seq<Op>, p: nat) { exists k :: 0 <= k < |ops| && ops[k].Query? && ops[k].p <= p < ops[k].p + ops[k].n }

  /** Two accounts of one run: the states are the same, and so is what was written to a page once it was
      queried. */
  lemma {:induction false} AccountsAgree(a: Run, b: Run, ops: seq<Op>, p: nat)
    requires Shaped(a.s) && a.s == b.s && |a.written| == |b.written| == a.s.Pages() && CanRun(a, ops) && p < a.s.Pages()
    ensures CanRun(b, ops) && Execute(b, ops).s == Execute(a, ops).s
    ensures a.written[p] == b.written[p] || Queried(ops, p) ==> Execute(a, ops).written[p] == Execute(b, ops).written[p]
    decreases |ops|
  {
    hide Apply, Allowed;
    if ops != [] {
      var op, a1, b1 := ops[0], Apply(a, ops[0]), Apply(b, ops[0]);
      ApplyAgrees(a, b, op, p);
      AccountsAgree(a1, b1, ops[1..], p);
      if Queried(ops, p) && !(op.Query? && op.p <= p < op.p + op.n) {
        var k :| 0 <= k < |ops| && ops[k].Query? && ops[k].p <= p < ops[k].p + ops[k].n;
        assert ops[1..][k - 1] == ops[k];
      }
    }
  }

  lemma ApplyAgrees(a: Run, b: Run, op: Op, p: nat)
    requires Shaped(a.s) && a.s == b.s && |a.written| == |b.written| == a.s.Pages() && Allowed(a.s, op) && p < a.s.Pages()
    ensures Apply(a, op).s == Apply(b, op).s
    ensures a.written[p] == b.written[p] || (op.Query? && op.p <= p < op.p + op.n) ==>
              Apply(a, op).written[p] == Apply(b, op).written[p]
  {
    hide Retrack, SetAccess, MapPage, UnmapPage, FreePage, Relocate, HostOpen, TestAndClear, Rearm, Landed, PutPages, Store;
  }

  lemma {:induction false} ExecuteKeepsFounded(r: Run, ops: seq<Op>)
    requires Tracked(r.s) && Founded(r) && CanRun(r, ops)
    ensures Founded(Execute(r, ops))
    decreases |ops|
  {
    if ops != [] {
      ApplyKeepsTracked(r, ops[0]);
      ApplyKeepsFounded(r, ops[0]);
      hide Apply, Founded, Tracked;
      ExecuteKeepsFounded(Apply(r, ops[0]), ops[1..]);
    }
  }

  /** Over any run, a page is reported only if it was written, or never queried: once it was, it is reported
      exactly while it has been written since it was last taken as clean. */
  lemma ReportsAreExact(pages: nat, ops: seq<Op>, p: nat)
    requires CanRun(Boot(pages), ops) && p < pages
    ensures CanRun(Unknown(pages), ops) && Execute(Unknown(pages), ops).s == Execute(Boot(pages), ops).s
    ensures Dirty(Execute(Boot(pages), ops).s, p) ==> Execute(Unknown(pages), ops).written[p]
    ensures Queried(ops, p) ==> (Dirty(Execute(Boot(pages), ops).s, p) <==> Execute(Boot(pages), ops).written[p])
  {
    AccountsAgree(Boot(pages), Unknown(pages), ops, p);
    ExecuteKeepsFounded(Unknown(pages), ops);
    WritesAreReported(pages, ops, p, 1);
    ExecuteKeeps(Boot(pages), ops);
  }

  /** It writes to no page: no store, no device and no move. */
  predicate Idle(op: Op) { op.Arm? || op.Query? || op.Access? || op.Map? || op.Unmap? || op.Claim? || op.Free? }

  lemma {:induction false} IdleKeepsWritten(r: Run, ops: seq<Op>, p: nat)
    requires Shaped(r.s) && |r.written| == r.s.Pages() && CanRun(r, ops) && p < r.s.Pages() && !r.written[p]
    requires forall k :: 0 <= k < |ops| ==> Idle(ops[k])
    ensures !Execute(r, ops).written[p]
    decreases |ops|
  {
    if ops != [] {
      assert Idle(ops[0]) && forall k :: 0 <= k < |ops[1..]| ==> ops[1..][k] == ops[k + 1];
      IdleKeepsWritten(Apply(r, ops[0]), ops[1..], p);
    }
  }

  /** A query after a query, with nothing written between, answers no: re-arming, access given and taken,
      mapping, unmapping, claiming and freeing make no page reported. */
  lemma QuietQueryIsNo(pages: nat, ops: seq<Op>, p: nat, n: nat, more: seq<Op>)
    requires CanRun(Boot(pages), ops) && p + n <= pages && CanRun(Execute(Boot(pages), ops), [Query(p, n)] + more)
    requires forall k :: 0 <= k < |more| ==> Idle(more[k])
    ensures !AnyDirty(Execute(Execute(Boot(pages), ops), [Query(p, n)] + more).s, p, n)
  {
    hide Apply, Tracked, Dirty, CanRun, Execute;
    var r := Execute(Boot(pages), ops);
    WritesAreReported(pages, ops, 0, 0);
    var r0 := Run(r.s, seq(pages, _ => true));
    forall i | p <= i < p + n ensures !Dirty(Execute(r, [Query(p, n)] + more).s, i) {
      AccountsAgree(r, r0, [Query(p, n)] + more, i);
      QuietQuery(r0, p, n, more, i);
    }
  }

  lemma QuietQuery(r: Run, p: nat, n: nat, more: seq<Op>, i: nat)
    requires Tracked(r.s) && Founded(r) && p + n <= r.s.Pages() && p <= i < p + n && CanRun(r, [Query(p, n)] + more)
    requires forall k :: 0 <= k < |more| ==> Idle(more[k])
    ensures !Dirty(Execute(r, [Query(p, n)] + more).s, i)
  {
    hide Apply, Tracked, CanRun, Execute;
    FirstOp(r, Query(p, n), more);
    QueryForgets(r, p, n, i);
    ExecuteKeepsFounded(r, [Query(p, n)] + more);
    IdleKeepsWritten(Apply(r, Query(p, n)), more, i);
  }

  lemma QueryForgets(r: Run, p: nat, n: nat, i: nat)
    requires Shaped(r.s) && |r.written| == r.s.Pages() && p <= i < p + n <= r.s.Pages()
    ensures !Apply(r, Query(p, n)).written[i]
  {
  }

  // ---- What is not mapped has no view ----

  predicate UnmappedClosed(s: State)
    requires Shaped(s)
  {
    forall v :: 0 <= v < USER_PAGES && s.pte[v].None? ==> s.view[v] == Closed
  }

  lemma {:induction false} StoreKeepsClosed(s: State, w: View, bytes: Page)
    requires Shaped(s) && IsView(s, w) && UnmappedClosed(s) && Store(s, w, bytes).Some?
    ensures UnmappedClosed(Store(s, w, bytes).value)
    decreases (if s.na[PageOf(s, w)] then 2 else 0) + (if PermOf(s, w) != ReadWrite then 1 else 0)
  {
    if PermOf(s, w) != ReadWrite { StoreKeepsClosed(Fault(s, w).value, w, bytes); }
  }

  lemma ApplyKeepsClosed(r: Run, op: Op)
    requires Shaped(r.s) && |r.written| == r.s.Pages() && UnmappedClosed(r.s) && Allowed(r.s, op)
    ensures UnmappedClosed(Apply(r, op).s)
  {
    hide Store;
    if op.GuestStore? && Store(r.s, op.w, op.bytes).Some? { StoreKeepsClosed(r.s, op.w, op.bytes); }
  }

  /** Over any run a user address that maps no page cannot be read or written. */
  lemma {:induction false} UnmappedStaysClosed(r: Run, ops: seq<Op>)
    requires Shaped(r.s) && |r.written| == r.s.Pages() && UnmappedClosed(r.s) && CanRun(r, ops)
    ensures UnmappedClosed(Execute(r, ops).s)
    decreases |ops|
  {
    if ops != [] {
      ApplyKeepsClosed(r, ops[0]);
      UnmappedStaysClosed(Apply(r, ops[0]), ops[1..]);
    }
  }

  lemma UnmappedIsClosed(pages: nat, ops: seq<Op>, v: nat)
    requires CanRun(Boot(pages), ops) && v < USER_PAGES && Execute(Boot(pages), ops).s.pte[v].None?
    ensures Execute(Boot(pages), ops).s.view[v] == Closed
  {
    UnmappedStaysClosed(Boot(pages), ops);
  }

  // ---- A write lost ----

  /** User page u maps page p, whose reverse map names another. */
  predicate Aliased(r: Run, u: nat, p: nat) {
    && Shaped(r.s) && |r.written| == r.s.Pages() && p < r.s.Pages() && u < USER_PAGES
    && r.s.pte[u] == Some(p) && r.s.rmap[p] != u
  }

  /** Access given back, and twice the page taken as clean and stored to through u. */
  function LosingRun(u: nat, p: nat, bytes: Page): seq<Op> {
    [Access(p, 1, false), Query(p, 1), GuestStore(User(u), bytes), Query(p, 1), GuestStore(User(u), bytes)]
  }

  /** Wherever a page is mapped a second time the tracker loses writes: this run's last store through the
      first address goes through and is not reported. */
  lemma AliasLosesWrites(s: State, v: nat, p: nat, bytes: Page, written: seq<bool>)
    requires Tracked(s) && p < s.Pages() && 0 < v < USER_PAGES && MappedElsewhere(s, v, p) && |written| == s.Pages()
    ensures var r := Run(MapPage(s, v, p), written);
      CanRun(r, LosingRun(s.rmap[p], p, bytes)) &&
      var t := Execute(r, LosingRun(s.rmap[p], p, bytes));
      t.written[p] && t.s.ram[p] == bytes && !Dirty(t.s, p)
  {
    hide Apply, Aliased, CanRun, Execute;
    AliasMade(s, v, p, written);
    var u := s.rmap[p];
    var r := Run(MapPage(s, v, p), written);
    var access, query, store := Access(p, 1, false), Query(p, 1), GuestStore(User(u), bytes);
    AliasAccess(r, u, p);
    var r1 := Apply(r, access);
    AliasQuery(r1, u, p);
    var r2 := Apply(r1, query);
    AliasStore(r2, u, p, bytes);
    var r3 := Apply(r2, store);
    AliasQuery(r3, u, p);
    var r4 := Apply(r3, query);
    AliasStore(r4, u, p, bytes);
    NoOp(Apply(r4, store));
    OneOp(r4, store, []);
    OneOp(r3, query, [store] + []);
    OneOp(r2, store, [query] + ([store] + []));
    OneOp(r1, query, [store] + ([query] + ([store] + [])));
    OneOp(r, access, [query] + ([store] + ([query] + ([store] + []))));
    assert LosingRun(u, p, bytes) == [access] + ([query] + ([store] + ([query] + ([store] + []))));
  }

  lemma AliasMade(s: State, v: nat, p: nat, written: seq<bool>)
    requires Tracked(s) && p < s.Pages() && 0 < v < USER_PAGES && MappedElsewhere(s, v, p) && |written| == s.Pages()
    ensures Aliased(Run(MapPage(s, v, p), written), s.rmap[p], p)
  {
  }

  lemma AliasAccess(r: Run, u: nat, p: nat)
    requires Aliased(r, u, p)
    ensures Shaped(r.s) && |r.written| == r.s.Pages() && Allowed(r.s, Access(p, 1, false))
    ensures var t := Apply(r, Access(p, 1, false)); Aliased(t, u, p) && p < t.s.Pages() && !t.s.na[p]
  {
  }

  /** u's view is not among those protected. */
  lemma AliasQuery(r: Run, u: nat, p: nat)
    requires Aliased(r, u, p) && !r.s.na[p]
    ensures Shaped(r.s) && |r.written| == r.s.Pages() && u < USER_PAGES && Allowed(r.s, Query(p, 1))
    ensures var t := Apply(r, Query(p, 1));
      && Aliased(t, u, p) && p < t.s.Pages() && !t.s.na[p]
      && t.s.wp[p] == Clean && !t.s.hdirty[p] && t.s.view[u] == r.s.view[u]
  {
  }

  lemma AliasStore(r: Run, u: nat, p: nat, bytes: Page)
    requires Aliased(r, u, p) && !r.s.na[p] && r.s.wp[p] == Clean
    ensures Shaped(r.s) && |r.written| == r.s.Pages() && u < USER_PAGES && Allowed(r.s, GuestStore(User(u), bytes))
    ensures var t := Apply(r, GuestStore(User(u), bytes));
      && Aliased(t, u, p) && p < t.s.Pages() && !t.s.na[p] && t.s.view[u] == ReadWrite
      && t.s.ram[p] == bytes && t.written[p]
      && (r.s.view[u] == ReadWrite ==> t.s.wp[p] == Clean && t.s.hdirty == r.s.hdirty)
  {
    var w := User(u);
    if r.s.view[u] != ReadWrite {
      var o := OpenView(r.s, w);
      assert Store(o, w, bytes) == Some(o.(ram := o.ram[p := bytes]));
    }
  }
}
