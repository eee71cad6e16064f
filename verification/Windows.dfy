/** The windows of physical pages an allocation may take, and what the searches of native/core/vm.c
  owe the caller: 32-bit arithmetic as in C.
  */
module Windows {
  import opened GuestState

  const WORD: nat := 0x1_0000_0000

  /** nc_align_up for a power of two a: (v + a - 1) & ~(a - 1), in 32 bits. */
  function AlignUp(v: nat, a: nat): nat
    requires a > 0
  {
    Floor((v + a - 1) % WORD, a)
  }

  /** x & ~(a - 1). */
  function Floor(x: nat, a: nat): nat
    requires a > 0
  {
    MulMonotonic(0, x / a, a);
    x / a * a
  }

  lemma MulMonotonic(i: int, j: int, a: nat)
    requires i <= j
    ensures i * a <= j * a
  {
  }

  /** An allocation's request, in pages: a window of `pages` from a multiple of `step` in [first, last). */
  datatype Request = Request(pages: nat, step: nat, first: nat, last: nat)

  /** The request of len bytes inside [lo, hi) (hi 0: all of RAM), aligned. */
  function RequestOf(len: nat, lo: nat, hi: nat, align: nat, ramPages: nat): (r: Request)
    ensures r.step > 0 && r.last <= ramPages && r.first % r.step == 0
  {
    var step := (if align > PAGE then align else PAGE) / PAGE;
    var ram := ramPages * PAGE;
    var first := AlignUp(lo, step * PAGE) / PAGE;
    FirstIsAligned(lo, step);
    LastInRam(hi, ramPages);
    Request(AlignUp(if len == 0 then 1 else len, PAGE) / PAGE, step, first, (if 0 < hi < ram then hi else ram) / PAGE)
  }

  lemma FirstIsAligned(lo: nat, step: nat)
    requires step > 0
    ensures (AlignUp(lo, step * PAGE) / PAGE) % step == 0
  {
    var a := step * PAGE;
    var x := (lo + a - 1) % WORD;
    var k := x / a;
    assert Floor(x, a) == k * a;
    MulMonotonic(0, k, step);
    assert k * a == (k * step) * PAGE;
    ModOf((k * step) * PAGE, PAGE, k * step, 0);
    ModOf(k * step, step, k, 0);
  }

  lemma LastInRam(hi: nat, ramPages: nat)
    ensures (if 0 < hi < ramPages * PAGE then hi else ramPages * PAGE) / PAGE <= ramPages
  {
  }

  /** A request of no bytes is one of a page. */
  lemma NothingIsAPage(lo: nat, hi: nat, align: nat, ramPages: nat)
    ensures RequestOf(0, lo, hi, align, ramPages).pages == 1 && RequestOf(0, lo, hi, align, ramPages) == RequestOf(1, lo, hi, align, ramPages)
  {
  }

  /** Page w starts a window of the request. */
  predicate IsWindow(r: Request, w: nat)
    requires r.step > 0
  {
    r.first <= w && w + r.pages <= r.last && w % r.step == 0
  }

  /** The first page of a request, in bytes, when rounding lo up does not wrap. */
  lemma FirstInBytes(lo: nat, step: nat, w: nat)
    requires step > 0 && lo + step * PAGE <= WORD && w % step == 0
    ensures AlignUp(lo, step * PAGE) / PAGE <= w <==> lo <= w * PAGE
  {
    var a := step * PAGE;
    var k, j := (lo + a - 1) / a, w / step;
    assert AlignUp(lo, a) == k * a;
    MulMonotonic(0, k, step);
    assert k * a == (k * step) * PAGE;
    ModOf((k * step) * PAGE, PAGE, k * step, 0);
    assert w == j * step && w * PAGE == j * a by { assert j * step * PAGE == j * (step * PAGE); }
    CeilMultiple(lo, a, j);
    MultipleOrder(k, j, step);
  }

  lemma RequestFields(len: nat, lo: nat, hi: nat, step: nat, ramPages: nat)
    requires step > 0 && 0 < len <= WORD - PAGE && 0 < hi < ramPages * PAGE
    ensures RequestOf(len, lo, hi, step * PAGE, ramPages) ==
            Request((len + PAGE - 1) / PAGE, step, AlignUp(lo, step * PAGE) / PAGE, hi / PAGE)
  {
    hide AlignUp;
    ModOf(step * PAGE, PAGE, step, 0);
    assert step * PAGE / PAGE == step && step * PAGE >= PAGE;
    PagesFor(len);
  }

  lemma PagesFor(len: nat)
    requires len <= WORD - PAGE
    ensures AlignUp(len, PAGE) / PAGE == (len + PAGE - 1) / PAGE
  {
  }

  /** In bytes: the windows are the aligned blocks of len bytes inside [lo, hi), when neither the
      rounded length nor the rounded lo wraps 32 bits. */
  lemma WindowsInBytes(len: nat, lo: nat, hi: nat, step: nat, ramPages: nat, w: nat)
    requires step > 0 && 0 < len <= WORD - PAGE && lo + step * PAGE <= WORD && 0 < hi < ramPages * PAGE
    ensures IsWindow(RequestOf(len, lo, hi, step * PAGE, ramPages), w) <==>
              && lo <= w * PAGE && (w * PAGE) % (step * PAGE) == 0
              && w * PAGE + (len + PAGE - 1) / PAGE * PAGE <= hi
  {
    hide RequestOf, AlignUp;
    AlignedPages(w, step);
    RequestFields(len, lo, hi, step, ramPages);
    var r := RequestOf(len, lo, hi, step * PAGE, ramPages);
    assert w + r.pages <= hi / PAGE <==> (w + r.pages) * PAGE <= hi;
    if w % step == 0 { FirstInBytes(lo, step, w); }
  }

  lemma AlignedPages(w: nat, step: nat)
    requires step > 0
    ensures (w * PAGE) % (step * PAGE) == 0 <==> w % step == 0
  {
    var j, m := w / step, w % step;
    assert w * PAGE == j * (step * PAGE) + m * PAGE by { assert w == j * step + m; }
    assert m * PAGE < step * PAGE;
    ModOf(w * PAGE, step * PAGE, j, m * PAGE);
  }

  /** Quotient and remainder are the only ones. */
  lemma ModOf(x: nat, d: nat, q: nat, m: nat)
    requires d > 0 && x == q * d + m && m < d
    ensures x % d == m && x / d == q
  {
    var q', m' := x / d, x % d;
    assert x == q' * d + m';
    if q < q' {
      MulMonotonic(q + 1, q', d);
    } else if q' < q {
      MulMonotonic(q' + 1, q, d);
    }
  }

  lemma CeilMultiple(lo: nat, a: nat, j: nat)
    requires a > 0
    ensures lo <= j * a <==> (lo + a - 1) / a <= j
  {
    var k := (lo + a - 1) / a;
    assert k * a <= lo + a - 1 < k * a + a;
    if k <= j { assert k * a <= j * a; } else { assert (j + 1) * a <= k * a; }
  }

  lemma MultipleOrder(k: nat, j: nat, step: nat)
    requires step > 0
    ensures k * step <= j * step <==> k <= j
  {
    if k <= j { assert k * step <= j * step; } else { assert (j + 1) * step <= k * step; }
  }

  /** x / step * step is the highest multiple of step not above x. */
  lemma FloorMultiple(x: nat, step: nat)
    requires step > 0
    ensures x / step * step <= x && (x / step * step) % step == 0
    ensures forall w: nat :: w <= x && w % step == 0 ==> w <= x / step * step
  {
    ModOf(x / step * step, step, x / step, 0);
    forall w: nat | w <= x && w % step == 0 ensures w <= x / step * step { FloorOver(x, w, step); }
  }

  lemma FloorOver(x: nat, w: nat, step: nat)
    requires step > 0 && w <= x && w % step == 0
    ensures w <= x / step * step
  {
    var j, k := w / step, x / step;
    assert w == j * step && x < k * step + step;
    assert (k + 1) * step == k * step + step;
    if j > k {
      MulMonotonic(k + 1, j, step);
      assert false;
    }
    MulMonotonic(j, k, step);
  }

  /** The first multiple of step past u. */
  lemma NextMultiple(u: nat, step: nat)
    requires step > 0
    ensures var p := (u + 1 + step - 1) / step * step; p > u && p % step == 0
    ensures forall w: nat :: w > u && w % step == 0 ==> w >= (u + 1 + step - 1) / step * step
  {
    var k := (u + step) / step;
    ModOf(k * step, step, k, 0);
    CeilMultiple(u + 1, step, k);
    forall w: nat | w > u && w % step == 0 ensures w >= k * step {
      assert w == w / step * step;
      CeilMultiple(u + 1, step, w / step);
      MultipleOrder(k, w / step, step);
    }
  }

  // ---- What a window holds ----

  /** Every used page of the window can move. */
  predicate CanClear(s: State, w: nat, n: nat)
    requires Shaped(s) && w + n <= s.Pages()
  {
    forall i :: w <= i < w + n && s.used[i] ==> Movable(s, i)
  }

  /** A window can be cleared where each of its parts can, and a page where it is free or can move. */
  lemma ClearableByParts(s: State, w: nat, n: nat, m: nat)
    requires Shaped(s) && w + n + m <= s.Pages()
    ensures CanClear(s, w, n + m) <==> CanClear(s, w, n) && CanClear(s, w + n, m)
    ensures m == 1 ==> (CanClear(s, w + n, m) <==> !s.used[w + n] || Movable(s, w + n))
    ensures CanClear(s, w, 0)
  {
    hide Movable;
    assert CanClear(s, w, n) && CanClear(s, w + n, m) ==> forall i :: w <= i < w + n + m && s.used[i] ==> Movable(s, i);
  }

  /** Pages looked at one below the other, all of them from `above` up. */
  predicate Downward(looked: seq<nat>, above: nat) {
    && (forall i, j :: 0 <= i < j < |looked| ==> looked[i] > looked[j])
    && (forall i :: 0 <= i < |looked| ==> looked[i] >= above)
  }

  /** After `seen` only pages of [above, top) were looked at, on down. */
  predicate LookedOn(seen: seq<nat>, now: seq<nat>, above: nat, top: nat) {
    && seen <= now && Downward(now, above) && forall k :: |seen| <= k < |now| ==> now[k] < top
  }

  lemma LookedNone(seen: seq<nat>, top: nat)
    requires Downward(seen, top)
    ensures LookedOn(seen, seen, top, top)
  {
  }

  lemma LookedMore(seen: seq<nat>, now: seq<nat>, above: nat, top: nat)
    requires LookedOn(seen, now, above, top) && 0 < above <= top
    ensures LookedOn(seen, now + [above - 1], above - 1, top)
  {
  }

  /** A used page u that cannot move, in the window at p: no window above p - pages that reaches below
      p is clear past it. */
  lemma Blocked(s: State, q: Request, p: nat, u: nat)
    requires Shaped(s) && q.step > 0 && q.last <= s.Pages() && p <= u < p + q.pages && u < s.Pages()
    requires s.used[u] && !Movable(s, u)
    ensures forall w: nat :: IsWindow(q, w) && w <= p && w > u - q.pages ==> !CanClear(s, w, q.pages)
  {
  }

  function NeedOf(s: State, w: nat, n: nat): (k: nat)
    requires Shaped(s) && w + n <= s.Pages()
  {
    n - CountFree(s.used, w, w + n)
  }

  /** [a, b) is a whole run of free pages of [first, last). */
  predicate FreeStretch(used: seq<bool>, first: nat, last: nat, a: nat, b: nat)
    requires last <= |used|
  {
    && first <= a < b <= last && AllFree(used, a, b)
    && (a == first || used[a - 1]) && (b == last || used[b])
  }

  /** [a, b) is the smallest free run of at least `want` pages that ends by `upto`, the highest of equals. */
  ghost predicate BestStretch(used: seq<bool>, first: nat, last: nat, want: nat, upto: nat, a: nat, b: nat)
    requires last <= |used|
  {
    && FreeStretch(used, first, last, a, b) && want <= b - a && b <= upto
    && forall c: nat, d: nat :: FreeStretch(used, first, last, c, d) && want <= d - c && d <= upto ==>
         b - a < d - c || (b - a == d - c && c <= a)
  }

  /** A free window lies in a free run. */
  lemma WindowInStretch(used: seq<bool>, first: nat, last: nat, w: nat, n: nat) returns (a: nat, b: nat)
    requires first <= w && 0 < n && w + n <= last <= |used| && AllFree(used, w, w + n)
    ensures FreeStretch(used, first, last, a, b) && n <= b - a
  {
    a, b := w, w + n;
    while a > first && !used[a - 1]
      invariant first <= a <= w && AllFree(used, a, w + n)
    {
      a := a - 1;
    }
    while b < last && !used[b]
      invariant w + n <= b <= last && AllFree(used, a, b)
    {
      b := b + 1;
    }
  }

  /** Pages [w, w + n) of [first, last) are free. */
  predicate FreeWindow(used: seq<bool>, first: nat, last: nat, w: nat, n: nat)
    requires last <= |used|
  {
    first <= w && w + n <= last && AllFree(used, w, w + n)
  }

  /** Where every free run is too short there is no free window. */
  lemma NoStretchNoWindow(used: seq<bool>, first: nat, last: nat, n: nat)
    requires 0 < n && last <= |used|
    requires forall a: nat, b: nat :: FreeStretch(used, first, last, a, b) ==> b - a < n
    ensures forall w: nat :: !FreeWindow(used, first, last, w, n)
  {
    forall w: nat ensures !FreeWindow(used, first, last, w, n) {
      if FreeWindow(used, first, last, w, n) {
        var a, b := WindowInStretch(used, first, last, w, n);
      }
    }
  }
}
