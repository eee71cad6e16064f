/** The vblank's phase lock to the display's vsync (native/dev/nv2a.c, wrap_half and next_vblank).
  Times in nanoseconds; 64 bits hold them.
  */
module Vblank {
  import opened Powers

  const NUDGE: int := 500_000          // 0.5 ms
  const VSYNC_LEAD: int := 3_000_000

  function Abs(x: int): nat { if x < 0 then -x else x }

  /** C's remainder: toward zero. */
  function Mod(a: int, b: int): int
    requires b > 0
  {
    if a >= 0 then a % b else 0 - (0 - a) % b
  }

  /** wrap_half; -pd / 2 in C is -(pd / 2). */
  function WrapHalf(x: int, pd: int): int
    requires pd > 0
  {
    var r := Mod(x, pd);
    if r <= 0 - pd / 2 then r + pd else if r > pd / 2 then r - pd else r
  }

  // ---- The phase ----

  lemma ModIs(x: int, q: int, r: int, pd: int)
    requires x == q * pd + r && 0 <= r < pd
    ensures x % pd == r
  {
    var p := x / pd;
    assert (q - p) * pd == x % pd - r;
    if q > p { Multiple(q - p, pd); }
    if q < p { Multiple(p - q, pd); }
  }

  lemma Multiple(n: int, pd: int)
    requires n >= 1 && pd > 0
    ensures n * pd >= pd && (0 - n) * pd <= 0 - pd
  {
  }

  lemma Negated(q: int, e: int, pd: int)
    ensures 0 - (q * pd + e) == (0 - q) * pd - e == (0 - q - 1) * pd + (pd - e)
    ensures q * pd + e == (q - 1) * pd + (pd + e)
  {
  }

  /** Inside half a period, the phase is the time's distance from the nearest multiple of the period. */
  lemma WrapHalfIs(x: int, q: int, e: int, pd: int)
    requires pd > 0 && x == q * pd + e && Abs(e) < pd / 2
    ensures WrapHalf(x, pd) == e
  {
    Negated(q, e, pd);
    if x >= 0 {
      if e >= 0 { ModIs(x, q, e, pd); } else { ModIs(x, q - 1, pd + e, pd); }
    } else {
      if e <= 0 { ModIs(0 - x, 0 - q, 0 - e, pd); } else { ModIs(0 - x, 0 - q - 1, pd - e, pd); }
    }
  }

  /** wrap_half gives a number a whole number of periods from x, and one in (-pd/2, pd/2] but for a period
      of 1, and for a negative x whose phase is -(pd - 1) / 2 of an odd period: it takes that one up to
      (pd + 1) / 2. */
  lemma WrapHalfInRangeExactly(x: int, pd: int)
    requires pd > 0
    ensures -pd < 2 * WrapHalf(x, pd) <= pd <==> pd > 1 && !(pd % 2 == 1 && x < 0 && x % pd == pd / 2 + 1)
    ensures exists q :: x == q * pd + WrapHalf(x, pd)
  {
    WrapCongruent(x, pd);
    NegatedMod(x, pd);
  }

  lemma NegatedMod(x: int, pd: int)
    requires pd > 0
    ensures (0 - x) % pd == if x % pd == 0 then 0 else pd - x % pd
  {
    var q, r := x / pd, x % pd;
    Negated(q, r, pd);
    if r == 0 { ModIs(0 - x, 0 - q, 0, pd); } else { ModIs(0 - x, 0 - q - 1, pd - r, pd); }
  }

  lemma WrapCongruent(x: int, pd: int)
    requires pd > 0
    ensures exists q :: x == q * pd + WrapHalf(x, pd)
  {
    var w := WrapHalf(x, pd);
    var m := Mod(x, pd);
    var q := if x >= 0 then x / pd else 0 - (0 - x) / pd;
    if x < 0 { Negated((0 - x) / pd, (0 - x) % pd, pd); }
    assert x == q * pd + m;
    var k := if w == m then q else if w == m + pd then q - 1 else q + 1;
    Distribute(q, pd);
    assert x == k * pd + w;
  }

  lemma Distribute(q: int, pd: int)
    ensures (q - 1) * pd == q * pd - pd && (q + 1) * pd == q * pd + pd
  {
  }

  // ---- The next vblank ----

  /** What next_vblank loads: the frame's length, the last vsync and the display's period (0: none), the
      pickup's offset (negative: none yet), and whether the vsync is recent. */
  datatype Display = Display(frame: nat, vs: nat, pd: nat, pick: int, recent: bool)

  /** Vsyncs a frame. */
  function Ratio(d: Display): nat
    requires d.pd > 0
  {
    (d.frame + d.pd / 2) / d.pd
  }

  /** The display's rate is a multiple of the mode's, nearly: vblanks lock to it. */
  predicate Locks(d: Display) {
    d.vs != 0 && d.pd != 0 && d.recent && 1 <= Ratio(d) <= 4 && Abs(Ratio(d) * d.pd - d.frame) <= d.frame / 20
  }

  /** So it is where the frame is within a twentieth of one to four of its periods; elsewhere the next vblank is a
      frame later. */
  lemma LocksExactly(d: Display, prev: int)
    ensures Locks(d) <==>
              d.vs != 0 && d.pd != 0 && d.recent && exists k :: 1 <= k <= 4 && NearPeriods(d, k)
    ensures !Locks(d) ==> NextVblank(d, prev) == prev + d.frame
  {
    if d.pd != 0 && exists k :: 1 <= k <= 4 && NearPeriods(d, k) {
      var k :| 1 <= k <= 4 && NearPeriods(d, k);
      RatioIs(d, k);
    }
    if Locks(d) { assert NearPeriods(d, Ratio(d)); }
  }

  predicate NearPeriods(d: Display, k: nat) { Abs(k * d.pd - d.frame) <= d.frame / 20 }

  lemma RatioIs(d: Display, k: nat)
    requires d.pd > 0 && 1 <= k <= 4 && NearPeriods(d, k)
    ensures Ratio(d) == k
  {
    var t := d.frame / 20;
    assert k * d.pd <= 4 * d.pd;
    assert 19 * t <= k * d.pd;
    assert 2 * t < d.pd;
    QuotientIs(d.frame + d.pd / 2, d.pd, k);
  }

  lemma QuotientIs(x: nat, pd: nat, k: nat)
    requires pd > 0 && k * pd <= x < k * pd + pd
    ensures x / pd == k
  {
    var q, r := x / pd, x % pd;
    assert x == q * pd + r;
    assert (q - k) * pd == q * pd - k * pd && (k - q) * pd == k * pd - q * pd;
    if q > k { MulAtLeast(q - k, pd); }
    if k > q { MulAtLeast(k - q, pd); }
  }

  lemma MulAtLeast(z: nat, pd: nat)
    requires z > 0
    ensures z * pd >= pd
  {
  }

  /** Where after a vsync a vblank belongs. */
  function Place(d: Display): int
    requires d.pd > 0
  {
    if d.pick < 0 then -VSYNC_LEAD else d.pick + d.pd / 2
  }

  /** That is as far from every pickup as can be; where none is known, VSYNC_LEAD before a vsync. */
  lemma PlaceIsFarFromPickups(d: Display, q: int)
    requires d.pd > 0
    ensures d.pick >= 0 ==> Abs(Place(d) - (d.pick + q * d.pd)) >= d.pd / 2
    ensures d.pick < 0 ==> Place(d) == 0 - VSYNC_LEAD
  {
    if d.pick >= 0 {
      if q > 0 { assert q * d.pd >= d.pd; } else { assert q * d.pd <= 0; }
    }
  }

  /** A vblank's distance from its place. */
  function Phase(d: Display, t: int): int
    requires d.pd > 0
  {
    WrapHalf(t - d.vs - Place(d), d.pd)
  }

  /** An eighth of the phase back, 0.5 ms at most. */
  function Correction(ph: int): int {
    var c := if ph >= 0 then 0 - ph / 8 else (0 - ph) / 8;
    if c > NUDGE then NUDGE else if c < -NUDGE then -NUDGE else c
  }

  function NextVblank(d: Display, prev: int): int {
    if !Locks(d) then prev + d.frame
    else
      var next := prev + Ratio(d) * d.pd;
      next + Correction(Phase(d, next))
  }

  // ---- One vblank ----

  /** The phase a vblank leaves of a phase of a. */
  function Left(a: nat): (r: nat)
    ensures r <= a && (a >= 8 ==> r < a) && (a > 0 ==> r > 0)
  {
    a - (if a / 8 > NUDGE then NUDGE else a / 8)
  }

  function Signed(e: int, a: nat): int { if e < 0 then 0 - a else a }

  lemma CorrectionIs(e: int)
    ensures e + Correction(e) == Signed(e, Left(Abs(e))) && Abs(Correction(e)) <= NUDGE
  {
  }

  /** The vblank before is e from its place, after vsyncs at any whole number of periods. */
  predicate Apart(d: Display, prev: int, q: int, e: int)
    requires d.pd > 0
  {
    prev - d.vs - Place(d) == q * d.pd + e
  }

  lemma AddPeriods(q: int, k: int, pd: int)
    ensures q * pd + k * pd == (q + k) * pd
  {
  }

  /** A locked vblank is whole periods after the last, but for a correction of at most 0.5 ms; what is
      left of the error has its sign, is no more, and is less from 8 ns on. */
  lemma VblankNudges(d: Display, prev: int, q: int, e: int)
    requires Locks(d) && Apart(d, prev, q, e) && Abs(e) < d.pd / 2
    ensures var t := NextVblank(d, prev); var c := t - prev - Ratio(d) * d.pd;
      && Abs(c) <= NUDGE
      && Apart(d, t, q + Ratio(d), e + c) && Phase(d, t) == e + c == Signed(e, Left(Abs(e)))
      && Abs(e + c) <= Abs(e) && (Abs(e) >= 8 ==> Abs(e + c) < Abs(e))
  {
    var k := Ratio(d);
    var next := prev + k * d.pd;
    AddPeriods(q, k, d.pd);
    WrapHalfIs(next - d.vs - Place(d), q + k, e, d.pd);
    CorrectionIs(e);
    WrapHalfIs(next + Correction(e) - d.vs - Place(d), q + k, e + Correction(e), d.pd);
  }

  // ---- Whole runs ----

  /** Vblanks one after another, with the vsync there is at each: seen[i] periods on by the i-th. */
  function Vblanks(d: Display, prev: int, seen: seq<nat>): int
    decreases |seen|
  {
    if seen == [] then prev
    else Vblanks(d, NextVblank(d.(vs := d.vs + seen[0] * d.pd), prev), seen[1..])
  }

  function Iterate(a: nat, n: nat): (r: nat)
    ensures r <= a
  {
    if n == 0 then a else Iterate(Left(a), n - 1)
  }

  lemma SignedSigned(e: int, a: nat)
    requires a > 0 || e == 0 || a == 0
    ensures Abs(Signed(e, a)) == a && (a > 0 ==> forall b: nat :: Signed(Signed(e, a), b) == Signed(e, b))
  {
  }

  lemma Regroup(q: int, n: int, pd: int)
    ensures (q - n) * pd == q * pd - n * pd && (q + n) * pd == q * pd + n * pd
  {
  }

  /** One of them, its vsync n periods on. */
  lemma OneAfter(d: Display, prev: int, n: nat, q: int, e: int)
    requires Locks(d) && Apart(d, prev, q, e) && Abs(e) < d.pd / 2
    ensures Apart(d, NextVblank(d.(vs := d.vs + n * d.pd), prev), q + Ratio(d), Signed(e, Left(Abs(e))))
  {
    hide WrapHalf, Correction, NextVblank;
    var d1 := d.(vs := d.vs + n * d.pd);
    assert Locks(d1);
    Regroup(q, n, d.pd);
    assert Apart(d1, prev, q - n, e);
    VblankNudges(d1, prev, q - n, e);
    Regroup(q - n + Ratio(d), n, d.pd);
  }

  /** The error after any run of vblanks, vsyncs advancing by whole periods all the while. */
  lemma {:induction false} ErrorAfter(d: Display, prev: int, seen: seq<nat>, q: int, e: int) returns (p: int)
    requires Locks(d) && Apart(d, prev, q, e) && Abs(e) < d.pd / 2
    ensures Apart(d, Vblanks(d, prev, seen), p, Signed(e, Iterate(Abs(e), |seen|)))
    decreases |seen|
  {
    if seen == [] {
      p := q;
    } else {
      var t := NextVblank(d.(vs := d.vs + seen[0] * d.pd), prev);
      var e1 := Signed(e, Left(Abs(e)));
      OneAfter(d, prev, seen[0], q, e);
      p := ErrorAfter(d, t, seen[1..], q + Ratio(d), e1);
      if e != 0 { SignedSigned(e, Left(Abs(e))); }
    }
  }

  // ---- How soon ----

  lemma {:induction false} IterateAdd(a: nat, m: nat, n: nat)
    ensures Iterate(a, m + n) == Iterate(Iterate(a, m), n)
  {
    if m > 0 { IterateAdd(Left(a), m - 1, n); }
  }

  lemma Product(n: nat, m: nat)
    ensures n * m >= 0
  {
  }

  lemma FallsOnce(a: nat, M: nat)
    requires 8 <= M <= 8 * NUDGE
    ensures Left(a) <= M || Left(a) <= a - M / 8
  {
  }

  /** From n eighths of M over it, n vblanks bring the error to M. */
  lemma {:induction false} Falls(a: nat, M: nat, n: nat)
    requires 8 <= M <= 8 * NUDGE && a <= M + n * (M / 8)
    ensures Iterate(a, n) <= M
  {
    if n > 0 {
      Distribute(n, M / 8);
      FallsOnce(a, M);
      var rest := (n - 1) * (M / 8);
      assert rest >= 0 by { Product(n - 1, M / 8); }
      Falls(Left(a), M, n - 1);
    }
  }

  /** Eight vblanks halve an error. */
  lemma {:induction false} Halves(a: nat, j: nat)
    requires a <= 8 * Pow2(j) && Pow2(j) <= NUDGE + 100_000
    ensures Iterate(a, 8 * j) <= 8
  {
    if j > 0 {
      Falls(a, 8 * Pow2(j - 1), 8);
      IterateAdd(a, 8, 8 * (j - 1));
      Halves(Iterate(a, 8), j - 1);
    }
  }

  /** Any error a display's period allows is under 8 ns within 195 vblanks. */
  lemma SettlesWithin(a: nat, n: nat)
    requires a < 25_000_000 && n >= 195
    ensures Iterate(a, n) < 8
  {
    Falls(a, 8 * NUDGE, 42);
    var b := Iterate(a, 42);
    assert Pow2(19) == 524288 by { PowersOfTwo(); }
    Halves(b, 19);
    IterateAdd(a, 42, 152);
    IterateAdd(a, 194, 1);
    IterateAdd(a, 195, n - 195);
  }

  lemma PowersOfTwo()
    ensures Pow2(10) == 1024 && Pow2(19) == 524288
  {
    assert Pow2(10) == 1024;
    assert Pow2(13) == 8192;
    assert Pow2(16) == 65536;
  }

  /** The lock converges: whatever the phase strictly inside half a period of a display of 20 Hz and
      faster, after 195 vblanks it is under 8 ns. */
  lemma LockConverges(d: Display, prev: int, seen: seq<nat>, q: int, e: int) returns (p: int, left: int)
    requires Locks(d) && d.pd < 50_000_000 && Apart(d, prev, q, e) && Abs(e) < d.pd / 2 && |seen| >= 195
    ensures Apart(d, Vblanks(d, prev, seen), p, left) && Abs(left) < 8 && (left == 0 || (left > 0 <==> e > 0))
  {
    p := ErrorAfter(d, prev, seen, q, e);
    left := Signed(e, Iterate(Abs(e), |seen|));
    SettlesWithin(Abs(e), |seen|);
  }
}
