/** Cheats (native/core/cheats.c): code lines kept flat, with if, else and end, and run with a stack; and
  the nested blocks they mean.
  */
module Cheats {
  import opened Wrappers
  import opened Powers

  const DEPTH_MAX: nat := 8
  const WORD: int := 0x1_0000_0000
  const SIGN: int := 0x8000_0000

  type Byte = x: int | 0 <= x < 256
  type Word = x: int | 0 <= x < 0x1_0000_0000

  /** A, [A]+N, [[A]+N]-M ...: what is added after each pointer read. */
  datatype Addr = Addr(base: Word, offs: seq<int>)

  datatype Cmp = Eq | Ne | Lt | Gt | Le | Ge | And

  /** A line: a write, or an if; width in bytes; the value's bits, an integer's or a float's. */
  datatype Code = Code(addr: Addr, width: nat, float: bool, cmp: Cmp, v: Word)

  datatype Op = Write(code: Code) | If(code: Code) | Else | End

  // ---- Memory ----

  /** RAM, and where each mapped address is in it. */
  datatype Memory = Memory(ram: seq<Byte>, at: map<Word, nat>)

  function Next(a: Word): Word { (a + 1) % WORD }

  predicate Mapped(m: Memory, a: Word, n: nat)
    decreases n
  {
    n == 0 || (a in m.at && m.at[a] < |m.ram| && Mapped(m, Next(a), n - 1))
  }

  /** The n bytes from a on. */
  function Bytes(m: Memory, a: Word, n: nat): (r: seq<Byte>)
    requires Mapped(m, a, n)
    ensures |r| == n
    decreases n
  {
    if n == 0 then [] else [m.ram[m.at[a]]] + Bytes(m, Next(a), n - 1)
  }

  /** A read of n bytes, the first the lowest. */
  function Load(b: seq<Byte>): nat { if b == [] then 0 else b[0] + 256 * Load(b[1..]) }

  function Store(v: nat, n: nat): (r: seq<Byte>)
    ensures |r| == n
  {
    if n == 0 then [] else [v % 256] + Store(v / 256, n - 1)
  }

  function Put(m: Memory, a: Word, b: seq<Byte>): (r: Memory)
    requires Mapped(m, a, |b|)
    ensures r.at == m.at && |r.ram| == |m.ram|
    decreases |b|
  {
    if b == [] then m
    else
      var m1 := m.(ram := m.ram[m.at[a] := b[0]]);
      StillMapped(m, m1, Next(a), |b| - 1);
      Put(m1, Next(a), b[1..])
  }

  lemma {:induction false} StillMapped(m: Memory, r: Memory, a: Word, n: nat)
    requires Mapped(m, a, n) && r.at == m.at && |r.ram| == |m.ram|
    ensures Mapped(r, a, n)
    decreases n
  {
    if n > 0 { StillMapped(m, r, Next(a), n - 1); }
  }

  /** Where the bytes are in RAM. */
  function Places(m: Memory, a: Word, n: nat): (r: seq<nat>)
    requires Mapped(m, a, n)
    ensures |r| == n
    decreases n
  {
    if n == 0 then [] else [m.at[a]] + Places(m, Next(a), n - 1)
  }

  /** The k-th address from a on is of RAM. */
  predicate InRam(m: Memory, a: Word, k: nat) {
    var x := (a + k) % WORD;
    x in m.at && m.at[x] < |m.ram|
  }

  lemma NextInRam(m: Memory, a: Word, k: nat)
    ensures InRam(m, Next(a), k) <==> InRam(m, a, k + 1)
  {
    assert (Next(a) + k) % WORD == (a + (k + 1)) % WORD;
  }

  /** The bytes are mapped where each of their addresses is. */
  lemma {:induction false} MappedExactly(m: Memory, a: Word, n: nat)
    ensures Mapped(m, a, n) <==> forall k :: 0 <= k < n ==> InRam(m, a, k)
    decreases n
  {
    if n > 0 {
      MappedExactly(m, Next(a), n - 1);
      if forall k :: 0 <= k < n ==> InRam(m, a, k) {
        assert InRam(m, a, 0);
        forall k | 0 <= k < n - 1 ensures InRam(m, Next(a), k) { NextInRam(m, a, k); }
      }
      if Mapped(m, a, n) {
        forall k | 0 <= k < n ensures InRam(m, a, k) {
          if k > 0 { NextInRam(m, a, k - 1); }
        }
      }
    }
  }

  /** Byte k is at the k-th address from a on, in 32 bits. */
  lemma {:induction false} ByteAt(m: Memory, a: Word, n: nat, k: nat)
    requires Mapped(m, a, n) && k < n
    ensures InRam(m, a, k)
    ensures Places(m, a, n)[k] == m.at[(a + k) % WORD] && Bytes(m, a, n)[k] == m.ram[m.at[(a + k) % WORD]]
    decreases n
  {
    if k == 0 {
      FirstByte(m, a, n);
    } else {
      ByteAt(m, Next(a), n - 1, k - 1);
      NextInRam(m, a, k - 1);
      LaterByte(m, a, n, k);
    }
  }

  lemma FirstByte(m: Memory, a: Word, n: nat)
    requires Mapped(m, a, n) && n > 0
    ensures InRam(m, a, 0) && (a + 0) % WORD == a && Places(m, a, n)[0] == m.at[a] && Bytes(m, a, n)[0] == m.ram[m.at[a]]
  {
  }

  lemma LaterByte(m: Memory, a: Word, n: nat, k: nat)
    requires Mapped(m, a, n) && 0 < k < n
    ensures Mapped(m, Next(a), n - 1) && (Next(a) + (k - 1)) % WORD == (a + k) % WORD
    ensures Places(m, a, n)[k] == Places(m, Next(a), n - 1)[k - 1] && Bytes(m, a, n)[k] == Bytes(m, Next(a), n - 1)[k - 1]
  {
  }

  predicate Distinct(s: seq<nat>) { s == [] || (s[0] !in s[1..] && Distinct(s[1..])) }

  lemma {:induction false} PutElsewhere(m: Memory, a: Word, b: seq<Byte>, p: nat)
    requires Mapped(m, a, |b|) && p < |m.ram| && p !in Places(m, a, |b|)
    ensures Put(m, a, b).ram[p] == m.ram[p]
    decreases |b|
  {
    if b != [] {
      var m1 := m.(ram := m.ram[m.at[a] := b[0]]);
      StillMapped(m, m1, Next(a), |b| - 1);
      SamePlaces(m, m1, Next(a), |b| - 1);
      PutElsewhere(m1, Next(a), b[1..], p);
    }
  }

  lemma {:induction false} SamePlaces(m: Memory, r: Memory, a: Word, n: nat)
    requires Mapped(m, a, n) && r.at == m.at && |r.ram| == |m.ram|
    ensures Mapped(r, a, n) && Places(r, a, n) == Places(m, a, n)
    decreases n
  {
    if n > 0 { SamePlaces(m, r, Next(a), n - 1); }
  }

  /** What a line wrote is read back, where its bytes are different ones of RAM. */
  lemma {:induction false} PutIsRead(m: Memory, a: Word, b: seq<Byte>)
    requires Mapped(m, a, |b|) && Distinct(Places(m, a, |b|))
    ensures Mapped(Put(m, a, b), a, |b|) && Bytes(Put(m, a, b), a, |b|) == b
    decreases |b|
  {
    if b != [] {
      var m1 := m.(ram := m.ram[m.at[a] := b[0]]);
      StillMapped(m, m1, Next(a), |b| - 1);
      SamePlaces(m, m1, Next(a), |b| - 1);
      PutElsewhere(m1, Next(a), b[1..], m.at[a]);
      PutIsRead(m1, Next(a), b[1..]);
    }
  }

  // ---- Numbers in bytes ----

  /** The byte at k's weight. */
  function Weight(k: nat): (r: nat)
    ensures r > 0
  {
    if k == 0 then 1 else 256 * Weight(k - 1)
  }

  /** v / (256 * w) by way of its bytes. */
  lemma DivTwice(v: nat, w: nat)
    requires w > 0
    ensures v / 256 / w == v / (256 * w)
    ensures v % (256 * w) == v % 256 + 256 * (v / 256 % w)
  {
    var q, r := v / 256 / w, v / 256 % w;
    assert v == 256 * (w * q + r) + v % 256;
    assert 256 * (w * q) == (256 * w) * q;
    assert v == (256 * w) * q + (256 * r + v % 256);
    assert r + 1 <= w;
    assert 256 * (r + 1) <= 256 * w;
    DivIs(v, 256 * w, q, 256 * r + v % 256);
  }

  lemma MulAtLeast(d: nat, z: nat)
    requires z > 0
    ensures d * z >= d
  {
  }

  lemma DivIs(v: nat, d: nat, q: nat, r: nat)
    requires d > 0 && r < d && v == d * q + r
    ensures v / d == q && v % d == r
  {
    var p, t := v / d, v % d;
    assert v == d * p + t;
    assert d * (p - q) == r - t && d * (q - p) == t - r;
    if p > q { MulAtLeast(d, p - q); }
    if q > p { MulAtLeast(d, q - p); }
  }

  /** Byte k of a number is its digit of weight 256^k. */
  lemma {:induction false} StoreByte(v: nat, n: nat, k: nat)
    requires k < n
    ensures Store(v, n)[k] == v / Weight(k) % 256
  {
    if k > 0 {
      StoreByte(v / 256, n - 1, k - 1);
      DivTwice(v, Weight(k - 1));
    }
  }

  /** Reading bytes is the inverse of writing them: a number comes back but for what its bytes had no room for. */
  lemma {:induction false} LoadStore(v: nat, n: nat)
    ensures Load(Store(v, n)) == v % Weight(n)
  {
    if n > 0 {
      LoadStore(v / 256, n - 1);
      DivTwice(v, Weight(n - 1));
      assert Store(v, n)[1..] == Store(v / 256, n - 1);
    }
  }

  lemma {:induction false} StoreLoad(b: seq<Byte>)
    ensures Load(b) < Weight(|b|) && Store(Load(b), |b|) == b
  {
    if b != [] {
      StoreLoad(b[1..]);
      DivIs(Load(b), 256, Load(b[1..]), b[0]);
    }
  }

  /** The pointer at x, if it isn't NULL, and off more. */
  function Follow(m: Memory, x: Word, off: int): Option<Word> {
    if !Mapped(m, x, 4) then None
    else
      var ptr := Load(Bytes(m, x, 4));
      if ptr == 0 then None else Some((ptr + off) % WORD)
  }

  /** resolve: through the pointers. */
  function Resolve(m: Memory, x: Word, offs: seq<int>): Option<Word>
    decreases |offs|
  {
    if offs == [] then Some(x)
    else match Follow(m, x, offs[0])
         case None => None
         case Some(y) => Resolve(m, y, offs[1..])
  }

  /** The address after each pointer: the number its four bytes hold, which is not 0, and the offset, in 32 bits. */
  ghost predicate Path(m: Memory, addr: Addr, path: seq<Word>) {
    && |path| == |addr.offs| + 1 && path[0] == addr.base
    && forall i :: 0 <= i < |addr.offs| ==> Hop(m, path[i], addr.offs[i], path[i + 1])
  }

  ghost predicate Hop(m: Memory, x: Word, off: int, y: Word) {
    && Mapped(m, x, 4)
    && exists ptr: nat :: 0 < ptr < WORD && Bytes(m, x, 4) == Store(ptr, 4) && y == (ptr + off) % WORD
  }

  lemma FollowIsHop(m: Memory, x: Word, off: int, y: Word)
    ensures Follow(m, x, off) == Some(y) <==> Hop(m, x, off, y)
  {
    hide Mapped, Bytes, Store, Load;
    if Mapped(m, x, 4) {
      var b := Bytes(m, x, 4);
      WordBytes(b);
      if Hop(m, x, off, y) {
        var ptr: nat :| 0 < ptr < WORD && b == Store(ptr, 4) && y == (ptr + off) % WORD;
        WordStored(ptr);
        assert Load(b) == ptr;
      }
    }
  }

  lemma WordBytes(b: seq<Byte>)
    requires |b| == 4
    ensures Load(b) < WORD && Store(Load(b), 4) == b
  {
    StoreLoad(b);
    assert Weight(4) == WORD;
  }

  lemma WordStored(ptr: nat)
    requires ptr < WORD
    ensures Load(Store(ptr, 4)) == ptr
  {
    LoadStore(ptr, 4);
    assert Weight(4) == WORD;
  }

  /** An address leads where its pointers do, one after the other, and nowhere where there is no such way. */
  lemma {:induction false} ResolveIsPath(m: Memory, addr: Addr, y: Word)
    ensures Resolve(m, addr.base, addr.offs) == Some(y) <==> exists path :: Path(m, addr, path) && path[|path| - 1] == y
    decreases |addr.offs|
  {
    if addr.offs == [] {
      assert Path(m, addr, [addr.base]);
    } else {
      hide Follow, Hop;
      if Resolve(m, addr.base, addr.offs) == Some(y) { PathGoesOn(m, addr, y); }
      PathStarts(m, addr, y);
    }
  }

  lemma {:induction false} PathGoesOn(m: Memory, addr: Addr, y: Word)
    requires addr.offs != [] && Resolve(m, addr.base, addr.offs) == Some(y)
    ensures exists path :: Path(m, addr, path) && path[|path| - 1] == y
    decreases |addr.offs|, 0
  {
    hide Hop;
    var next := Follow(m, addr.base, addr.offs[0]);
    var rest := Addr(next.value, addr.offs[1..]);
    FollowIsHop(m, addr.base, addr.offs[0], next.value);
    ResolveIsPath(m, rest, y);
    var path :| Path(m, rest, path) && path[|path| - 1] == y;
    Prefixed(m, addr, rest, path);
  }

  lemma Prefixed(m: Memory, addr: Addr, rest: Addr, path: seq<Word>)
    requires addr.offs != [] && rest.offs == addr.offs[1..] && Path(m, rest, path) && Hop(m, addr.base, addr.offs[0], rest.base)
    ensures Path(m, addr, [addr.base] + path) && ([addr.base] + path)[|path|] == path[|path| - 1]
  {
    hide Hop;
    var all := [addr.base] + path;
    forall i | 0 <= i < |addr.offs| ensures Hop(m, all[i], addr.offs[i], all[i + 1]) {
      if i > 0 { assert Hop(m, path[i - 1], rest.offs[i - 1], path[i - 1 + 1]); }
    }
  }

  lemma {:induction false} PathStarts(m: Memory, addr: Addr, y: Word)
    requires addr.offs != []
    ensures (exists path :: Path(m, addr, path) && path[|path| - 1] == y) ==> Resolve(m, addr.base, addr.offs) == Some(y)
    decreases |addr.offs|, 0
  {
    hide Hop;
    if path :| Path(m, addr, path) && path[|path| - 1] == y {
      assert Hop(m, path[0], addr.offs[0], path[0 + 1]);
      FollowIsHop(m, addr.base, addr.offs[0], path[1]);
      var rest := Addr(path[1], addr.offs[1..]);
      forall i | 0 <= i < |rest.offs| ensures Hop(m, path[1..][i], rest.offs[i], path[1..][i + 1]) {
        assert Hop(m, path[i + 1], addr.offs[i + 1], path[i + 1 + 1]);
      }
      assert Path(m, rest, path[1..]);
      ResolveIsPath(m, rest, y);
    }
  }

  // ---- Comparing ----

  predicate IsNan(x: Word) { x % SIGN > 0x7F80_0000 }

  /** All ones for exponent, and a fraction. */
  lemma NansAre(x: Word)
    ensures IsNan(x) <==> x % SIGN / 0x80_0000 == 255 && x % 0x80_0000 != 0
  {
  }

  /** A magnitude's bits in units of the smallest number, 2^-149: exponent and fraction. */
  function Magnitude(x: nat): nat {
    var e, f := x / 0x80_0000, x % 0x80_0000;
    if e == 0 then f else (0x80_0000 + f) * Pow2(e - 1)
  }

  /** The number a float's bits stand for, in the same units; past the largest number, the infinities. */
  function Value(x: Word): int { if x < SIGN then Magnitude(x) else 0 - Magnitude(x - SIGN) }

  predicate CompareFloats(cmp: Cmp, a: Word, b: Word) {
    var numbers := !IsNan(a) && !IsNan(b);
    match cmp
    case Eq => numbers && Value(a) == Value(b)
    case Ne => !(numbers && Value(a) == Value(b))
    case Lt => numbers && Value(a) < Value(b)
    case Gt => numbers && Value(a) > Value(b)
    case Le => numbers && Value(a) <= Value(b)
    case _ => numbers && Value(a) >= Value(b)
  }

  /** Sign and magnitude of the bits. */
  function Key(x: Word): int { if x < SIGN then x else SIGN - x }

  lemma MulLess(a: nat, b: nat, p: nat)
    requires a < b && p > 0
    ensures a * p < b * p
  {
  }

  lemma MagnitudeGrows(x: nat, y: nat)
    requires x < y
    ensures Magnitude(x) < Magnitude(y)
  {
    var e, g := x / 0x80_0000, y / 0x80_0000;
    if e == g {
      if e > 0 { MulLess(0x80_0000 + x % 0x80_0000, 0x80_0000 + y % 0x80_0000, Pow2(e - 1)); }
    } else if e > 0 {
      MulLess(0x80_0000 + x % 0x80_0000, 0x100_0000, Pow2(e - 1));
      assert 0x100_0000 * Pow2(e - 1) == 0x80_0000 * Pow2(e);
      PowGrows(e, g - 1);
      MagnitudeAtLeast(y, Pow2(e));
    } else {
      PowGrows(0, g - 1);
      MagnitudeAtLeast(y, 1);
    }
  }

  lemma MagnitudeAtLeast(y: nat, p: nat)
    requires y / 0x80_0000 > 0 && Pow2(y / 0x80_0000 - 1) >= p
    ensures Magnitude(y) >= 0x80_0000 * p
  {
    var q := Pow2(y / 0x80_0000 - 1);
    assert (0x80_0000 + y % 0x80_0000) * q >= 0x80_0000 * q >= 0x80_0000 * p;
  }

  /** Floats compare as their bits do, sign and magnitude; the zeros alike. */
  lemma FloatsCompareByBits(a: Word, b: Word)
    ensures Value(a) < Value(b) <==> Key(a) < Key(b)
    ensures Value(a) == Value(b) <==> Key(a) == Key(b)
  {
    var x, y := if a < SIGN then a else a - SIGN, if b < SIGN then b else b - SIGN;
    if x < y { MagnitudeGrows(x, y); }
    if y < x { MagnitudeGrows(y, x); }
    if 0 < x { MagnitudeGrows(0, x); }
    if 0 < y { MagnitudeGrows(0, y); }
  }

  /** a & b */
  function BitAnd(a: nat, b: nat): nat
    decreases b
  {
    if b == 0 then 0 else (if a % 2 == 1 then b % 2 else 0) + 2 * BitAnd(a / 2, b / 2)
  }

  predicate Bit(x: nat, k: nat) { if k == 0 then x % 2 == 1 else Bit(x / 2, k - 1) }

  predicate CompareInts(cmp: Cmp, a: Word, b: Word) {
    match cmp
    case Eq => a == b
    case Ne => a != b
    case Lt => a < b
    case Gt => a > b
    case Le => a <= b
    case Ge => a >= b
    case And => BitAnd(a, b) == b
  }

  /** Exactly one of less, equal and greater; the others are their complements; and the order is the numbers'. */
  lemma IntsCompareInOrder(a: Word, b: Word)
    ensures CompareInts(Eq, a, b) <==> a == b
    ensures CompareInts(Lt, a, b) || CompareInts(Eq, a, b) || CompareInts(Gt, a, b)
    ensures !(CompareInts(Lt, a, b) && CompareInts(Gt, a, b)) && (CompareInts(Eq, a, b) ==> !CompareInts(Lt, a, b) && !CompareInts(Gt, a, b))
    ensures CompareInts(Le, a, b) <==> !CompareInts(Gt, a, b)
    ensures CompareInts(Ge, a, b) <==> !CompareInts(Lt, a, b)
    ensures CompareInts(Ne, a, b) <==> !CompareInts(Eq, a, b)
    ensures CompareInts(Lt, a, b) <==> CompareInts(Gt, b, a)
    ensures CompareInts(Lt, a, b) <==> 0 < b - a
  {
  }

  lemma HalfHeld(a: nat, b: nat)
    requires b > 0
    ensures BitAnd(a, b) == b <==> (Bit(b, 0) ==> Bit(a, 0)) && BitAnd(a / 2, b / 2) == b / 2
  {
    BitAndIsLess(a / 2, b / 2);
  }

  lemma {:induction false} HeldHasBit(a: nat, b: nat, k: nat)
    requires BitAnd(a, b) == b && Bit(b, k)
    ensures Bit(a, k)
    decreases k
  {
    if b == 0 { ZeroHasNone(k); } else {
      HalfHeld(a, b);
      if k > 0 { HeldHasBit(a / 2, b / 2, k - 1); }
    }
  }

  /** Every bit of the mask is set. */
  ghost predicate HasBits(a: nat, mask: nat) { forall k: nat :: Bit(mask, k) ==> Bit(a, k) }

  /** A mask compares as held where every bit of it is set. */
  lemma {:induction false} MaskHeldByBits(a: nat, b: nat)
    ensures BitAnd(a, b) == b <==> HasBits(a, b)
    decreases b
  {
    if BitAnd(a, b) == b {
      forall k: nat | Bit(b, k) ensures Bit(a, k) { HeldHasBit(a, b, k); }
    }
    if b > 0 && HasBits(a, b) {
      assert Bit(b, 0) ==> Bit(a, 0);
      forall k: nat | Bit(b / 2, k) ensures Bit(a / 2, k) { assert Bit(b, k + 1) ==> Bit(a, k + 1); }
      MaskHeldByBits(a / 2, b / 2);
      HalfHeld(a, b);
    }
  }

  lemma {:induction false} ZeroHasNone(k: nat)
    ensures !Bit(0, k)
  {
    if k > 0 { ZeroHasNone(k - 1); }
  }

  lemma {:induction false} BitAndIsLess(a: nat, b: nat)
    ensures BitAnd(a, b) <= b
    decreases b
  {
    if b > 0 { BitAndIsLess(a / 2, b / 2); }
  }

  /** A number compares as its bits do; what is none compares as unequal alone. */
  lemma FloatsCompareInOrder(a: Word, b: Word)
    ensures IsNan(a) || IsNan(b) ==> forall cmp :: CompareFloats(cmp, a, b) <==> cmp == Ne
    ensures !IsNan(a) && !IsNan(b) ==>
              && (CompareFloats(Lt, a, b) <==> Key(a) < Key(b))
              && (CompareFloats(Eq, a, b) <==> Key(a) == Key(b))
              && (CompareFloats(Gt, a, b) <==> Key(a) > Key(b))
              && (CompareFloats(Le, a, b) <==> !CompareFloats(Gt, a, b))
              && (CompareFloats(Ge, a, b) <==> !CompareFloats(Lt, a, b))
              && (CompareFloats(Ne, a, b) <==> !CompareFloats(Eq, a, b))
  {
    hide Value, Key, IsNan;
    FloatsCompareByBits(a, b);
    FloatsCompareByBits(b, a);
  }

  function AsWord(x: nat): Word { x % WORD }

  predicate Compare(c: Code, cur: Word) {
    if c.float then CompareFloats(c.cmp, cur, c.v) else CompareInts(c.cmp, cur, c.v)
  }

  // ---- One line ----

  /** Memory, the bytes written, and the lines that missed: nothing mapped there. */
  datatype State = State(m: Memory, wrote: nat, misses: nat)

  function Miss(s: State): State { s.(misses := s.misses + 1) }

  /** Where the line's address leads, if width bytes are mapped there. */
  function Target(m: Memory, c: Code): (r: Option<Word>)
    ensures r.Some? ==> Mapped(m, r.value, c.width)
  {
    match Resolve(m, c.addr.base, c.addr.offs)
    case None => None
    case Some(a) => if Mapped(m, a, c.width) then Some(a) else None
  }

  /** A line's address leads to bytes exactly where its pointers lead to a place with width bytes mapped. */
  lemma TargetIsPath(m: Memory, c: Code, y: Word)
    ensures Target(m, c) == Some(y) <==> Mapped(m, y, c.width) && exists path :: Path(m, c.addr, path) && path[|path| - 1] == y
  {
    ResolveIsPath(m, c.addr, y);
    hide Resolve, Path, Mapped;
  }

  /** An if's outcome. */
  function Test(s: State, c: Code): (bool, State) {
    match Target(s.m, c)
    case None => (false, Miss(s))
    case Some(a) => (Compare(c, AsWord(Load(Bytes(s.m, a, c.width)))), s)
  }

  /** A write, where the bytes aren't there yet. */
  function DoWrite(s: State, c: Code): State {
    match Target(s.m, c)
    case None => Miss(s)
    case Some(a) =>
      var b := Store(c.v, c.width);
      if Bytes(s.m, a, c.width) == b then s else s.(m := Put(s.m, a, b), wrote := s.wrote + c.width)
  }

  /** A write leaves its value where its address leads, a byte for each of its digits, and nothing else changed;
      it counts the bytes where they were not there yet, and a miss where it leads nowhere. */
  lemma WriteWrites(s: State, c: Code)
    requires Target(s.m, c).Some? ==> Distinct(Places(s.m, Target(s.m, c).value, c.width))
    ensures var r := DoWrite(s, c);
      && r.m.at == s.m.at && |r.m.ram| == |s.m.ram|
      && (Target(s.m, c).None? ==> r == s.(misses := s.misses + 1))
      && (Target(s.m, c).Some? ==>
            var a := Target(s.m, c).value;
            && Mapped(r.m, a, c.width) && r.misses == s.misses
            && Load(Bytes(r.m, a, c.width)) == c.v % Weight(c.width)
            && (forall k :: 0 <= k < c.width ==> Bytes(r.m, a, c.width)[k] == c.v / Weight(k) % 256)
            && (forall p :: 0 <= p < |s.m.ram| && p !in Places(s.m, a, c.width) ==> r.m.ram[p] == s.m.ram[p])
            && r.wrote == s.wrote + if Load(Bytes(s.m, a, c.width)) == c.v % Weight(c.width) then 0 else c.width)
  {
    var t := Target(s.m, c);
    if t.Some? {
      var a, b := t.value, Store(c.v, c.width);
      LoadStore(c.v, c.width);
      StoreLoad(Bytes(s.m, a, c.width));
      StoreLoad(b);
      forall k | 0 <= k < c.width ensures b[k] == c.v / Weight(k) % 256 { StoreByte(c.v, c.width, k); }
      PutIsRead(s.m, a, b);
      forall p | 0 <= p < |s.m.ram| && p !in Places(s.m, a, c.width) ensures DoWrite(s, c).m.ram[p] == s.m.ram[p] {
        PutElsewhere(s.m, a, b, p);
      }
    }
  }

  /** An if holds where its address leads to bytes and the number they hold compares; where it leads nowhere it
      does not hold and is a miss. */
  lemma IfTests(s: State, c: Code, x: nat)
    requires c.width <= 4 && (Target(s.m, c).Some? ==> x < Weight(c.width) && Bytes(s.m, Target(s.m, c).value, c.width) == Store(x, c.width))
    ensures var (holds, r) := Test(s, c);
      && r.m == s.m && r.wrote == s.wrote
      && (Target(s.m, c).None? ==> !holds && r.misses == s.misses + 1)
      && (Target(s.m, c).Some? ==> x < WORD && (holds <==> if c.float then CompareFloats(c.cmp, x, c.v) else CompareInts(c.cmp, x, c.v)) && r.misses == s.misses)
  {
    hide CompareFloats, CompareInts, Target, Store, Load, Mapped, Bytes;
    if Target(s.m, c).Some? {
      LoadStore(x, c.width);
      WeightGrows(c.width, 4);
      assert Weight(4) == WORD;
      SmallMod(x, Weight(c.width));
    }
  }

  lemma SmallMod(x: nat, w: nat)
    requires x < w <= WORD
    ensures x % w == x && AsWord(x) == x
  {
    DivIs(x, w, 0, x);
  }

  lemma {:induction false} WeightGrows(k: nat, n: nat)
    requires k <= n
    ensures Weight(k) <= Weight(n)
  {
    if k < n { WeightGrows(k, n - 1); }
  }

  // ---- The flat interpreter ----

  /** An if under way: whether lines ran where it stands, and whether it held. */
  datatype Frame = Frame(outer: bool, taken: bool)

  /** run_one from its ops on. */
  function Run(ops: seq<Op>, active: bool, st: seq<Frame>, s: State): State
    decreases |ops|
  {
    if ops == [] then s
    else
      var rest := ops[1..];
      match ops[0]
      case If(c) =>
        var (taken, s1) := if active then Test(s, c) else (false, s);
        Run(rest, active && taken, st + [Frame(active, taken)], s1)
      case Else =>
        Run(rest, if st != [] then st[|st| - 1].outer && !st[|st| - 1].taken else active, st, s)
      case End =>
        if st != [] then Run(rest, st[|st| - 1].outer, st[..|st| - 1], s) else Run(rest, active, st, s)
      case Write(c) => Run(rest, active, st, if active then DoWrite(s, c) else s)
  }

  // ---- What the lines mean ----

  /** Lines, and ifs with their blocks. */
  datatype Block =
    | Done
    | Line(code: Code, next: Block)
    | Choice(code: Code, arms: Arms, next: Block)

  /** An if's block and the blocks after its elses; the last ends at its end or with the cheat. */
  datatype Arms = Last(body: Block, closed: bool) | More(body: Block, next: Arms)

  /** The first block runs when the if held, all others when it did not. */
  function Eval(b: Block, s: State): State {
    match b
    case Done => s
    case Line(c, next) => Eval(next, DoWrite(s, c))
    case Choice(c, arms, next) =>
      var (taken, s1) := Test(s, c);
      Eval(next, EvalArms(arms, taken, !taken, s1))
  }

  function EvalArms(arms: Arms, runs: bool, others: bool, s: State): State {
    match arms
    case Last(b, _) => if runs then Eval(b, s) else s
    case More(b, next) => EvalArms(next, others, others, if runs then Eval(b, s) else s)
  }

  /** The block the lines start with, and the lines from the else or end that closes it on. */
  function Parse(ops: seq<Op>): (r: (Block, seq<Op>))
    ensures |r.1| <= |ops| && (r.1 == [] || r.1[0].Else? || r.1[0].End?)
    decreases |ops|, 0
  {
    if ops == [] || ops[0].Else? || ops[0].End? then (Done, ops)
    else if ops[0].Write? then
      var (b, rest) := Parse(ops[1..]);
      (Line(ops[0].code, b), rest)
    else
      var (arms, rest) := ParseArms(ops[1..]);
      var (next, last) := Parse(rest);
      (Choice(ops[0].code, arms, next), last)
  }

  function ParseArms(ops: seq<Op>): (r: (Arms, seq<Op>))
    ensures |r.1| <= |ops|
    decreases |ops|, 1
  {
    var (b, rest) := Parse(ops);
    if rest == [] then (Last(b, false), [])
    else if rest[0].End? then (Last(b, true), rest[1..])
    else
      var (next, last) := ParseArms(rest[1..]);
      (More(b, next), last)
  }

  /** A block's lines. */
  function Flat(b: Block): seq<Op> {
    match b
    case Done => []
    case Line(c, next) => [Write(c)] + Flat(next)
    case Choice(c, arms, next) => [If(c)] + FlatArms(arms) + Flat(next)
  }

  function FlatArms(arms: Arms): seq<Op> {
    match arms
    case Last(b, closed) => Flat(b) + if closed then [End] else []
    case More(b, next) => Flat(b) + [Else] + FlatArms(next)
  }

  /** The blocks are the lines, nested. */
  lemma {:induction false} ParseIsNesting(ops: seq<Op>)
    ensures Flat(Parse(ops).0) + Parse(ops).1 == ops
    decreases |ops|, 0
  {
    if ops != [] && ops[0].Write? {
      ParseIsNesting(ops[1..]);
    } else if ops != [] && ops[0].If? {
      ParseArmsIsNesting(ops[1..]);
      var (arms, rest) := ParseArms(ops[1..]);
      ParseIsNesting(rest);
      Nested(ops, FlatArms(arms), Flat(Parse(rest).0), Parse(rest).1, rest);
    }
  }

  lemma Nested(ops: seq<Op>, arms: seq<Op>, next: seq<Op>, last: seq<Op>, rest: seq<Op>)
    requires ops != [] && ops[1..] == arms + rest && rest == next + last
    ensures [ops[0]] + arms + next + last == ops
  {
  }

  lemma {:induction false} ParseArmsIsNesting(ops: seq<Op>)
    ensures FlatArms(ParseArms(ops).0) + ParseArms(ops).1 == ops
    decreases |ops|, 1
  {
    ParseIsNesting(ops);
    var (b, rest) := Parse(ops);
    hide Flat, Parse;
    if rest != [] && rest[0].Else? {
      ParseArmsIsNesting(rest[1..]);
      Armed(ops, Flat(b), FlatArms(ParseArms(rest[1..]).0), ParseArms(rest[1..]).1, rest, Else);
    } else if rest != [] {
      Armed(ops, Flat(b), [], rest[1..], rest, End);
      assert Flat(b) + [End] + [] == Flat(b) + [End];
    } else {
      assert Flat(b) + [] == Flat(b);
    }
  }

  lemma Armed(ops: seq<Op>, body: seq<Op>, arms: seq<Op>, last: seq<Op>, rest: seq<Op>, op: Op)
    requires ops == body + rest && rest != [] && rest[0] == op && rest[1..] == arms + last
    ensures body + [op] + arms + last == ops
  {
  }

  // ---- Accepted lines ----

  /** nc_cheat_line accepts them with `depth` ifs open: else and end close one, and at most 8 nest. */
  predicate Accepts(ops: seq<Op>, depth: nat)
    decreases |ops|
  {
    ops == [] ||
    match ops[0]
    case Write(_) => Accepts(ops[1..], depth)
    case If(_) => depth < DEPTH_MAX && Accepts(ops[1..], depth + 1)
    case Else => depth > 0 && Accepts(ops[1..], depth)
    case End => depth > 0 && Accepts(ops[1..], depth - 1)
  }

  /** After a block its lines leave as many ifs open as before it. */
  lemma {:induction false} ParseAccepts(ops: seq<Op>, depth: nat)
    requires Accepts(ops, depth)
    ensures Accepts(Parse(ops).1, depth)
    decreases |ops|, 0
  {
    if ops != [] && ops[0].Write? {
      ParseAccepts(ops[1..], depth);
    } else if ops != [] && ops[0].If? {
      ParseArmsAccepts(ops[1..], depth + 1);
      ParseAccepts(ParseArms(ops[1..]).1, depth);
    }
  }

  lemma {:induction false} ParseArmsAccepts(ops: seq<Op>, depth: nat)
    requires Accepts(ops, depth) && depth > 0
    ensures Accepts(ParseArms(ops).1, depth - 1)
    decreases |ops|, 1
  {
    ParseAccepts(ops, depth);
    var rest := Parse(ops).1;
    if rest != [] && rest[0].Else? { ParseArmsAccepts(rest[1..], depth); }
  }

  // ---- The two agree ----

  /** A block's lines run as the block does, where lines run, and do nothing where they don't. */
  lemma {:induction false} BlockRuns(ops: seq<Op>, active: bool, st: seq<Frame>, s: State)
    ensures var (b, rest) := Parse(ops); Run(ops, active, st, s) == Run(rest, active, st, if active then Eval(b, s) else s)
    decreases |ops|, 0
  {
    if ops == [] || ops[0].Else? || ops[0].End? {
    } else if ops[0].Write? {
      BlockRuns(ops[1..], active, st, if active then DoWrite(s, ops[0].code) else s);
    } else {
      var c := ops[0].code;
      var (taken, s1) := if active then Test(s, c) else (false, s);
      ArmsRun(ops[1..], active, taken, st, s1, active && taken);
      var (arms, rest) := ParseArms(ops[1..]);
      BlockRuns(rest, active, st, if active then EvalArms(arms, taken, !taken, s1) else s1);
    }
  }

  /** An if's blocks, from one that runs or doesn't on: back to how it was outside. */
  lemma {:induction false} ArmsRun(ops: seq<Op>, outer: bool, taken: bool, st: seq<Frame>, s: State, runs: bool)
    requires runs ==> outer
    ensures var (arms, rest) := ParseArms(ops);
      Run(ops, runs, st + [Frame(outer, taken)], s) ==
      Run(rest, outer, st, if outer then EvalArms(arms, runs, !taken, s) else s)
    decreases |ops|, 1
  {
    var st1 := st + [Frame(outer, taken)];
    BlockRuns(ops, runs, st1, s);
    var (b, rest) := Parse(ops);
    var s1 := if runs then Eval(b, s) else s;
    assert st1[..|st1| - 1] == st;
    if rest != [] && rest[0].Else? {
      ArmsRun(rest[1..], outer, taken, st, s1, outer && !taken);
    }
  }

  /** For any cheat whose every line was accepted, the flat run is the nested blocks': the same memory,
      bytes written and misses. */
  lemma FlatIsNested(ops: seq<Op>, s: State)
    requires Accepts(ops, 0)
    ensures Parse(ops).1 == [] && Run(ops, true, [], s) == Eval(Parse(ops).0, s)
  {
    ParseAccepts(ops, 0);
    BlockRuns(ops, true, [], s);
  }

  // ---- What an if chooses ----

  /** Every if inside has its end. */
  predicate Closed(b: Block) {
    match b
    case Done => true
    case Line(_, next) => Closed(next)
    case Choice(_, arms, next) => ClosedArms(arms) && Closed(next)
  }

  predicate ClosedArms(arms: Arms) {
    match arms
    case Last(b, closed) => closed && Closed(b)
    case More(b, next) => Closed(b) && ClosedArms(next)
  }

  /** Writing closed blocks out and nesting the lines gives the blocks back. */
  lemma {:induction false} ParseFlat(b: Block, rest: seq<Op>)
    requires Closed(b) && (rest == [] || rest[0].Else? || rest[0].End?)
    ensures Parse(Flat(b) + rest) == (b, rest)
    decreases b
  {
    match b
    case Done => assert Flat(b) + rest == rest;
    case Line(c, next) =>
      ParseFlat(next, rest);
      assert (Flat(b) + rest)[1..] == Flat(next) + rest;
    case Choice(c, arms, next) =>
      ParseFlat(next, rest);
      ParseFlatArms(arms, Flat(next) + rest);
      Opened(c, FlatArms(arms), Flat(next), rest);
  }

  lemma Opened(c: Code, arms: seq<Op>, next: seq<Op>, rest: seq<Op>)
    ensures var ops := [If(c)] + arms + next + rest; ops[0] == If(c) && ops[1..] == arms + (next + rest)
  {
  }

  lemma {:induction false} ParseFlatArms(arms: Arms, rest: seq<Op>)
    requires ClosedArms(arms)
    ensures ParseArms(FlatArms(arms) + rest) == (arms, rest)
    decreases arms
  {
    match arms
    case Last(b, _) =>
      ParseFlat(b, [End] + rest);
      assert FlatArms(arms) + rest == Flat(b) + ([End] + rest);
    case More(b, next) =>
      ParseFlatArms(next, rest);
      ParseFlat(b, [Else] + (FlatArms(next) + rest));
      assert FlatArms(arms) + rest == Flat(b) + ([Else] + (FlatArms(next) + rest));
  }

  lemma FlatRuns(b: Block, s: State)
    requires Closed(b)
    ensures Run(Flat(b), true, [], s) == Eval(b, s)
  {
    ParseFlat(b, []);
    assert Flat(b) + [] == Flat(b);
    BlockRuns(Flat(b), true, [], s);
  }

  /** Of an if's lines and its else's exactly the ones it chooses run, whatever ifs are in them; then the lines
      after its end. */
  lemma ExactlyOneRuns(c: Code, yes: Block, no: Block, after: Block, s: State)
    requires Closed(yes) && Closed(no) && Closed(after)
    ensures var (holds, s1) := Test(s, c);
      Run([If(c)] + Flat(yes) + [Else] + Flat(no) + [End] + Flat(after), true, [], s) ==
      Run(Flat(after), true, [], Run(Flat(if holds then yes else no), true, [], s1))
  {
    var b := Choice(c, More(yes, Last(no, true)), after);
    assert FlatArms(More(yes, Last(no, true))) == Flat(yes) + [Else] + (Flat(no) + [End]);
    assert [If(c)] + Flat(yes) + [Else] + Flat(no) + [End] + Flat(after) == Flat(b) by {
      hide Flat;
      assert [If(c)] + Flat(yes) + [Else] + Flat(no) + [End] + Flat(after) == [If(c)] + (Flat(yes) + [Else] + (Flat(no) + [End])) + Flat(after);
    }
    hide Run, Parse, Test;
    FlatRuns(b, s);
    var (holds, s1) := Test(s, c);
    FlatRuns(yes, s1);
    FlatRuns(no, s1);
    var ran := if holds then Eval(yes, s1) else Eval(no, s1);
    assert EvalArms(Last(no, true), !holds, !holds, if holds then Eval(yes, s1) else s1) == ran;
    FlatRuns(after, ran);
  }

  /** Without an else, the lines run where the if holds. */
  lemma RunsOnlyIf(c: Code, yes: Block, after: Block, s: State)
    requires Closed(yes) && Closed(after)
    ensures var (holds, s1) := Test(s, c);
      Run([If(c)] + Flat(yes) + [End] + Flat(after), true, [], s) ==
      Run(Flat(after), true, [], if holds then Run(Flat(yes), true, [], s1) else s1)
  {
    var b := Choice(c, Last(yes, true), after);
    assert [If(c)] + Flat(yes) + [End] + Flat(after) == Flat(b);
    FlatRuns(b, s);
    var (holds, s1) := Test(s, c);
    FlatRuns(yes, s1);
    FlatRuns(after, if holds then Eval(yes, s1) else s1);
  }

  /** Lines one after the other. */
  lemma {:induction false} LinesRunInOrder(c: Code, after: Block, s: State)
    requires Closed(after)
    ensures Run([Write(c)] + Flat(after), true, [], s) == Run(Flat(after), true, [], DoWrite(s, c))
  {
    FlatRuns(Line(c, after), s);
    FlatRuns(after, DoWrite(s, c));
  }

  // ---- Taking lines ----

  const OPS_MAX: nat := 8192

  /** nc_cheat_line past its parsing: `extra` where text follows the line, `others` the lines of the cheats
      before, which share the table.  The depth moves before that text is seen. */
  function Added(ops: seq<Op>, others: nat, depth: nat, op: Op, extra: bool): (seq<Op>, nat, bool) {
    if others + |ops| >= OPS_MAX || ((op.Else? || op.End?) && depth == 0) || (op.If? && depth >= DEPTH_MAX) then (ops, depth, false)
    else
      var d := if op.End? then depth - 1 else if op.If? then depth + 1 else depth;
      if extra then (ops, d, false) else (ops + [op], d, true)
  }

  /** The ifs open after the lines. */
  function DepthAfter(ops: seq<Op>, depth: nat): int
    decreases |ops|
  {
    if ops == [] then depth
    else
      var d := if ops[0].End? then depth - 1 else if ops[0].If? then depth + 1 else depth;
      if d < 0 then -1 else DepthAfter(ops[1..], d)
  }

  lemma {:induction false} AcceptsMore(ops: seq<Op>, op: Op, depth: nat)
    requires Accepts(ops, depth)
    ensures var d := DepthAfter(ops, depth);
      && d >= 0 && (Accepts(ops + [op], depth) <==> !((op.Else? || op.End?) && d == 0) && !(op.If? && d >= DEPTH_MAX))
      && (Accepts(ops + [op], depth) ==>
            DepthAfter(ops + [op], depth) == if op.End? then d - 1 else if op.If? then d + 1 else d)
    decreases |ops|
  {
    if ops == [] {
      assert ([] + [op])[1..] == [];
    } else {
      assert (ops + [op])[1..] == ops[1..] + [op];
      AcceptsMore(ops[1..], op, if ops[0].End? then depth - 1 else if ops[0].If? then depth + 1 else depth);
    }
  }

  /** An else, end or if that moves the depth and is then rejected for the text after it. */
  predicate MovesAndRejects(ops: seq<Op>, others: nat, depth: nat, op: Op, extra: bool) {
    extra && others + |ops| < OPS_MAX && ((op.End? && depth > 0) || (op.If? && depth < DEPTH_MAX))
  }

  /** A line keeps the lines ones the run's stack fits, and the depth theirs, exactly when it is not
      rejected after it moved the depth. */
  lemma AddedExactly(ops: seq<Op>, others: nat, op: Op, extra: bool)
    requires Accepts(ops, 0)
    ensures DepthAfter(ops, 0) >= 0
    ensures var d := DepthAfter(ops, 0); var (r, e, ok) := Added(ops, others, d, op, extra);
      && (Accepts(r, 0) && e == DepthAfter(r, 0) <==> !MovesAndRejects(ops, others, d, op, extra))
      && r == (if ok then ops + [op] else ops)
  {
    AcceptsMore(ops, op, 0);
  }

  /** A cheat's lines and which have text after them: what is kept of them, and the depth. */
  function Taken(lines: seq<(Op, bool)>, others: nat): (seq<Op>, nat) {
    if lines == [] then ([], 0)
    else
      var (ops, depth) := Taken(lines[..|lines| - 1], others);
      var (r, d, ok) := Added(ops, others, depth, lines[|lines| - 1].0, lines[|lines| - 1].1);
      (r, d)
  }

  /** No line was rejected after it moved the depth. */
  predicate Clean(lines: seq<(Op, bool)>, others: nat) {
    lines == [] ||
    (var last := |lines| - 1;
     var (ops, depth) := Taken(lines[..last], others);
     Clean(lines[..last], others) && !MovesAndRejects(ops, others, depth, lines[last].0, lines[last].1))
  }

  /** However a clean cheat's lines come, accepted or refused, those kept are ones the run's stack fits. */
  lemma {:induction false} CleanIsAccepted(lines: seq<(Op, bool)>, others: nat)
    requires Clean(lines, others)
    ensures Accepts(Taken(lines, others).0, 0) && Taken(lines, others).1 == DepthAfter(Taken(lines, others).0, 0)
  {
    if lines != [] {
      var last := |lines| - 1;
      CleanIsAccepted(lines[..last], others);
      AddedExactly(Taken(lines[..last], others).0, others, lines[last].0, lines[last].1);
    }
  }

  lemma {:induction false} AcceptsLess(ops: seq<Op>, op: Op, depth: nat)
    requires Accepts(ops + [op], depth)
    ensures Accepts(ops, depth)
    decreases |ops|
  {
    if ops != [] {
      assert (ops + [op])[1..] == ops[1..] + [op];
      AcceptsLess(ops[1..], op, if ops[0].End? then depth - 1 else if ops[0].If? then depth + 1 else depth);
    }
  }

  function Plain(ops: seq<Op>): seq<(Op, bool)> { seq(|ops|, i requires 0 <= i < |ops| => (ops[i], false)) }

  /** A cheat of right lines that the table has room for is kept whole. */
  lemma {:induction false} RightIsKept(ops: seq<Op>, others: nat)
    requires Accepts(ops, 0) && others + |ops| <= OPS_MAX
    ensures Taken(Plain(ops), others) == (ops, DepthAfter(ops, 0)) && DepthAfter(ops, 0) >= 0
    decreases |ops|
  {
    if ops != [] {
      var last := |ops| - 1;
      assert ops[..last] + [ops[last]] == ops;
      AcceptsLess(ops[..last], ops[last], 0);
      RightIsKept(ops[..last], others);
      AcceptsMore(ops[..last], ops[last], 0);
      assert Plain(ops)[..last] == Plain(ops[..last]);
    }
  }

  /** run_one's stack has room for every if the lines open, from sp open ones on; an else or end with
      none open does nothing to it. */
  predicate Fits(ops: seq<Op>, sp: nat)
    decreases |ops|
  {
    ops == [] ||
    match ops[0]
    case Write(_) => Fits(ops[1..], sp)
    case If(_) => sp < DEPTH_MAX && Fits(ops[1..], sp + 1)
    case Else => Fits(ops[1..], sp)
    case End => Fits(ops[1..], if sp > 0 then sp - 1 else 0)
  }

  lemma {:induction false} AcceptedFits(ops: seq<Op>, sp: nat)
    requires Accepts(ops, sp)
    ensures Fits(ops, sp)
    decreases |ops|
  {
    if ops != [] {
      AcceptedFits(ops[1..], if ops[0].End? then sp - 1 else if ops[0].If? then sp + 1 else sp);
    }
  }

  function Ifs(n: nat, c: Code): seq<Op> { seq(n, _ => If(c)) }

  lemma {:induction false} IfsFit(n: nat, c: Code, sp: nat)
    ensures Fits(Ifs(n, c), sp) <==> n == 0 || sp + n <= DEPTH_MAX
    ensures Accepts(Ifs(n, c), sp) <==> n == 0 || sp + n <= DEPTH_MAX
    ensures Accepts(Ifs(n, c), sp) ==> DepthAfter(Ifs(n, c), sp) == sp + n
    decreases n
  {
    if n > 0 {
      assert Ifs(n, c)[1..] == Ifs(n - 1, c);
      IfsFit(n - 1, c, sp + 1);
    }
  }

  /** With eight ifs open, an end rejected for its extra text makes room for a ninth if that the run's
      stack has none for. */
  lemma RejectedEndOverflows(c: Code, d: Code, others: nat)
    requires others + 8 < OPS_MAX
    ensures Accepts(Ifs(8, c), 0) && DepthAfter(Ifs(8, c), 0) == 8
    ensures var (a, depth, first) := Added(Ifs(8, c), others, 8, End, true); var (b, e, second) := Added(a, others, depth, If(d), false);
      !first && second && b == Ifs(8, c) + [If(d)] && !Accepts(b, 0) && !Fits(b, 0)
  {
    IfsFit(8, c, 0);
    NinthDoesNotFit(8, c, d, 0);
    var (a, depth, first) := Added(Ifs(8, c), others, 8, End, true);
    var b := Ifs(8, c) + [If(d)];
    if Accepts(b, 0) { AcceptedFits(b, 0); }
  }

  lemma {:induction false} NinthDoesNotFit(n: nat, c: Code, d: Code, sp: nat)
    requires sp + n == DEPTH_MAX
    ensures !Fits(Ifs(n, c) + [If(d)], sp)
    decreases n
  {
    var b := Ifs(n, c) + [If(d)];
    if n > 0 {
      assert b[1..] == Ifs(n - 1, c) + [If(d)];
      NinthDoesNotFit(n - 1, c, d, sp + 1);
    }
  }

  /** An if rejected for its extra text leaves an if open that is not there: its end is then accepted. */
  lemma RejectedIfStaysOpen(c: Code, others: nat)
    requires others < OPS_MAX
    ensures var (a, d, first) := Added([], others, 0, If(c), true); var (b, e, second) := Added(a, others, d, End, false);
      !first && second && b == [End] && !Accepts(b, 0) && Fits(b, 0)
  {
  }

  // ---- In place ----

  /** The guest's RAM, through its mapping. */
  class Guest {
    const ram: array<Byte>
    const at: map<Word, nat>

    ghost function M(): Memory
      reads ram
    {
      Memory(ram[..], at)
    }

    constructor (size: nat, mapping: map<Word, nat>)
      ensures M() == Memory(seq(size, _ => 0), mapping) && fresh(ram)
    {
      ram := new Byte[size](_ => 0);
      at := mapping;
    }

    /** mem_read. */
    method Fetch(a: Word, n: nat) returns (r: Option<seq<Byte>>)
      ensures r.Some? <==> Mapped(M(), a, n)
      ensures r.Some? ==> r.value == Bytes(M(), a, n)
      decreases n
    {
      if n == 0 {
        return Some([]);
      }
      if a !in at || at[a] >= ram.Length {
        return None;
      }
      var rest := Fetch(Next(a), n - 1);
      return if rest.Some? then Some([ram[at[a]]] + rest.value) else None;
    }

    /** mem_write of mapped bytes. */
    method PutBytes(a: Word, b: seq<Byte>)
      requires Mapped(M(), a, |b|)
      modifies ram
      ensures M() == Put(old(M()), a, b)
    {
      var x, i := a, 0;
      while i < |b|
        invariant i <= |b| && Mapped(M(), x, |b| - i) && Put(M(), x, b[i..]) == Put(old(M()), a, b)
      {
        ghost var m0 := M();
        assert b[i..][1..] == b[i + 1..];
        ram[at[x]] := b[i];
        StillMapped(m0, M(), Next(x), |b| - i - 1);
        assert M() == m0.(ram := m0.ram[at[x] := b[i]]);
        x, i := Next(x), i + 1;
      }
    }

    /** resolve. */
    method Find(addr: Addr) returns (r: Option<Word>)
      ensures r == Resolve(M(), addr.base, addr.offs)
    {
      hide Follow;
      var x: Word := addr.base;
      for i := 0 to |addr.offs|
        invariant Resolve(M(), addr.base, addr.offs) == Resolve(M(), x, addr.offs[i..])
      {
        assert addr.offs[i..][1..] == addr.offs[i + 1..];
        var y := Step(x, addr.offs[i]);
        if y.None? {
          return None;
        }
        x := y.value;
      }
      return Some(x);
    }

    method Step(x: Word, off: int) returns (r: Option<Word>)
      ensures r == Follow(M(), x, off)
    {
      var b := Fetch(x, 4);
      if b.None? {
        return None;
      }
      var ptr := Load(b.value);
      return if ptr == 0 then None else Some((ptr + off) % WORD);
    }
  }

  /** A cheat: its lines, and its counters. */
  class Cheat {
    var ops: seq<Op>
    var depth: nat
    var misses: nat

    constructor ()
      ensures ops == [] && depth == 0 && misses == 0
    {
      ops, depth, misses := [], 0, 0;
    }

    method AddLine(others: nat, op: Op, extra: bool) returns (ok: bool)
      modifies this`ops, this`depth
      ensures (ops, depth, ok) == Added(old(ops), others, old(depth), op, extra)
    {
      if others + |ops| >= OPS_MAX {
        return false;
      }
      if op.Else? || op.End? {
        if depth == 0 {
          return false;
        }
        depth := if op.End? then depth - 1 else depth;
      } else if op.If? {
        if depth >= DEPTH_MAX {
          return false;
        }
        depth := depth + 1;
      }
      if extra {
        return false;
      }
      ops := ops + [op];
      return true;
    }

    /** An if's test, where lines run. */
    method Holds(g: Guest, c: Code, active: bool, ghost wrote: nat) returns (taken: bool)
      modifies this`misses
      ensures (taken, State(g.M(), wrote, misses)) ==
              if active then Test(State(g.M(), wrote, old(misses)), c) else (false, State(g.M(), wrote, old(misses)))
    {
      taken := false;
      if active {
        var a := g.Find(c.addr);
        var b: Option<seq<Byte>> := None;
        if a.Some? {
          b := g.Fetch(a.value, c.width);
        }
        if b.Some? {
          taken := Compare(c, AsWord(Load(b.value)));
        } else {
          misses := misses + 1;
        }
      }
    }

    /** A write, where lines run. */
    method Poke(g: Guest, c: Code, active: bool, wrote: nat) returns (now: nat)
      modifies this`misses, g.ram
      ensures State(g.M(), now, misses) ==
              if active then DoWrite(State(old(g.M()), wrote, old(misses)), c) else State(old(g.M()), wrote, old(misses))
    {
      now := wrote;
      if active {
        var a := g.Find(c.addr);
        var cur: Option<seq<Byte>> := None;
        if a.Some? {
          cur := g.Fetch(a.value, c.width);
        }
        if cur.None? {
          misses := misses + 1;
        } else if cur.value != Store(c.v, c.width) {
          g.PutBytes(a.value, Store(c.v, c.width));
          now := wrote + c.width;
        }
      }
    }

    /** run_one of lines whose ifs the stack has room for; of accepted ones the result is the nested blocks'. */
    method RunOne(g: Guest) returns (wrote: nat)
      requires Fits(ops, 0)
      modifies this`misses, g.ram
      ensures State(g.M(), wrote, misses) == Run(ops, true, [], State(old(g.M()), 0, old(misses)))
      ensures Accepts(ops, 0) ==> State(g.M(), wrote, misses) == Eval(Parse(ops).0, State(old(g.M()), 0, old(misses)))
    {
      ghost var s0 := State(g.M(), 0, misses);
      if Accepts(ops, 0) { FlatIsNested(ops, s0); }
      var st := new Frame[DEPTH_MAX](_ => Frame(false, false));
      var sp: nat := 0;
      var active := true;
      wrote := 0;
      hide Test, DoWrite, Eval, Parse, Run, Accepts, Fits;
      assert ops[0..] == ops;
      for i := 0 to |ops|
        invariant sp <= DEPTH_MAX && Fits(ops[i..], sp)
        invariant Run(ops, true, [], s0) == Run(ops[i..], active, st[..sp], State(g.M(), wrote, misses))
      {
        assert ops[i..][1..] == ops[i + 1..];
        sp, active, wrote := RunLine(g, st, sp, active, wrote, ops[i..]);
      }
      RunUnfolds(ops[|ops|..], active, st[..sp], State(g.M(), wrote, misses));
    }

    /** The switch of its loop, on the first of the lines left. */
    method RunLine(g: Guest, st: array<Frame>, sp: nat, active: bool, wrote: nat, left: seq<Op>)
      returns (sp1: nat, active1: bool, wrote1: nat)
      requires st.Length == DEPTH_MAX && sp <= DEPTH_MAX && left != [] && Fits(left, sp)
      modifies this`misses, g.ram, st
      ensures sp1 <= DEPTH_MAX && Fits(left[1..], sp1)
      ensures Run(left, active, old(st[..sp]), State(old(g.M()), wrote, old(misses))) ==
              Run(left[1..], active1, st[..sp1], State(g.M(), wrote1, misses))
    {
      hide Test, DoWrite, Run, Fits;
      ghost var s := State(g.M(), wrote, misses);
      ghost var frames := st[..sp];
      RunUnfolds(left, active, frames, s);
      FitsUnfolds(left, sp);
      sp1, active1, wrote1 := sp, active, wrote;
      match left[0] {
        case If(c) =>
          var taken := Holds(g, c, active, wrote);
          Push(st, sp, Frame(active, taken));
          sp1, active1 := sp + 1, active && taken;
        case Else =>
          if sp > 0 {
            active1 := st[sp - 1].outer && !st[sp - 1].taken;
          }
        case End =>
          if sp > 0 {
            sp1, active1 := sp - 1, st[sp - 1].outer;
            assert st[..sp1] == frames[..|frames| - 1];
          }
        case Write(c) =>
          wrote1 := Poke(g, c, active, wrote);
      }
    }
  }

  method Push(st: array<Frame>, sp: nat, f: Frame)
    requires sp < st.Length
    modifies st
    ensures st[..sp + 1] == old(st[..sp]) + [f]
  {
    st[sp] := f;
  }

  lemma FitsUnfolds(ops: seq<Op>, sp: nat)
    requires ops != [] && Fits(ops, sp)
    ensures match ops[0]
      case Write(_) => Fits(ops[1..], sp)
      case If(_) => sp < DEPTH_MAX && Fits(ops[1..], sp + 1)
      case Else => Fits(ops[1..], sp)
      case End => Fits(ops[1..], if sp > 0 then sp - 1 else 0)
  {
  }

  lemma RunUnfolds(ops: seq<Op>, active: bool, st: seq<Frame>, s: State)
    ensures ops == [] ==> Run(ops, active, st, s) == s
    ensures ops != [] && st != [] ==> match ops[0]
      case If(_) => true
      case Write(_) => true
      case Else => Run(ops, active, st, s) == Run(ops[1..], st[|st| - 1].outer && !st[|st| - 1].taken, st, s)
      case End => Run(ops, active, st, s) == Run(ops[1..], st[|st| - 1].outer, st[..|st| - 1], s)
    ensures ops != [] && st == [] && (ops[0].Else? || ops[0].End?) ==> Run(ops, active, st, s) == Run(ops[1..], active, st, s)
    ensures ops != [] && ops[0].If? ==>
      var (taken, s1) := if active then Test(s, ops[0].code) else (false, s);
      Run(ops, active, st, s) == Run(ops[1..], active && taken, st + [Frame(active, taken)], s1)
    ensures ops != [] && ops[0].Write? ==>
      Run(ops, active, st, s) == Run(ops[1..], active, st, if active then DoWrite(s, ops[0].code) else s)
  {
  }
}
