/** RtlEnterCriticalSection and RtlLeaveCriticalSection as the x86 code the kernel installs
  (native/kernel/kernel.c, install_fast_paths), run uninterrupted, against the kernel functions
  (native/kernel/ke.c).  Words are 32 bits and wrap.
  */
module FastPath {
  import CriticalSection
  import Dispatcher

  const WORD: int := 0x1_0000_0000
  const SIGN: int := 0x8000_0000

  type Word = x: int | 0 <= x < 0x1_0000_0000

  /** LockCount at 0x10, RecursionCount at 0x14, OwningThread at 0x18. */
  datatype Words = Words(lock: Word, recursion: Word, owner: Word)

  function Add(x: Word, d: int): Word { (x + d) % WORD }

  // ---- The kernel functions on the words ----

  /** Entered, or the thread has to wait for the event. */
  datatype Entered = Entered(w: Words, blocks: bool)

  function KernelEnter(w: Words, me: Word): Entered {
    var lock := Add(w.lock, 1);
    if lock == 0 then Entered(Words(lock, 1, me), false)
    else if w.owner == me then Entered(Words(lock, Add(w.recursion, 1), w.owner), false)
    else Entered(w.(lock := lock), true)
  }

  /** Left; the event is set where threads wait. */
  datatype Left = Left(w: Words, signals: bool)

  function KernelLeave(w: Words): Left {
    var rec, lock := Add(w.recursion, -1), Add(w.lock, -1);
    if rec != 0 then Left(Words(lock, rec, w.owner), false)
    else Left(Words(lock, 0, 0), lock < SIGN)
  }

  // ---- The installed bytes ----

  /** Code, one instruction's bytes at a time. */
  datatype Code = End | Then(bytes: seq<int>, rest: Code)

  function Length(code: Code): nat {
    match code
    case End => 0
    case Then(b, rest) => |b| + Length(rest)
  }

  /** The instruction that starts at byte pc, if one does. */
  function BytesAt(code: Code, pc: nat): seq<int> {
    match code
    case End => []
    case Then(b, rest) => if pc == 0 then b else if pc < |b| then [] else BytesAt(rest, pc - |b|)
  }

  /** RtlEnterCriticalSection up to the first jump. */
  function EnterCode(): Code {
    Then([0x8B, 0x4C, 0x24, 0x04], Then([0x64, 0x8B, 0x15, 0x28, 0x00, 0x00, 0x00], Then([0xF0, 0xFF, 0x41, 0x10], Then([0x75, 0x0D], EnterFree()))))
  }

  /** The section was free. */
  function EnterFree(): Code {
    Then([0x89, 0x51, 0x18], Then([0xC7, 0x41, 0x14, 0x01, 0x00, 0x00, 0x00], Then([0xC2, 0x04, 0x00], EnterOwned())))
  }

  /** It was taken: by this thread? */
  function EnterOwned(): Code {
    Then([0x39, 0x51, 0x18], Then([0x75, 0x06], Then([0xFF, 0x41, 0x14], Then([0xC2, 0x04, 0x00], EnterBack()))))
  }

  /** It was not: back out for the kernel call that follows. */
  function EnterBack(): Code {
    Then([0xF0, 0xFF, 0x49, 0x10], End)
  }

  /** RtlLeaveCriticalSection up to the first jump. */
  function LeaveCode(): Code {
    Then([0x8B, 0x4C, 0x24, 0x04], Then([0xFF, 0x49, 0x14], Then([0x75, 0x10], LeaveLast())))
  }

  /** The last leave. */
  function LeaveLast(): Code {
    Then([0xC7, 0x41, 0x18, 0x00, 0x00, 0x00, 0x00], Then([0xF0, 0xFF, 0x49, 0x10], Then([0x7D, 0x0A], Then([0xC2, 0x04, 0x00], LeaveAgain()))))
  }

  /** Still entered. */
  function LeaveAgain(): Code {
    Then([0xF0, 0xFF, 0x49, 0x10], Then([0xC2, 0x04, 0x00], LeaveBack()))
  }

  /** Threads wait: back out for the kernel call that follows. */
  function LeaveBack(): Code {
    Then([0xF0, 0xFF, 0x41, 0x10], Then([0x64, 0x8B, 0x15, 0x28, 0x00, 0x00, 0x00], Then([0x89, 0x51, 0x18], Then([0xC7, 0x41, 0x14, 0x01, 0x00, 0x00, 0x00], End))))
  }

  datatype Field = LockField | RecursionField | OwnerField

  datatype Instr =
    | LoadSection                       // mov ecx, [esp+4]
    | LoadThread                        // mov edx, fs:[0x28]
    | Inc(f: Field)
    | Dec(f: Field)
    | StoreThread(f: Field)             // mov [ecx+f], edx
    | StoreConst(f: Field, v: Word)     // mov dword [ecx+f], v
    | CompareThread(f: Field)           // cmp [ecx+f], edx
    | JumpNotZero(rel: nat)
    | JumpNotLess(rel: nat)             // jge
    | Return
    | Bad

  function FieldAt(disp: int): Field {
    if disp == 0x10 then LockField else if disp == 0x14 then RecursionField else OwnerField
  }

  function Decode(b: seq<int>): Instr {
    if b == [0x8B, 0x4C, 0x24, 0x04] then LoadSection
    else if b == [0x64, 0x8B, 0x15, 0x28, 0x00, 0x00, 0x00] then LoadThread
    else if |b| == 4 && b[0] == 0xF0 && b[1] == 0xFF && b[2] == 0x41 then Inc(FieldAt(b[3]))
    else if |b| == 4 && b[0] == 0xF0 && b[1] == 0xFF && b[2] == 0x49 then Dec(FieldAt(b[3]))
    else if |b| == 3 && b[0] == 0xFF && b[1] == 0x41 then Inc(FieldAt(b[2]))
    else if |b| == 3 && b[0] == 0xFF && b[1] == 0x49 then Dec(FieldAt(b[2]))
    else if |b| == 3 && b[0] == 0x89 && b[1] == 0x51 then StoreThread(FieldAt(b[2]))
    else if |b| == 7 && b[0] == 0xC7 && b[1] == 0x41 && 0 <= b[3] < 0x100 then StoreConst(FieldAt(b[2]), b[3])
    else if |b| == 3 && b[0] == 0x39 && b[1] == 0x51 then CompareThread(FieldAt(b[2]))
    else if |b| == 2 && b[0] == 0x75 && 0 <= b[1] < 0x80 then JumpNotZero(b[1])
    else if |b| == 2 && b[0] == 0x7D && 0 <= b[1] < 0x80 then JumpNotLess(b[1])
    else if b == [0xC2, 0x04, 0x00] then Return
    else Bad
  }

  // ---- The machine ----

  datatype Cpu = Cpu(w: Words, edx: Word, zero: bool, sign: bool, overflow: bool)

  function Read(w: Words, f: Field): Word {
    match f
    case LockField => w.lock
    case RecursionField => w.recursion
    case OwnerField => w.owner
  }

  function Write(w: Words, f: Field, v: Word): Words {
    match f
    case LockField => w.(lock := v)
    case RecursionField => w.(recursion := v)
    case OwnerField => w.(owner := v)
  }

  /** inc and dec set the flags by their result; overflow at the sign's change. */
  function Counted(m: Cpu, f: Field, d: int): Cpu {
    var r := Add(Read(m.w, f), d);
    m.(w := Write(m.w, f, r), zero := r == 0, sign := r >= SIGN,
       overflow := if d == 1 then r == SIGN else r == SIGN - 1)
  }

  /** After counting up or down, the flags compare the count as a signed number that has not wrapped. */
  lemma FlagsCompareSigned(m: Cpu, f: Field, d: int)
    requires d == 1 || d == -1
    ensures var r := Counted(m, f, d); var before := Read(m.w, f);
      && (r.sign == r.overflow <==> (if before < SIGN then before else before - 2 * SIGN) + d >= 0)
      && (r.zero <==> Read(r.w, f) == 0) && Read(r.w, f) == (before + d) % (2 * SIGN)
  {
  }

  /** How the code ends: returned to the caller, or fell through to the kernel call after it. */
  datatype Outcome = Returned(w: Words) | KernelCall(w: Words) | Stuck

  function Exec(code: Code, pc: nat, m: Cpu, me: Word, fuel: nat): Outcome
    decreases fuel
  {
    if pc == Length(code) then KernelCall(m.w)
    else if fuel == 0 then Stuck
    else
      var n := |BytesAt(code, pc)|;
      match Decode(BytesAt(code, pc))
      case LoadSection => Exec(code, pc + n, m, me, fuel - 1)
      case LoadThread => Exec(code, pc + n, m.(edx := me), me, fuel - 1)
      case Inc(f) => Exec(code, pc + n, Counted(m, f, 1), me, fuel - 1)
      case Dec(f) => Exec(code, pc + n, Counted(m, f, -1), me, fuel - 1)
      case StoreThread(f) => Exec(code, pc + n, m.(w := Write(m.w, f, m.edx)), me, fuel - 1)
      case StoreConst(f, v) => Exec(code, pc + n, m.(w := Write(m.w, f, v)), me, fuel - 1)
      case CompareThread(f) => Exec(code, pc + n, m.(zero := Read(m.w, f) == m.edx), me, fuel - 1)
      case JumpNotZero(rel) => Exec(code, if m.zero then pc + n else pc + n + rel, m, me, fuel - 1)
      case JumpNotLess(rel) => Exec(code, if m.sign == m.overflow then pc + n + rel else pc + n, m, me, fuel - 1)
      case Return => Returned(m.w)
      case Bad => Stuck
  }

  const STEPS: nat := 16

  /** The whole call: what the guest code leaves, and the kernel's part where it calls it. */
  function FastEnter(m: Cpu, me: Word): Entered {
    match Exec(EnterCode(), 0, m, me, STEPS)
    case Returned(w) => Entered(w, false)
    case KernelCall(w) => KernelEnter(w, me)
    case Stuck => Entered(m.w, true)
  }

  function FastLeave(m: Cpu, me: Word): Left {
    match Exec(LeaveCode(), 0, m, me, STEPS)
    case Returned(w) => Left(w, false)
    case KernelCall(w) => KernelLeave(w)
    case Stuck => Left(m.w, true)
  }

  // ---- Refinement ----

  predicate At(code: Code, pc: nat, i: Instr, n: nat) {
    Decode(BytesAt(code, pc)) == i && |BytesAt(code, pc)| == n
  }

  lemma Decoded()
    ensures Decode([0x8B, 0x4C, 0x24, 0x04]) == LoadSection
    ensures Decode([0x64, 0x8B, 0x15, 0x28, 0x00, 0x00, 0x00]) == LoadThread
    ensures Decode([0xF0, 0xFF, 0x41, 0x10]) == Inc(LockField)
    ensures Decode([0x75, 0x0D]) == JumpNotZero(13)
    ensures Decode([0x89, 0x51, 0x18]) == StoreThread(OwnerField)
    ensures Decode([0xC7, 0x41, 0x14, 0x01, 0x00, 0x00, 0x00]) == StoreConst(RecursionField, 1)
    ensures Decode([0xC2, 0x04, 0x00]) == Return
    ensures Decode([0x39, 0x51, 0x18]) == CompareThread(OwnerField)
    ensures Decode([0x75, 0x06]) == JumpNotZero(6)
    ensures Decode([0xFF, 0x41, 0x14]) == Inc(RecursionField)
    ensures Decode([0xF0, 0xFF, 0x49, 0x10]) == Dec(LockField)
    ensures Decode([0xFF, 0x49, 0x14]) == Dec(RecursionField)
    ensures Decode([0x75, 0x10]) == JumpNotZero(16)
    ensures Decode([0xC7, 0x41, 0x18, 0x00, 0x00, 0x00, 0x00]) == StoreConst(OwnerField, 0)
    ensures Decode([0x7D, 0x0A]) == JumpNotLess(10)
  {
  }

  lemma EnterBackBytes()
    ensures BytesAt(EnterBack(), 0) == [0xF0, 0xFF, 0x49, 0x10]
    ensures Length(EnterBack()) == 4
  {
    var c := EnterBack();
  }

  lemma EnterOwnedBytes(pc: nat)
    ensures BytesAt(EnterOwned(), 0) == [0x39, 0x51, 0x18]
    ensures BytesAt(EnterOwned(), 3) == [0x75, 0x06]
    ensures BytesAt(EnterOwned(), 5) == [0xFF, 0x41, 0x14]
    ensures BytesAt(EnterOwned(), 8) == [0xC2, 0x04, 0x00]
    ensures Length(EnterOwned()) == 15
    ensures pc >= 11 ==> BytesAt(EnterOwned(), pc) == BytesAt(EnterBack(), pc - 11)
  {
    EnterBackBytes();
    hide EnterBack;
    var c := EnterOwned();
    assert BytesAt(c.rest, 0) == [0x75, 0x06];
    assert Length(c.rest) == 12;
    assert BytesAt(c.rest.rest, 0) == [0xFF, 0x41, 0x14];
    assert Length(c.rest.rest) == 10;
    assert BytesAt(c.rest.rest.rest, 0) == [0xC2, 0x04, 0x00];
    assert Length(c.rest.rest.rest) == 7;
    assert Length(c.rest.rest.rest.rest) == 4;
    if pc >= 11 {
      assert BytesAt(c, pc) == BytesAt(c.rest, pc - 3) == BytesAt(c.rest.rest, pc - 5) == BytesAt(c.rest.rest.rest, pc - 8) == BytesAt(c.rest.rest.rest.rest, pc - 11);
    }
    assert BytesAt(c, 3) == BytesAt(c.rest, 0);
    assert BytesAt(c, 5) == BytesAt(c.rest, 2) == BytesAt(c.rest.rest, 0);
    assert BytesAt(c, 8) == BytesAt(c.rest, 5) == BytesAt(c.rest.rest, 3) == BytesAt(c.rest.rest.rest, 0);
  }

  lemma EnterFreeBytes(pc: nat)
    ensures BytesAt(EnterFree(), 0) == [0x89, 0x51, 0x18]
    ensures BytesAt(EnterFree(), 3) == [0xC7, 0x41, 0x14, 0x01, 0x00, 0x00, 0x00]
    ensures BytesAt(EnterFree(), 10) == [0xC2, 0x04, 0x00]
    ensures Length(EnterFree()) == 28
    ensures pc >= 13 ==> BytesAt(EnterFree(), pc) == BytesAt(EnterOwned(), pc - 13)
  {
    EnterOwnedBytes(0);
    hide EnterOwned;
    var c := EnterFree();
    assert BytesAt(c.rest, 0) == [0xC7, 0x41, 0x14, 0x01, 0x00, 0x00, 0x00];
    assert Length(c.rest) == 25;
    assert BytesAt(c.rest.rest, 0) == [0xC2, 0x04, 0x00];
    assert Length(c.rest.rest) == 18;
    assert Length(c.rest.rest.rest) == 15;
    if pc >= 13 {
      assert BytesAt(c, pc) == BytesAt(c.rest, pc - 3) == BytesAt(c.rest.rest, pc - 10) == BytesAt(c.rest.rest.rest, pc - 13);
    }
    assert BytesAt(c, 3) == BytesAt(c.rest, 0);
    assert BytesAt(c, 10) == BytesAt(c.rest, 7) == BytesAt(c.rest.rest, 0);
  }

  lemma EnterCodeBytes(pc: nat)
    ensures BytesAt(EnterCode(), 0) == [0x8B, 0x4C, 0x24, 0x04]
    ensures BytesAt(EnterCode(), 4) == [0x64, 0x8B, 0x15, 0x28, 0x00, 0x00, 0x00]
    ensures BytesAt(EnterCode(), 11) == [0xF0, 0xFF, 0x41, 0x10]
    ensures BytesAt(EnterCode(), 15) == [0x75, 0x0D]
    ensures Length(EnterCode()) == 45
    ensures pc >= 17 ==> BytesAt(EnterCode(), pc) == BytesAt(EnterFree(), pc - 17)
  {
    EnterFreeBytes(0);
    hide EnterFree;
    var c := EnterCode();
    assert BytesAt(c.rest, 0) == [0x64, 0x8B, 0x15, 0x28, 0x00, 0x00, 0x00];
    assert Length(c.rest) == 41;
    assert BytesAt(c.rest.rest, 0) == [0xF0, 0xFF, 0x41, 0x10];
    assert Length(c.rest.rest) == 34;
    assert BytesAt(c.rest.rest.rest, 0) == [0x75, 0x0D];
    assert Length(c.rest.rest.rest) == 30;
    assert Length(c.rest.rest.rest.rest) == 28;
    if pc >= 17 {
      assert BytesAt(c, pc) == BytesAt(c.rest, pc - 4) == BytesAt(c.rest.rest, pc - 11) == BytesAt(c.rest.rest.rest, pc - 15) == BytesAt(c.rest.rest.rest.rest, pc - 17);
    }
    assert BytesAt(c, 4) == BytesAt(c.rest, 0);
    assert BytesAt(c, 11) == BytesAt(c.rest, 7) == BytesAt(c.rest.rest, 0);
    assert BytesAt(c, 15) == BytesAt(c.rest, 11) == BytesAt(c.rest.rest, 4) == BytesAt(c.rest.rest.rest, 0);
  }

  lemma EnterDecodes()
    ensures Length(EnterCode()) == 45
    ensures At(EnterCode(), 0, LoadSection, 4) && At(EnterCode(), 4, LoadThread, 7) && At(EnterCode(), 11, Inc(LockField), 4)
    ensures At(EnterCode(), 15, JumpNotZero(13), 2) && At(EnterCode(), 17, StoreThread(OwnerField), 3) && At(EnterCode(), 20, StoreConst(RecursionField, 1), 7)
    ensures At(EnterCode(), 27, Return, 3) && At(EnterCode(), 30, CompareThread(OwnerField), 3) && At(EnterCode(), 33, JumpNotZero(6), 2)
    ensures At(EnterCode(), 35, Inc(RecursionField), 3) && At(EnterCode(), 38, Return, 3) && At(EnterCode(), 41, Dec(LockField), 4)
  {
    Decoded();
    hide Decode, BytesAt, Length, EnterCode, EnterFree, EnterOwned, EnterBack;
    EnterCodeBytes(0);
    EnterCodeBytes(17);
    EnterCodeBytes(20);
    EnterCodeBytes(27);
    EnterFreeBytes(0);
    EnterCodeBytes(30);
    EnterFreeBytes(13);
    EnterCodeBytes(33);
    EnterFreeBytes(16);
    EnterCodeBytes(35);
    EnterFreeBytes(18);
    EnterCodeBytes(38);
    EnterFreeBytes(21);
    EnterOwnedBytes(0);
    EnterCodeBytes(41);
    EnterFreeBytes(24);
    EnterOwnedBytes(11);
    EnterBackBytes();
  }

  lemma LeaveBackBytes()
    ensures BytesAt(LeaveBack(), 0) == [0xF0, 0xFF, 0x41, 0x10]
    ensures BytesAt(LeaveBack(), 4) == [0x64, 0x8B, 0x15, 0x28, 0x00, 0x00, 0x00]
    ensures BytesAt(LeaveBack(), 11) == [0x89, 0x51, 0x18]
    ensures BytesAt(LeaveBack(), 14) == [0xC7, 0x41, 0x14, 0x01, 0x00, 0x00, 0x00]
    ensures Length(LeaveBack()) == 21
  {
    var c := LeaveBack();
    assert BytesAt(c.rest, 0) == [0x64, 0x8B, 0x15, 0x28, 0x00, 0x00, 0x00];
    assert Length(c.rest) == 17;
    assert BytesAt(c.rest.rest, 0) == [0x89, 0x51, 0x18];
    assert Length(c.rest.rest) == 10;
    assert BytesAt(c.rest.rest.rest, 0) == [0xC7, 0x41, 0x14, 0x01, 0x00, 0x00, 0x00];
    assert Length(c.rest.rest.rest) == 7;
    assert BytesAt(c, 4) == BytesAt(c.rest, 0);
    assert BytesAt(c, 11) == BytesAt(c.rest, 7) == BytesAt(c.rest.rest, 0);
    assert BytesAt(c, 14) == BytesAt(c.rest, 10) == BytesAt(c.rest.rest, 3) == BytesAt(c.rest.rest.rest, 0);
  }

  lemma LeaveAgainBytes(pc: nat)
    ensures BytesAt(LeaveAgain(), 0) == [0xF0, 0xFF, 0x49, 0x10]
    ensures BytesAt(LeaveAgain(), 4) == [0xC2, 0x04, 0x00]
    ensures Length(LeaveAgain()) == 28
    ensures pc >= 7 ==> BytesAt(LeaveAgain(), pc) == BytesAt(LeaveBack(), pc - 7)
  {
    LeaveBackBytes();
    hide LeaveBack;
    var c := LeaveAgain();
    assert BytesAt(c.rest, 0) == [0xC2, 0x04, 0x00];
    assert Length(c.rest) == 24;
    assert Length(c.rest.rest) == 21;
    if pc >= 7 {
      assert BytesAt(c, pc) == BytesAt(c.rest, pc - 4) == BytesAt(c.rest.rest, pc - 7);
    }
    assert BytesAt(c, 4) == BytesAt(c.rest, 0);
  }

  lemma LeaveLastBytes(pc: nat)
    ensures BytesAt(LeaveLast(), 0) == [0xC7, 0x41, 0x18, 0x00, 0x00, 0x00, 0x00]
    ensures BytesAt(LeaveLast(), 7) == [0xF0, 0xFF, 0x49, 0x10]
    ensures BytesAt(LeaveLast(), 11) == [0x7D, 0x0A]
    ensures BytesAt(LeaveLast(), 13) == [0xC2, 0x04, 0x00]
    ensures Length(LeaveLast()) == 44
    ensures pc >= 16 ==> BytesAt(LeaveLast(), pc) == BytesAt(LeaveAgain(), pc - 16)
  {
    LeaveAgainBytes(0);
    hide LeaveAgain;
    var c := LeaveLast();
    assert BytesAt(c.rest, 0) == [0xF0, 0xFF, 0x49, 0x10];
    assert Length(c.rest) == 37;
    assert BytesAt(c.rest.rest, 0) == [0x7D, 0x0A];
    assert Length(c.rest.rest) == 33;
    assert BytesAt(c.rest.rest.rest, 0) == [0xC2, 0x04, 0x00];
    assert Length(c.rest.rest.rest) == 31;
    assert Length(c.rest.rest.rest.rest) == 28;
    if pc >= 16 {
      assert BytesAt(c, pc) == BytesAt(c.rest, pc - 7) == BytesAt(c.rest.rest, pc - 11) == BytesAt(c.rest.rest.rest, pc - 13) == BytesAt(c.rest.rest.rest.rest, pc - 16);
    }
    assert BytesAt(c, 7) == BytesAt(c.rest, 0);
    assert BytesAt(c, 11) == BytesAt(c.rest, 4) == BytesAt(c.rest.rest, 0);
    assert BytesAt(c, 13) == BytesAt(c.rest, 6) == BytesAt(c.rest.rest, 2) == BytesAt(c.rest.rest.rest, 0);
  }

  lemma LeaveCodeBytes(pc: nat)
    ensures BytesAt(LeaveCode(), 0) == [0x8B, 0x4C, 0x24, 0x04]
    ensures BytesAt(LeaveCode(), 4) == [0xFF, 0x49, 0x14]
    ensures BytesAt(LeaveCode(), 7) == [0x75, 0x10]
    ensures Length(LeaveCode()) == 53
    ensures pc >= 9 ==> BytesAt(LeaveCode(), pc) == BytesAt(LeaveLast(), pc - 9)
  {
    LeaveLastBytes(0);
    hide LeaveLast;
    var c := LeaveCode();
    assert BytesAt(c.rest, 0) == [0xFF, 0x49, 0x14];
    assert Length(c.rest) == 49;
    assert BytesAt(c.rest.rest, 0) == [0x75, 0x10];
    assert Length(c.rest.rest) == 46;
    assert Length(c.rest.rest.rest) == 44;
    if pc >= 9 {
      assert BytesAt(c, pc) == BytesAt(c.rest, pc - 4) == BytesAt(c.rest.rest, pc - 7) == BytesAt(c.rest.rest.rest, pc - 9);
    }
    assert BytesAt(c, 4) == BytesAt(c.rest, 0);
    assert BytesAt(c, 7) == BytesAt(c.rest, 3) == BytesAt(c.rest.rest, 0);
  }

  lemma LeaveDecodes()
    ensures Length(LeaveCode()) == 53
    ensures At(LeaveCode(), 0, LoadSection, 4) && At(LeaveCode(), 4, Dec(RecursionField), 3) && At(LeaveCode(), 7, JumpNotZero(16), 2)
    ensures At(LeaveCode(), 9, StoreConst(OwnerField, 0), 7) && At(LeaveCode(), 16, Dec(LockField), 4) && At(LeaveCode(), 20, JumpNotLess(10), 2)
    ensures At(LeaveCode(), 22, Return, 3) && At(LeaveCode(), 25, Dec(LockField), 4) && At(LeaveCode(), 29, Return, 3)
    ensures At(LeaveCode(), 32, Inc(LockField), 4) && At(LeaveCode(), 36, LoadThread, 7) && At(LeaveCode(), 43, StoreThread(OwnerField), 3)
    ensures At(LeaveCode(), 46, StoreConst(RecursionField, 1), 7)
  {
    Decoded();
    hide Decode, BytesAt, Length, LeaveCode, LeaveLast, LeaveAgain, LeaveBack;
    LeaveCodeBytes(0);
    LeaveCodeBytes(9);
    LeaveCodeBytes(16);
    LeaveCodeBytes(20);
    LeaveCodeBytes(22);
    LeaveLastBytes(0);
    LeaveCodeBytes(25);
    LeaveLastBytes(16);
    LeaveCodeBytes(29);
    LeaveLastBytes(20);
    LeaveAgainBytes(0);
    LeaveCodeBytes(32);
    LeaveLastBytes(23);
    LeaveAgainBytes(7);
    LeaveCodeBytes(36);
    LeaveLastBytes(27);
    LeaveAgainBytes(11);
    LeaveCodeBytes(43);
    LeaveLastBytes(34);
    LeaveAgainBytes(18);
    LeaveCodeBytes(46);
    LeaveLastBytes(37);
    LeaveAgainBytes(21);
    LeaveBackBytes();
  }

  /** The enter sequence is RtlEnterCriticalSection, for every content of the section. */
  lemma EnterIsKernelEnter(m: Cpu, me: Word)
    ensures FastEnter(m, me) == KernelEnter(m.w, me)
  {
    EnterDecodes();
    hide Decode, BytesAt, Length, EnterCode;
    var c := EnterCode();
    var m1 := m.(edx := me);
    var m2 := Counted(m1, LockField, 1);
    assert Exec(c, 0, m, me, 16) == Exec(c, 4, m, me, 15) == Exec(c, 11, m1, me, 14) == Exec(c, 15, m2, me, 13);
    if m2.zero {
      assert Exec(c, 15, m2, me, 13) == Exec(c, 17, m2, me, 12);
      var m3 := m2.(w := Write(m2.w, OwnerField, me));
      var m4 := m3.(w := Write(m3.w, RecursionField, 1));
      assert Exec(c, 17, m2, me, 12) == Exec(c, 20, m3, me, 11) == Exec(c, 27, m4, me, 10) == Returned(m4.w);
    } else {
      var m3 := m2.(zero := Read(m2.w, OwnerField) == me);
      assert Exec(c, 15, m2, me, 13) == Exec(c, 30, m2, me, 12) == Exec(c, 33, m3, me, 11);
      if m3.zero {
        var m4 := Counted(m3, RecursionField, 1);
        assert Exec(c, 33, m3, me, 11) == Exec(c, 35, m3, me, 10) == Exec(c, 38, m4, me, 9) == Returned(m4.w);
      } else {
        var m4 := Counted(m3, LockField, -1);
        assert Exec(c, 33, m3, me, 11) == Exec(c, 41, m3, me, 10) == Exec(c, 45, m4, me, 9) == KernelCall(m4.w);
        assert m4.w == m.w;
      }
    }
  }

  /** The leave sequence where the section stays the thread's. */
  lemma LeaveInner(m: Cpu, me: Word)
    requires Add(m.w.recursion, -1) != 0
    ensures FastLeave(m, me) == Left(Words(Add(m.w.lock, -1), Add(m.w.recursion, -1), m.w.owner), false)
  {
    hide Decode, BytesAt, Length, LeaveCode, Add, KernelLeave;
    LeaveDecodes();
    var c := LeaveCode();
    var m1 := Counted(m, RecursionField, -1);
    var m2 := Counted(m1, LockField, -1);
    assert Exec(c, 0, m, me, 16) == Exec(c, 4, m, me, 15) == Exec(c, 7, m1, me, 14);
    assert Exec(c, 7, m1, me, 14) == Exec(c, 25, m1, me, 13) == Exec(c, 29, m2, me, 12) == Returned(m2.w);
  }

  /** The last leave: back out for the kernel where jge jumps, else done. */
  lemma LeaveOuter(m: Cpu, me: Word)
    requires Add(m.w.recursion, -1) == 0
    ensures var lock := Add(m.w.lock, -1);
      FastLeave(m, me) == if lock >= SIGN <==> lock == SIGN - 1 then KernelLeave(Words(Add(lock, 1), 1, me)) else Left(Words(lock, 0, 0), false)
  {
    hide Decode, BytesAt, Length, LeaveCode, Add, KernelLeave;
    LeaveDecodes();
    var c := LeaveCode();
    var m1 := Counted(m, RecursionField, -1);
    assert Exec(c, 0, m, me, 16) == Exec(c, 4, m, me, 15) == Exec(c, 7, m1, me, 14);
    var m2 := m1.(w := Write(m1.w, OwnerField, 0));
    var m3 := Counted(m2, LockField, -1);
    assert Exec(c, 7, m1, me, 14) == Exec(c, 9, m1, me, 13) == Exec(c, 16, m2, me, 12) == Exec(c, 20, m3, me, 11);
    if m3.sign == m3.overflow {
      LeaveBacksOut(m3, me);
    } else {
      assert Exec(c, 20, m3, me, 11) == Exec(c, 22, m3, me, 10) == Returned(m3.w);
    }
  }

  /** From its jge, where threads wait. */
  lemma LeaveBacksOut(m: Cpu, me: Word)
    requires m.sign == m.overflow
    ensures Exec(LeaveCode(), 20, m, me, 11) == KernelCall(Words(Add(m.w.lock, 1), 1, me))
  {
    hide Decode, BytesAt, Length, LeaveCode, Add;
    LeaveDecodes();
    var c := LeaveCode();
    var m1 := Counted(m, LockField, 1);
    var m2 := m1.(edx := me);
    var m3 := m2.(w := Write(m2.w, OwnerField, me));
    var m4 := m3.(w := Write(m3.w, RecursionField, 1));
    assert Exec(c, 20, m, me, 11) == Exec(c, 32, m, me, 10) == Exec(c, 36, m1, me, 9) == Exec(c, 43, m2, me, 8);
    assert Exec(c, 43, m2, me, 8) == Exec(c, 46, m3, me, 7) == Exec(c, 53, m4, me, 6) == KernelCall(m4.w);
  }

  /** The leave sequence is RtlLeaveCriticalSection but for one content: a last leave at the most
      negative LockCount, where jge's overflow flag and the kernel's sign test disagree. */
  lemma LeaveIsKernelLeaveExactly(m: Cpu, me: Word)
    ensures FastLeave(m, me) == KernelLeave(m.w) <==> !(m.w.recursion == 1 && m.w.lock == SIGN)
  {
    hide FastLeave;
    if Add(m.w.recursion, -1) != 0 { LeaveInner(m, me); } else { LeaveOuter(m, me); }
  }

  // ---- The words and the section they hold ----

  function SectionOf(w: Words): Dispatcher.Section {
    Dispatcher.Section(Dispatcher.Signed32(w.lock), w.recursion, w.owner)
  }

  /** The functions on the words are the section operations wherever the counts don't wrap: an enter that
      blocks is the wait for the section, its LockCount raised. */
  lemma KernelEnterIsEnter(k: Dispatcher.Ke, i: nat, c: nat, w: Words)
    requires Dispatcher.Shaped(k) && CriticalSection.HasSection(k, c) && i < |k.threads|
    requires k.threads[i].phase == Dispatcher.Running && k.threads[i].ethread < WORD
    requires k.sections[c] == SectionOf(w) && k.sections[c].lock < CriticalSection.INT_MAX && w.recursion < WORD - 1
    requires k.objs[c].kind == Dispatcher.Synchronization && k.objs[c].signal == 0
    ensures var r := CriticalSection.Enter(k, i, c); var e := KernelEnter(w, k.threads[i].ethread);
      var entered, sw := CriticalSection.SetSection(k, c, SectionOf(e.w)), CriticalSection.SectionWait(c);
      && (!e.blocks ==> r == entered)
      && (e.blocks ==> r == Dispatcher.WaitFor(entered, i, sw, Dispatcher.Never))
      && (e.blocks ==> r == entered.(threads := k.threads[i := k.threads[i].(phase := Dispatcher.Waiting, wait := sw)]))
  {
    var s := k.sections[c];
    var e := k.threads[i].ethread;
    if s.lock != -1 && s.owner != e {
      var k1 := CriticalSection.SetSection(k, c, s.(lock := s.lock + 1));
      var sw := CriticalSection.SectionWait(c);
      assert Dispatcher.FirstSignaled(k1.objs, e, sw, 0) == Dispatcher.FirstSignaled(k1.objs, e, sw, 1) == -1;
    }
  }

  /** So is the leave on words, with the event's pass where it signals. */
  lemma KernelLeaveIsLeave(k: Dispatcher.Ke, c: nat, w: Words, now: nat)
    requires Dispatcher.Shaped(k) && CriticalSection.HasSection(k, c) && k.sections[c] == SectionOf(w)
    requires w.recursion > 0 && w.lock != SIGN
    ensures var l := KernelLeave(w); var left := CriticalSection.SetSection(k, c, SectionOf(l.w));
      CriticalSection.Leave(k, c, now) == if l.signals then Dispatcher.SetEvent(left, c, now) else left
  {
    hide Dispatcher.CheckAll;
  }
}
