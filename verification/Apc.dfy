/** Asynchronous procedure calls (native/kernel/apc.c): each thread's queue, the chain of calls an
  alertable wait makes, and the chains such waits inside APC routines interrupt.
  */
module Apc {
  import opened Wrappers

  const STATUS_USER_APC: int := 0xC0
  const MAX_NEST: nat := 4
  const WORD: int := 0x1_0000_0000

  /** The words of a KAPC the kernel reads.  thread: the thread it was initialized for. */
  datatype Kapc = Kapc(inserted: bool, thread: nat, kernel: nat, normal: nat, ctx: nat, a1: nat, a2: nat)

  /** Guest memory's KAPCs by address; memory not yet written is zero. */
  type Memory = map<nat, Kapc>

  function Get(m: Memory, a: nat): Kapc {
    if a in m then m[a] else Kapc(false, 0, 0, 0, 0, 0, 0)
  }

  /** A queued APC; kapc 0: none, only the normal routine runs. */
  datatype Queued = Queued(kapc: nat, normal: nat, ctx: nat, a1: nat, a2: nat)

  /** The APC a chain delivers: the thread's n-th. */
  datatype Current = Current(apc: Queued, n: nat)

  /** stage: 1 once the kernel routine has had its turn, 2 once the normal routine has. */
  datatype Chain = Chain(inApc: bool, cur: Option<Current>, stage: nat, esp: int, eip: int)

  const Idle := Chain(false, None, 0, 0, 0)

  datatype Which = KernelRoutine | NormalRoutine

  /** One routine's turn: called with args, or passed over (routine 0). */
  datatype Turn = Turn(n: nat, which: Which, routine: nat, args: seq<nat>)

  /** queued: every APC ever queued to the thread.  turns: every routine's turn, in order. */
  datatype Thread = Thread(
    apcs: seq<Queued>, chain: Chain, outer: seq<Chain>,
    waiting: bool, esp: int, eip: int, eax: int,
    queued: seq<Queued>, turns: seq<Turn>)

  /** How many of the thread's APCs have left its queue. */
  function Started(t: Thread): int { |t.queued| - |t.apcs| }

  // ---- Delivery ----

  /** The head leaves the queue; its KAPC is no longer inserted. */
  function Load(m: Memory, t: Thread): (r: (Memory, Thread))
    requires t.apcs != [] && Started(t) >= 0
  {
    var a := t.apcs[0];
    (if a.kapc != 0 then m[a.kapc := Get(m, a.kapc).(inserted := false)] else m,
     t.(apcs := t.apcs[1..], chain := t.chain.(cur := Some(Current(a, Started(t))), stage := 0)))
  }

  function KernelOf(m: Memory, a: Queued): nat {
    if a.kapc != 0 then Get(m, a.kapc).kernel else 0
  }

  function KernelArgs(a: Queued): seq<nat> {
    [a.kapc, a.kapc + 0x18, a.kapc + 0x1C, a.kapc + 0x20, a.kapc + 0x24]
  }

  /** They are what memory says once the kernel routine has returned. */
  function Refreshed(m: Memory, a: Queued): Queued {
    if a.kapc != 0 then
      var k := Get(m, a.kapc);
      Queued(a.kapc, k.normal, k.ctx, k.a1, k.a2)
    else a
  }

  function KernelTurn(m: Memory, t: Thread): Thread
    requires t.chain.cur.Some?
  {
    var c := t.chain.cur.value;
    t.(chain := t.chain.(stage := 1), turns := t.turns + [Turn(c.n, KernelRoutine, KernelOf(m, c.apc), KernelArgs(c.apc))])
  }

  function NormalTurn(m: Memory, t: Thread): Thread
    requires t.chain.cur.Some?
  {
    var c := t.chain.cur.value;
    var a := Refreshed(m, c.apc);
    t.(chain := t.chain.(stage := 2, cur := Some(Current(a, c.n))),
       turns := t.turns + [Turn(c.n, NormalRoutine, a.normal, [a.ctx, a.a1, a.a2])])
  }

  function Work(t: Thread): nat { 2 * |t.apcs| + if t.chain.cur.Some? then 1 else 0 }

  /** Only the queue, the turns and what the chain delivers change; an APC is current where a routine is called. */
  predicate Delivered(t: Thread, r: Thread, calls: bool) {
    && Started(r) >= 0
    && r == t.(apcs := r.apcs, turns := r.turns, chain := t.chain.(cur := r.chain.cur, stage := r.chain.stage))
    && (calls ==> r.turns != [] && r.chain.cur.Some? && r.chain.stage >= 1)
    && (!calls ==> r.apcs == [] && r.chain.cur.None?)
  }

  /** next_call: the chain's next turn that calls a routine, if one does. */
  function NextCall(m: Memory, t: Thread): (r: (Memory, Thread, bool))
    requires Started(t) >= 0
    ensures Delivered(t, r.1, r.2)
    decreases Work(t)
  {
    if t.chain.cur.None? && t.apcs == [] then (m, t, false)
    else
      var (m1, t1) := if t.chain.cur.None? then Load(m, t) else (m, t);
      Deliver(m1, t1)
  }

  /** Its part from the point where an APC is current. */
  function Deliver(m: Memory, t: Thread): (r: (Memory, Thread, bool))
    requires Started(t) >= 0 && t.chain.cur.Some?
    ensures Delivered(t, r.1, r.2)
    decreases Work(t), 0
  {
    var a := t.chain.cur.value.apc;
    if t.chain.stage == 0 && KernelOf(m, a) != 0 then (m, KernelTurn(m, t), true)
    else if t.chain.stage < 2 then
      var t1 := NormalTurn(m, if t.chain.stage == 0 then KernelTurn(m, t) else t);
      if t1.chain.cur.value.apc.normal != 0 then (m, t1, true)
      else NextCall(m, t1.(chain := t1.chain.(cur := None)))
    else NextCall(m, t.(chain := t.chain.(cur := None)))
  }

  // ---- Chains ----

  /** nc_apc_pending. */
  predicate Pending(t: Thread) { t.apcs != [] && (!t.chain.inApc || |t.outer| < MAX_NEST) }

  /** chain_start: the chain running is kept to go on later; None where no more can nest. */
  function ChainStart(t: Thread, esp: int, eip: int): Option<Thread> {
    if t.chain.inApc && |t.outer| == MAX_NEST then None
    else Some(t.(outer := if t.chain.inApc then t.outer + [t.chain] else t.outer, chain := Chain(false, None, 0, esp, eip)))
  }

  /** chain_end: an interrupted chain goes on. */
  function ChainEnd(t: Thread): Thread {
    if t.outer != [] then t.(chain := t.outer[|t.outer| - 1], outer := t.outer[..|t.outer| - 1])
    else t.(chain := Idle)
  }

  /** The thread enters the routine whose turn came, its frame below esp: the return stub and the arguments. */
  function EnterRoutine(t: Thread): Thread
    requires t.turns != []
  {
    var turn := t.turns[|t.turns| - 1];
    t.(chain := t.chain.(inApc := true), esp := (t.chain.esp - 16 - 4 * |turn.args|) % WORD, eip := turn.routine)
  }

  /** nc_apc_begin_frame: a wait that would return to esp and eip. */
  function BeginFrame(m: Memory, t: Thread, esp: int, eip: int): (Memory, Thread, bool)
    requires Started(t) >= 0
  {
    match ChainStart(t, esp, eip)
    case None => (m, t, false)
    case Some(t1) =>
      var (m2, t2, calls) := NextCall(m, t1);
      if calls then (m2, EnterRoutine(t2), true) else (m2, ChainEnd(t2), false)
  }

  /** begin_ctx: the thread waits and its wait ends in its APCs. */
  function BeginCtx(m: Memory, t: Thread): (Memory, Thread)
    requires Started(t) >= 0
  {
    match ChainStart(t, t.esp, t.eip)
    case None => (m, t)
    case Some(t1) =>
      var (m2, t2, calls) := NextCall(m, t1);
      if calls then (m2, EnterRoutine(t2)) else (m2, ChainEnd(t2).(eax := STATUS_USER_APC))
  }

  /** nc_apc_return: the routine returned. */
  function ReturnFrom(m: Memory, t: Thread): (Memory, Thread)
    requires Started(t) >= 0
  {
    var (m2, t2, calls) := NextCall(m, t);
    if calls then (m2, EnterRoutine(t2))
    else (m2, ChainEnd(t2).(esp := t2.chain.esp, eip := t2.chain.eip, eax := STATUS_USER_APC))
  }

  /** nc_apc_queue. */
  function Enqueue(m: Memory, t: Thread, a: Queued): (Memory, Thread)
    requires Started(t) >= 0
  {
    var t1 := t.(apcs := t.apcs + [a], queued := t.queued + [a]);
    if t1.waiting && Pending(t1) then BeginCtx(m, t1.(waiting := false)) else (m, t1)
  }

  // ---- The system ----

  datatype System = System(m: Memory, threads: seq<Thread>)

  datatype Step =
    | Initialize(a: nat, thread: nat, kernel: nat, normal: nat, ctx: nat)   // KeInitializeApc
    | Insert(a: nat, a1: nat, a2: nat)                                      // KeInsertQueueApc
    | QueueTo(i: nat, normal: nat, ctx: nat, a1: nat, a2: nat)              // NtQueueApcThread, I/O completion
    | Wait(i: nat, esp: int, eip: int, blocks: bool)                        // an alertable wait that returns to esp and eip
    | Wake(i: nat, eax: int)                                                // the wait ends for another reason
    | Return(i: nat)
    | GuestRuns(i: nat, esp: int, eip: int)
    | GuestWrites(a: nat, k: Kapc)

  /** KAPCs are initialized while not queued, and the guest leaves Inserted and Thread alone. */
  predicate Allowed(s: System, a: Step) {
    match a
    case Initialize(a, _, _, _, _) => a != 0 && !Get(s.m, a).inserted
    case Insert(a, _, _) => a != 0
    case QueueTo(i, _, _, _, _) => i < |s.threads|
    case Wait(i, _, _, _) => i < |s.threads| && !s.threads[i].waiting
    case Wake(i, _) => i < |s.threads| && s.threads[i].waiting
    case Return(i) => i < |s.threads| && !s.threads[i].waiting && s.threads[i].chain.inApc
    case GuestRuns(i, _, _) => i < |s.threads| && !s.threads[i].waiting
    case GuestWrites(a, k) => k.inserted == Get(s.m, a).inserted && k.thread == Get(s.m, a).thread
  }

  predicate Counted(s: System) { forall i :: 0 <= i < |s.threads| ==> Started(s.threads[i]) >= 0 }

  function Update(s: System, i: nat, mt: (Memory, Thread)): System
    requires i < |s.threads|
  {
    System(mt.0, s.threads[i := mt.1])
  }

  function WaitStep(m: Memory, t: Thread, esp: int, eip: int, blocks: bool): (Memory, Thread)
    requires Started(t) >= 0
  {
    var (m1, t1, begun) := if Pending(t) then BeginFrame(m, t, esp, eip) else (m, t, false);
    (m1, if begun then t1 else t1.(esp := esp, eip := eip, waiting := blocks))
  }

  /** KeInitializeApc's words: whatever they were, the KAPC is no longer inserted. */
  function Initialized(m: Memory, a: nat, thread: nat, kernel: nat, normal: nat, ctx: nat): Memory {
    m[a := Kapc(false, thread, kernel, normal, if normal != 0 then ctx else 0, 0, 0)]
  }

  function Next(s: System, a: Step): System
    requires Counted(s) && Allowed(s, a)
  {
    match a
    case Initialize(a, thread, kernel, normal, ctx) =>
      s.(m := Initialized(s.m, a, thread, kernel, normal, ctx))
    case Insert(a, a1, a2) =>
      var k := Get(s.m, a);
      if k.inserted || k.thread >= |s.threads| then s
      else Update(s, k.thread, Enqueue(s.m[a := k.(inserted := true, a1 := a1, a2 := a2)], s.threads[k.thread], Queued(a, 0, 0, 0, 0)))
    case QueueTo(i, normal, ctx, a1, a2) => Update(s, i, Enqueue(s.m, s.threads[i], Queued(0, normal, ctx, a1, a2)))
    case Wait(i, esp, eip, blocks) => Update(s, i, WaitStep(s.m, s.threads[i], esp, eip, blocks))
    case Wake(i, eax) => s.(threads := s.threads[i := s.threads[i].(waiting := false, eax := eax)])
    case Return(i) => Update(s, i, ReturnFrom(s.m, s.threads[i]))
    case GuestRuns(i, esp, eip) => s.(threads := s.threads[i := s.threads[i].(esp := esp, eip := eip)])
    case GuestWrites(a, k) => s.(m := s.m[a := k])
  }

  // ---- What a thread's APCs have had ----

  /** The turns of the thread's n-th APC. */
  function Kinds(turns: seq<Turn>, n: nat): seq<Which> {
    if turns == [] then []
    else
      var last := turns[|turns| - 1];
      Kinds(turns[..|turns| - 1], n) + if last.n == n then [last.which] else []
  }

  function StageKinds(stage: nat): seq<Which> {
    if stage == 0 then [] else if stage == 1 then [KernelRoutine] else [KernelRoutine, NormalRoutine]
  }

  /** The chain's APC is a started one, and has had the turns its stage says. */
  predicate CurOk(t: Thread, c: Chain) {
    c.cur.Some? ==>
      var n := c.cur.value.n;
      && n < Started(t) && c.stage <= 2
      && Kinds(t.turns, n) == StageKinds(c.stage)
      && c.cur.value.apc.kapc == t.queued[n].kapc
      && (t.queued[n].kapc == 0 ==> c.cur.value.apc == t.queued[n])
  }

  /** What was called is what was queued, and the kernel routine gets the KAPC's parts. */
  predicate TurnOk(t: Thread, turn: Turn) {
    && turn.n < Started(t)
    && var a := t.queued[turn.n];
      match turn.which
      case KernelRoutine => if a.kapc == 0 then turn.routine == 0 else turn.args == KernelArgs(a)
      case NormalRoutine => a.kapc == 0 ==> turn.routine == a.normal && turn.args == [a.ctx, a.a1, a.a2]
  }

  predicate Delivering(t: Thread, n: nat) {
    || (t.chain.cur.Some? && t.chain.cur.value.n == n)
    || exists x :: 0 <= x < |t.outer| && t.outer[x].cur.Some? && t.outer[x].cur.value.n == n
  }

  predicate Queue(t: Thread) { |t.apcs| <= |t.queued| && t.apcs == t.queued[Started(t)..] }

  predicate TurnsOk(t: Thread) {
    && (forall x :: 0 <= x < |t.turns| ==> TurnOk(t, t.turns[x]))
    && (forall x, y :: 0 <= x < y < |t.turns| && t.turns[x].which == t.turns[y].which == KernelRoutine ==>
          t.turns[x].n < t.turns[y].n)
  }

  predicate ChainsOk(t: Thread)
    requires Queue(t)
  {
    && (forall x :: 0 <= x < |t.outer| ==> t.outer[x].inApc && t.outer[x].cur.Some? && 1 <= t.outer[x].stage)
    && (forall x :: 0 <= x < |t.outer| ==> CurOk(t, t.outer[x]))
    && CurOk(t, t.chain)
    && (t.chain.cur.Some? && t.chain.stage == 0 ==> t.chain.cur.value.n == Started(t) - 1)
    && (forall x, y :: 0 <= x < y < |t.outer| ==> t.outer[x].cur.value.n < t.outer[y].cur.value.n)
    && (t.chain.cur.Some? ==> forall x :: 0 <= x < |t.outer| ==> t.outer[x].cur.value.n < t.chain.cur.value.n)
  }

  /** An APC that has left the queue and every chain has had both turns. */
  predicate AllDone(t: Thread) {
    forall n :: 0 <= n < Started(t) && !Delivering(t, n) ==> Kinds(t.turns, n) == [KernelRoutine, NormalRoutine]
  }

  predicate Core(t: Thread) {
    Queue(t) && TurnsOk(t) && ChainsOk(t) && AllDone(t) && |t.outer| <= MAX_NEST
  }

  // ---- Each turn keeps the account ----

  lemma {:induction false} KindsNone(turns: seq<Turn>, n: nat)
    ensures Kinds(turns, n) == [] <==> forall x :: 0 <= x < |turns| ==> turns[x].n != n
  {
    if turns != [] {
      KindsNone(turns[..|turns| - 1], n);
      var last := |turns| - 1;
      assert forall x :: 0 <= x < last ==> turns[x] == turns[..last][x];
    }
  }

  lemma KindsAdd(turns: seq<Turn>, turn: Turn, n: nat)
    ensures Kinds(turns + [turn], n) == Kinds(turns, n) + if turn.n == n then [turn.which] else []
  {
    assert (turns + [turn])[..|turns|] == turns;
  }

  lemma LoadKeeps(m: Memory, t: Thread)
    requires Core(t) && t.chain.cur.None? && t.apcs != []
    ensures Core(Load(m, t).1)
  {
    var r := Load(m, t).1;
    assert t.apcs[0] == t.queued[Started(t)];
    assert r.apcs == r.queued[Started(r)..];
    KindsNone(t.turns, Started(t));
    forall x | 0 <= x < |t.outer| ensures CurOk(r, r.outer[x]) { assert CurOk(t, t.outer[x]); }
    forall n | 0 <= n < Started(r) && !Delivering(r, n) ensures Kinds(r.turns, n) == [KernelRoutine, NormalRoutine] {
      assert !Delivering(t, n);
    }
  }

  /** A turn for the chain's APC, of the kind that is due. */
  lemma TurnKeeps(t: Thread, r: Thread, turn: Turn)
    requires Core(t) && t.chain.cur.Some? && turn.n == t.chain.cur.value.n && TurnOk(t, turn)
    requires turn.which == if t.chain.stage == 0 then KernelRoutine else NormalRoutine
    requires t.chain.stage <= 1 && r.chain.stage == t.chain.stage + 1 && r.chain.cur.Some?
    requires r == t.(turns := t.turns + [turn], chain := r.chain) && r.chain.cur.value.n == turn.n
    requires r.chain.cur.value.apc.kapc == t.chain.cur.value.apc.kapc
    requires r.chain.cur.value.apc.kapc == 0 ==> r.chain.cur.value.apc == t.chain.cur.value.apc
    ensures Core(r)
  {
    assert CurOk(t, t.chain);
    if t.chain.stage == 0 { KindsNone(t.turns, turn.n); }
    KindsAdd(t.turns, turn, turn.n);
    assert CurOk(r, r.chain);
    forall x | 0 <= x < |r.outer| ensures CurOk(r, r.outer[x]) {
      assert CurOk(t, t.outer[x]);
      KindsAdd(t.turns, turn, t.outer[x].cur.value.n);
    }
    forall n | 0 <= n < Started(r) && !Delivering(r, n) ensures Kinds(r.turns, n) == [KernelRoutine, NormalRoutine] {
      assert !Delivering(t, n);
      KindsAdd(t.turns, turn, n);
    }
    TurnAdded(t, r, turn);
  }

  lemma TurnAdded(t: Thread, r: Thread, turn: Turn)
    requires TurnsOk(t) && Queue(t) && TurnOk(t, turn) && r.turns == t.turns + [turn] && r.apcs == t.apcs && r.queued == t.queued
    requires turn.which == KernelRoutine ==> turn.n == Started(t) - 1 && forall x :: 0 <= x < |t.turns| ==> t.turns[x].n != turn.n
    ensures TurnsOk(r)
  {
    forall x | 0 <= x < |r.turns| ensures TurnOk(r, r.turns[x]) {
      if x < |t.turns| { assert TurnOk(t, t.turns[x]); }
    }
  }

  lemma KernelTurnKeeps(m: Memory, t: Thread)
    requires Core(t) && t.chain.cur.Some? && t.chain.stage == 0
    ensures Core(KernelTurn(m, t))
  {
    var r := KernelTurn(m, t);
    TurnKeeps(t, r, r.turns[|t.turns|]);
  }

  lemma NormalTurnKeeps(m: Memory, t: Thread)
    requires Core(t) && t.chain.cur.Some? && t.chain.stage == 1
    ensures Core(NormalTurn(m, t))
  {
    var r := NormalTurn(m, t);
    TurnKeeps(t, r, r.turns[|t.turns|]);
  }

  lemma DoneKeeps(t: Thread)
    requires Core(t) && t.chain.cur.Some? && t.chain.stage == 2
    ensures Core(t.(chain := t.chain.(cur := None)))
  {
    var r := t.(chain := t.chain.(cur := None));
    forall x | 0 <= x < |t.outer| ensures CurOk(r, r.outer[x]) { assert CurOk(t, t.outer[x]); }
    forall n | 0 <= n < Started(r) && !Delivering(r, n) ensures Kinds(r.turns, n) == [KernelRoutine, NormalRoutine] {
      if n != t.chain.cur.value.n { assert !Delivering(t, n); }
    }
  }

  lemma {:induction false} NextCallKeeps(m: Memory, t: Thread)
    requires Core(t)
    ensures Core(NextCall(m, t).1)
    decreases Work(t)
  {
    hide Core, Load;
    CoreStage(t);
    if t.chain.cur.Some? {
      DeliverKeeps(m, t);
    } else if t.apcs != [] {
      LoadKeeps(m, t);
      LoadWork(m, t);
      DeliverKeeps(Load(m, t).0, Load(m, t).1);
    }
  }

  lemma LoadWork(m: Memory, t: Thread)
    requires t.chain.cur.None? && t.apcs != [] && Started(t) >= 0
    ensures Work(Load(m, t).1) < Work(t) && Load(m, t).1.chain.cur.Some? && Started(Load(m, t).1) >= 0
  {
  }

  lemma {:induction false} DeliverKeeps(m: Memory, t: Thread)
    requires Core(t) && t.chain.cur.Some?
    ensures Core(Deliver(m, t).1)
    decreases Work(t), 0
  {
    hide Core, KernelTurn, NormalTurn, KernelOf;
    CoreStage(t);
    if t.chain.stage == 2 {
      DoneKeeps(t);
      NextCallKeeps(m, t.(chain := t.chain.(cur := None)));
    } else {
      if t.chain.stage == 0 { KernelTurnKeeps(m, t); }
      if !(t.chain.stage == 0 && KernelOf(m, t.chain.cur.value.apc) != 0) {
        NormalPart(m, t);
      }
    }
  }

  lemma CoreStage(t: Thread)
    requires Core(t)
    ensures Started(t) >= 0 && (t.chain.cur.Some? ==> t.chain.stage <= 2)
  {
  }

  /** From the normal routine's turn on. */
  lemma {:induction false} NormalPart(m: Memory, t: Thread)
    requires Core(t) && t.chain.cur.Some? && t.chain.stage < 2 && !(t.chain.stage == 0 && KernelOf(m, t.chain.cur.value.apc) != 0)
    ensures Core(Deliver(m, t).1)
    decreases Work(t), 0, 0
  {
    hide Core;
    CoreStage(t);
    if t.chain.stage == 0 { KernelTurnKeeps(m, t); }
    var t1 := if t.chain.stage == 0 then KernelTurn(m, t) else t;
    NormalTurnKeeps(m, t1);
    var t2 := NormalTurn(m, t1);
    DoneKeeps(t2);
    if t2.chain.cur.value.apc.normal == 0 {
      NextCallKeeps(m, t2.(chain := t2.chain.(cur := None)));
    }
  }

  // ---- Between calls ----

  predicate Ready(t: Thread) {
    if t.chain.inApc then t.chain.cur.Some? && t.chain.stage >= 1 else t.chain == Idle && t.outer == []
  }

  predicate ThreadOk(t: Thread) { Core(t) && Ready(t) }

  /** The chains under way, the innermost last. */
  function Stack(t: Thread): seq<Chain> { if t.chain.inApc then t.outer + [t.chain] else [] }

  lemma ChainStartKeeps(t: Thread, esp: int, eip: int)
    requires ThreadOk(t) && ChainStart(t, esp, eip).Some?
    ensures var r := ChainStart(t, esp, eip).value; Core(r) && r.outer == Stack(t)
  {
    hide Kinds, AllDone, ChainsOk, TurnsOk;
    var r := ChainStart(t, esp, eip).value;
    SameTurns(t, r);
    StartChains(t, r);
    StartDone(t, r);
  }

  lemma SameTurns(t: Thread, r: Thread)
    requires TurnsOk(t) && r.apcs == t.apcs && r.queued == t.queued && r.turns == t.turns
    ensures TurnsOk(r)
  {
    forall x | 0 <= x < |t.turns| ensures TurnOk(r, r.turns[x]) { assert TurnOk(t, t.turns[x]); }
  }

  lemma StartChains(t: Thread, r: Thread)
    requires Queue(t) && ChainsOk(t) && Ready(t) && r.apcs == t.apcs && r.queued == t.queued && r.turns == t.turns
    requires r.outer == Stack(t) && r.chain.cur.None?
    ensures ChainsOk(r)
  {
    hide Kinds;
    forall x | 0 <= x < |r.outer| ensures CurOk(r, r.outer[x]) {
      if x < |t.outer| { assert CurOk(t, t.outer[x]); } else { assert CurOk(t, t.chain); }
    }
  }

  lemma StartDone(t: Thread, r: Thread)
    requires AllDone(t) && r.apcs == t.apcs && r.queued == t.queued && r.turns == t.turns
    requires r.outer == Stack(t) && r.chain.cur.None? && (!t.chain.inApc ==> t.chain.cur.None? && t.outer == [])
    ensures AllDone(r)
  {
    forall n | 0 <= n < Started(r) && !Delivering(r, n) ensures Kinds(r.turns, n) == [KernelRoutine, NormalRoutine] {
      if t.chain.inApc {
        assert r.outer[|t.outer|] == t.chain;
        forall x | 0 <= x < |t.outer| && t.outer[x].cur.Some? ensures t.outer[x].cur.value.n != n { assert r.outer[x] == t.outer[x]; }
      }
      assert !Delivering(t, n);
    }
  }

  lemma ChainEndKeeps(t: Thread)
    requires Core(t) && t.chain.cur.None?
    ensures ThreadOk(ChainEnd(t)) && Stack(ChainEnd(t)) == t.outer
  {
    hide Kinds, AllDone, ChainsOk, TurnsOk;
    var r := ChainEnd(t);
    SameTurns(t, r);
    EndChains(t);
    EndDone(t);
    if t.outer != [] {
      assert t.outer == t.outer[..|t.outer| - 1] + [t.outer[|t.outer| - 1]];
      OuterReady(t, |t.outer| - 1);
    }
  }

  lemma OuterReady(t: Thread, x: nat)
    requires Queue(t) && ChainsOk(t) && x < |t.outer|
    ensures t.outer[x].inApc && t.outer[x].cur.Some? && t.outer[x].stage >= 1
  {
  }

  lemma EndChains(t: Thread)
    requires Queue(t) && ChainsOk(t) && t.chain.cur.None?
    ensures ChainsOk(ChainEnd(t))
  {
    hide Kinds;
    var r := ChainEnd(t);
    if t.outer != [] {
      assert CurOk(t, t.outer[|t.outer| - 1]);
      forall x | 0 <= x < |r.outer| ensures CurOk(r, r.outer[x]) { assert CurOk(t, t.outer[x]); }
    }
  }

  lemma EndDone(t: Thread)
    requires AllDone(t) && t.chain.cur.None?
    ensures AllDone(ChainEnd(t))
  {
    hide Kinds;
    var r := ChainEnd(t);
    var last := |t.outer| - 1;
    forall n | 0 <= n < Started(r) && !Delivering(r, n) ensures Kinds(r.turns, n) == [KernelRoutine, NormalRoutine] {
      forall x | 0 <= x < |t.outer| && t.outer[x].cur.Some? ensures t.outer[x].cur.value.n != n {
        if x < last { assert r.outer[x] == t.outer[x]; }
      }
      assert !Delivering(t, n);
    }
  }

  /** Core does not depend on the thread's registers, and a chain's being entered does not. */
  lemma CoreSame(t: Thread, r: Thread)
    requires Core(t) && r.apcs == t.apcs && r.queued == t.queued && r.turns == t.turns && r.outer == t.outer
    requires r.chain.cur == t.chain.cur && r.chain.stage == t.chain.stage
    ensures Core(r)
  {
    forall x | 0 <= x < |t.turns| ensures TurnOk(r, r.turns[x]) { assert TurnOk(t, t.turns[x]); }
    forall x | 0 <= x < |t.outer| ensures CurOk(r, r.outer[x]) { assert CurOk(t, t.outer[x]); }
    assert CurOk(t, t.chain);
    forall n | 0 <= n < Started(r) && !Delivering(r, n) ensures Kinds(r.turns, n) == [KernelRoutine, NormalRoutine] {
      assert !Delivering(t, n);
    }
  }

  /** One more chain, to return to esp and eip, over those under way; or the same as before. */
  predicate Pushed(t: Thread, r: Thread, esp: int, eip: int) {
    && |Stack(r)| == |Stack(t)| + 1 && Stack(r)[..|Stack(t)|] == Stack(t)
    && Stack(r)[|Stack(t)|].esp == esp && Stack(r)[|Stack(t)|].eip == eip
  }

  /** The innermost chain ended: the one it interrupted is where it was, and the thread back from the wait. */
  predicate Popped(t: Thread, r: Thread) {
    && Stack(t) != []
    && var c := Stack(t)[|Stack(t)| - 1];
       Stack(r) == Stack(t)[..|Stack(t)| - 1] && r.esp == c.esp && r.eip == c.eip && r.eax == STATUS_USER_APC
  }

  /** The innermost chain went on. */
  predicate Advanced(t: Thread, r: Thread) {
    && |Stack(r)| == |Stack(t)| > 0
    && var last := |Stack(t)| - 1;
       && Stack(r)[..last] == Stack(t)[..last]
       && Stack(r)[last].esp == Stack(t)[last].esp && Stack(r)[last].eip == Stack(t)[last].eip
  }

  /** The routine called is the due one, with the KAPC's words as they stand at the call. */
  predicate CallOk(m: Memory, t: Thread) {
    && t.turns != [] && t.chain.cur.Some?
    && var turn, c := t.turns[|t.turns| - 1], t.chain.cur.value;
       && turn.n == c.n && turn.routine != 0
       && turn.which == (if t.chain.stage == 1 then KernelRoutine else NormalRoutine)
       && (turn.which == KernelRoutine ==> turn.routine == KernelOf(m, c.apc) && turn.args == KernelArgs(c.apc))
       && (turn.which == NormalRoutine && c.apc.kapc != 0 ==>
             var k := Get(m, c.apc.kapc); turn.routine == k.normal && turn.args == [k.ctx, k.a1, k.a2])
  }

  lemma {:induction false} CallsAreDue(m: Memory, t: Thread)
    requires Started(t) >= 0 && NextCall(m, t).2
    ensures CallOk(NextCall(m, t).0, NextCall(m, t).1)
    decreases Work(t)
  {
    if t.chain.cur.Some? {
      DeliveryIsDue(m, t);
    } else if t.apcs != [] {
      LoadWork(m, t);
      DeliveryIsDue(Load(m, t).0, Load(m, t).1);
    }
  }

  lemma {:induction false} DeliveryIsDue(m: Memory, t: Thread)
    requires Started(t) >= 0 && t.chain.cur.Some? && Deliver(m, t).2
    ensures CallOk(Deliver(m, t).0, Deliver(m, t).1)
    decreases Work(t), 0
  {
    var a := t.chain.cur.value.apc;
    if t.chain.stage == 0 && KernelOf(m, a) != 0 {
    } else if t.chain.stage < 2 {
      var t1 := NormalTurn(m, if t.chain.stage == 0 then KernelTurn(m, t) else t);
      if t1.chain.cur.value.apc.normal == 0 { CallsAreDue(m, t1.(chain := t1.chain.(cur := None))); }
    } else {
      CallsAreDue(m, t.(chain := t.chain.(cur := None)));
    }
  }

  /** The turn is its APC's, by the words it was queued with or its KAPC's. */
  predicate Says(m: Memory, queued: seq<Queued>, turn: Turn) {
    && turn.n < |queued|
    && var a := queued[turn.n]; var k := Get(m, a.kapc);
      match turn.which
      case KernelRoutine =>
        if a.kapc == 0 then turn.routine == 0
        else turn.routine == k.kernel && turn.args == [a.kapc, a.kapc + 0x18, a.kapc + 0x1C, a.kapc + 0x20, a.kapc + 0x24]
      case NormalRoutine =>
        if a.kapc == 0 then turn.routine == a.normal && turn.args == [a.ctx, a.a1, a.a2]
        else turn.routine == k.normal && turn.args == [k.ctx, k.a1, k.a2]
  }

  /** From t to r turns were added, each as memory says, and only the one that is called, the last, has a routine. */
  ghost predicate TurnsDue(m: Memory, t: Thread, r: Thread, calls: bool) {
    && |t.turns| <= |r.turns| && r.turns[..|t.turns|] == t.turns && r.queued == t.queued
    && (forall x :: |t.turns| <= x < |r.turns| ==>
          Says(m, t.queued, r.turns[x]) && (r.turns[x].routine != 0 <==> calls && x == |r.turns| - 1))
    && (calls ==> |r.turns| > |t.turns|)
  }

  /** Words a KAPC's delivery leaves as they are. */
  ghost predicate WordsKept(m: Memory, r: Memory) { forall a :: Get(r, a) == Get(m, a).(inserted := Get(r, a).inserted) }

  lemma SaysKept(m: Memory, r: Memory, queued: seq<Queued>, turn: Turn)
    requires WordsKept(m, r) && Says(r, queued, turn)
    ensures Says(m, queued, turn)
  {
  }

  lemma PassedOver(m: Memory, t: Thread, turn: Turn, s: Thread, r: Thread, calls: bool)
    requires s.turns == t.turns + [turn] && s.queued == t.queued && turn.routine == 0 && Says(m, t.queued, turn)
    requires TurnsDue(m, s, r, calls)
    ensures TurnsDue(m, t, r, calls)
  {
    assert r.turns[..|t.turns|] == r.turns[..|s.turns|][..|t.turns|];
    assert r.turns[|t.turns|] == r.turns[..|s.turns|][|t.turns|] == turn;
  }

  lemma NothingAdded(m: Memory, t: Thread, s: Thread, r: Thread, calls: bool)
    requires s.turns == t.turns && s.queued == t.queued && TurnsDue(m, s, r, calls)
    ensures TurnsDue(m, t, r, calls)
  {
  }

  lemma CalledNow(m: Memory, t: Thread, turn: Turn, r: Thread)
    requires r.turns == t.turns + [turn] && r.queued == t.queued && turn.routine != 0 && Says(m, t.queued, turn)
    ensures TurnsDue(m, t, r, true)
  {
  }

  lemma LoadedSame(m: Memory, t: Thread, r: Thread, calls: bool)
    requires t.apcs != [] && Started(t) >= 0
    requires TurnsDue(Load(m, t).0, Load(m, t).1, r, calls)
    ensures TurnsDue(m, t, r, calls)
  {
    var (m1, t1) := Load(m, t);
    assert WordsKept(m, m1);
    forall x | |t.turns| <= x < |r.turns| ensures Says(m, t.queued, r.turns[x]) { SaysKept(m, m1, t.queued, r.turns[x]); }
  }

  /** Every turn taken is its APC's as memory says at that moment: a routine is passed over exactly where there is
      none, and the first there is, is called. */
  lemma {:induction false} TurnsAreDue(m: Memory, t: Thread)
    requires Core(t)
    ensures var (m1, r, calls) := NextCall(m, t); TurnsDue(m, t, r, calls)
    decreases Work(t)
  {
    hide Core, Load, TurnsDue;
    CoreStage(t);
    if t.chain.cur.Some? {
      DeliveredAreDue(m, t);
    } else if t.apcs != [] {
      LoadKeeps(m, t);
      LoadWork(m, t);
      var (m1, t1) := Load(m, t);
      DeliveredAreDue(m1, t1);
      LoadedSame(m, t, Deliver(m1, t1).1, Deliver(m1, t1).2);
    } else {
      NoTurns(m, t);
    }
  }

  lemma NoTurns(m: Memory, t: Thread)
    ensures TurnsDue(m, t, t, false)
  {
  }

  lemma KernelSays(m: Memory, t: Thread)
    requires Core(t) && t.chain.cur.Some? && t.chain.stage == 0
    ensures var r := KernelTurn(m, t);
      && r.queued == t.queued && |r.turns| == |t.turns| + 1 && r.turns == t.turns + [r.turns[|t.turns|]]
      && Says(m, t.queued, r.turns[|t.turns|])
      && (r.turns[|t.turns|].routine != 0 <==> KernelOf(m, t.chain.cur.value.apc) != 0)
  {
    assert CurOk(t, t.chain);
  }

  lemma NormalSays(m: Memory, t: Thread)
    requires Core(t) && t.chain.cur.Some? && t.chain.stage == 1
    ensures var r := NormalTurn(m, t);
      && r.queued == t.queued && |r.turns| == |t.turns| + 1 && r.turns == t.turns + [r.turns[|t.turns|]]
      && Says(m, t.queued, r.turns[|t.turns|])
      && r.chain.cur.Some? && (r.turns[|t.turns|].routine != 0 <==> r.chain.cur.value.apc.normal != 0)
  {
    assert CurOk(t, t.chain);
  }

  lemma {:induction false} DeliveredAreDue(m: Memory, t: Thread)
    requires Core(t) && t.chain.cur.Some?
    ensures var (m1, r, calls) := Deliver(m, t); TurnsDue(m, t, r, calls)
    decreases Work(t), 0
  {
    hide Core, KernelTurn, NormalTurn, KernelOf, TurnsDue, Says;
    CoreStage(t);
    if t.chain.stage == 2 {
      DoneKeeps(t);
      var t1 := t.(chain := t.chain.(cur := None));
      TurnsAreDue(m, t1);
      NothingAdded(m, t, t1, NextCall(m, t1).1, NextCall(m, t1).2);
    } else if t.chain.stage == 0 {
      KernelTurnKeeps(m, t);
      KernelSays(m, t);
      var t1 := KernelTurn(m, t);
      if KernelOf(m, t.chain.cur.value.apc) != 0 {
        CalledNow(m, t, t1.turns[|t.turns|], t1);
      } else {
        AfterKernel(m, t, t1);
        NormalIsDue(m, t1);
        PassedOver(m, t, t1.turns[|t.turns|], t1, Deliver(m, t).1, Deliver(m, t).2);
      }
    } else {
      NormalIsDue(m, t);
    }
  }

  lemma AfterKernel(m: Memory, t: Thread, t1: Thread)
    requires Started(t) >= 0 && t.chain.cur.Some? && t.chain.stage == 0 && t1 == KernelTurn(m, t) && KernelOf(m, t.chain.cur.value.apc) == 0
    ensures t1.chain.cur.Some? && t1.chain.stage == 1 && Started(t1) >= 0 && Work(t1) == Work(t) && Deliver(m, t) == Deliver(m, t1)
  {
    hide NextCall;
  }

  /** From the normal routine's turn on. */
  lemma {:induction false} NormalIsDue(m: Memory, t: Thread)
    requires Core(t) && t.chain.cur.Some? && t.chain.stage == 1
    ensures var (m1, r, calls) := Deliver(m, t); TurnsDue(m, t, r, calls)
    decreases Work(t), 0, 0
  {
    hide Core, NormalTurn, TurnsDue, Says;
    CoreStage(t);
    NormalTurnKeeps(m, t);
    NormalSays(m, t);
    var t2 := NormalTurn(m, t);
    if t2.chain.cur.value.apc.normal != 0 {
      CalledNow(m, t, t2.turns[|t.turns|], t2);
    } else {
      NormalDone(m, t);
      DoneKeeps(t2);
      var t3 := t2.(chain := t2.chain.(cur := None));
      TurnsAreDue(m, t3);
      NothingAdded(m, t2, t3, NextCall(m, t3).1, NextCall(m, t3).2);
      PassedOver(m, t, t2.turns[|t.turns|], t2, NextCall(m, t3).1, NextCall(m, t3).2);
    }
  }

  lemma NormalDone(m: Memory, t: Thread)
    requires Started(t) >= 0 && t.chain.cur.Some? && t.chain.stage == 1 && NormalTurn(m, t).chain.cur.value.apc.normal == 0
    ensures var t2 := NormalTurn(m, t); var t3 := t2.(chain := t2.chain.(cur := None));
      t2.chain.stage == 2 && Work(t3) < Work(t) && Started(t3) >= 0 && Deliver(m, t) == NextCall(m, t3)
  {
  }

  /** The thread runs the routine whose turn is the last, and due: its frame, the return stub and the
      arguments, is below the chain's esp. */
  predicate Entered(m: Memory, t: Thread) {
    && CallOk(m, t) && t.chain.inApc
    && var turn := t.turns[|t.turns| - 1];
       t.eip == turn.routine && t.esp == (t.chain.esp - 16 - 4 * |turn.args|) % WORD
  }

  lemma RoutineEntered(m: Memory, t: Thread)
    requires Started(t) >= 0 && NextCall(m, t).2
    ensures Entered(NextCall(m, t).0, EnterRoutine(NextCall(m, t).1))
  {
    CallsAreDue(m, t);
    hide NextCall;
  }

  lemma BeginFrameKeeps(m: Memory, t: Thread, esp: int, eip: int)
    requires ThreadOk(t) && Started(t) >= 0
    ensures var (m1, r, begun) := BeginFrame(m, t, esp, eip);
      ThreadOk(r) && if begun then Pushed(t, r, esp, eip) && Entered(m1, r) else Stack(r) == Stack(t)
  {
    match ChainStart(t, esp, eip)
    case None =>
    case Some(t1) =>
      ChainStartKeeps(t, esp, eip);
      StartedChain(m, t, t1);
  }

  /** A chain just begun: entered, or over. */
  lemma StartedChain(m: Memory, t: Thread, t1: Thread)
    requires Core(t1) && t1.outer == Stack(t) && t1.chain.cur.None? && !t1.chain.inApc
    ensures Started(t1) >= 0
    ensures var (m2, t2, calls) := NextCall(m, t1);
      && (calls ==> ThreadOk(EnterRoutine(t2)) && Pushed(t, EnterRoutine(t2), t1.chain.esp, t1.chain.eip) && Entered(m2, EnterRoutine(t2)))
      && (!calls ==> ThreadOk(ChainEnd(t2)) && Stack(ChainEnd(t2)) == Stack(t))
  {
    hide Core, NextCall;
    CoreStage(t1);
    NextCallKeeps(m, t1);
    var (m2, t2, calls) := NextCall(m, t1);
    if calls {
      CoreSame(t2, EnterRoutine(t2));
      RoutineEntered(m, t1);
      assert Stack(EnterRoutine(t2)) == Stack(t) + [EnterRoutine(t2).chain];
    } else {
      ChainEndKeeps(t2);
    }
  }

  /** A chain can start on the thread. */
  predicate CanBegin(t: Thread) { !t.chain.inApc || |t.outer| < MAX_NEST }

  /** A chain was begun: the thread is in its first routine, and returns to esp and eip after it. */
  predicate BegunFrom(m: Memory, t: Thread, r: Thread, esp: int, eip: int) { Pushed(t, r, esp, eip) && Entered(m, r) }

  /** The chains, and where the thread is, are as they were; its wait may have ended. */
  predicate Over(t: Thread, r: Thread) {
    && Stack(r) == Stack(t) && r.esp == t.esp && r.eip == t.eip
    && ((r.waiting == t.waiting && r.eax == t.eax) || (t.waiting && !r.waiting && r.eax == STATUS_USER_APC))
  }

  lemma BeginCtxKeeps(m: Memory, t: Thread)
    requires ThreadOk(t) && Started(t) >= 0 && CanBegin(t) && !t.waiting
    ensures var (m1, r) := BeginCtx(m, t);
      && ThreadOk(r) && !r.waiting
      && (BegunFrom(m1, t, r, t.esp, t.eip) || (Stack(r) == Stack(t) && r.esp == t.esp && r.eip == t.eip && r.eax == STATUS_USER_APC))
  {
    hide Core, NextCall, Entered, Pushed;
    var t1 := ChainStart(t, t.esp, t.eip).value;
    ChainStartKeeps(t, t.esp, t.eip);
    StartedChain(m, t, t1);
    var (m2, t2, calls) := NextCall(m, t1);
    if !calls { CoreSame(ChainEnd(t2), ChainEnd(t2).(eax := STATUS_USER_APC)); }
  }

  lemma ReturnKeeps(m: Memory, t: Thread)
    requires ThreadOk(t) && t.chain.inApc && Started(t) >= 0
    ensures var (m1, r) := ReturnFrom(m, t); ThreadOk(r) && (Popped(t, r) || (Advanced(t, r) && Entered(m1, r)))
  {
    hide Core, NextCall, Advanced, Popped, Entered;
    NextCallKeeps(m, t);
    var (m2, t2, calls) := NextCall(m, t);
    if calls {
      RoutineEntered(m, t);
      CoreSame(t2, EnterRoutine(t2));
      GoesOn(t, EnterRoutine(t2));
    } else {
      ChainEndKeeps(t2);
      CoreSame(ChainEnd(t2), ReturnFrom(m, t).1);
      GoesBack(t, ReturnFrom(m, t).1);
    }
  }

  lemma GoesOn(t: Thread, r: Thread)
    requires t.chain.inApc && r.chain.inApc && r.outer == t.outer
    requires r.chain.esp == t.chain.esp && r.chain.eip == t.chain.eip
    ensures Advanced(t, r)
  {
  }

  lemma GoesBack(t: Thread, r: Thread)
    requires t.chain.inApc && Stack(r) == t.outer
    requires r.esp == t.chain.esp && r.eip == t.chain.eip && r.eax == STATUS_USER_APC
    ensures Popped(t, r)
  {
  }

  lemma EnqueueKeeps(m: Memory, t: Thread, a: Queued)
    requires ThreadOk(t) && Started(t) >= 0
    ensures var (m1, r) := Enqueue(m, t, a); ThreadOk(r) && (BegunFrom(m1, t, r, t.esp, t.eip) || Over(t, r))
  {
    hide Core, BeginCtx, Entered, Pushed;
    var t1 := t.(apcs := t.apcs + [a], queued := t.queued + [a]);
    AddedKeeps(t, t1, a);
    if t1.waiting && Pending(t1) {
      var t2 := t1.(waiting := false);
      CoreSame(t1, t2);
      BeginCtxKeeps(m, t2);
      assert Stack(t2) == Stack(t);
      SameStack(BeginCtx(m, t2).0, t2, t, BeginCtx(m, t2).1);
    }
  }

  /** A chain begun over the same chains. */
  lemma SameStack(m: Memory, t: Thread, u: Thread, r: Thread)
    requires Stack(t) == Stack(u) && t.esp == u.esp && t.eip == u.eip
    ensures BegunFrom(m, t, r, t.esp, t.eip) ==> BegunFrom(m, u, r, u.esp, u.eip)
  {
  }

  lemma AddedKeeps(t: Thread, r: Thread, a: Queued)
    requires ThreadOk(t) && r == t.(apcs := t.apcs + [a], queued := t.queued + [a])
    ensures ThreadOk(r)
  {
    forall x | 0 <= x < |t.turns| ensures TurnOk(r, r.turns[x]) { assert TurnOk(t, t.turns[x]); }
    forall x | 0 <= x < |t.outer| ensures CurOk(r, r.outer[x]) { assert CurOk(t, t.outer[x]); }
    assert CurOk(t, t.chain);
    forall n | 0 <= n < Started(r) && !Delivering(r, n) ensures Kinds(r.turns, n) == [KernelRoutine, NormalRoutine] {
      assert !Delivering(t, n);
    }
  }

  lemma WaitKeeps(m: Memory, t: Thread, esp: int, eip: int, blocks: bool)
    requires ThreadOk(t) && Started(t) >= 0
    ensures var (m1, r) := WaitStep(m, t, esp, eip, blocks);
      && ThreadOk(r)
      && (BegunFrom(m1, t, r, esp, eip) || (Stack(r) == Stack(t) && r.esp == esp && r.eip == eip && r.waiting == blocks))
  {
    hide Core, BeginFrame, Entered, Pushed;
    if Pending(t) { BeginFrameKeeps(m, t, esp, eip); }
    var t1 := if Pending(t) then BeginFrame(m, t, esp, eip).1 else t;
    CoreSame(t1, t1.(esp := esp, eip := eip, waiting := blocks));
  }

  // ---- Inserted ----

  /** How often the KAPC is in the queue. */
  function Occurs(q: seq<Queued>, a: nat): nat {
    if q == [] then 0 else (if q[0].kapc == a then 1 else 0) + Occurs(q[1..], a)
  }

  /** In thread i's queue are the KAPCs inserted for it, once each. */
  ghost predicate Flagged(m: Memory, i: nat, t: Thread) {
    forall a: nat :: a != 0 ==> Occurs(t.apcs, a) == if Get(m, a).inserted && Get(m, a).thread == i then 1 else 0
  }

  /** Only Inserted bytes of thread i's KAPCs were cleared. */
  ghost predicate OnlyFlags(m: Memory, r: Memory, i: nat) {
    forall a: nat :: Get(r, a) == Get(m, a) || (Get(m, a).thread == i && Get(r, a) == Get(m, a).(inserted := false))
  }

  lemma LoadFlags(m: Memory, i: nat, t: Thread)
    requires Flagged(m, i, t) && t.apcs != [] && Started(t) >= 0
    ensures Flagged(Load(m, t).0, i, Load(m, t).1) && OnlyFlags(m, Load(m, t).0, i)
  {
    var a := t.apcs[0].kapc;
    var (m1, r) := Load(m, t);
    assert r.apcs == t.apcs[1..];
    forall b: nat | b != 0 ensures Occurs(r.apcs, b) == if Get(m1, b).inserted && Get(m1, b).thread == i then 1 else 0 {
      assert Occurs(t.apcs, b) == (if a == b then 1 else 0) + Occurs(r.apcs, b);
    }
    assert a != 0 ==> Occurs(t.apcs, a) >= 1;
  }

  lemma {:induction false} NextCallFlags(m: Memory, i: nat, t: Thread)
    requires Flagged(m, i, t) && Started(t) >= 0
    ensures Flagged(NextCall(m, t).0, i, NextCall(m, t).1) && OnlyFlags(m, NextCall(m, t).0, i)
    decreases Work(t)
  {
    if t.chain.cur.Some? {
      DeliverFlags(m, i, t);
    } else if t.apcs != [] {
      LoadFlags(m, i, t);
      LoadWork(m, t);
      hide Load;
      DeliverFlags(Load(m, t).0, i, Load(m, t).1);
    }
  }

  lemma {:induction false} DeliverFlags(m: Memory, i: nat, t: Thread)
    requires Flagged(m, i, t) && Started(t) >= 0 && t.chain.cur.Some?
    ensures Flagged(Deliver(m, t).0, i, Deliver(m, t).1) && OnlyFlags(m, Deliver(m, t).0, i)
    decreases Work(t), 0
  {
    var a := t.chain.cur.value.apc;
    if t.chain.stage == 0 && KernelOf(m, a) != 0 {
    } else if t.chain.stage < 2 {
      var t1 := NormalTurn(m, if t.chain.stage == 0 then KernelTurn(m, t) else t);
      if t1.chain.cur.value.apc.normal == 0 {
        NextCallFlags(m, i, t1.(chain := t1.chain.(cur := None)));
      }
    } else {
      NextCallFlags(m, i, t.(chain := t.chain.(cur := None)));
    }
  }

  lemma BeginFlags(m: Memory, i: nat, t: Thread, esp: int, eip: int)
    requires Flagged(m, i, t) && Started(t) >= 0
    ensures Flagged(BeginFrame(m, t, esp, eip).0, i, BeginFrame(m, t, esp, eip).1) && OnlyFlags(m, BeginFrame(m, t, esp, eip).0, i)
    ensures Flagged(BeginCtx(m, t).0, i, BeginCtx(m, t).1) && OnlyFlags(m, BeginCtx(m, t).0, i)
  {
    var s := ChainStart(t, esp, eip);
    if s.Some? { NextCallFlags(m, i, s.value); }
    var u := ChainStart(t, t.esp, t.eip);
    if u.Some? { NextCallFlags(m, i, u.value); }
  }

  lemma {:induction false} OccursAdd(q: seq<Queued>, e: Queued, a: nat)
    ensures Occurs(q + [e], a) == Occurs(q, a) + if e.kapc == a then 1 else 0
  {
    if q != [] {
      OccursAdd(q[1..], e, a);
      assert (q + [e])[1..] == q[1..] + [e];
    } else {
      assert (q + [e])[1..] == [];
    }
  }

  /** Queueing an APC without a KAPC, or one whose Inserted byte has just been set. */
  lemma EnqueueFlags(m: Memory, i: nat, t: Thread, e: Queued)
    requires Started(t) >= 0
    requires forall a: nat :: a != 0 ==>
      Occurs(t.apcs, a) + (if e.kapc == a then 1 else 0) == if Get(m, a).inserted && Get(m, a).thread == i then 1 else 0
    ensures var (m1, r) := Enqueue(m, t, e); Flagged(m1, i, r) && OnlyFlags(m, m1, i)
  {
    var t1 := t.(apcs := t.apcs + [e], queued := t.queued + [e]);
    forall a: nat | a != 0 ensures Occurs(t1.apcs, a) == if Get(m, a).inserted && Get(m, a).thread == i then 1 else 0 {
      OccursAdd(t.apcs, e, a);
    }
    if t1.waiting && Pending(t1) { BeginFlags(m, i, t1.(waiting := false), 0, 0); }
  }

  // ---- The system's invariant ----

  ghost predicate Inv(s: System) {
    && (forall i :: 0 <= i < |s.threads| ==> ThreadOk(s.threads[i]) && Flagged(s.m, i, s.threads[i]))
    && (forall a: nat :: a != 0 && Get(s.m, a).inserted ==> Get(s.m, a).thread < |s.threads|)
  }

  lemma InvCounted(s: System)
    requires Inv(s)
    ensures Counted(s)
  {
    forall i | 0 <= i < |s.threads| ensures Started(s.threads[i]) >= 0 { CoreStage(s.threads[i]); }
  }

  /** A step of thread i that clears at most Inserted bytes of its own KAPCs. */
  lemma UpdateKeeps(s: System, i: nat, mt: (Memory, Thread))
    requires Inv(s) && i < |s.threads| && OnlyFlags(s.m, mt.0, i) && ThreadOk(mt.1) && Flagged(mt.0, i, mt.1)
    ensures Inv(Update(s, i, mt))
  {
    hide ThreadOk, Occurs;
    var r := Update(s, i, mt);
    forall j | 0 <= j < |r.threads| ensures ThreadOk(r.threads[j]) && Flagged(r.m, j, r.threads[j]) {
      if j != i { assert Flagged(s.m, j, s.threads[j]); }
    }
  }

  /** The KAPC is not queued; its Inserted byte is still clear, or its thread is i, whose queue gets it. */
  lemma MemoryKeeps(s: System, a: nat, k: Kapc)
    requires Inv(s) && k.inserted == Get(s.m, a).inserted && (k.inserted ==> k.thread == Get(s.m, a).thread)
    ensures Inv(s.(m := s.m[a := k]))
  {
    hide ThreadOk, Occurs;
    var r := s.(m := s.m[a := k]);
    forall j | 0 <= j < |r.threads| ensures ThreadOk(r.threads[j]) && Flagged(r.m, j, r.threads[j]) {
      assert Flagged(s.m, j, s.threads[j]);
      forall b: nat | b != 0
        ensures Occurs(r.threads[j].apcs, b) == if Get(r.m, b).inserted && Get(r.m, b).thread == j then 1 else 0
      {
        assert Occurs(s.threads[j].apcs, b) == if Get(s.m, b).inserted && Get(s.m, b).thread == j then 1 else 0;
      }
    }
    forall b: nat | b != 0 && Get(r.m, b).inserted ensures Get(r.m, b).thread < |r.threads| {
      assert Get(s.m, b).inserted;
    }
  }

  /** Initializing a KAPC keeps the account of the Inserted bytes exactly when it is not queued. */
  lemma InitializeKeepsExactly(s: System, a: nat, thread: nat, kernel: nat, normal: nat, ctx: nat)
    requires Inv(s) && a != 0
    ensures Inv(s.(m := Initialized(s.m, a, thread, kernel, normal, ctx))) <==> !Get(s.m, a).inserted
  {
    hide ThreadOk, Occurs;
    if Get(s.m, a).inserted {
      var i := Get(s.m, a).thread;
      var r := s.(m := Initialized(s.m, a, thread, kernel, normal, ctx));
      assert Flagged(s.m, i, s.threads[i]) && !Flagged(r.m, i, r.threads[i]);
    } else {
      MemoryKeeps(s, a, Get(Initialized(s.m, a, thread, kernel, normal, ctx), a));
    }
  }

  lemma RegistersKeep(s: System, i: nat, t: Thread)
    requires Inv(s) && i < |s.threads|
    requires var u := s.threads[i]; t == u.(waiting := t.waiting, esp := t.esp, eip := t.eip, eax := t.eax)
    ensures Inv(s.(threads := s.threads[i := t]))
  {
    CoreSame(s.threads[i], t);
    hide Core;
    assert Flagged(s.m, i, s.threads[i]);
    UpdateKeeps(s, i, (s.m, t));
  }

  lemma InsertKeeps(s: System, a: nat, a1: nat, a2: nat)
    requires Inv(s) && a != 0 && Counted(s)
    ensures Inv(Next(s, Insert(a, a1, a2)))
  {
    hide Core, Ready, Enqueue, Occurs, Started;
    var k := Get(s.m, a);
    if !k.inserted && k.thread < |s.threads| {
      var i, m1, e := k.thread, s.m[a := k.(inserted := true, a1 := a1, a2 := a2)], Queued(a, 0, 0, 0, 0);
      assert Flagged(s.m, i, s.threads[i]);
      EnqueueKeeps(m1, s.threads[i], e);
      EnqueueFlags(m1, i, s.threads[i], e);
      InsertedKeeps(s, a, m1, Enqueue(m1, s.threads[i], e));
    }
  }

  /** A KAPC's Inserted byte set for its thread, whose queue it joins. */
  lemma InsertedKeeps(s: System, a: nat, m1: Memory, mt: (Memory, Thread))
    requires Inv(s) && Get(s.m, a).thread < |s.threads| && !Get(s.m, a).inserted
    requires m1 == s.m[a := Get(m1, a)] && Get(m1, a).inserted && Get(m1, a).thread == Get(s.m, a).thread
    requires OnlyFlags(m1, mt.0, Get(s.m, a).thread) && ThreadOk(mt.1) && Flagged(mt.0, Get(s.m, a).thread, mt.1)
    ensures Inv(Update(s, Get(s.m, a).thread, mt))
  {
    hide ThreadOk, Occurs;
    var i := Get(s.m, a).thread;
    var r := Update(s, i, mt);
    forall j | 0 <= j < |r.threads| ensures ThreadOk(r.threads[j]) && Flagged(r.m, j, r.threads[j]) {
      if j != i { assert Flagged(s.m, j, s.threads[j]); }
    }
    forall b: nat | b != 0 && Get(r.m, b).inserted ensures Get(r.m, b).thread < |r.threads| {
      assert Get(mt.0, b) == Get(m1, b);
      if b != a { assert Get(m1, b) == Get(s.m, b); }
    }
  }

  lemma QueueToKeeps(s: System, i: nat, e: Queued)
    requires Inv(s) && i < |s.threads| && e.kapc == 0 && Counted(s)
    ensures Inv(Update(s, i, Enqueue(s.m, s.threads[i], e)))
  {
    assert Flagged(s.m, i, s.threads[i]);
    hide Core;
    EnqueueKeeps(s.m, s.threads[i], e);
    EnqueueFlags(s.m, i, s.threads[i], e);
    UpdateKeeps(s, i, Enqueue(s.m, s.threads[i], e));
  }

  lemma WaitStepKeeps(s: System, i: nat, esp: int, eip: int, blocks: bool)
    requires Inv(s) && i < |s.threads| && Counted(s)
    ensures Inv(Update(s, i, WaitStep(s.m, s.threads[i], esp, eip, blocks)))
  {
    assert Flagged(s.m, i, s.threads[i]);
    hide Core;
    WaitKeeps(s.m, s.threads[i], esp, eip, blocks);
    BeginFlags(s.m, i, s.threads[i], esp, eip);
    UpdateKeeps(s, i, WaitStep(s.m, s.threads[i], esp, eip, blocks));
  }

  lemma ReturnStepKeeps(s: System, i: nat)
    requires Inv(s) && i < |s.threads| && Counted(s) && s.threads[i].chain.inApc
    ensures Inv(Update(s, i, ReturnFrom(s.m, s.threads[i])))
  {
    assert Flagged(s.m, i, s.threads[i]);
    hide Core;
    ReturnKeeps(s.m, s.threads[i]);
    NextCallFlags(s.m, i, s.threads[i]);
    UpdateKeeps(s, i, ReturnFrom(s.m, s.threads[i]));
  }

  lemma NextKeeps(s: System, a: Step)
    requires Inv(s) && Allowed(s, a)
    ensures Counted(s) && Inv(Next(s, a))
  {
    InvCounted(s);
    hide Inv, Counted;
    match a
    case Initialize(a, thread, kernel, normal, ctx) => InitializeKeepsExactly(s, a, thread, kernel, normal, ctx);
    case Insert(a, a1, a2) => InsertKeeps(s, a, a1, a2);
    case QueueTo(i, normal, ctx, a1, a2) => QueueToKeeps(s, i, Queued(0, normal, ctx, a1, a2));
    case Wait(i, esp, eip, blocks) => WaitStepKeeps(s, i, esp, eip, blocks);
    case Wake(i, eax) => RegistersKeep(s, i, s.threads[i].(waiting := false, eax := eax));
    case Return(i) => ReturnStepKeeps(s, i);
    case GuestRuns(i, esp, eip) => RegistersKeep(s, i, s.threads[i].(esp := esp, eip := eip));
    case GuestWrites(a, k) => MemoryKeeps(s, a, k);
  }

  // ---- Whole runs ----

  ghost predicate CanRun(s: System, steps: seq<Step>)
    decreases |steps|
  {
    steps == [] || (Counted(s) && Allowed(s, steps[0]) && CanRun(Next(s, steps[0]), steps[1..]))
  }

  ghost function Run(s: System, steps: seq<Step>): System
    requires CanRun(s, steps)
    decreases |steps|
  {
    if steps == [] then s else Run(Next(s, steps[0]), steps[1..])
  }

  /** A run is its steps, one after the other. */
  lemma {:induction false} RunGoesOn(s: System, steps: seq<Step>, a: Step)
    requires CanRun(s, steps + [a])
    ensures CanRun(s, steps) && Counted(Run(s, steps)) && Allowed(Run(s, steps), a)
    ensures Run(s, steps + [a]) == Next(Run(s, steps), a)
    decreases |steps|
  {
    if steps == [] {
      assert ([] + [a])[1..] == [];
    } else {
      assert (steps + [a])[1..] == steps[1..] + [a];
      RunGoesOn(Next(s, steps[0]), steps[1..], a);
    }
  }

  lemma {:induction false} RunKeeps(s: System, steps: seq<Step>)
    requires Inv(s) && CanRun(s, steps)
    ensures Inv(Run(s, steps))
    decreases |steps|
  {
    if steps != [] {
      NextKeeps(s, steps[0]);
      RunKeeps(Next(s, steps[0]), steps[1..]);
    }
  }

  const NewThread := Thread([], Idle, [], false, 0, 0, 0, [], [])

  function Start(n: nat): System { System(map[], seq(n, _ => NewThread)) }

  lemma StartInv(n: nat)
    ensures Inv(Start(n))
  {
    hide Kinds;
    assert ThreadOk(NewThread);
    hide ThreadOk;
    forall i | 0 <= i < n ensures ThreadOk(Start(n).threads[i]) && Flagged(map[], i, Start(n).threads[i]) {
    }
  }

  /** Over any run of queueing, alertable waits, routine returns and whatever the guest does between:
      a thread's queue is what was queued and has not started, in order; kernel routines have their
      turns in that order; an APC that has left the queue has had exactly its kernel routine's turn and
      then its normal routine's, but for what the chains under way still owe theirs; each turn was given
      what was queued; and a KAPC is in its thread's queue, once, exactly while Inserted. */
  lemma ApcsAreDeliveredOnce(n: nat, steps: seq<Step>, i: nat)
    requires CanRun(Start(n), steps)
    ensures var s := Run(Start(n), steps); i < |s.threads| ==>
      var t := s.threads[i];
      && |t.apcs| <= |t.queued| && t.apcs == t.queued[Started(t)..]
      && (forall x, y :: 0 <= x < y < |t.turns| && t.turns[x].which == t.turns[y].which == KernelRoutine ==> t.turns[x].n < t.turns[y].n)
      && (forall x :: 0 <= x < |t.turns| ==> TurnOk(t, t.turns[x]))
      && (forall x :: 0 <= x < Started(t) ==> Kinds(t.turns, x) == Due(t, x))
      && (forall a: nat :: a != 0 ==> Occurs(t.apcs, a) == if Get(s.m, a).inserted && Get(s.m, a).thread == i then 1 else 0)
  {
    StartInv(n);
    RunKeeps(Start(n), steps);
    var s := Run(Start(n), steps);
    if i < |s.threads| {
      assert ThreadOk(s.threads[i]) && Flagged(s.m, i, s.threads[i]);
      forall x | 0 <= x < Started(s.threads[i])
        ensures Kinds(s.threads[i].turns, x) == Due(s.threads[i], x)
      {
        KindsOf(s.threads[i], x);
      }
    }
  }

  /** How far the chain that delivers the thread's n-th APC is with it. */
  function StageOf(t: Thread, n: nat): nat {
    if t.chain.cur.Some? && t.chain.cur.value.n == n then t.chain.stage else OuterStage(t.outer, n)
  }

  function OuterStage(outer: seq<Chain>, n: nat): nat {
    if outer == [] then 2
    else if outer[0].cur.Some? && outer[0].cur.value.n == n then outer[0].stage
    else OuterStage(outer[1..], n)
  }

  /** The turns a started APC has had: both, or what its chain's stage says. */
  function Due(t: Thread, n: nat): seq<Which> {
    if Delivering(t, n) then StageKinds(StageOf(t, n)) else [KernelRoutine, NormalRoutine]
  }

  lemma KindsOf(t: Thread, n: nat)
    requires Core(t) && n < Started(t)
    ensures Kinds(t.turns, n) == Due(t, n)
  {
    if Delivering(t, n) && !(t.chain.cur.Some? && t.chain.cur.value.n == n) {
      var x := OuterFound(t.outer, n);
      assert CurOk(t, t.outer[x]);
    }
  }

  lemma {:induction false} OuterFound(outer: seq<Chain>, n: nat) returns (x: nat)
    requires exists y :: 0 <= y < |outer| && outer[y].cur.Some? && outer[y].cur.value.n == n
    ensures x < |outer| && outer[x].cur.Some? && outer[x].cur.value.n == n && OuterStage(outer, n) == outer[x].stage
  {
    if outer[0].cur.Some? && outer[0].cur.value.n == n { x := 0; }
    else {
      var y :| 0 <= y < |outer| && outer[y].cur.Some? && outer[y].cur.value.n == n;
      assert outer[1..][y - 1] == outer[y];
      var z := OuterFound(outer[1..], n);
      x := z + 1;
    }
  }

  // ---- Nested waits ----

  /** The chains are as before, and the thread is where the step says. */
  predicate Stayed(t: Thread, r: Thread, a: Step, i: nat) {
    && Stack(r) == Stack(t)
    && match a
       case Wait(j, esp, eip, blocks) => if j == i then r.esp == esp && r.eip == eip && r.waiting == blocks else r == t
       case Wake(j, eax) => if j == i then r == t.(waiting := false, eax := eax) else r == t
       case GuestRuns(j, esp, eip) => if j == i then r == t.(esp := esp, eip := eip) else r == t
       case Return(j) => j != i && r == t
       case Initialize(_, _, _, _, _) => r == t
       case GuestWrites(_, _) => r == t
       case _ => Over(t, r)
  }

  /** What one step does to a thread: one more chain is begun over those under way, or the innermost goes
      on, and then the thread is in the routine that is due; or the innermost ends, and it is back from
      that chain's wait; or the chains stay, and it is where the step says. */
  lemma StepMoves(s: System, a: Step, i: nat)
    requires Inv(s) && Counted(s) && Allowed(s, a) && i < |s.threads|
    ensures var t, r, m := s.threads[i], Next(s, a).threads[i], Next(s, a).m;
      || Stayed(t, r, a, i)
      || BegunFrom(m, t, r, if a.Wait? then a.esp else t.esp, if a.Wait? then a.eip else t.eip)
      || (Advanced(t, r) && Entered(m, r)) || Popped(t, r)
  {
    hide Core, Flagged, Entered, Pushed, Advanced, Popped;
    var t := s.threads[i];
    assert ThreadOk(t);
    match a {
      case Initialize(_, _, _, _, _) =>
      case Insert(b, a1, a2) =>
        var k := Get(s.m, b);
        if !k.inserted && k.thread == i { EnqueueKeeps(s.m[b := k.(inserted := true, a1 := a1, a2 := a2)], t, Queued(b, 0, 0, 0, 0)); }
      case QueueTo(j, normal, ctx, a1, a2) => if j == i { EnqueueKeeps(s.m, t, Queued(0, normal, ctx, a1, a2)); }
      case Wait(j, esp, eip, blocks) => if j == i { WaitKeeps(s.m, t, esp, eip, blocks); }
      case Wake(_, _) =>
      case Return(j) => if j == i { ReturnKeeps(s.m, t); }
      case GuestRuns(_, _, _) =>
      case GuestWrites(_, _) =>
    }
  }

  /** The APC the step queues to thread i, if it does. */
  function QueuedBy(s: System, a: Step, i: nat): Option<Queued> {
    match a
    case QueueTo(j, normal, ctx, a1, a2) => if j == i then Some(Queued(0, normal, ctx, a1, a2)) else None
    case Insert(b, _, _) => if !Get(s.m, b).inserted && Get(s.m, b).thread == i then Some(Queued(b, 0, 0, 0, 0)) else None
    case _ => None
  }

  /** An APC queued to a thread in an alertable wait ends the wait, wherever a chain can start: the thread is
      in the due routine, or none of its APCs has one and the wait returns that it was alerted.  To any
      other thread it joins the back of the queue and nothing else changes. */
  lemma QueueingEndsWait(s: System, a: Step, i: nat)
    requires Inv(s) && Counted(s) && Allowed(s, a) && i < |s.threads| && QueuedBy(s, a, i).Some?
    ensures var t, r, m, q := s.threads[i], Next(s, a).threads[i], Next(s, a).m, QueuedBy(s, a, i).value;
      && r.queued == t.queued + [q]
      && (t.waiting && CanBegin(t) ==>
            && !r.waiting
            && (BegunFrom(m, t, r, t.esp, t.eip) || (Over(t, r) && r.eax == STATUS_USER_APC && r.apcs == [])))
      && (!(t.waiting && CanBegin(t)) ==> r == t.(apcs := t.apcs + [q], queued := t.queued + [q]))
  {
    var t := s.threads[i];
    assert ThreadOk(t);
    var m := if a.Insert? then s.m[a.a := Get(s.m, a.a).(inserted := true, a1 := a.a1, a2 := a.a2)] else s.m;
    hide Core, Flagged, Entered, Pushed;
    EnqueueKeeps(m, t, QueuedBy(s, a, i).value);
    EnqueueEndsWait(m, t, QueuedBy(s, a, i).value);
  }

  lemma EnqueueEndsWait(m: Memory, t: Thread, a: Queued)
    requires Started(t) >= 0 && Ready(t)
    ensures var (m1, r) := Enqueue(m, t, a);
      && r.queued == t.queued + [a]
      && (t.waiting && CanBegin(t) ==>
            !r.waiting && (|Stack(r)| > |Stack(t)| || (r.eax == STATUS_USER_APC && r.apcs == [])))
      && (!(t.waiting && CanBegin(t)) ==> r == t.(apcs := t.apcs + [a], queued := t.queued + [a]))
  {
    hide NextCall;
  }

  /** The routine the thread is in, and its arguments. */
  predicate In(t: Thread, routine: nat, args: seq<nat>) {
    && t.chain.inApc && !t.waiting && t.turns != [] && t.eip == routine != 0
    && t.turns[|t.turns| - 1].routine == routine && t.turns[|t.turns| - 1].args == args
  }

  /** A KAPC inserted for a thread in an alertable wait is called as it was initialized: its kernel routine with where
      its words are, or where it has none its normal routine with its context and the arguments it was inserted with. */
  lemma InitializedIsCalled(s: System, a: nat, i: nat, kernel: nat, normal: nat, ctx: nat, a1: nat, a2: nat)
    requires Inv(s) && Counted(s) && Allowed(s, Initialize(a, i, kernel, normal, ctx)) && i < |s.threads|
    requires s.threads[i].waiting && CanBegin(s.threads[i]) && s.threads[i].apcs == [] && (kernel != 0 || normal != 0)
    ensures var s1 := Next(s, Initialize(a, i, kernel, normal, ctx));
      && Counted(s1) && Allowed(s1, Insert(a, a1, a2)) && (normal == 0 ==> Get(s1.m, a).ctx == 0)
      && var s2 := Next(s1, Insert(a, a1, a2));
         && |s2.threads| == |s.threads|
         && var t := s2.threads[i];
            && t.chain.cur.Some? && t.chain.cur.value.apc.kapc == a && !Get(s2.m, a).inserted && Get(s2.m, a).thread == i
            && t.chain.stage == (if kernel != 0 then 1 else 2)
            && if kernel != 0 then In(t, kernel, [a, a + 0x18, a + 0x1C, a + 0x20, a + 0x24]) else In(t, normal, [ctx, a1, a2])
  {
    var s1 := Next(s, Initialize(a, i, kernel, normal, ctx));
    var t := s.threads[i];
    assert ThreadOk(t);
    var q := Queued(a, 0, 0, 0, 0);
    var m := s1.m[a := Get(s1.m, a).(inserted := true, a1 := a1, a2 := a2)];
    OnlyOne(m, t, q);
  }

  /** With nothing else queued the APC's first routine is entered at once. */
  lemma OnlyOne(m: Memory, t: Thread, q: Queued)
    requires Started(t) >= 0 && t.waiting && CanBegin(t) && t.apcs == [] && q.kapc != 0
    requires Get(m, q.kapc).kernel != 0 || Get(m, q.kapc).normal != 0
    ensures var (m1, r) := Enqueue(m, t, q); var k := Get(m, q.kapc);
      && r.chain.cur.Some? && r.chain.cur.value.apc.kapc == q.kapc && Get(m1, q.kapc) == k.(inserted := false)
      && r.chain.stage == (if k.kernel != 0 then 1 else 2)
      && if k.kernel != 0 then In(r, k.kernel, KernelArgs(q)) else In(r, k.normal, [k.ctx, k.a1, k.a2])
  {
    var t1 := t.(apcs := [q], queued := t.queued + [q], waiting := false);
    assert t.apcs + [q] == [q];
    var t2 := ChainStart(t1, t1.esp, t1.eip).value;
    var (m3, t3) := Load(m, t2);
    assert NextCall(m, t2) == Deliver(m3, t3);
  }

  /** After its kernel routine, what the guest made of the KAPC's words is what its normal routine is called with. */
  lemma NormalIsCalled(s: System, a: nat, i: nat, k: Kapc)
    requires Counted(s) && i < |s.threads| && a != 0 && k.normal != 0 && Allowed(s, GuestWrites(a, k))
    requires var t := s.threads[i];
      t.chain.inApc && !t.waiting && t.chain.cur.Some? && t.chain.cur.value.apc.kapc == a && t.chain.stage == 1
    ensures var s1 := Next(s, GuestWrites(a, k));
      && Counted(s1) && Allowed(s1, Return(i))
      && var s2 := Next(s1, Return(i)); |s2.threads| == |s.threads| && In(s2.threads[i], k.normal, [k.ctx, k.a1, k.a2])
  {
    var t := s.threads[i];
    var m := s.m[a := k];
    assert NextCall(m, t) == Deliver(m, t);
  }

  /** Thread i has more than d chains under way until the last step. */
  ghost predicate Above(s: System, steps: seq<Step>, i: nat, d: nat)
    requires CanRun(s, steps) && i < |s.threads|
    decreases |steps|
  {
    |Stack(s.threads[i])| > d && (|steps| > 1 ==> i < |Next(s, steps[0]).threads| && Above(Next(s, steps[0]), steps[1..], i, d))
  }

  /** However its chain goes on, and whatever waits nest in it, when a chain ends the thread is back from
      the wait that began it, with the chains the wait interrupted just where they were. */
  lemma {:induction false} ChainsResume(s: System, steps: seq<Step>, i: nat, d: nat)
    requires Inv(s) && CanRun(s, steps) && steps != [] && i < |s.threads| && Above(s, steps, i, d)
    requires i < |Run(s, steps).threads| && |Stack(Run(s, steps).threads[i])| <= d
    ensures var r := Run(s, steps).threads[i]; var c := Stack(s.threads[i])[d];
      && Stack(r) == Stack(s.threads[i])[..d]
      && r.esp == c.esp && r.eip == c.eip && r.eax == STATUS_USER_APC
    decreases |steps|
  {
    hide Inv, Next, Allowed, Counted, Entered, Over, BegunFrom, Stayed;
    var t, r := s.threads[i], Next(s, steps[0]);
    StepMovesStack(s, steps[0], i);
    NextKeeps(s, steps[0]);
    if |steps| == 1 {
      assert steps[1..] == [] && Run(s, steps) == r;
    } else {
      ChainsResume(r, steps[1..], i, d);
      ChainKept(t, r.threads[i], d);
    }
  }

  lemma StepMovesStack(s: System, a: Step, i: nat)
    requires Inv(s) && Counted(s) && Allowed(s, a) && i < |s.threads|
    ensures i < |Next(s, a).threads|
    ensures var t, r := s.threads[i], Next(s, a).threads[i];
      Stack(r) == Stack(t) || Advanced(t, r) || Popped(t, r) || exists esp, eip :: Pushed(t, r, esp, eip)
  {
    NextKeeps(s, a);
    hide Inv, Next, Allowed, Counted, Entered, Over;
    StepMoves(s, a, i);
  }

  /** A step that leaves more than d chains leaves the first d, and where the next returns to. */
  lemma ChainKept(t: Thread, r: Thread, d: nat)
    requires |Stack(t)| > d && |Stack(r)| > d
    requires Stack(r) == Stack(t) || Advanced(t, r) || Popped(t, r) || exists esp, eip :: Pushed(t, r, esp, eip)
    ensures Stack(r)[..d] == Stack(t)[..d] && Stack(r)[d].esp == Stack(t)[d].esp && Stack(r)[d].eip == Stack(t)[d].eip
  {
    var last := |Stack(t)| - 1;
    if Advanced(t, r) {
      assert Stack(r)[..d] == Stack(r)[..last][..d];
      assert Stack(t)[..d] == Stack(t)[..last][..d];
      if d < last {
        assert Stack(r)[d] == Stack(r)[..last][d];
        assert Stack(t)[d] == Stack(t)[..last][d];
      }
    } else if Popped(t, r) {
      assert Stack(r)[..d] == Stack(t)[..last][..d] == Stack(t)[..d];
    } else if Stack(r) != Stack(t) {
      assert Stack(r)[..|Stack(t)|] == Stack(t);
      assert Stack(r)[..d] == Stack(r)[..|Stack(t)|][..d];
      assert Stack(r)[d] == Stack(r)[..|Stack(t)|][d];
    }
  }

  // ---- In place ----

  /** Guest memory. */
  class Guest {
    var m: Memory
    constructor ()
      ensures m == map[]
    {
      m := map[];
    }
  }

  /** NcThread's part: apcs, apc, apc_outer and apc_nest, and the registers of its context. */
  class ThreadApcs {
    var apcs: seq<Queued>
    var chain: Chain
    const outer: array<Chain>
    var nest: nat
    var started: nat
    var waiting: bool
    var esp: int
    var eip: int
    var eax: int
    ghost var queued: seq<Queued>
    ghost var turns: seq<Turn>

    ghost predicate Valid()
      reads this, outer
    {
      outer.Length == MAX_NEST && nest <= MAX_NEST && Started(T()) == started
    }

    ghost function T(): Thread
      reads this, outer
    {
      Thread(apcs, chain, if nest <= outer.Length then outer[..nest] else [], waiting, esp, eip, eax, queued, turns)
    }

    constructor ()
      ensures Valid() && T() == NewThread && fresh(outer)
    {
      apcs, chain, nest, started, waiting, esp, eip, eax := [], Idle, 0, 0, false, 0, 0, 0;
      queued, turns := [], [];
      outer := new Chain[MAX_NEST](_ => Idle);
    }

    /** Delivery begins: out of the queue. */
    method TakeHead(g: Guest)
      requires Valid() && apcs != []
      modifies this, g
      ensures Valid() && (g.m, T()) == Load(old(g.m), old(T()))
    {
      var a := apcs[0];
      apcs := apcs[1..];
      chain := chain.(cur := Some(Current(a, started)), stage := 0);
      started := started + 1;
      if a.kapc != 0 {
        g.m := g.m[a.kapc := Get(g.m, a.kapc).(inserted := false)];
      }
    }

    /** next_call: loops over APCs that call nothing. */
    method NextTurn(g: Guest) returns (calls: bool, routine: nat, args: seq<nat>)
      requires Valid()
      modifies this, g
      ensures Valid() && (g.m, T(), calls) == NextCall(old(g.m), old(T()))
      ensures calls ==> turns != [] && routine == turns[|turns| - 1].routine && args == turns[|turns| - 1].args
    {
      calls, routine, args := false, 0, [];
      ghost var m0, t0 := g.m, T();
      hide Deliver;
      while true
        invariant Valid() && NextCall(g.m, T()) == NextCall(m0, t0)
        decreases Work(T())
      {
        if chain.cur.None? {
          if apcs == [] {
            return;
          }
          TakeHead(g);
        }
        assert NextCall(m0, t0) == Deliver(g.m, T());
        calls, routine, args := TakeTurn(g);
        if calls {
          return;
        }
      }
    }

    /** The current APC's next turn; it is done where that calls nothing. */
    method TakeTurn(g: Guest) returns (calls: bool, routine: nat, args: seq<nat>)
      requires Valid() && chain.cur.Some?
      modifies this
      ensures calls || Work(T()) < old(Work(T()))
      ensures Valid() && Deliver(old(g.m), old(T())) == if calls then (g.m, T(), true) else NextCall(g.m, T())
      ensures calls ==> turns != [] && routine == turns[|turns| - 1].routine && args == turns[|turns| - 1].args
    {
      hide NextCall;
      var c := chain.cur.value;
      ghost var t := T();
      calls, routine, args := true, 0, [];
      if chain.stage == 0 && KernelOf(g.m, c.apc) != 0 {
        chain := chain.(stage := 1);
        routine, args := KernelOf(g.m, c.apc), KernelArgs(c.apc);
        turns := turns + [Turn(c.n, KernelRoutine, routine, args)];
        return;
      }
      if chain.stage < 2 {
        if chain.stage == 0 {
          turns := turns + [Turn(c.n, KernelRoutine, 0, KernelArgs(c.apc))];
        }
        var a := Refreshed(g.m, c.apc);
        chain := chain.(stage := 2, cur := Some(Current(a, c.n)));
        turns := turns + [Turn(c.n, NormalRoutine, a.normal, [a.ctx, a.a1, a.a2])];
        assert T() == NormalTurn(g.m, if t.chain.stage == 0 then KernelTurn(g.m, t) else t);
        if a.normal != 0 {
          routine, args := a.normal, [a.ctx, a.a1, a.a2];
          return;
        }
      }
      chain := chain.(cur := None);
      calls := false;
    }

    method StartChain(finalEsp: int, finalEip: int) returns (ok: bool)
      requires Valid()
      modifies this, outer
      ensures Valid() && ok == ChainStart(old(T()), finalEsp, finalEip).Some?
      ensures T() == if ok then ChainStart(old(T()), finalEsp, finalEip).value else old(T())
    {
      ok := !(chain.inApc && nest == MAX_NEST);
      if ok {
        if chain.inApc {
          outer[nest] := chain;
          nest := nest + 1;
        }
        chain := Chain(false, None, 0, finalEsp, finalEip);
      }
    }

    method EndChain()
      requires Valid()
      modifies this
      ensures Valid() && T() == ChainEnd(old(T()))
    {
      if nest != 0 {
        nest := nest - 1;
        chain := outer[nest];
      } else {
        chain := Idle;
      }
    }

    method Begin(g: Guest, finalEsp: int, finalEip: int) returns (begun: bool)
      requires Valid()
      modifies this, outer, g
      ensures Valid() && (g.m, T(), begun) == BeginFrame(old(g.m), old(T()), finalEsp, finalEip)
    {
      hide NextCall;
      begun := StartChain(finalEsp, finalEip);
      if begun {
        var calls, routine, args := NextTurn(g);
        if calls {
          chain := chain.(inApc := true);
          esp, eip := (finalEsp - 16 - 4 * |args|) % WORD, routine;
        } else {
          EndChain();
        }
        begun := calls;
      }
    }

    /** begin_ctx. */
    method BeginWaiting(g: Guest)
      requires Valid()
      modifies this, outer, g
      ensures Valid() && (g.m, T()) == BeginCtx(old(g.m), old(T()))
    {
      hide NextCall;
      var finalEsp := esp;
      var ok := StartChain(esp, eip);
      if ok {
        var calls, routine, args := NextTurn(g);
        if calls {
          chain := chain.(inApc := true);
          esp, eip := (finalEsp - 16 - 4 * |args|) % WORD, routine;
        } else {
          EndChain();
          eax := STATUS_USER_APC;
        }
      }
    }

    /** nc_apc_return, in an APC. */
    method Return(g: Guest)
      requires Valid() && chain.inApc
      modifies this, g
      ensures Valid() && (g.m, T()) == ReturnFrom(old(g.m), old(T()))
    {
      var calls, routine, args := NextTurn(g);
      if calls {
        esp, eip := (chain.esp - 16 - 4 * |args|) % WORD, routine;
      } else {
        var finalEsp, finalEip := chain.esp, chain.eip;
        EndChain();
        esp, eip, eax := finalEsp, finalEip, STATUS_USER_APC;
      }
    }

    /** nc_apc_queue. */
    method Add(g: Guest, a: Queued)
      requires Valid()
      modifies this, outer, g
      ensures Valid() && (g.m, T()) == Enqueue(old(g.m), old(T()), a)
    {
      apcs := apcs + [a];
      queued := queued + [a];
      if waiting && apcs != [] && (!chain.inApc || nest < MAX_NEST) {
        waiting := false;
        BeginWaiting(g);
      }
    }

    /** KeInsertQueueApc for a KAPC of this thread. */
    method Insert(g: Guest, a: nat, a1: nat, a2: nat) returns (queuedIt: bool)
      requires Valid() && a != 0
      modifies this, outer, g
      ensures Valid() && queuedIt == !Get(old(g.m), a).inserted
      ensures var k := Get(old(g.m), a);
        (g.m, T()) == if k.inserted then (old(g.m), old(T()))
                      else Enqueue(old(g.m)[a := k.(inserted := true, a1 := a1, a2 := a2)], old(T()), Queued(a, 0, 0, 0, 0))
    {
      var k := Get(g.m, a);
      queuedIt := !k.inserted;
      if queuedIt {
        g.m := g.m[a := k.(inserted := true, a1 := a1, a2 := a2)];
        Add(g, Queued(a, 0, 0, 0, 0));
      }
    }
  }
}
