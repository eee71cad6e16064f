/** RTL_CRITICAL_SECTION over the dispatcher (native/kernel/ke.c). */
module CriticalSection {
  import opened Wrappers
  import opened Dispatcher
  import opened Handover
  import opened Holding

  const INT_MAX: int := 0x7FFF_FFFF

  predicate HasSection(k: Ke, c: nat) { c in k.objs && c in k.sections }

  /** RtlInitializeCriticalSection. */
  function Init(k: Ke, c: nat): Ke {
    k.(objs := k.objs[c := Obj(Synchronization, 0, 0, 0)], sections := k.sections[c := Section(-1, 0, 0)])
  }

  function SetSection(k: Ke, c: nat, s: Section): (r: Ke)
    ensures Shaped(k) ==> Shaped(r)
  {
    k.(sections := k.sections[c := s])
  }

  function SectionWait(c: nat): Wait { Wait([c], false, 0, Some(c)) }

  /** RtlEnterCriticalSection by thread i. */
  function Enter(k: Ke, i: nat, c: nat): (r: Ke)
    requires Shaped(k) && HasSection(k, c) && i < |k.threads|
    ensures Shaped(r) && |r.threads| == |k.threads|
  {
    var me, s := k.threads[i].ethread, k.sections[c];
    var lock := s.lock + 1;
    if lock == 0 then SetSection(k, c, Section(lock, 1, me))
    else if s.owner == me then SetSection(k, c, s.(lock := lock, recursion := s.recursion + 1))
    else WaitFor(SetSection(k, c, s.(lock := lock)), i, SectionWait(c), Never)
  }

  /** RtlLeaveCriticalSection. */
  function Leave(k: Ke, c: nat, now: nat): (r: Ke)
    requires Shaped(k) && HasSection(k, c)
    ensures Shaped(r) && |r.threads| == |k.threads|
  {
    var s := k.sections[c];
    var rec, lock := s.recursion - 1, s.lock - 1;
    if rec != 0 then SetSection(k, c, s.(lock := lock, recursion := rec))
    else
      var free := SetSection(k, c, Section(lock, 0, 0));
      if lock >= 0 then SetEvent(free, c, now) else free
  }

  /** RtlTryEnterCriticalSection. */
  function TryEnter(k: Ke, i: nat, c: nat): (r: (Ke, bool))
    requires Shaped(k) && HasSection(k, c) && i < |k.threads|
    ensures Shaped(r.0) && |r.0.threads| == |k.threads|
  {
    var me, s := k.threads[i].ethread, k.sections[c];
    if s.lock == -1 then (SetSection(k, c, Section(0, 1, me)), true)
    else if s.owner == me then (SetSection(k, c, s.(lock := s.lock + 1, recursion := s.recursion + 1)), true)
    else (k, false)
  }

  // ---- What the threads hold ----

  /** The kernel, and how many times each thread has entered the section and not left it: counted at
      the calls, and at one when a wait for it ends. */
  datatype Run = Run(k: Ke, holds: seq<nat>)

  datatype Step =
    | StepEnter(i: nat)
    | StepTry(i: nat)
    | StepLeave(i: nat)
    | Other(op: Op)       // any other dispatcher operation

  /** Calls come from running threads, leaves from the owner, and nothing else uses the section's event. */
  predicate Allowed(r: Run, c: nat, a: Step) {
    match a
    case StepEnter(i) => i < |r.k.threads| && r.k.threads[i].phase == Running && HasSection(r.k, c) && r.k.sections[c].lock < INT_MAX
    case StepTry(i) => i < |r.k.threads| && r.k.threads[i].phase == Running && HasSection(r.k, c) && r.k.sections[c].lock < INT_MAX
    case StepLeave(i) =>
      i < |r.k.threads| && i < |r.holds| && r.k.threads[i].phase == Running && HasSection(r.k, c) && r.holds[i] > 0
    case Other(op) => Dispatcher.Allowed(r.k, op) && Elsewhere(op, c)
  }

  predicate Elsewhere(op: Op, c: nat) {
    Avoids(op, c) && (op.Begin? ==> op.w.cs != Some(c))
  }

  function Next(r: Run, c: nat, a: Step, now: nat): (t: Run)
    requires Shaped(r.k) && |r.holds| == |r.k.threads| && Allowed(r, c, a)
    ensures Shaped(t.k) && |t.holds| == |t.k.threads|
  {
    match a
    case StepEnter(i) =>
      var k := Enter(r.k, i, c);
      Run(k, if k.threads[i].phase == Running then r.holds[i := r.holds[i] + 1] else r.holds)
    case StepTry(i) =>
      var (k, ok) := TryEnter(r.k, i, c);
      Run(k, if ok then r.holds[i := r.holds[i] + 1] else r.holds)
    case StepLeave(i) =>
      var k := Leave(r.k, c, now);
      Run(k, Woken(r.k, k, c, r.holds[i := r.holds[i] - 1]))
    case Other(op) =>
      NextLength(r.k, op, now);
      var k := Dispatcher.Next(r.k, op, now);
      Run(k, Woken(r.k, k, c, r.holds))
  }

  lemma NextLength(k: Ke, op: Op, now: nat)
    requires Shaped(k) && Dispatcher.Allowed(k, op)
    ensures |Dispatcher.Next(k, op, now).threads| == |k.threads|
  {
  }

  // ---- The invariant ----

  /** The owner's words say what the threads hold. */
  predicate OwnerInv(r: Run, c: nat)
    requires HasSection(r.k, c) && |r.holds| == |r.k.threads|
  {
    var s := r.k.sections[c];
    && (forall i :: 0 <= i < |r.holds| ==>
          r.holds[i] == if s.owner != 0 && r.k.threads[i].ethread == s.owner then s.recursion else 0)
    && (forall i :: 0 <= i < |r.holds| && r.holds[i] > 0 ==> !WaitsOn(r.k.threads[i], c))
    && (if s.owner == 0 then s.recursion == 0 && s.lock == -1
        else s.recursion >= 1 && exists i :: 0 <= i < |r.holds| && r.k.threads[i].ethread == s.owner)
  }

  predicate CountInv(r: Run, c: nat)
    requires HasSection(r.k, c)
  {
    r.k.sections[c].lock + 1 == r.k.sections[c].recursion + Waiters(r.k, c, |r.k.threads|)
  }

  ghost predicate Inv(r: Run, c: nat) {
    && KeInv(r.k) && HasSection(r.k, c) && |r.holds| == |r.k.threads|
    && r.k.objs[c].kind == Synchronization && r.k.objs[c].signal == 0
    && Simple(r.k, c, Some(c))
    && (forall i :: 0 <= i < |r.k.threads| ==> r.k.threads[i].ethread != 0)
    && OwnerInv(r, c)
    && CountInv(r, c)
  }

  lemma SectionsKeepKe(k: Ke, c: nat, s: Section)
    requires KeInv(k)
    ensures KeInv(SetSection(k, c, s))
  {
    forall i | 0 <= i < |k.threads| ensures !Starved(SetSection(k, c, s), i) { assert !Starved(k, i); }
  }

  /** Entering a free section, or one's own again. */
  lemma EnterUnblockedKeeps(r: Run, c: nat, i: nat)
    requires Inv(r, c) && Allowed(r, c, StepEnter(i))
    requires r.k.sections[c].lock == -1 || r.k.sections[c].owner == r.k.threads[i].ethread
    ensures Enter(r.k, i, c).threads == r.k.threads
    ensures Inv(Run(Enter(r.k, i, c), r.holds[i := r.holds[i] + 1]), c)
  {
    var k := Enter(r.k, i, c);
    SectionsKeepKe(r.k, c, k.sections[c]);
    assert k == SetSection(r.k, c, k.sections[c]);
    WaitersSame(r.k, k, c, |k.threads|);
    var t := Run(k, r.holds[i := r.holds[i] + 1]);
    forall j | 0 <= j < |t.holds|
      ensures t.holds[j] == if k.sections[c].owner != 0 && k.threads[j].ethread == k.sections[c].owner then k.sections[c].recursion else 0
    {
      if i != j { OthersDiffer(r.k, i, j); }
    }
  }

  lemma OthersDiffer(k: Ke, i: nat, j: nat)
    requires KeInv(k) && i < |k.threads| && j < |k.threads| && i != j
    ensures k.threads[i].ethread != k.threads[j].ethread
  {
    if i < j { assert k.threads[i].ethread != k.threads[j].ethread; } else { assert k.threads[j].ethread != k.threads[i].ethread; }
  }

  /** Entering another's section: one more waiter. */
  lemma EnterBlockedKeeps(r: Run, c: nat, i: nat)
    requires Inv(r, c) && Allowed(r, c, StepEnter(i))
    requires r.k.sections[c].lock != -1 && r.k.sections[c].owner != r.k.threads[i].ethread
    ensures Enter(r.k, i, c).threads[i].phase == Waiting
    ensures Inv(Run(Enter(r.k, i, c), r.holds), c)
  {
    EnterWaits(r, c, i);
    hide KeInv, Enter;
    WaitersChange(r.k, Enter(r.k, i, c), c, |r.k.threads|, i);
  }

  /** What an enter that blocks does: one more in LockCount, and the thread waiting for the section. */
  lemma EnterWaits(r: Run, c: nat, i: nat)
    requires Inv(r, c) && Allowed(r, c, StepEnter(i))
    requires r.k.sections[c].lock != -1 && r.k.sections[c].owner != r.k.threads[i].ethread
    ensures var s := r.k.sections[c];
      Enter(r.k, i, c) == SetSection(r.k, c, s.(lock := s.lock + 1))
        .(threads := r.k.threads[i := r.k.threads[i].(phase := Waiting, wait := SectionWait(c))])
    ensures KeInv(Enter(r.k, i, c))
  {
    var s := r.k.sections[c];
    var k1 := SetSection(r.k, c, s.(lock := s.lock + 1));
    SectionsKeepKe(r.k, c, s.(lock := s.lock + 1));
    hide OwnerInv, CountInv, Simple;
    WaitForKeeps(k1, i, SectionWait(c), Never);
    NotSignaled(k1, i, c);
    hide KeInv, Satisfied;
  }

  lemma NotSignaled(k: Ke, i: nat, c: nat)
    requires c in k.objs && k.objs[c].kind == Synchronization && k.objs[c].signal == 0 && i < |k.threads|
    ensures Satisfied(k.objs, k.threads[i].ethread, SectionWait(c)) == -1
  {
    var e := k.threads[i].ethread;
    assert FirstSignaled(k.objs, e, SectionWait(c), 0) == FirstSignaled(k.objs, e, SectionWait(c), 1) == -1;
  }

  lemma EnterKeeps(r: Run, c: nat, i: nat, now: nat)
    requires Inv(r, c) && Allowed(r, c, StepEnter(i))
    ensures Inv(Next(r, c, StepEnter(i), now), c)
  {
    if r.k.sections[c].lock == -1 || r.k.sections[c].owner == r.k.threads[i].ethread {
      EnterUnblockedKeeps(r, c, i);
    } else {
      EnterBlockedKeeps(r, c, i);
    }
  }

  lemma TryKeeps(r: Run, c: nat, i: nat, now: nat)
    requires Inv(r, c) && Allowed(r, c, StepTry(i))
    ensures Inv(Next(r, c, StepTry(i), now), c)
    ensures TryEnter(r.k, i, c).1 <==> r.k.sections[c].owner == 0 || r.k.sections[c].owner == r.k.threads[i].ethread
  {
    if r.k.sections[c].lock == -1 || r.k.sections[c].owner == r.k.threads[i].ethread {
      EnterUnblockedKeeps(r, c, i);
      assert TryEnter(r.k, i, c).0 == Enter(r.k, i, c);
    }
  }

  /** Only the first waiter is served one unit. */
  lemma ServedIsFirst(k: Ke, x: nat, f: nat, i: nat)
    requires f < |k.threads| && WaitsOn(k.threads[f], x) && Waiters(k, x, f) == 0 && i < |k.threads| && i != f
    ensures !Served(k, x, 1, i)
  {
    if WaitsOn(k.threads[i], x) {
      if i < f { WaitersMember(k, x, f, i); } else { WaitersMember(k, x, i, f); }
    }
  }

  /** The last leave with waiters: the first of them owns the section. */
  lemma HandOver(r: Run, c: nat, i: nat, now: nat) returns (f: nat)
    requires Inv(r, c) && Allowed(r, c, StepLeave(i)) && r.k.sections[c].recursion == 1 && r.k.sections[c].lock > 0
    ensures f < |r.k.threads| && WaitsOn(r.k.threads[f], c) && f != i
    ensures var k := Leave(r.k, c, now);
      && k.sections == r.k.sections[c := Section(r.k.sections[c].lock - 1, 1, r.k.threads[f].ethread)]
      && KeInv(k) && k.objs == r.k.objs && |k.threads| == |r.k.threads|
      && k.threads[f] == r.k.threads[f].(phase := Ready, eax := 0)
      && (forall j :: 0 <= j < |k.threads| && j != f && WaitsOn(r.k.threads[j], c) ==> k.threads[j] == r.k.threads[j])
      && (forall j :: 0 <= j < |k.threads| && !WaitsOn(r.k.threads[j], c) ==> Bystander(r.k.threads[j], k.threads[j]))
      && Waiters(k, c, |k.threads|) == Waiters(r.k, c, |r.k.threads|) - 1
  {
    LeaveSets(r.k, c, now);
    var k1 := SetSignal(SetSection(r.k, c, Section(r.k.sections[c].lock - 1, 0, 0)), c, 1);
    LeaveSignals(r, c, k1);
    hide KeInv, Signaled, Simple, OwnerInv, AllWaitsOk, AllInRange, CheckAll, Leave;
    WaitersSame(r.k, k1, c, |k1.threads|);
    hide Waiters;
    f := PassToFirst(k1, c, now);
    assert k1.objs[c := k1.objs[c].(signal := 0)] == r.k.objs;
  }

  lemma LeaveSets(k: Ke, c: nat, now: nat)
    requires Shaped(k) && HasSection(k, c) && k.sections[c].recursion == 1 && k.sections[c].lock > 0
    ensures Leave(k, c, now) == CheckAll(SetSignal(SetSection(k, c, Section(k.sections[c].lock - 1, 0, 0)), c, 1), now)
  {
  }

  /** One unit for a section's event, some thread waiting for it. */
  lemma PassToFirst(k1: Ke, c: nat, now: nat) returns (f: nat)
    requires Signaled(k1, c, 1, Some(c)) && AllWaitsOk(k1) && AllInRange(k1.objs) && Waiters(k1, c, |k1.threads|) > 0
    requires c in k1.sections
    ensures f < |k1.threads| && WaitsOn(k1.threads[f], c)
    ensures var k := CheckAll(k1, now);
      && KeInv(k) && k.objs == k1.objs[c := k1.objs[c].(signal := 0)]
      && k.sections == k1.sections[c := k1.sections[c].(owner := k1.threads[f].ethread, recursion := 1)]
      && k.threads[f] == k1.threads[f].(phase := Ready, eax := 0)
      && (forall j :: 0 <= j < |k.threads| && j != f && WaitsOn(k1.threads[j], c) ==> k.threads[j] == k1.threads[j])
      && (forall j :: 0 <= j < |k.threads| && !WaitsOn(k1.threads[j], c) ==> Bystander(k1.threads[j], k.threads[j]))
      && Waiters(k, c, |k.threads|) == Waiters(k1, c, |k1.threads|) - 1
  {
    var n := |k1.threads|;
    PassServes(k1, c, 1, Some(c), n, now);
    PassTakesSection(k1, c, 1, Some(c), n, now);
    CheckAllKeeps(k1, now);
    f := FirstWaiter(k1, c, n).value;
    assert k1.threads[f].wait == Wait([c], false, 0, Some(c));
    hide KeInv, Signaled, AllWaitsOk, AllInRange;
    WaitersAfterPass(k1, CheckAll(k1, now), c, 1, n);
    var k := CheckAll(k1, now);
    forall j | 0 <= j < n && j != f && WaitsOn(k1.threads[j], c) ensures k.threads[j] == k1.threads[j] {
      ServedIsFirst(k1, c, f, j);
    }
  }

  lemma LeaveSignals(r: Run, c: nat, k1: Ke)
    requires Inv(r, c) && k1.threads == r.k.threads && k1.objs == r.k.objs[c := r.k.objs[c].(signal := 1)]
    ensures Signaled(k1, c, 1, Some(c)) && AllWaitsOk(k1) && AllInRange(k1.objs)
  {
    forall i | 0 <= i < |k1.threads| && k1.threads[i].phase == Waiting && c !in k1.threads[i].wait.objects
      ensures !Starved(k1, i)
    {
      assert !Starved(r.k, i);
    }
  }

  lemma LeaveKeeps(r: Run, c: nat, i: nat, now: nat)
    requires Inv(r, c) && Allowed(r, c, StepLeave(i))
    ensures Inv(Next(r, c, StepLeave(i), now), c)
  {
    var s := r.k.sections[c];
    assert s.owner == r.k.threads[i].ethread && s.recursion == r.holds[i];
    if s.recursion == 1 && s.lock > 0 {
      var f := HandOver(r, c, i, now);
      hide KeInv;
      HandOverHolds(r, c, i, Next(r, c, StepLeave(i), now), f);
    } else {
      LeaveAlone(r, c, i, now);
    }
  }

  /** A leave that is not the last, or that no one waits for. */
  lemma LeaveAlone(r: Run, c: nat, i: nat, now: nat)
    requires Inv(r, c) && Allowed(r, c, StepLeave(i)) && !(r.k.sections[c].recursion == 1 && r.k.sections[c].lock > 0)
    ensures Inv(Next(r, c, StepLeave(i), now), c)
  {
    var s := r.k.sections[c];
    var t := Next(r, c, StepLeave(i), now);
    SectionsKeepKe(r.k, c, t.k.sections[c]);
    assert t.k == SetSection(r.k, c, t.k.sections[c]);
    hide KeInv;
    WaitersSame(r.k, t.k, c, |t.k.threads|);
    assert t.holds == r.holds[i := r.holds[i] - 1];
    forall j | 0 <= j < |t.holds| && j != i ensures r.k.threads[j].ethread != s.owner { OthersDiffer(r.k, i, j); }
  }

  lemma HandOverHolds(r: Run, c: nat, i: nat, t: Run, f: nat)
    requires Inv(r, c) && Allowed(r, c, StepLeave(i)) && f < |r.k.threads| && WaitsOn(r.k.threads[f], c) && f != i
    requires r.k.sections[c].recursion == 1 && |t.k.threads| == |r.k.threads| && KeInv(t.k) && t.k.objs == r.k.objs
    requires t.k.sections == r.k.sections[c := Section(r.k.sections[c].lock - 1, 1, r.k.threads[f].ethread)]
    requires t.k.threads[f] == r.k.threads[f].(phase := Ready, eax := 0)
    requires forall j :: 0 <= j < |t.k.threads| && j != f && WaitsOn(r.k.threads[j], c) ==> t.k.threads[j] == r.k.threads[j]
    requires forall j :: 0 <= j < |t.k.threads| && !WaitsOn(r.k.threads[j], c) ==> Bystander(r.k.threads[j], t.k.threads[j])
    requires Waiters(t.k, c, |t.k.threads|) == Waiters(r.k, c, |r.k.threads|) - 1
    requires t.holds == Woken(r.k, t.k, c, r.holds[i := r.holds[i] - 1])
    ensures Inv(t, c)
  {
    hide KeInv, Simple, Bystander;
    HandOverCounts(r, c, i, t, f);
    HandOverSimple(r, c, i, t, f);
    forall j | 0 <= j < |t.holds|
      ensures t.holds[j] == if t.k.threads[j].ethread == t.k.sections[c].owner then t.k.sections[c].recursion else 0
    {
      if j != f { OthersDiffer(t.k, f, j); }
    }
  }

  lemma HandOverSimple(r: Run, c: nat, i: nat, t: Run, f: nat)
    requires Inv(r, c) && Allowed(r, c, StepLeave(i)) && f < |r.k.threads| && WaitsOn(r.k.threads[f], c) && f != i
    requires r.k.sections[c].recursion == 1 && |t.k.threads| == |r.k.threads| && KeInv(t.k) && t.k.objs == r.k.objs
    requires t.k.sections == r.k.sections[c := Section(r.k.sections[c].lock - 1, 1, r.k.threads[f].ethread)]
    requires t.k.threads[f] == r.k.threads[f].(phase := Ready, eax := 0)
    requires forall j :: 0 <= j < |t.k.threads| && j != f && WaitsOn(r.k.threads[j], c) ==> t.k.threads[j] == r.k.threads[j]
    requires forall j :: 0 <= j < |t.k.threads| && !WaitsOn(r.k.threads[j], c) ==> Bystander(r.k.threads[j], t.k.threads[j])
    requires Waiters(t.k, c, |t.k.threads|) == Waiters(r.k, c, |r.k.threads|) - 1
    requires t.holds == Woken(r.k, t.k, c, r.holds[i := r.holds[i] - 1])
    ensures Simple(t.k, c, Some(c)) && forall j :: 0 <= j < |t.k.threads| && WaitsOn(t.k.threads[j], c) ==> j != f && WaitsOn(r.k.threads[j], c)
  {
    hide KeInv, OwnerInv;
    forall j | 0 <= j < |t.k.threads| && t.k.threads[j].phase == Waiting ensures t.k.threads[j] == r.k.threads[j] {
    }
  }

  lemma HandOverCounts(r: Run, c: nat, i: nat, t: Run, f: nat)
    requires Inv(r, c) && Allowed(r, c, StepLeave(i)) && f < |r.k.threads| && WaitsOn(r.k.threads[f], c) && f != i
    requires r.k.sections[c].recursion == 1 && |t.k.threads| == |r.k.threads| && KeInv(t.k) && t.k.objs == r.k.objs
    requires t.k.sections == r.k.sections[c := Section(r.k.sections[c].lock - 1, 1, r.k.threads[f].ethread)]
    requires t.k.threads[f] == r.k.threads[f].(phase := Ready, eax := 0)
    requires forall j :: 0 <= j < |t.k.threads| && j != f && WaitsOn(r.k.threads[j], c) ==> t.k.threads[j] == r.k.threads[j]
    requires forall j :: 0 <= j < |t.k.threads| && !WaitsOn(r.k.threads[j], c) ==> Bystander(r.k.threads[j], t.k.threads[j])
    requires Waiters(t.k, c, |t.k.threads|) == Waiters(r.k, c, |r.k.threads|) - 1
    requires t.holds == Woken(r.k, t.k, c, r.holds[i := r.holds[i] - 1])
    ensures forall j :: 0 <= j < |t.holds| ==>
      t.k.threads[j].ethread == r.k.threads[j].ethread != 0 && t.holds[j] == if j == f then 1 else 0
  {
    hide KeInv;
    forall j | 0 <= j < |t.holds|
      ensures t.k.threads[j].ethread == r.k.threads[j].ethread && t.k.threads[j].ethread != 0
      ensures t.holds[j] == if j == f then 1 else 0
    {
      if j != i { OthersDiffer(r.k, i, j); }
    }
  }

  // ---- Everything else that goes on ----

  /** The section's waiters as they were, and no one new. */
  lemma AroundKeeps(r: Run, c: nat, k: Ke)
    requires Inv(r, c) && KeInv(k) && |k.threads| == |r.k.threads| && HasSection(k, c)
    requires k.objs[c] == r.k.objs[c] && k.sections[c] == r.k.sections[c] && Simple(k, c, Some(c))
    requires forall i :: 0 <= i < |k.threads| ==>
      k.threads[i].ethread == r.k.threads[i].ethread && (WaitsOn(k.threads[i], c) <==> WaitsOn(r.k.threads[i], c))
    ensures Inv(Run(k, Woken(r.k, k, c, r.holds)), c) && Woken(r.k, k, c, r.holds) == r.holds
  {
    hide KeInv, Simple;
    WaitersSame(r.k, k, c, |k.threads|);
    assert Woken(r.k, k, c, r.holds) == r.holds;
  }

  /** A pass for other objects. */
  lemma PassAround(r: Run, c: nat, k1: Ke, now: nat)
    requires Inv(r, c) && KeInv(CheckAllOf(k1, now)) && Shaped(k1) && k1.threads == r.k.threads && k1.sections == r.k.sections
    requires c in k1.objs && k1.objs[c] == r.k.objs[c]
    ensures var k := CheckAllOf(k1, now); Inv(Run(k, Woken(r.k, k, c, r.holds)), c) && Woken(r.k, k, c, r.holds) == r.holds
  {
    hide KeInv;
    PassElsewhere(k1, c, Some(c), |k1.threads|, now);
    var k := CheckAll(k1, now);
    assert Undisturbed(k1, k, c);
    hide CheckAll;
    forall i | 0 <= i < |k.threads| && k.threads[i].phase == Waiting ensures k.threads[i] == k1.threads[i] {
    }
    AroundKeeps(r, c, k);
  }

  function CheckAllOf(k: Ke, now: nat): (r: Ke)
    ensures Shaped(k) ==> r == CheckAll(k, now) && |r.threads| == |k.threads|
  {
    if Shaped(k) then CheckAll(k, now) else k
  }

  lemma BeginAround(r: Run, c: nat, i: nat, w: Wait, timeout: Timeout)
    requires Inv(r, c) && Dispatcher.Allowed(r.k, Begin(i, w, timeout)) && c !in w.objects && w.cs != Some(c)
    requires KeInv(WaitFor(r.k, i, w, timeout))
    ensures var k := WaitFor(r.k, i, w, timeout); Inv(Run(k, Woken(r.k, k, c, r.holds)), c) && Woken(r.k, k, c, r.holds) == r.holds
  {
    var k := WaitFor(r.k, i, w, timeout);
    var idx := Satisfied(r.k.objs, r.k.threads[i].ethread, w);
    if idx >= 0 { TakenOthers(r.k.objs, r.k.threads[i].ethread, w, idx, c); }
    assert k.sections[c] == r.k.sections[c];
    AroundKeeps(r, c, k);
  }

  /** Lowering another object's signal. */
  lemma SetSignalAround(r: Run, c: nat, x: nat, v: int)
    requires Inv(r, c) && x in r.k.objs && x != c && KeInv(SetSignal(r.k, x, v))
    ensures var k := SetSignal(r.k, x, v); Inv(Run(k, Woken(r.k, k, c, r.holds)), c) && Woken(r.k, k, c, r.holds) == r.holds
  {
    hide KeInv;
    AroundKeeps(r, c, SetSignal(r.k, x, v));
  }

  lemma PulseAround(r: Run, c: nat, x: nat, now: nat)
    requires Inv(r, c) && Allowed(r, c, Other(Pulse(x)))
    ensures var t := Next(r, c, Other(Pulse(x)), now); Inv(t, c) && t.holds == r.holds
  {
    NextKeepsInv(r.k, Pulse(x), now);
    NextKeepsInv(r.k, Signal(x), now);
    hide CheckAll, Simple, OwnerInv, CountInv;
    PassAround(r, c, SetSignal(r.k, x, 1), now);
    var k1 := SetEvent(r.k, x, now);
    PulseKeeps(r.k, x, now);
    hide Woken;
    var t := Run(k1, Woken(r.k, k1, c, r.holds));
    SetSignalAround(t, c, x, 0);
    WokenTwice(r, c, k1, SetSignal(k1, x, 0));
  }

  lemma ReleaseAround(r: Run, c: nat, x: nat, count: int, now: nat)
    requires Inv(r, c) && Allowed(r, c, Other(Release(x, count)))
    ensures var t := Next(r, c, Other(Release(x, count)), now); Inv(t, c) && t.holds == r.holds
  {
    hide CheckAll, Woken, Simple, OwnerInv, CountInv;
    var sum := Signed32(r.k.objs[x].signal + count);
    if count <= 0 || sum > r.k.objs[x].limit {
      hide KeInv;
      NothingWoken(r.k, c, r.holds);
      assert Next(r, c, Other(Release(x, count)), now) == r;
    } else {
      NextKeepsInv(r.k, Release(x, count), now);
      PassAround(r, c, SetSignal(r.k, x, sum), now);
    }
  }

  lemma ReturnAround(r: Run, c: nat, x: nat, now: nat)
    requires Inv(r, c) && Allowed(r, c, Other(Return(x)))
    ensures var t := Next(r, c, Other(Return(x)), now); Inv(t, c) && t.holds == r.holds
  {
    NextKeepsInv(r.k, Return(x), now);
    hide CheckAll, Woken, Simple, OwnerInv, CountInv;
    var v := r.k.objs[x].signal + 1;
    var s := SetSignal(r.k, x, v);
    if v > 0 {
      PassAround(r, c, s.(objs := s.objs[x := s.objs[x].(owner := 0)]), now);
    } else {
      SetSignalAround(r, c, x, v);
    }
  }

  lemma OtherKeeps(r: Run, c: nat, op: Op, now: nat)
    requires Inv(r, c) && Allowed(r, c, Other(op))
    ensures var t := Next(r, c, Other(op), now); Inv(t, c) && t.holds == r.holds
  {
    NextKeepsInv(r.k, op, now);
    hide CheckAll, Woken, Simple, OwnerInv, CountInv;
    match op {
      case Signal(x) => PassAround(r, c, SetSignal(r.k, x, 1), now);
      case Reset(x) => SetSignalAround(r, c, x, 0);
      case Pulse(x) => PulseAround(r, c, x, now);
      case Release(x, count) => ReleaseAround(r, c, x, count, now);
      case Return(x) => ReturnAround(r, c, x, now);
      case Begin(i, w, timeout) => BeginAround(r, c, i, w, timeout);
      case Tick => PassAround(r, c, r.k, now);
      case Switch(j) => AroundKeeps(r, c, SwitchTo(r.k, j));
    }
  }

  lemma WokenTwice(r: Run, c: nat, k1: Ke, k2: Ke)
    requires |r.holds| == |r.k.threads| == |k1.threads| && k2.threads == k1.threads
    ensures Woken(k1, k2, c, Woken(r.k, k1, c, r.holds)) == Woken(r.k, k2, c, r.holds)
  {
  }

  // ---- Who has the section ----

  /** No thread but i holds it. */
  predicate Mine(holds: seq<nat>, i: nat) { forall j :: 0 <= j < |holds| && j != i ==> holds[j] == 0 }

  /** The words say whether another thread holds it. */
  lemma MineIs(r: Run, c: nat, i: nat)
    requires Inv(r, c) && i < |r.holds|
    ensures Mine(r.holds, i) <==> r.k.sections[c].lock == -1 || r.k.sections[c].owner == r.k.threads[i].ethread
  {
    var s := r.k.sections[c];
    SumIsOwners(r, c);
    if s.owner == 0 {
      forall j | 0 <= j < |r.holds| ensures r.holds[j] == 0 { }
    } else {
      var o :| 0 <= o < |r.holds| && r.k.threads[o].ethread == s.owner;
      assert r.holds[o] == s.recursion > 0;
      forall j | 0 <= j < |r.holds| && j != o ensures r.holds[j] == 0 { OthersDiffer(r.k, o, j); }
      if o != i { OthersDiffer(r.k, o, i); }
    }
  }

  /** Who enters has the section once more where no other thread holds it, and goes on; else it waits for it, and
      nobody's holds change. */
  lemma EnterAsks(r: Run, c: nat, i: nat, now: nat)
    requires Inv(r, c) && Allowed(r, c, StepEnter(i))
    ensures var t := Next(r, c, StepEnter(i), now);
      if Mine(r.holds, i) then t.holds == r.holds[i := r.holds[i] + 1] && t.k.threads == r.k.threads
      else
        && t.holds == r.holds && WaitsOn(t.k.threads[i], c)
        && forall j :: 0 <= j < |t.k.threads| && j != i ==> t.k.threads[j] == r.k.threads[j]
  {
    MineIs(r, c, i);
    if Mine(r.holds, i) { EnterUnblockedKeeps(r, c, i); } else { EnterWaits(r, c, i); }
    hide Inv, Mine, Enter;
  }

  /** A try has the section exactly where no other thread holds it, and else changes nothing. */
  lemma TryAsks(r: Run, c: nat, i: nat, now: nat)
    requires Inv(r, c) && Allowed(r, c, StepTry(i))
    ensures var t := Next(r, c, StepTry(i), now);
      && (TryEnter(r.k, i, c).1 <==> Mine(r.holds, i))
      && (Mine(r.holds, i) ==> t.holds == r.holds[i := r.holds[i] + 1] && t.k.threads == r.k.threads)
      && (!Mine(r.holds, i) ==> t == r)
  {
    MineIs(r, c, i);
    hide Inv, Mine;
  }

  /** A leave takes one hold of its caller's; where that was the last and threads wait, the first of them has the
      section, once, and is ready; nobody else's holds change. */
  lemma LeavePassesOn(r: Run, c: nat, i: nat, now: nat) returns (f: nat)
    requires Inv(r, c) && Allowed(r, c, StepLeave(i))
    ensures var t := Next(r, c, StepLeave(i), now); var waited := Waiters(r.k, c, |r.k.threads|) > 0;
      if r.holds[i] == 1 && waited then
        && f < |r.k.threads| && f != i && WaitsOn(r.k.threads[f], c) && t.k.threads[f].phase == Ready
        && t.holds == r.holds[i := 0][f := 1]
      else t.holds == r.holds[i := r.holds[i] - 1] && t.k.threads == r.k.threads
  {
    var s := r.k.sections[c];
    var t := Next(r, c, StepLeave(i), now);
    f := i;
    assert s.owner == r.k.threads[i].ethread && s.recursion == r.holds[i];
    if s.recursion == 1 && s.lock > 0 {
      f := PassedTo(r, c, i, now);
    } else {
      hide KeInv, Simple;
      NothingWoken(r.k, c, r.holds[i := r.holds[i] - 1]);
      LeftAlone(r.k, c, now, r.holds[i := r.holds[i] - 1]);
    }
  }

  lemma PassedTo(r: Run, c: nat, i: nat, now: nat) returns (f: nat)
    requires Inv(r, c) && Allowed(r, c, StepLeave(i)) && r.k.sections[c].recursion == 1 && r.k.sections[c].lock > 0
    ensures var t := Next(r, c, StepLeave(i), now);
      && f < |r.k.threads| && f != i && WaitsOn(r.k.threads[f], c) && t.k.threads[f].phase == Ready
      && t.holds == r.holds[i := 0][f := 1]
  {
    var t := Next(r, c, StepLeave(i), now);
    f := HandOver(r, c, i, now);
    hide KeInv, Simple, Bystander, Leave;
    HandOverCounts(r, c, i, t, f);
    forall j | 0 <= j < |r.holds| && j != i ensures r.holds[j] == 0 { OthersDiffer(r.k, i, j); }
    assert t.holds == r.holds[i := 0][f := 1];
  }

  lemma LeftAlone(k: Ke, c: nat, now: nat, holds: seq<nat>)
    requires Shaped(k) && HasSection(k, c) && |holds| == |k.threads| && !(k.sections[c].recursion == 1 && k.sections[c].lock > 0)
    ensures Leave(k, c, now).threads == k.threads && Woken(k, Leave(k, c, now), c, holds) == holds
  {
  }

  /** Nothing else changes anyone's holds. */
  lemma OtherHolds(r: Run, c: nat, op: Op, now: nat)
    requires Inv(r, c) && Allowed(r, c, Other(op))
    ensures var t := Next(r, c, Other(op), now); t.k == Dispatcher.Next(r.k, op, now) && t.holds == r.holds
  {
    OtherKeeps(r, c, op, now);
    hide Inv, Dispatcher.Next, Woken;
  }

  // ---- Whole runs ----

  lemma NextKeeps(r: Run, c: nat, a: Step, now: nat)
    requires Inv(r, c) && Allowed(r, c, a)
    ensures Inv(Next(r, c, a, now), c)
  {
    match a
    case StepEnter(i) => EnterKeeps(r, c, i, now);
    case StepTry(i) => TryKeeps(r, c, i, now);
    case StepLeave(i) => LeaveKeeps(r, c, i, now);
    case Other(op) => OtherKeeps(r, c, op, now);
  }

  ghost predicate CanRun(r: Run, c: nat, steps: seq<(Step, nat)>)
    requires Shaped(r.k) && |r.holds| == |r.k.threads|
    decreases |steps|
  {
    steps == [] || (Allowed(r, c, steps[0].0) && CanRun(Next(r, c, steps[0].0, steps[0].1), c, steps[1..]))
  }

  ghost function Execute(r: Run, c: nat, steps: seq<(Step, nat)>): (t: Run)
    requires Shaped(r.k) && |r.holds| == |r.k.threads| && CanRun(r, c, steps)
    ensures Shaped(t.k) && |t.holds| == |t.k.threads|
    decreases |steps|
  {
    if steps == [] then r else Execute(Next(r, c, steps[0].0, steps[0].1), c, steps[1..])
  }

  /** A run is its steps, one after the other. */
  lemma {:induction false} ExecuteGoesOn(r: Run, c: nat, steps: seq<(Step, nat)>, a: (Step, nat))
    requires Shaped(r.k) && |r.holds| == |r.k.threads| && CanRun(r, c, steps + [a])
    ensures CanRun(r, c, steps) && Allowed(Execute(r, c, steps), c, a.0)
    ensures Execute(r, c, steps + [a]) == Next(Execute(r, c, steps), c, a.0, a.1)
    decreases |steps|
  {
    hide Next, Allowed;
    if steps == [] {
      assert ([] + [a])[1..] == [];
    } else {
      assert (steps + [a])[1..] == steps[1..] + [a];
      ExecuteGoesOn(Next(r, c, steps[0].0, steps[0].1), c, steps[1..], a);
    }
  }

  lemma {:induction false} ExecuteKeeps(r: Run, c: nat, steps: seq<(Step, nat)>)
    requires Inv(r, c) && CanRun(r, c, steps)
    ensures Inv(Execute(r, c, steps), c)
    decreases |steps|
  {
    if steps != [] {
      NextKeeps(r, c, steps[0].0, steps[0].1);
      ExecuteKeeps(Next(r, c, steps[0].0, steps[0].1), c, steps[1..]);
    }
  }

  /** No thread waits yet, and the section's address is its own. */
  ghost predicate Fresh(k: Ke) {
    KeInv(k) && forall i :: 0 <= i < |k.threads| ==> k.threads[i].phase != Waiting && k.threads[i].ethread != 0
  }

  /** Over all runs of enter, try-enter and leave by owners, among any other dispatcher operations: at
      most one thread holds the section; the owner word names it, with its holds as RecursionCount, and is 0
      while none does; LockCount + 1 is what it holds and the waiters; the event is not signaled; and while
      threads wait, one holds it. */
  lemma SectionsAreSafe(k: Ke, c: nat, steps: seq<(Step, nat)>)
    requires Fresh(k)
    requires CanRun(Run(Init(k, c), seq(|k.threads|, _ => 0)), c, steps)
    ensures var r := Execute(Run(Init(k, c), seq(|k.threads|, _ => 0)), c, steps);
      && HasSection(r.k, c) && r.k.objs[c].signal == 0
      && (forall i, j :: 0 <= i < j < |r.holds| ==> r.holds[i] == 0 || r.holds[j] == 0)
      && (forall i :: 0 <= i < |r.holds| ==>
            (r.holds[i] > 0 <==> r.k.sections[c].owner == r.k.threads[i].ethread)
            && (r.holds[i] > 0 ==> r.k.sections[c].recursion == r.holds[i]))
      && (r.k.sections[c].owner == 0 <==> Sum(r.holds, |r.holds|) == 0)
      && r.k.sections[c].lock + 1 == Sum(r.holds, |r.holds|) + Waiters(r.k, c, |r.k.threads|)
      && (Waiters(r.k, c, |r.k.threads|) > 0 ==> Sum(r.holds, |r.holds|) > 0)
  {
    var r0 := Run(Init(k, c), seq(|k.threads|, _ => 0));
    NobodyWaits(r0.k, c, |k.threads|);
    assert Inv(r0, c);
    ExecuteKeeps(r0, c, steps);
    var r := Execute(r0, c, steps);
    forall i, j | 0 <= i < j < |r.holds| ensures r.holds[i] == 0 || r.holds[j] == 0 { OthersDiffer(r.k, i, j); }
    SumIsOwners(r, c);
  }

  lemma {:induction false} NobodyWaits(k: Ke, c: nat, n: nat)
    requires n <= |k.threads| && forall i :: 0 <= i < |k.threads| ==> k.threads[i].phase != Waiting
    ensures Waiters(k, c, n) == 0
  {
    if n > 0 { NobodyWaits(k, c, n - 1); }
  }

  lemma SumIsOwners(r: Run, c: nat)
    requires Inv(r, c)
    ensures Sum(r.holds, |r.holds|) == r.k.sections[c].recursion
  {
    var s := r.k.sections[c];
    if s.owner == 0 {
      SumNone(r.holds, |r.holds|);
    } else {
      var i :| 0 <= i < |r.holds| && r.k.threads[i].ethread == s.owner;
      forall j | 0 <= j < |r.holds| && j != i ensures r.holds[j] == 0 { OthersDiffer(r.k, i, j); }
      SumOne(r.holds, i);
    }
  }

  // ---- In place ----

  method EnterSection(k: Kernel, i: nat, c: nat)
    requires Shaped(k.K()) && HasSection(k.K(), c) && i < k.threads.Length
    modifies k, k.threads
    ensures k.K() == Enter(old(k.K()), i, c)
  {
    var me := k.threads[i].ethread;
    var s := k.sections[c];
    k.sections := k.sections[c := s.(lock := s.lock + 1)];
    if s.lock + 1 == 0 {
      k.sections := k.sections[c := Section(s.lock + 1, 1, me)];
    } else if s.owner == me {
      k.sections := k.sections[c := s.(lock := s.lock + 1, recursion := s.recursion + 1)];
    } else {
      assert k.K() == SetSection(old(k.K()), c, s.(lock := s.lock + 1));
      k.Wait(i, SectionWait(c), Never);
    }
  }

  method LeaveSection(k: Kernel, c: nat, now: nat)
    requires Shaped(k.K()) && HasSection(k.K(), c)
    modifies k, k.threads
    ensures k.K() == Leave(old(k.K()), c, now)
  {
    var s := k.sections[c];
    if s.recursion - 1 != 0 {
      k.sections := k.sections[c := s.(lock := s.lock - 1, recursion := s.recursion - 1)];
    } else {
      k.sections := k.sections[c := Section(s.lock - 1, 0, 0)];
      assert k.K() == SetSection(old(k.K()), c, Section(s.lock - 1, 0, 0));
      if s.lock - 1 >= 0 {
        k.Set(c, now);
      }
    }
  }

  method TryEnterSection(k: Kernel, i: nat, c: nat) returns (ok: bool)
    requires Shaped(k.K()) && HasSection(k.K(), c) && i < k.threads.Length
    modifies k
    ensures (k.K(), ok) == TryEnter(old(k.K()), i, c)
  {
    var me := k.threads[i].ethread;
    var s := k.sections[c];
    ok := s.lock == -1 || s.owner == me;
    if s.lock == -1 {
      k.sections := k.sections[c := Section(0, 1, me)];
    } else if s.owner == me {
      k.sections := k.sections[c := s.(lock := s.lock + 1, recursion := s.recursion + 1)];
    }
  }
}
