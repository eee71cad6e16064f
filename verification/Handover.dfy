/** What one signal does when every wait on the object is for it alone and without a time out: the
  waiting threads, in index order, get as many units as were signaled.  (native/kernel/ke.c,
  nc_ke_check_waits, for critical sections and reader/writer locks.)
  */
module Handover {
  import opened Wrappers
  import opened Dispatcher

  predicate WaitsOn(t: Thread, x: nat) { t.phase == Waiting && x in t.wait.objects }

  /** Waits on x are for x alone, for ever; and only they take section c. */
  predicate Simple(k: Ke, x: nat, cs: Option<nat>) {
    forall i :: 0 <= i < |k.threads| && k.threads[i].phase == Waiting ==>
      var w := k.threads[i].wait;
      (x in w.objects ==> w == Wait([x], false, 0, cs)) && (x !in w.objects ==> cs.None? || w.cs != cs)
  }

  /** Threads of [0, n) waiting on x. */
  function Waiters(k: Ke, x: nat, n: nat): nat
    requires n <= |k.threads|
  {
    if n == 0 then 0 else Waiters(k, x, n - 1) + if WaitsOn(k.threads[n - 1], x) then 1 else 0
  }

  function Min(a: int, b: int): int { if a < b then a else b }

  /** Thread i is one of the first `units` waiting on x. */
  predicate Served(k: Ke, x: nat, units: nat, i: nat)
    requires i < |k.threads|
  {
    WaitsOn(k.threads[i], x) && Waiters(k, x, i) < units
  }

  /** Threads not waiting on x: as they were, or timed out. */
  predicate Bystander(a: Thread, b: Thread) {
    b == a || (a.phase == Waiting && b.phase == Ready && b.ethread == a.ethread)
  }

  /** k with `units` of x to give, otherwise settled. */
  predicate Signaled(k: Ke, x: nat, units: nat, cs: Option<nat>) {
    && Shaped(k) && Simple(k, x, cs) && x in k.objs
    && (k.objs[x].kind == Semaphore || (k.objs[x].kind == Synchronization && units <= 1))
    && k.objs[x].signal == units
    && (forall i :: 0 <= i < |k.threads| && k.threads[i].phase == Waiting && x !in k.threads[i].wait.objects ==> !Starved(k, i))
  }

  /** The threads and x after the pass has reached thread n. */
  predicate Passed(k: Ke, r: Ke, x: nat, units: nat, n: nat) {
    && n <= |k.threads| && |r.threads| == |k.threads| && x in k.objs
    && r.objs == k.objs[x := k.objs[x].(signal := units - Min(units, Waiters(k, x, n)))]
    && (forall i :: n <= i < |k.threads| ==> r.threads[i] == k.threads[i])
    && (forall i :: 0 <= i < n && Served(k, x, units, i) ==> r.threads[i] == k.threads[i].(phase := Ready, eax := 0))
    && (forall i :: 0 <= i < n && WaitsOn(k.threads[i], x) && !Served(k, x, units, i) ==> r.threads[i] == k.threads[i])
    && (forall i :: 0 <= i < n && !WaitsOn(k.threads[i], x) ==> Bystander(k.threads[i], r.threads[i]))
  }

  lemma {:induction false} PassServes(k: Ke, x: nat, units: nat, cs: Option<nat>, n: nat, now: nat)
    requires Signaled(k, x, units, cs) && n <= |k.threads|
    ensures Passed(k, CheckUpTo(k, n, now), x, units, n)
  {
    if n == 0 {
      assert k.objs == k.objs[x := k.objs[x].(signal := units)];
    } else {
      PassServes(k, x, units, cs, n - 1, now);
      StepServes(k, CheckUpTo(k, n - 1, now), x, units, cs, n, now);
    }
  }

  /** What the pass finds when it comes to thread i. */
  lemma PassFinds(k: Ke, s: Ke, x: nat, units: nat, cs: Option<nat>, i: nat)
    requires Signaled(k, x, units, cs) && i < |k.threads| && Shaped(s) && Passed(k, s, x, units, i)
    requires k.threads[i].phase == Waiting
    ensures s.threads[i] == k.threads[i]
    ensures Satisfied(s.objs, k.threads[i].ethread, k.threads[i].wait) == if Served(k, x, units, i) then 0 else -1
    ensures x in k.threads[i].wait.objects ==> k.threads[i].wait == Wait([x], false, 0, cs)
  {
    var t := k.threads[i];
    if x in t.wait.objects {
      assert t.wait == Wait([x], false, 0, cs);
      assert FirstSignaled(s.objs, t.ethread, t.wait, 0) ==
             if IsSignaled(s.objs[x], t.ethread) then 0 else FirstSignaled(s.objs, t.ethread, t.wait, 1);
    } else {
      assert !Starved(k, i);
      assert forall j :: 0 <= j < |t.wait.objects| ==> s.objs[t.wait.objects[j]] == k.objs[t.wait.objects[j]];
      assert Satisfied(s.objs, t.ethread, t.wait) < 0;
    }
  }

  lemma StepServes(k: Ke, s: Ke, x: nat, units: nat, cs: Option<nat>, n: nat, now: nat)
    requires Signaled(k, x, units, cs) && 0 < n <= |k.threads| && Shaped(s) && Passed(k, s, x, units, n - 1)
    ensures Passed(k, CheckOne(s, n - 1, now), x, units, n)
  {
    hide CheckOne, Signaled, Waiters, Min;
    StepObjects(k, s, x, units, cs, n, now);
    StepThread(k, s, x, units, cs, n, now);
  }

  /** The pass changes thread n - 1 alone. */
  lemma StepThread(k: Ke, s: Ke, x: nat, units: nat, cs: Option<nat>, n: nat, now: nat)
    requires Signaled(k, x, units, cs) && 0 < n <= |k.threads| && Shaped(s) && Passed(k, s, x, units, n - 1)
    ensures var r := CheckOne(s, n - 1, now); var t := k.threads[n - 1];
      && |r.threads| == |k.threads| && r.threads == s.threads[n - 1 := r.threads[n - 1]]
      && (Served(k, x, units, n - 1) ==> r.threads[n - 1] == t.(phase := Ready, eax := 0))
      && (WaitsOn(t, x) && !Served(k, x, units, n - 1) ==> r.threads[n - 1] == t)
      && (!WaitsOn(t, x) ==> Bystander(t, r.threads[n - 1]))
  {
    assert s.threads[n - 1] == k.threads[n - 1];
    if k.threads[n - 1].phase == Waiting { PassFinds(k, s, x, units, cs, n - 1); }
  }

  lemma StepObjects(k: Ke, s: Ke, x: nat, units: nat, cs: Option<nat>, n: nat, now: nat)
    requires Signaled(k, x, units, cs) && 0 < n <= |k.threads| && Shaped(s) && Passed(k, s, x, units, n - 1)
    ensures CheckOne(s, n - 1, now).objs == k.objs[x := k.objs[x].(signal := units - Min(units, Waiters(k, x, n)))]
  {
    assert s.threads[n - 1] == k.threads[n - 1];
    if k.threads[n - 1].phase == Waiting {
      PassFinds(k, s, x, units, cs, n - 1);
      if Served(k, x, units, n - 1) {
        var o := Acquire(s.objs[x], k.threads[n - 1].ethread);
        assert CheckOne(s, n - 1, now).objs == s.objs[x := o];
        UpdateTwice(k.objs, x, s.objs[x], o);
      }
    }
  }

  lemma UpdateTwice<V>(m: map<nat, V>, x: nat, a: V, b: V)
    ensures m[x := a][x := b] == m[x := b]
  {
  }

  // ---- Sections ----

  /** The first of the served threads, if any. */
  function FirstWaiter(k: Ke, x: nat, n: nat): (r: Option<nat>)
    requires n <= |k.threads|
    ensures r.Some? ==> r.value < n && WaitsOn(k.threads[r.value], x) && Waiters(k, x, r.value) == 0
    ensures r.None? <==> Waiters(k, x, n) == 0
  {
    if n == 0 then None
    else match FirstWaiter(k, x, n - 1)
         case Some(i) => Some(i)
         case None => if WaitsOn(k.threads[n - 1], x) then Some(n - 1) else None
  }

  /** With one unit, the section goes to the first waiter, and no other section changes hands. */
  lemma {:induction false} PassTakesSection(k: Ke, x: nat, units: nat, cs: Option<nat>, n: nat, now: nat)
    requires Signaled(k, x, units, cs) && units <= 1 && n <= |k.threads|
    ensures CheckUpTo(k, n, now).sections == SectionsAfter(k, x, units, n)
  {
    hide Passed, CheckOne;
    if n > 0 {
      PassTakesSection(k, x, units, cs, n - 1, now);
      PassServes(k, x, units, cs, n - 1, now);
      StepTakesSection(k, CheckUpTo(k, n - 1, now), x, units, cs, n, now);
    }
  }

  function SectionsAfter(k: Ke, x: nat, units: nat, n: nat): map<nat, Section>
    requires n <= |k.threads|
  {
    var f := FirstWaiter(k, x, n);
    if units == 1 && f.Some? then TakenSections(k.sections, k.threads[f.value].ethread, k.threads[f.value].wait) else k.sections
  }

  lemma StepTakesSection(k: Ke, s: Ke, x: nat, units: nat, cs: Option<nat>, n: nat, now: nat)
    requires Signaled(k, x, units, cs) && units <= 1 && 0 < n <= |k.threads| && Shaped(s)
    requires Passed(k, s, x, units, n - 1) && s.sections == SectionsAfter(k, x, units, n - 1)
    ensures CheckOne(s, n - 1, now).sections == SectionsAfter(k, x, units, n)
  {
    assert s.threads[n - 1] == k.threads[n - 1];
    if k.threads[n - 1].phase == Waiting {
      PassFinds(k, s, x, units, cs, n - 1);
    }
  }

  // ---- Signals of other objects ----

  /** x and the threads waiting on it are as they were, and no other thread has come to wait. */
  predicate Undisturbed(k: Ke, r: Ke, x: nat) {
    && |r.threads| == |k.threads| && x in k.objs && x in r.objs && r.objs[x] == k.objs[x]
    && forall i :: 0 <= i < |k.threads| ==>
         if WaitsOn(k.threads[i], x) then r.threads[i] == k.threads[i]
         else Bystander(k.threads[i], r.threads[i])
  }

  lemma {:induction false} PassElsewhere(k: Ke, x: nat, cs: Option<nat>, n: nat, now: nat)
    requires Quiet(k, x, cs) && n <= |k.threads|
    ensures PassedBy(k, CheckUpTo(k, n, now), x, cs, n)
  {
    if n > 0 {
      PassElsewhere(k, x, cs, n - 1, now);
      hide PassedBy;
      StepElsewhere(k, CheckUpTo(k, n - 1, now), x, cs, n, now);
    }
  }

  /** x is not signaled. */
  predicate Quiet(k: Ke, x: nat, cs: Option<nat>) {
    Shaped(k) && Simple(k, x, cs) && x in k.objs && k.objs[x].signal <= 0 && k.objs[x].kind != Mutant
  }

  predicate PassedBy(k: Ke, r: Ke, x: nat, cs: Option<nat>, n: nat) {
    && Undisturbed(k, r, x)
    && (forall i :: n <= i < |k.threads| ==> r.threads[i] == k.threads[i])
    && (cs.Some? && cs.value in k.sections ==> cs.value in r.sections && r.sections[cs.value] == k.sections[cs.value])
  }

  lemma StepElsewhere(k: Ke, s: Ke, x: nat, cs: Option<nat>, n: nat, now: nat)
    requires Quiet(k, x, cs) && 0 < n <= |k.threads| && Shaped(s) && PassedBy(k, s, x, cs, n - 1)
    ensures PassedBy(k, CheckOne(s, n - 1, now), x, cs, n)
  {
    var t := s.threads[n - 1];
    assert t == k.threads[n - 1];
    if t.phase == Waiting {
      if x in t.wait.objects {
        assert t.wait == Wait([x], false, 0, cs);
        assert FirstSignaled(s.objs, t.ethread, t.wait, 0) == FirstSignaled(s.objs, t.ethread, t.wait, 1);
      } else {
        var idx := Satisfied(s.objs, t.ethread, t.wait);
        if idx >= 0 { TakenOthers(s.objs, t.ethread, t.wait, idx, x); }
      }
    }
  }

  lemma TakenOthers(objs: map<nat, Obj>, e: nat, w: Wait, idx: nat, x: nat)
    requires Known(objs, w) && idx < |w.objects| && x in objs && x !in w.objects
    ensures Taken(objs, e, w, idx)[x] == objs[x]
  {
    if w.all { AcquireFirstOthers(objs, e, w, |w.objects|, x); }
  }

  lemma {:induction false} AcquireFirstOthers(objs: map<nat, Obj>, e: nat, w: Wait, n: nat, x: nat)
    requires Known(objs, w) && n <= |w.objects| && x in objs && x !in w.objects
    ensures AcquireFirst(objs, e, w, n)[x] == objs[x]
  {
    if n > 0 { AcquireFirstOthers(objs, e, w, n - 1, x); }
  }

  // ---- Counting waiters ----

  lemma {:induction false} WaitersSame(k: Ke, r: Ke, x: nat, n: nat)
    requires n <= |k.threads| && n <= |r.threads|
    requires forall i :: 0 <= i < n ==> (WaitsOn(k.threads[i], x) <==> WaitsOn(r.threads[i], x))
    ensures Waiters(k, x, n) == Waiters(r, x, n)
  {
    if n > 0 { WaitersSame(k, r, x, n - 1); }
  }

  lemma {:induction false} WaitersChange(k: Ke, r: Ke, x: nat, n: nat, i: nat)
    requires n <= |k.threads| && n <= |r.threads| && i < |k.threads| && i < |r.threads|
    requires forall j :: 0 <= j < n && j != i ==> (WaitsOn(k.threads[j], x) <==> WaitsOn(r.threads[j], x))
    ensures Waiters(r, x, n) == Waiters(k, x, n) +
            if i < n then (if WaitsOn(r.threads[i], x) then 1 else 0) - (if WaitsOn(k.threads[i], x) then 1 else 0) else 0
  {
    if n > 0 {
      if i == n - 1 { WaitersSame(k, r, x, n - 1); } else { WaitersChange(k, r, x, n - 1, i); }
    }
  }

  lemma {:induction false} WaitersMember(k: Ke, x: nat, n: nat, i: nat)
    requires i < n <= |k.threads| && WaitsOn(k.threads[i], x)
    ensures Waiters(k, x, n) > 0
  {
    if i < n - 1 { WaitersMember(k, x, n - 1, i); }
  }

  /** The pass leaves the waiters that were not served. */
  lemma {:induction false} WaitersAfterPass(k: Ke, r: Ke, x: nat, units: nat, n: nat)
    requires Passed(k, r, x, units, |k.threads|) && n <= |k.threads|
    ensures Waiters(r, x, n) == Waiters(k, x, n) - Min(units, Waiters(k, x, n))
  {
    if n > 0 {
      WaitersAfterPass(k, r, x, units, n - 1);
      assert WaitsOn(k.threads[n - 1], x) ==> (Served(k, x, units, n - 1) <==> Waiters(k, x, n - 1) < units);
    }
  }

  // ---- Operations on other objects ----

  /** The operation is not on x. */
  predicate Avoids(op: Op, x: nat) {
    match op
    case Signal(y) => y != x
    case Reset(y) => y != x
    case Pulse(y) => y != x
    case Release(y, _) => y != x
    case Return(y) => y != x
    case Begin(_, w, _) => x !in w.objects
    case Tick => true
    case Switch(_) => true
  }

  /** x and who waits on it are as they were. */
  predicate Around(k: Ke, r: Ke, x: nat) {
    && |r.threads| == |k.threads| && x in k.objs && x in r.objs && r.objs[x] == k.objs[x]
    && Simple(r, x, None)
    && forall i :: 0 <= i < |k.threads| ==> (WaitsOn(k.threads[i], x) <==> WaitsOn(r.threads[i], x))
  }

  lemma PassAvoids(k: Ke, k1: Ke, x: nat, now: nat)
    requires Quiet(k, x, None) && Shaped(k1) && k1.threads == k.threads && x in k1.objs && k1.objs[x] == k.objs[x]
    ensures Around(k, CheckAll(k1, now), x)
  {
    PassElsewhere(k1, x, None, |k1.threads|, now);
    var r := CheckAll(k1, now);
    hide CheckAll;
    forall i | 0 <= i < |r.threads| && r.threads[i].phase == Waiting ensures r.threads[i] == k1.threads[i] {
    }
  }

  lemma BeginAvoids(k: Ke, x: nat, i: nat, w: Wait, timeout: Timeout)
    requires Quiet(k, x, None) && Allowed(k, Begin(i, w, timeout)) && x !in w.objects
    ensures Around(k, WaitFor(k, i, w, timeout), x)
  {
    var idx := Satisfied(k.objs, k.threads[i].ethread, w);
    if idx >= 0 { TakenOthers(k.objs, k.threads[i].ethread, w, idx, x); }
  }

  lemma PulseAvoids(k: Ke, x: nat, y: nat, now: nat)
    requires Quiet(k, x, None) && y in k.objs && x != y
    ensures y in SetEvent(k, y, now).objs && Around(k, SetSignal(SetEvent(k, y, now), y, 0), x)
  {
    PassAvoids(k, SetSignal(k, y, 1), x, now);
    hide CheckAll;
    assert Around(k, SetEvent(k, y, now), x);
  }

  lemma ReturnAvoids(k: Ke, x: nat, y: nat, now: nat)
    requires Quiet(k, x, None) && y in k.objs && x != y
    ensures Around(k, ReleaseMutant(k, y, now), x)
  {
    hide CheckAll;
    var s := SetSignal(k, y, k.objs[y].signal + 1);
    PassAvoids(k, s.(objs := s.objs[y := s.objs[y].(owner := 0)]), x, now);
  }

  lemma OperationAvoids(k: Ke, x: nat, op: Op, now: nat)
    requires Quiet(k, x, None) && Allowed(k, op) && Avoids(op, x)
    ensures Around(k, Dispatcher.Next(k, op, now), x)
  {
    hide CheckAll, Dispatcher.Shaped;
    match op {
      case Signal(y) => PassAvoids(k, SetSignal(k, y, 1), x, now);
      case Reset(y) =>
      case Pulse(y) => PulseAvoids(k, x, y, now);
      case Release(y, count) =>
        var sum := Signed32(k.objs[y].signal + count);
        if count > 0 && sum <= k.objs[y].limit { PassAvoids(k, SetSignal(k, y, sum), x, now); }
      case Return(y) =>
        ReturnAvoids(k, x, y, now);
      case Begin(i, w, timeout) => BeginAvoids(k, x, i, w, timeout);
      case Tick => PassAvoids(k, k, x, now);
      case Switch(i) =>
    }
  }
}
