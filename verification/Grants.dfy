/** What waits are given, counted from the statuses threads get and not from how objects are acquired: units
  are conserved over whole runs, a mutant has one holder, and waits end at their deadlines.
  (native/kernel/ke.c)
  */
module Grants {
  import opened Wrappers
  import opened Dispatcher

  // ---- One pass ----

  /** The thread's wait ended with a status that gives it x. */
  predicate Ended(a: Thread, b: Thread, x: nat) {
    a.phase == Waiting && b.phase != Waiting && Got(a.wait, b.eax, x)
  }

  /** How many of the first n threads' waits ended with x. */
  function Enders(before: seq<Thread>, after: seq<Thread>, x: nat, n: nat): nat
    requires n <= |before| && n <= |after|
  {
    if n == 0 then 0 else Enders(before, after, x, n - 1) + if Ended(before[n - 1], after[n - 1], x) then 1 else 0
  }

  lemma {:induction false} EndersSame(before: seq<Thread>, a: seq<Thread>, b: seq<Thread>, x: nat, n: nat)
    requires n <= |before| && n <= |a| && n <= |b| && forall i :: 0 <= i < n ==> a[i] == b[i]
    ensures Enders(before, a, x, n) == Enders(before, b, x, n)
  {
    if n > 0 { EndersSame(before, a, b, x, n - 1); }
  }

  /** No waits end where none of the waiting threads changes. */
  lemma {:induction false} EndersNone(before: seq<Thread>, after: seq<Thread>, x: nat, n: nat)
    requires n <= |before| && n <= |after|
    requires forall i :: 0 <= i < n && before[i].phase == Waiting ==> after[i] == before[i]
    ensures Enders(before, after, x, n) == 0
  {
    if n > 0 { EndersNone(before, after, x, n - 1); }
  }

  /** What giving an object g times makes of it. */
  predicate Gave(a: Obj, b: Obj, g: nat) {
    && b.kind == a.kind && b.limit == a.limit
    && (a.kind == Notification ==> b == a && (g > 0 ==> a.signal > 0))
    && (a.kind == Synchronization ==>
          && b.owner == a.owner && g <= 1
          && (if g == 0 then b.signal == a.signal else a.signal > 0 && b.signal == 0))
    && (a.kind == Semaphore ==> b.owner == a.owner && b.signal == a.signal - g && (g > 0 ==> b.signal >= 0))
    && (a.kind == Mutant ==> b.signal == a.signal - g && (g == 0 ==> b.owner == a.owner))
  }

  lemma StepGives(k: Ke, i: nat, now: nat, x: nat)
    requires Shaped(k) && AllWaitsOk(k) && i < |k.threads| && x in k.objs
    ensures var r := CheckOne(k, i, now);
      && AllWaitsOk(r)
      && Gave(k.objs[x], r.objs[x], if Ended(k.threads[i], r.threads[i], x) then 1 else 0)
      && (Ended(k.threads[i], r.threads[i], x) ==> GivenTo(k.objs[x], r.objs[x], k.threads[i].ethread))
  {
    if k.threads[i].phase == Waiting {
      TakesAllOrNone(k, i, now);
    }
  }

  lemma GaveThen(a: Obj, b: Obj, c: Obj, g: nat, h: nat)
    requires Gave(a, b, g) && Gave(b, c, h)
    ensures Gave(a, c, g + h)
  {
  }

  lemma GaveNothing(a: Obj)
    ensures Gave(a, a, 0)
  {
  }

  /** The pass gives each object as often as threads' statuses say, and never more than there is. */
  lemma {:induction false} PassGives(k: Ke, n: nat, now: nat, x: nat)
    requires Shaped(k) && AllWaitsOk(k) && n <= |k.threads| && x in k.objs
    ensures var r := CheckUpTo(k, n, now);
      && AllWaitsOk(r) && Gave(k.objs[x], r.objs[x], Enders(k.threads, r.threads, x, n))
      && (forall i :: n <= i < |k.threads| ==> r.threads[i] == k.threads[i])
  {
    hide CheckOne, Gave, AllWaitsOk, Ended;
    if n == 0 {
      GaveNothing(k.objs[x]);
    } else {
      PassGives(k, n - 1, now, x);
      MoreGiven(k, CheckUpTo(k, n - 1, now), n, now, x);
    }
  }

  lemma MoreGiven(k: Ke, s: Ke, n: nat, now: nat, x: nat)
    requires Shaped(s) && AllWaitsOk(s) && 0 < n <= |k.threads| == |s.threads| && x in k.objs && x in s.objs
    requires Gave(k.objs[x], s.objs[x], Enders(k.threads, s.threads, x, n - 1)) && s.threads[n - 1] == k.threads[n - 1]
    ensures var r := CheckOne(s, n - 1, now);
      && AllWaitsOk(r) && Gave(k.objs[x], r.objs[x], Enders(k.threads, r.threads, x, n))
      && forall i :: 0 <= i < |k.threads| && i != n - 1 ==> r.threads[i] == s.threads[i]
  {
    hide CheckOne, Gave, AllWaitsOk, Ended;
    var r := CheckOne(s, n - 1, now);
    StepGives(s, n - 1, now, x);
    CheckOneOthers(s, n - 1, now);
    EndersSame(k.threads, s.threads, r.threads, x, n - 1);
    GaveThen(k.objs[x], s.objs[x], r.objs[x], Enders(k.threads, s.threads, x, n - 1),
             if Ended(s.threads[n - 1], r.threads[n - 1], x) then 1 else 0);
  }

  // ---- Deadlines ----

  /** The wait timed out: its deadline has come, and the status is a delay's or a wait's. */
  predicate TimedOut(a: Thread, b: Thread, now: nat) {
    && 0 < a.wait.deadline <= now
    && b == a.(phase := Ready, eax := if a.wait.objects == [] then STATUS_SUCCESS else STATUS_TIMEOUT)
  }

  predicate WasGiven(a: Thread, b: Thread) {
    b == a.(phase := Ready, eax := b.eax) && exists x :: x in a.wait.objects && Got(a.wait, b.eax, x)
  }

  /** A waiting thread after a pass: given what it waits for, timed out, or waiting before its deadline. */
  predicate WaitMoved(a: Thread, b: Thread, now: nat) {
    || WasGiven(a, b)
    || TimedOut(a, b, now)
    || (b == a && (a.wait.deadline == 0 || now < a.wait.deadline))
  }

  lemma StepEndsWait(k: Ke, i: nat, now: nat)
    requires Shaped(k) && i < |k.threads| && k.threads[i].phase == Waiting
    ensures var a := k.threads[i]; var r := CheckOne(k, i, now); var b := r.threads[i];
      WaitMoved(a, b, now) && (!WasGiven(a, b) ==> Satisfied(r.objs, a.ethread, a.wait) < 0)
  {
    var a := k.threads[i];
    var idx := Satisfied(k.objs, a.ethread, a.wait);
    if idx >= 0 {
      if a.wait.all { assert Got(a.wait, idx, a.wait.objects[0]); } else { assert Got(a.wait, idx, a.wait.objects[idx]); }
    }
  }

  /** What a thread waits for and cannot have, the pass's later steps do not signal. */
  lemma StepSignalsNoOne(k: Ke, i: nat, now: nat, e: nat, w: Wait)
    requires Shaped(k) && i < |k.threads| && k.threads[i].ethread != e && Known(k.objs, w) && Satisfied(k.objs, e, w) < 0
    ensures Satisfied(CheckOne(k, i, now).objs, e, w) < 0
  {
    var t := k.threads[i];
    if t.phase == Waiting {
      var idx := Satisfied(k.objs, t.ethread, t.wait);
      if idx >= 0 { TakenSignalsNoOne(k.objs, t.ethread, t.wait, idx, e, w); }
    }
  }

  lemma {:induction false} PassEndsWaits(k: Ke, n: nat, now: nat, i: nat)
    requires Shaped(k) && n <= |k.threads| && i < |k.threads| && k.threads[i].phase == Waiting
    ensures var a := k.threads[i]; var r := CheckUpTo(k, n, now); var b := r.threads[i];
      if n <= i then b == a
      else WaitMoved(a, b, now) && (!WasGiven(a, b) ==> Satisfied(r.objs, a.ethread, a.wait) < 0)
  {
    hide CheckOne, Satisfied, WaitMoved, WasGiven;
    if n > 0 {
      PassEndsWaits(k, n - 1, now, i);
      var s := CheckUpTo(k, n - 1, now);
      CheckOneOthers(s, n - 1, now);
      if n - 1 == i {
        StepEndsWait(s, i, now);
      } else if n - 1 > i {
        var a := k.threads[i];
        EthreadKept(k, n - 1, now, n - 1);
        if !WasGiven(a, s.threads[i]) { StepSignalsNoOne(s, n - 1, now, a.ethread, a.wait); }
      }
    }
  }

  lemma {:induction false} EthreadKept(k: Ke, n: nat, now: nat, i: nat)
    requires Shaped(k) && n <= |k.threads| && i < |k.threads|
    ensures CheckUpTo(k, n, now).threads[i].ethread == k.threads[i].ethread
  {
    if n > 0 { EthreadKept(k, n - 1, now, i); }
  }

  // ---- One operation ----

  /** x as the operation leaves it before any wait is looked at. */
  function Turned(o: Obj, op: Op, x: nat): Obj {
    match op
    case Signal(y) => if y == x then o.(signal := 1) else o
    case Pulse(y) => if y == x then o.(signal := 1) else o
    case Release(y, count) => if y == x && Accepts(o, count) then o.(signal := o.signal + count) else o
    case Return(y) => if y == x then Returned(o) else o
    case _ => o
  }

  /** A semaphore with room for count more. */
  predicate Accepts(o: Obj, count: int) { 0 < count <= o.limit - o.signal }

  /** A mutant with one hold less; free, it has no owner. */
  function Returned(o: Obj): Obj {
    if o.signal < 0 then o.(signal := o.signal + 1) else o.(signal := o.signal + 1, owner := 0)
  }

  predicate TurnsDown(op: Op, x: nat) { op == Reset(x) || op == Pulse(x) }

  /** The thread that began a wait goes on with x. */
  predicate BeganWith(r: Ke, op: Op, x: nat) {
    op.Begin? && op.i < |r.threads| && r.threads[op.i].phase == Running && Got(op.w, r.threads[op.i].eax, x)
  }

  /** How often threads were given x. */
  function Given(k: Ke, r: Ke, op: Op, x: nat): nat
    requires |k.threads| == |r.threads|
  {
    Enders(k.threads, r.threads, x, |k.threads|) + if BeganWith(r, op, x) then 1 else 0
  }

  /** An operation that a pass follows. */
  predicate Passes(k: Ke, op: Op)
    requires Allowed(k, op)
  {
    match op
    case Signal(_) => true
    case Pulse(_) => true
    case Release(x, count) => Accepts(k.objs[x], count)
    case Return(x) => k.objs[x].signal >= 0
    case Tick => true
    case _ => false
  }

  /** The state the pass starts from. */
  function Before(k: Ke, op: Op): (r: Ke)
    requires Shaped(k) && Allowed(k, op)
    ensures Shaped(r) && r.threads == k.threads && r.objs.Keys == k.objs.Keys
    ensures forall x :: x in k.objs ==> r.objs[x] == Turned(k.objs[x], op, x)
  {
    if op.Signal? || op.Pulse? || op.Release? || op.Return? then k.(objs := k.objs[op.x := Turned(k.objs[op.x], op, op.x)]) else k
  }

  /** An operation is its own turn of its object, then the pass where one follows; a pulse ends turned down. */
  lemma NextIs(k: Ke, op: Op, now: nat)
    requires KeInv(k) && Allowed(k, op)
    ensures Passes(k, op) && !op.Pulse? ==> Dispatcher.Next(k, op, now) == CheckAll(Before(k, op), now)
    ensures op.Pulse? ==>
              && op.x in CheckAll(Before(k, op), now).objs
              && Dispatcher.Next(k, op, now) == SetSignal(CheckAll(Before(k, op), now), op.x, 0)
    ensures !Passes(k, op) && !op.Begin? && !op.Switch? && !op.Reset? ==> Dispatcher.Next(k, op, now) == Before(k, op)
  {
    hide CheckAll, Settled, AllWaitsOk;
    if op.Signal? || op.Pulse? {
      assert Before(k, op) == SetSignal(k, op.x, 1);
    } else if op.Release? {
      ReleaseIs(k, op.x, op.count, now);
    } else if op.Return? {
      ReturnIs(k, op.x, now);
    }
  }

  lemma ReleaseIs(k: Ke, x: nat, count: int, now: nat)
    requires Shaped(k) && Allowed(k, Release(x, count)) && InRange(k.objs[x])
    ensures var op := Release(x, count);
      ReleaseSemaphore(k, x, count, now) == if Passes(k, op) then CheckAll(Before(k, op), now) else Before(k, op)
  {
    hide CheckAll;
    if Accepts(k.objs[x], count) {
      assert Before(k, Release(x, count)) == SetSignal(k, x, k.objs[x].signal + count);
    } else {
      assert Before(k, Release(x, count)).objs == k.objs;
    }
  }

  lemma ReturnIs(k: Ke, x: nat, now: nat)
    requires Shaped(k) && Allowed(k, Return(x))
    ensures var op := Return(x);
      ReleaseMutant(k, x, now) == if Passes(k, op) then CheckAll(Before(k, op), now) else Before(k, op)
  {
    hide CheckAll;
    var s := SetSignal(k, x, k.objs[x].signal + 1);
    var o := s.objs[x].(owner := 0);
    assert k.objs[x := s.objs[x]][x := o] == k.objs[x := o];
  }

  lemma BeginGives(k: Ke, i: nat, w: Wait, timeout: Timeout, x: nat)
    requires KeInv(k) && Allowed(k, Begin(i, w, timeout)) && x in k.objs
    ensures var r := WaitFor(k, i, w, timeout); var g := if BeganWith(r, Begin(i, w, timeout), x) then 1 else 0;
      x in r.objs && Gave(k.objs[x], r.objs[x], g) && (g > 0 ==> GivenTo(k.objs[x], r.objs[x], k.threads[i].ethread))
  {
    if Satisfied(k.objs, k.threads[i].ethread, w) >= 0 {
      TakenIs(k.objs, k.threads[i].ethread, w, x);
    }
  }

  /** Beginning a wait ends none. */
  lemma BeginEndsNone(k: Ke, i: nat, w: Wait, timeout: Timeout, x: nat)
    requires KeInv(k) && Allowed(k, Begin(i, w, timeout))
    ensures Enders(k.threads, WaitFor(k, i, w, timeout).threads, x, |k.threads|) == 0
  {
    hide Satisfied;
    EndersNone(k.threads, WaitFor(k, i, w, timeout).threads, x, |k.threads|);
  }

  lemma PassGivesAll(k: Ke, op: Op, now: nat, x: nat)
    requires KeInv(k) && Allowed(k, op) && Passes(k, op) && x in k.objs
    ensures var r := CheckAll(Before(k, op), now);
      && |r.threads| == |k.threads| && x in r.objs
      && Gave(Turned(k.objs[x], op, x), r.objs[x], Enders(k.threads, r.threads, x, |k.threads|))
  {
    hide CheckUpTo, Gave, Enders, Turned;
    PassGives(Before(k, op), |k.threads|, now, x);
  }

  lemma PulseGives(k: Ke, y: nat, now: nat, x: nat)
    requires KeInv(k) && Allowed(k, Pulse(y)) && x in k.objs
    ensures var r := Dispatcher.Next(k, Pulse(y), now); var g := Given(k, r, Pulse(y), x);
      && |r.threads| == |k.threads| && x in r.objs
      && (x == y ==> r.objs[x] == k.objs[x].(signal := 0) && (k.objs[x].kind == Synchronization ==> g <= 1))
      && (x != y ==> Gave(k.objs[x], r.objs[x], g))
  {
    hide CheckAll, KeInv;
    NextIs(k, Pulse(y), now);
    PassGivesAll(k, Pulse(y), now, x);
  }

  lemma PassedGives(k: Ke, op: Op, now: nat, x: nat)
    requires KeInv(k) && Allowed(k, op) && x in k.objs && Passes(k, op) && !op.Pulse?
    ensures var r := Dispatcher.Next(k, op, now); var g := Given(k, r, op, x);
      |r.threads| == |k.threads| && x in r.objs && Gave(Turned(k.objs[x], op, x), r.objs[x], g)
  {
    hide CheckAll, Gave, Settled, AllInRange, AllWaitsOk, Turned, Enders;
    NextIs(k, op, now);
    PassGivesAll(k, op, now, x);
  }

  lemma BegunGives(k: Ke, i: nat, w: Wait, timeout: Timeout, now: nat, x: nat)
    requires KeInv(k) && Allowed(k, Begin(i, w, timeout)) && x in k.objs
    ensures var op := Begin(i, w, timeout); var r := Dispatcher.Next(k, op, now); var g := Given(k, r, op, x);
      |r.threads| == |k.threads| && x in r.objs && Gave(Turned(k.objs[x], op, x), r.objs[x], g)
  {
    hide WaitFor, Gave, Settled, AllInRange, AllWaitsOk, Enders;
    BeginGives(k, i, w, timeout, x);
    BeginEndsNone(k, i, w, timeout, x);
  }

  lemma QuietGives(k: Ke, op: Op, now: nat, x: nat)
    requires KeInv(k) && Allowed(k, op) && x in k.objs && !Passes(k, op) && !op.Begin?
    ensures var r := Dispatcher.Next(k, op, now);
      && |r.threads| == |k.threads| && x in r.objs && Given(k, r, op, x) == 0
      && (if TurnsDown(op, x) then r.objs[x] == k.objs[x].(signal := 0) else r.objs[x] == Turned(k.objs[x], op, x))
  {
    hide CheckAll, Settled, AllInRange, AllWaitsOk, Enders;
    NextIs(k, op, now);
    EndersNone(k.threads, Dispatcher.Next(k, op, now).threads, x, |k.threads|);
  }

  /** Every operation on every object: its own turn of the object, given away as often as statuses say; a reset or
      a pulse leaves it unsignaled. */
  lemma OpGives(k: Ke, op: Op, now: nat, x: nat)
    requires KeInv(k) && Allowed(k, op) && x in k.objs
    ensures var r := Dispatcher.Next(k, op, now); var g := Given(k, r, op, x);
      && |r.threads| == |k.threads| && x in r.objs
      && (TurnsDown(op, x) ==>
            && r.objs[x] == k.objs[x].(signal := 0)
            && (op.Reset? ==> g == 0)
            && (k.objs[x].kind == Synchronization ==> g <= 1))
      && (!TurnsDown(op, x) ==> Gave(Turned(k.objs[x], op, x), r.objs[x], g))
  {
    hide Dispatcher.Next, Given, Gave, Settled, AllInRange, AllWaitsOk, Turned;
    if op.Pulse? {
      PulseGives(k, op.x, now, x);
      PulseTurns(k.objs[x], op.x, x);
    } else if Passes(k, op) {
      PassedGives(k, op, now, x);
    } else if op.Begin? {
      BegunGives(k, op.i, op.w, op.timeout, now, x);
    } else {
      QuietGives(k, op, now, x);
      GaveNothing(Turned(k.objs[x], op, x));
    }
  }

  lemma PulseTurns(o: Obj, y: nat, x: nat)
    ensures x != y ==> Turned(o, Pulse(y), x) == o
  {
  }

  /** Turning an event down signals no one. */
  lemma LoweredSignalsNoOne(k: Ke, y: nat, e: nat, w: Wait)
    requires y in k.objs && k.objs[y].kind != Mutant && Known(k.objs, w) && Satisfied(k.objs, e, w) < 0
    ensures Satisfied(SetSignal(k, y, 0).objs, e, w) < 0
  {
    var objs := SetSignal(k, y, 0).objs;
    forall i | 0 <= i < |w.objects| && IsSignaled(objs[w.objects[i]], e) ensures IsSignaled(k.objs[w.objects[i]], e) {
    }
  }

  lemma PassEndsWait(k: Ke, op: Op, now: nat, i: nat)
    requires KeInv(k) && Allowed(k, op) && Passes(k, op) && i < |k.threads| && k.threads[i].phase == Waiting
    ensures var a := k.threads[i]; var r := CheckAll(Before(k, op), now);
      && |r.threads| == |k.threads| && Known(r.objs, a.wait)
      && WaitMoved(a, r.threads[i], now)
      && (!WasGiven(a, r.threads[i]) ==> Satisfied(r.objs, a.ethread, a.wait) < 0)
  {
    hide CheckUpTo, Satisfied, WaitMoved, WasGiven, Turned;
    PassEndsWaits(Before(k, op), |k.threads|, now, i);
  }

  /** Whatever the operation, a waiting thread's wait ends only where it is given what it waits for, or its
      deadline has come and it cannot have it; and no pass leaves it waiting where one of the two holds. */
  lemma OpEndsWaits(k: Ke, op: Op, now: nat, i: nat)
    requires KeInv(k) && Allowed(k, op) && i < |k.threads| && k.threads[i].phase == Waiting
    ensures var a := k.threads[i]; var r := Dispatcher.Next(k, op, now);
      && |r.threads| == |k.threads| && Known(r.objs, a.wait)
      && (if Passes(k, op) then WaitMoved(a, r.threads[i], now) else r.threads[i] == a)
      && (!WasGiven(a, r.threads[i]) ==> Satisfied(r.objs, a.ethread, a.wait) < 0)
  {
    hide CheckAll, Satisfied, WaitMoved, WasGiven;
    var a := k.threads[i];
    var r := Dispatcher.Next(k, op, now);
    NextIs(k, op, now);
    if Passes(k, op) {
      PassEndsWait(k, op, now, i);
      var s := CheckAll(Before(k, op), now);
      if op.Pulse? && !WasGiven(a, s.threads[i]) { PulseSignalsNoOne(k, s, op.x, now, a.ethread, a.wait); }
    } else {
      NextKeepsInv(k, op, now);
      assert !Starved(r, i);
    }
  }

  lemma PulseSignalsNoOne(k: Ke, s: Ke, x: nat, now: nat, e: nat, w: Wait)
    requires KeInv(k) && Allowed(k, Pulse(x)) && s == CheckAll(Before(k, Pulse(x)), now)
    requires Known(s.objs, w) && Satisfied(s.objs, e, w) < 0
    ensures x in s.objs && Satisfied(SetSignal(s, x, 0).objs, e, w) < 0
  {
    hide CheckAll, Satisfied, Gave;
    PassGivesAll(k, Pulse(x), now, x);
    assert s.objs[x].kind == k.objs[x].kind by { GaveKind(Turned(k.objs[x], Pulse(x), x), s.objs[x], Enders(k.threads, s.threads, x, |k.threads|)); }
    LoweredSignalsNoOne(s, x, e, w);
  }

  lemma GaveKind(a: Obj, b: Obj, g: nat)
    requires Gave(a, b, g)
    ensures b.kind == a.kind && b.limit == a.limit
  {
  }

  /** Setting or pulsing an event ends the wait of every thread that waits for it, or for it among others; a
      synchronization event's may go to one thread alone. */
  lemma SignalWakes(k: Ke, op: Op, now: nat, i: nat)
    requires KeInv(k) && Allowed(k, op) && (op.Signal? || op.Pulse?)
    requires i < |k.threads| && k.threads[i].phase == Waiting && !k.threads[i].wait.all && op.x in k.threads[i].wait.objects
    ensures var r := Dispatcher.Next(k, op, now);
      WasGiven(k.threads[i], r.threads[i]) || (k.objs[op.x].kind == Synchronization && Given(k, r, op, op.x) == 1)
  {
    hide CheckAll, WasGiven, WaitMoved;
    var a := k.threads[i];
    var s := CheckAll(Before(k, op), now);
    NextIs(k, op, now);
    PassEndsWait(k, op, now, i);
    PassGivesAll(k, op, now, op.x);
    var j :| 0 <= j < |a.wait.objects| && a.wait.objects[j] == op.x;
    assert s.objs[op.x].signal > 0 ==> IsSignaled(s.objs[a.wait.objects[j]], a.ethread);
  }

  /** The wait's section, with its holder: the one taken with the objects, once; all others as they were. */
  predicate SectionTaken(a: map<nat, Section>, b: map<nat, Section>, w: Wait, e: nat) {
    b.Keys == a.Keys && forall c :: c in a ==>
      if w.cs == Some(c) then b[c].owner == e && b[c].recursion == 1 && b[c].lock == a[c].lock else b[c] == a[c]
  }

  /** A wait that begins: given its objects at once where they can be had, with its section; else the status of a
      time-out that is over, or of a delay that has nothing to wait for, at once; else it waits, for its deadline
      where it has one. */
  lemma WaitBegins(k: Ke, i: nat, w: Wait, timeout: Timeout)
    requires KeInv(k) && Allowed(k, Begin(i, w, timeout))
    ensures var r := WaitFor(k, i, w, timeout); var e := k.threads[i].ethread; var t := r.threads[i];
      && (forall j :: 0 <= j < |k.threads| && j != i ==> r.threads[j] == k.threads[j])
      && (Satisfied(k.objs, e, w) >= 0 ==>
            && t.phase == Running && (exists x :: x in w.objects && Got(w, t.eax, x))
            && SectionTaken(k.sections, r.sections, w, e))
      && (Satisfied(k.objs, e, w) < 0 ==>
            && r.objs == k.objs && r.sections == k.sections
            && (timeout.Past? ==> t.phase == Running && t.eax == if w.objects == [] then STATUS_SUCCESS else STATUS_TIMEOUT)
            && (timeout.Never? && w.objects == [] ==> t.phase == Running && t.eax == STATUS_SUCCESS)
            && (!timeout.Past? && !(timeout.Never? && w.objects == []) ==>
                  t.phase == Waiting && t.wait.objects == w.objects && t.wait.all == w.all && t.wait.cs == w.cs
                  && t.wait.deadline == if timeout.At? then timeout.ns else 0))
  {
    var idx := Satisfied(k.objs, k.threads[i].ethread, w);
    if idx >= 0 {
      if w.all { assert Got(w, idx, w.objects[0]); } else { assert Got(w, idx, w.objects[idx]); }
    }
  }

  /** One thread runs. */
  predicate OneRuns(k: Ke) {
    forall i, j :: 0 <= i < |k.threads| && 0 <= j < |k.threads| && k.threads[i].phase == Running && k.threads[j].phase == Running ==> i == j
  }

  lemma {:induction false} PassRunsNone(k: Ke, n: nat, now: nat, i: nat)
    requires Shaped(k) && n <= |k.threads| && i < |k.threads|
    ensures CheckUpTo(k, n, now).threads[i].phase == Running <==> k.threads[i].phase == Running
  {
    hide Satisfied;
    if n > 0 { PassRunsNone(k, n - 1, now, i); }
  }

  /** Whatever the operation, one thread runs at most; and the one switched to does. */
  lemma NextRunsOne(k: Ke, op: Op, now: nat)
    requires KeInv(k) && Allowed(k, op) && OneRuns(k)
    ensures OneRuns(Dispatcher.Next(k, op, now))
    ensures op.Switch? ==> Dispatcher.Next(k, op, now).threads[op.i].phase == Running
  {
    hide CheckUpTo, Settled, AllWaitsOk, AllInRange, Satisfied;
    NextIs(k, op, now);
    forall i | 0 <= i < |k.threads| ensures CheckUpTo(Before(k, op), |k.threads|, now).threads[i].phase == Running <==> k.threads[i].phase == Running {
      PassRunsNone(Before(k, op), |k.threads|, now, i);
    }
  }

  // ---- Whole runs ----

  ghost function Granted(k: Ke, ops: seq<(Op, nat)>, x: nat): nat
    requires Shaped(k) && CanRun(k, ops)
    decreases |ops|
  {
    if ops == [] then 0
    else
      var r := Dispatcher.Next(k, ops[0].0, ops[0].1);
      Given(k, r, ops[0].0, x) + Granted(r, ops[1..], x)
  }

  /** The counts of the releases of x that were within its limit. */
  ghost function Released(k: Ke, ops: seq<(Op, nat)>, x: nat): nat
    requires Shaped(k) && CanRun(k, ops)
    decreases |ops|
  {
    if ops == [] then 0
    else
      var op := ops[0].0;
      (if op.Release? && op.x == x && Accepts(k.objs[x], op.count) then op.count else 0) +
      Released(Dispatcher.Next(k, op, ops[0].1), ops[1..], x)
  }

  /** Over any run a semaphore's count is what it was, and what was released within its limit, less one for each
      wait that ended with it. */
  lemma {:induction false} CountsAreConserved(k: Ke, ops: seq<(Op, nat)>, x: nat)
    requires KeInv(k) && CanRun(k, ops) && x in k.objs && k.objs[x].kind == Semaphore
    ensures var r := Run(k, ops);
      x in r.objs && r.objs[x] == k.objs[x].(signal := k.objs[x].signal + Released(k, ops, x) - Granted(k, ops, x))
    decreases |ops|
  {
    hide Dispatcher.Next, Given, Settled, AllWaitsOk, AllInRange;
    if ops != [] {
      var r := Dispatcher.Next(k, ops[0].0, ops[0].1);
      NextKeepsInv(k, ops[0].0, ops[0].1);
      OpGives(k, ops[0].0, ops[0].1, x);
      CountsAreConserved(r, ops[1..], x);
    }
  }

  /** The signals of x in the run. */
  function Signals(ops: seq<(Op, nat)>, x: nat): nat {
    if ops == [] then 0 else (if ops[0].0 == Signal(x) || ops[0].0 == Pulse(x) then 1 else 0) + Signals(ops[1..], x)
  }

  function Up(o: Obj): nat { if o.signal > 0 then 1 else 0 }

  /** Over any run a synchronization event ends no more waits than it was signaled, and stays signaled only where
      it ended one less. */
  lemma {:induction false} EventsWakeOnce(k: Ke, ops: seq<(Op, nat)>, x: nat)
    requires KeInv(k) && CanRun(k, ops) && x in k.objs && k.objs[x].kind == Synchronization
    ensures var r := Run(k, ops); x in r.objs && Granted(k, ops, x) + Up(r.objs[x]) <= Up(k.objs[x]) + Signals(ops, x)
    decreases |ops|
  {
    hide Dispatcher.Next, Given, Settled, AllWaitsOk, AllInRange;
    if ops != [] {
      var r := Dispatcher.Next(k, ops[0].0, ops[0].1);
      NextKeepsInv(k, ops[0].0, ops[0].1);
      OpGives(k, ops[0].0, ops[0].1, x);
      EventsWakeOnce(r, ops[1..], x);
    }
  }

  /** Whether the last of the run's operations on event x leaves it set. */
  function LastSet(ops: seq<(Op, nat)>, x: nat, before: bool): bool {
    if ops == [] then before
    else LastSet(ops[1..], x, if ops[0].0 == Signal(x) then true else if TurnsDown(ops[0].0, x) then false else before)
  }

  /** Over any run a notification event is what the last set, reset or pulse of it says, however many waits end. */
  lemma {:induction false} NotificationStays(k: Ke, ops: seq<(Op, nat)>, x: nat)
    requires KeInv(k) && CanRun(k, ops) && x in k.objs && k.objs[x].kind == Notification
    ensures var r := Run(k, ops); x in r.objs && (r.objs[x].signal > 0 <==> LastSet(ops, x, k.objs[x].signal > 0))
    decreases |ops|
  {
    hide Dispatcher.Next, Given, Settled, AllWaitsOk, AllInRange;
    if ops != [] {
      var r := Dispatcher.Next(k, ops[0].0, ops[0].1);
      NextKeepsInv(k, ops[0].0, ops[0].1);
      OpGives(k, ops[0].0, ops[0].1, x);
      NotificationStays(r, ops[1..], x);
    }
  }
}
