/** Dispatcher objects and waits (native/kernel/ke.c): signal states, what satisfies a wait, and the
  pass over the threads that follows every signal.
  */
module Dispatcher {
  import opened Wrappers

  /** What a wait does to the object: timers count as events of their kind; threads stay signaled. */
  datatype Kind = Notification | Synchronization | Semaphore | Mutant

  datatype Obj = Obj(kind: Kind, signal: int, limit: int, owner: nat)

  /** deadline 0: none.  cs: the critical section the thread takes when woken. */
  datatype Wait = Wait(objects: seq<nat>, all: bool, deadline: nat, cs: Option<nat>)

  datatype Phase = Ready | Running | Waiting | Gone

  datatype Thread = Thread(phase: Phase, ethread: nat, wait: Wait, eax: int)

  /** RTL_CRITICAL_SECTION's words; its event is the dispatcher object at the same address. */
  datatype Section = Section(lock: int, recursion: int, owner: nat)

  datatype Ke = Ke(objs: map<nat, Obj>, sections: map<nat, Section>, threads: seq<Thread>)

  const STATUS_SUCCESS: int := 0
  const STATUS_TIMEOUT: int := 0x102

  // ---- One wait ----

  /** is_signaled, for the thread whose ETHREAD is e. */
  predicate IsSignaled(o: Obj, e: nat) {
    o.signal > 0 || (o.kind == Mutant && o.owner == e)
  }

  function Acquire(o: Obj, e: nat): Obj {
    match o.kind
    case Synchronization => o.(signal := 0)
    case Semaphore => o.(signal := o.signal - 1)
    case Mutant => o.(signal := o.signal - 1, owner := e)
    case Notification => o
  }

  predicate Known(objs: map<nat, Obj>, w: Wait) { forall i :: 0 <= i < |w.objects| ==> w.objects[i] in objs }

  /** The first signaled object from i on, or -1. */
  function FirstSignaled(objs: map<nat, Obj>, e: nat, w: Wait, i: nat): (r: int)
    requires Known(objs, w) && i <= |w.objects|
    ensures r == -1 || (i <= r < |w.objects| && IsSignaled(objs[w.objects[r]], e))
    ensures r == -1 <==> forall j :: i <= j < |w.objects| ==> !IsSignaled(objs[w.objects[j]], e)
    decreases |w.objects| - i
  {
    if i == |w.objects| then -1
    else if IsSignaled(objs[w.objects[i]], e) then i
    else FirstSignaled(objs, e, w, i + 1)
  }

  predicate AllSignaled(objs: map<nat, Obj>, e: nat, w: Wait)
    requires Known(objs, w)
  {
    forall i :: 0 <= i < |w.objects| ==> IsSignaled(objs[w.objects[i]], e)
  }

  /** satisfied: the index a wait-any ends with, 0 where a wait-all has everything, -1 while neither. */
  function Satisfied(objs: map<nat, Obj>, e: nat, w: Wait): int
    requires Known(objs, w)
  {
    if w.all then (if w.objects != [] && AllSignaled(objs, e, w) then 0 else -1)
    else FirstSignaled(objs, e, w, 0)
  }

  function AcquireFirst(objs: map<nat, Obj>, e: nat, w: Wait, n: nat): (r: map<nat, Obj>)
    requires Known(objs, w) && n <= |w.objects|
    ensures r.Keys == objs.Keys
  {
    if n == 0 then objs
    else
      var r := AcquireFirst(objs, e, w, n - 1);
      r[w.objects[n - 1] := Acquire(r[w.objects[n - 1]], e)]
  }

  /** take: the objects. */
  function Taken(objs: map<nat, Obj>, e: nat, w: Wait, idx: nat): (r: map<nat, Obj>)
    requires Known(objs, w) && idx < |w.objects|
    ensures r.Keys == objs.Keys
  {
    if w.all then AcquireFirst(objs, e, w, |w.objects|)
    else objs[w.objects[idx] := Acquire(objs[w.objects[idx]], e)]
  }

  function TakenSections(sections: map<nat, Section>, e: nat, w: Wait): (r: map<nat, Section>) {
    if w.cs.Some? && w.cs.value in sections
    then sections[w.cs.value := sections[w.cs.value].(owner := e, recursion := 1)]
    else sections
  }

  predicate Distinct(s: seq<nat>) { forall i, j :: 0 <= i < j < |s| ==> s[i] != s[j] }

  // ---- The pass over the threads ----

  /** NC_MAX_WAIT_OBJECTS */
  const MAX_WAIT_OBJECTS := 64

  /** A thread's wait: its objects exist, a wait-all names none twice, and they are as many as a wait takes. */
  predicate WaitOk(objs: map<nat, Obj>, w: Wait) {
    Known(objs, w) && (w.all ==> Distinct(w.objects)) && |w.objects| <= MAX_WAIT_OBJECTS
  }

  predicate Shaped(k: Ke) {
    && (forall i :: 0 <= i < |k.threads| && k.threads[i].phase == Waiting ==> Known(k.objs, k.threads[i].wait))
    && (forall i, j :: 0 <= i < j < |k.threads| ==> k.threads[i].ethread != k.threads[j].ethread)
  }

  /** nc_ke_check_waits for one thread. */
  function CheckOne(k: Ke, i: nat, now: nat): (r: Ke)
    requires Shaped(k) && i < |k.threads|
    ensures Shaped(r) && |r.threads| == |k.threads| && r.objs.Keys == k.objs.Keys && r.sections.Keys == k.sections.Keys
  {
    var t := k.threads[i];
    if t.phase != Waiting then k
    else
      var idx := Satisfied(k.objs, t.ethread, t.wait);
      if idx >= 0 then
        k.(objs := Taken(k.objs, t.ethread, t.wait, idx),
           sections := TakenSections(k.sections, t.ethread, t.wait),
           threads := k.threads[i := t.(phase := Ready, eax := idx)])
      else if t.wait.deadline != 0 && now >= t.wait.deadline then
        k.(threads := k.threads[i := t.(phase := Ready, eax := if t.wait.objects != [] then STATUS_TIMEOUT else STATUS_SUCCESS)])
      else k
  }

  /** nc_ke_check_waits for threads [0, n), in order. */
  function CheckUpTo(k: Ke, n: nat, now: nat): (r: Ke)
    requires Shaped(k) && n <= |k.threads|
    ensures Shaped(r) && |r.threads| == |k.threads| && r.objs.Keys == k.objs.Keys && r.sections.Keys == k.sections.Keys
  {
    if n == 0 then k else CheckOne(CheckUpTo(k, n - 1, now), n - 1, now)
  }

  function CheckAll(k: Ke, now: nat): (r: Ke)
    requires Shaped(k)
    ensures Shaped(r) && |r.threads| == |k.threads| && r.objs.Keys == k.objs.Keys && r.sections.Keys == k.sections.Keys
  {
    CheckUpTo(k, |k.threads|, now)
  }

  /** Thread i waits for something it could have. */
  predicate Starved(k: Ke, i: nat)
    requires Shaped(k) && i < |k.threads|
  {
    k.threads[i].phase == Waiting && Satisfied(k.objs, k.threads[i].ethread, k.threads[i].wait) >= 0
  }

  predicate Settled(k: Ke)
    requires Shaped(k)
  {
    forall i :: 0 <= i < |k.threads| ==> !Starved(k, i)
  }

  // ---- One pass reaches a fixpoint ----

  lemma {:induction false} AcquireFirstSignalsNoOne(objs: map<nat, Obj>, e: nat, w: Wait, n: nat, f: nat, x: nat)
    requires Known(objs, w) && n <= |w.objects| && e != f && x in objs && IsSignaled(AcquireFirst(objs, e, w, n)[x], f)
    ensures IsSignaled(objs[x], f)
  {
    if n > 0 { AcquireFirstSignalsNoOne(objs, e, w, n - 1, f, x); }
  }

  lemma TakenSignalsNoOne(objs: map<nat, Obj>, e: nat, w: Wait, idx: nat, f: nat, v: Wait)
    requires Known(objs, w) && idx < |w.objects| && e != f && Known(objs, v)
    requires Satisfied(objs, f, v) < 0
    ensures Satisfied(Taken(objs, e, w, idx), f, v) < 0
  {
    var r := Taken(objs, e, w, idx);
    forall i | 0 <= i < |v.objects| && IsSignaled(r[v.objects[i]], f) ensures IsSignaled(objs[v.objects[i]], f) {
      if w.all { AcquireFirstSignalsNoOne(objs, e, w, |w.objects|, f, v.objects[i]); }
    }
  }

  lemma CheckOneStarvesNoOne(k: Ke, i: nat, now: nat, j: nat)
    requires Shaped(k) && i < |k.threads| && j < |k.threads| && (j == i || !Starved(k, j))
    ensures !Starved(CheckOne(k, i, now), j)
  {
    var t := k.threads[i];
    if t.phase == Waiting && j != i && k.threads[j].phase == Waiting {
      var idx := Satisfied(k.objs, t.ethread, t.wait);
      assert t.ethread != k.threads[j].ethread;
      if idx >= 0 {
        TakenSignalsNoOne(k.objs, t.ethread, t.wait, idx, k.threads[j].ethread, k.threads[j].wait);
      }
    }
  }

  lemma {:induction false} CheckUpToSettles(k: Ke, n: nat, now: nat)
    requires Shaped(k) && n <= |k.threads|
    ensures forall j :: 0 <= j < n ==> !Starved(CheckUpTo(k, n, now), j)
  {
    if n > 0 {
      CheckUpToSettles(k, n - 1, now);
      forall j | 0 <= j < n ensures !Starved(CheckUpTo(k, n, now), j) {
        CheckOneStarvesNoOne(CheckUpTo(k, n - 1, now), n - 1, now, j);
      }
    }
  }

  /** After one pass no thread is left waiting for what it could have, whatever was signaled before. */
  lemma OnePassSettles(k: Ke, now: nat)
    requires Shaped(k)
    ensures Settled(CheckAll(k, now))
  {
    CheckUpToSettles(k, |k.threads|, now);
  }

  // ---- A wait-all takes every object or none ----

  lemma {:induction false} AcquireFirstIs(objs: map<nat, Obj>, e: nat, w: Wait, n: nat, x: nat)
    requires Known(objs, w) && n <= |w.objects| && Distinct(w.objects) && x in objs
    ensures AcquireFirst(objs, e, w, n)[x] == if x in w.objects[..n] then Acquire(objs[x], e) else objs[x]
  {
    if n > 0 {
      AcquireFirstIs(objs, e, w, n - 1, x);
      assert w.objects[..n] == w.objects[..n - 1] + [w.objects[n - 1]];
      if x == w.objects[n - 1] {
        assert x !in w.objects[..n - 1];
      }
    }
  }

  /** A wait that ended with this status has object x: one of all, or the one the status names. */
  predicate Got(w: Wait, eax: int, x: nat) {
    if w.all then eax == 0 && x in w.objects else 0 <= eax < |w.objects| && w.objects[eax] == x
  }

  /** What being given to the thread of ethread e makes of an object, kind by kind. */
  predicate GivenTo(a: Obj, b: Obj, e: nat) {
    && b.kind == a.kind && b.limit == a.limit
    && (a.kind == Notification ==> a.signal > 0 && b == a)
    && (a.kind == Synchronization ==> a.signal > 0 && b.signal == 0 && b.owner == a.owner)
    && (a.kind == Semaphore ==> a.signal > 0 && b.signal == a.signal - 1 && b.owner == a.owner)
    && (a.kind == Mutant ==> (a.signal > 0 || a.owner == e) && b.signal == a.signal - 1 && b.owner == e)
  }

  lemma TakenIs(objs: map<nat, Obj>, e: nat, w: Wait, x: nat)
    requires Known(objs, w) && (w.all ==> Distinct(w.objects)) && Satisfied(objs, e, w) >= 0 && x in objs
    ensures var idx := Satisfied(objs, e, w); var r := Taken(objs, e, w, idx);
      if Got(w, idx, x) then GivenTo(objs[x], r[x], e) else r[x] == objs[x]
  {
    if w.all {
      AcquireFirstIs(objs, e, w, |w.objects|, x);
      assert w.objects[..|w.objects|] == w.objects;
      if x in w.objects {
        var j :| 0 <= j < |w.objects| && w.objects[j] == x;
        assert IsSignaled(objs[w.objects[j]], e);
      }
    }
  }

  /** Either no object ends the wait and no object changes, or the status says which the thread was given: all of
      a wait-all's or one of a wait-any's.  Each of them was signaled for it and is given once; the others are
      as they were. */
  lemma TakesAllOrNone(k: Ke, i: nat, now: nat)
    requires Shaped(k) && i < |k.threads| && k.threads[i].phase == Waiting && WaitOk(k.objs, k.threads[i].wait)
    ensures var t := k.threads[i]; var r := CheckOne(k, i, now); var u := r.threads[i];
      && (u.phase == Waiting || u.phase == Ready)
      && (u.phase == Waiting || !(exists x :: Got(t.wait, u.eax, x)) ==> r.objs == k.objs)
      && (u.phase == Ready ==> forall x :: x in k.objs ==>
            if Got(t.wait, u.eax, x) then GivenTo(k.objs[x], r.objs[x], t.ethread) else r.objs[x] == k.objs[x])
  {
    var t := k.threads[i];
    var u := CheckOne(k, i, now).threads[i];
    var idx := Satisfied(k.objs, t.ethread, t.wait);
    if idx >= 0 {
      if t.wait.all { assert Got(t.wait, idx, t.wait.objects[0]); } else { assert Got(t.wait, idx, t.wait.objects[idx]); }
      forall x | x in k.objs
        ensures if Got(t.wait, idx, x) then GivenTo(k.objs[x], CheckOne(k, i, now).objs[x], t.ethread)
                else CheckOne(k, i, now).objs[x] == k.objs[x]
      {
        TakenIs(k.objs, t.ethread, t.wait, x);
      }
    } else {
      assert CheckOne(k, i, now).objs == k.objs;
    }
  }

  /** Naming a semaphore twice in a wait-all takes two counts where one was checked for. */
  lemma DuplicateWaitAllOverdraws(e: nat, x: nat)
    ensures var objs := map[x := Obj(Semaphore, 1, 1, 0)]; var w := Wait([x, x], true, 0, None);
      Satisfied(objs, e, w) == 0 && Taken(objs, e, w, 0)[x].signal == -1
  {
    var objs := map[x := Obj(Semaphore, 1, 1, 0)];
    var w := Wait([x, x], true, 0, None);
    var one := AcquireFirst(objs, e, w, 1);
    assert one == AcquireFirst(objs, e, w, 0)[x := Acquire(objs[x], e)];
    assert AcquireFirst(objs, e, w, 2) == one[x := Acquire(one[x], e)];
  }

  // ---- Counts stay in range ----

  predicate InRange(o: Obj) { o.kind == Semaphore ==> 0 <= o.signal <= o.limit }

  predicate AllInRange(objs: map<nat, Obj>) { forall x :: x in objs ==> InRange(objs[x]) }

  predicate AllWaitsOk(k: Ke) {
    forall i :: 0 <= i < |k.threads| && k.threads[i].phase == Waiting ==> WaitOk(k.objs, k.threads[i].wait)
  }

  /** How often the objects name x. */
  function Times(s: seq<nat>, x: nat): nat {
    if s == [] then 0 else Times(s[..|s| - 1], x) + if s[|s| - 1] == x then 1 else 0
  }

  lemma {:induction false} AcquireFirstTimes(objs: map<nat, Obj>, e: nat, w: Wait, n: nat, x: nat)
    requires Known(objs, w) && n <= |w.objects| && x in objs && objs[x].kind == Semaphore
    ensures AcquireFirst(objs, e, w, n)[x] == objs[x].(signal := objs[x].signal - Times(w.objects[..n], x))
  {
    if n > 0 {
      AcquireFirstTimes(objs, e, w, n - 1, x);
      assert w.objects[..n][..n - 1] == w.objects[..n - 1];
    }
  }

  /** Taking a wait-all's objects keeps every semaphore in range exactly when it names none more often
      than it has counts. */
  lemma TakenInRangeExactly(objs: map<nat, Obj>, e: nat, w: Wait)
    requires Known(objs, w) && w.all && w.objects != [] && AllInRange(objs)
    ensures AllInRange(Taken(objs, e, w, 0)) <==>
            forall x :: x in objs && objs[x].kind == Semaphore ==> Times(w.objects, x) <= objs[x].signal
  {
    var r := Taken(objs, e, w, 0);
    assert w.objects[..|w.objects|] == w.objects;
    forall x | x in objs
      ensures objs[x].kind == Semaphore ==> r[x] == objs[x].(signal := objs[x].signal - Times(w.objects, x))
      ensures objs[x].kind != Semaphore ==> r[x].kind != Semaphore
    {
      if objs[x].kind == Semaphore { AcquireFirstTimes(objs, e, w, |w.objects|, x); }
      else { AcquireFirstKind(objs, e, w, |w.objects|, x); }
    }
    if AllInRange(r) {
      forall x | x in objs && objs[x].kind == Semaphore ensures Times(w.objects, x) <= objs[x].signal {
        assert InRange(r[x]);
      }
    }
    if forall x :: x in objs && objs[x].kind == Semaphore ==> Times(w.objects, x) <= objs[x].signal {
      forall x | x in r ensures InRange(r[x]) { assert InRange(objs[x]); }
    }
  }

  lemma CheckOneInRange(k: Ke, i: nat, now: nat)
    requires Shaped(k) && AllWaitsOk(k) && i < |k.threads| && AllInRange(k.objs)
    ensures AllInRange(CheckOne(k, i, now).objs) && AllWaitsOk(CheckOne(k, i, now))
  {
    if k.threads[i].phase == Waiting {
      TakesAllOrNone(k, i, now);
      var t := k.threads[i];
      var r := CheckOne(k, i, now);
      forall x | x in r.objs ensures InRange(r.objs[x]) {
        assert InRange(k.objs[x]);
        if t.wait.all && x in t.wait.objects && AllSignaled(k.objs, t.ethread, t.wait) {
          var j :| 0 <= j < |t.wait.objects| && t.wait.objects[j] == x;
          assert IsSignaled(k.objs[t.wait.objects[j]], t.ethread);
        }
      }
    }
  }

  lemma {:induction false} CheckUpToInRange(k: Ke, n: nat, now: nat)
    requires Shaped(k) && AllWaitsOk(k) && n <= |k.threads| && AllInRange(k.objs)
    ensures AllInRange(CheckUpTo(k, n, now).objs) && AllWaitsOk(CheckUpTo(k, n, now))
  {
    hide CheckOne, AllInRange, AllWaitsOk;
    if n > 0 {
      CheckUpToInRange(k, n - 1, now);
      CheckOneInRange(CheckUpTo(k, n - 1, now), n - 1, now);
    }
  }

  // ---- The operations ----

  function Signed32(x: int): int {
    var y := x % 0x1_0000_0000;
    if y >= 0x8000_0000 then y - 0x1_0000_0000 else y
  }

  function SetSignal(k: Ke, x: nat, v: int): (r: Ke)
    requires x in k.objs
    ensures Shaped(k) ==> Shaped(r)
  {
    k.(objs := k.objs[x := k.objs[x].(signal := v)])
  }

  function SetEvent(k: Ke, x: nat, now: nat): (r: Ke)
    requires Shaped(k) && x in k.objs
    ensures Shaped(r) && |r.threads| == |k.threads|
  {
    CheckAll(SetSignal(k, x, 1), now)
  }

  /** release_semaphore; a sum past 2^31 - 1 wraps in the 32-bit comparison. */
  function ReleaseSemaphore(k: Ke, x: nat, count: int, now: nat): (r: Ke)
    requires Shaped(k) && x in k.objs
    ensures Shaped(r) && |r.threads| == |k.threads|
  {
    var sum := Signed32(k.objs[x].signal + count);
    if count <= 0 || sum > k.objs[x].limit then k else CheckAll(SetSignal(k, x, sum), now)
  }

  function ReleaseMutant(k: Ke, x: nat, now: nat): (r: Ke)
    requires Shaped(k) && x in k.objs
    ensures Shaped(r) && |r.threads| == |k.threads|
  {
    var v := k.objs[x].signal + 1;
    var s := SetSignal(k, x, v);
    if v > 0 then CheckAll(s.(objs := s.objs[x := s.objs[x].(owner := 0)]), now) else s
  }

  datatype Timeout = Never | Delay | Past | At(ns: nat)

  /** wait by thread i, which runs: the objects taken at once, or the thread waiting, or its result. */
  function WaitFor(k: Ke, i: nat, w: Wait, timeout: Timeout): (r: Ke)
    requires Shaped(k) && i < |k.threads| && Known(k.objs, w)
    ensures Shaped(r) && |r.threads| == |k.threads|
  {
    var t := k.threads[i];
    var idx := Satisfied(k.objs, t.ethread, w);
    if idx >= 0 then
      k.(objs := Taken(k.objs, t.ethread, w, idx), sections := TakenSections(k.sections, t.ethread, w),
         threads := k.threads[i := t.(eax := idx)])
    else if timeout.Past? || (timeout.Never? && w.objects == []) then
      k.(threads := k.threads[i := t.(eax := if timeout.Past? && w.objects != [] then STATUS_TIMEOUT else STATUS_SUCCESS)])
    else
      k.(threads := k.threads[i := t.(phase := Waiting, wait := w.(deadline := if timeout.At? then timeout.ns else 0))])
  }

  datatype Op =
    | Signal(x: nat)                       // KeSetEvent, NtSetEvent
    | Reset(x: nat)                        // KeResetEvent, NtClearEvent
    | Pulse(x: nat)                        // KePulseEvent, NtPulseEvent
    | Release(x: nat, count: int)          // KeReleaseSemaphore, NtReleaseSemaphore
    | Return(x: nat)                       // KeReleaseMutant, NtReleaseMutant
    | Begin(i: nat, w: Wait, timeout: Timeout)
    | Tick                                 // the clock's check
    | Switch(i: nat)                       // the scheduler runs another thread

  predicate Allowed(k: Ke, op: Op) {
    match op
    case Signal(x) => x in k.objs && (k.objs[x].kind == Notification || k.objs[x].kind == Synchronization)
    case Reset(x) => x in k.objs && (k.objs[x].kind == Notification || k.objs[x].kind == Synchronization)
    case Pulse(x) => x in k.objs && (k.objs[x].kind == Notification || k.objs[x].kind == Synchronization)
    case Release(x, count) =>
      x in k.objs && k.objs[x].kind == Semaphore && k.objs[x].limit < 0x8000_0000 &&
      count < 0x8000_0000 && k.objs[x].signal + count < 0x8000_0000
    case Return(x) => x in k.objs && k.objs[x].kind == Mutant
    case Begin(i, w, timeout) =>
      i < |k.threads| && k.threads[i].phase == Running && WaitOk(k.objs, w) && (timeout.At? ==> timeout.ns > 0)
    case Tick => true
    case Switch(i) => i < |k.threads| && k.threads[i].phase == Ready
  }

  /** Ready thread i runs in place of the one that did (native/kernel/ps.c). */
  function SwitchTo(k: Ke, i: nat): (r: Ke)
    requires i < |k.threads|
    ensures |r.threads| == |k.threads| && (Shaped(k) ==> Shaped(r))
  {
    k.(threads := seq(|k.threads|, j requires 0 <= j < |k.threads| =>
      if j == i then k.threads[j].(phase := Running)
      else if k.threads[j].phase == Running then k.threads[j].(phase := Ready)
      else k.threads[j]))
  }

  lemma SwitchKeeps(k: Ke, i: nat)
    requires KeInv(k) && i < |k.threads| && k.threads[i].phase == Ready
    ensures KeInv(SwitchTo(k, i))
  {
    var r := SwitchTo(k, i);
    forall j | 0 <= j < |r.threads| ensures !Starved(r, j) {
      assert !Starved(k, j);
    }
  }

  function Next(k: Ke, op: Op, now: nat): (r: Ke)
    requires Shaped(k) && Allowed(k, op)
    ensures Shaped(r) && |r.threads| == |k.threads|
  {
    match op
    case Signal(x) => SetEvent(k, x, now)
    case Reset(x) => SetSignal(k, x, 0)
    case Pulse(x) => PulseKeeps(k, x, now); SetSignal(SetEvent(k, x, now), x, 0)
    case Release(x, count) => ReleaseSemaphore(k, x, count, now)
    case Return(x) => ReleaseMutant(k, x, now)
    case Begin(i, w, timeout) => WaitFor(k, i, w, timeout)
    case Tick => CheckAll(k, now)
    case Switch(i) => SwitchTo(k, i)
  }

  lemma PulseKeeps(k: Ke, x: nat, now: nat)
    requires Shaped(k) && x in k.objs
    ensures x in SetEvent(k, x, now).objs
  {
  }

  /** A release keeps a semaphore in range exactly while the sum fits 31 bits. */
  lemma ReleaseInRangeExactly(k: Ke, x: nat, count: int)
    requires Shaped(k) && x in k.objs && k.objs[x].kind == Semaphore && InRange(k.objs[x])
    requires k.objs[x].limit < 0x8000_0000 && 0 < count < 0x8000_0000
    ensures var sum := Signed32(k.objs[x].signal + count);
      var after := if sum > k.objs[x].limit then k.objs[x] else k.objs[x].(signal := sum);
      InRange(after) <==> k.objs[x].signal + count < 0x8000_0000
  {
  }

  ghost predicate KeInv(k: Ke) {
    Shaped(k) && AllWaitsOk(k) && AllInRange(k.objs) && Settled(k)
  }

  /** Turning a signal down starves no one. */
  lemma LoweredKeeps(k: Ke, x: nat)
    requires KeInv(k) && x in k.objs && k.objs[x].kind != Semaphore && k.objs[x].kind != Mutant
    ensures KeInv(SetSignal(k, x, 0))
  {
    var r := SetSignal(k, x, 0);
    forall i | 0 <= i < |r.threads| ensures !Starved(r, i) {
      assert !Starved(k, i);
    }
  }

  lemma CheckAllKeeps(k: Ke, now: nat)
    requires Shaped(k) && AllWaitsOk(k) && AllInRange(k.objs)
    ensures KeInv(CheckAll(k, now))
  {
    OnePassSettles(k, now);
    CheckUpToInRange(k, |k.threads|, now);
  }

  lemma WaitForKeeps(k: Ke, i: nat, w: Wait, timeout: Timeout)
    requires KeInv(k) && i < |k.threads| && k.threads[i].phase == Running && WaitOk(k.objs, w)
    ensures KeInv(WaitFor(k, i, w, timeout))
  {
    var t := k.threads[i];
    var idx := Satisfied(k.objs, t.ethread, w);
    var r := WaitFor(k, i, w, timeout);
    if idx >= 0 {
      // as a waiting thread that the pass wakes
      var k' := k.(threads := k.threads[i := t.(phase := Waiting, wait := w)]);
      forall j | 0 <= j < |k.threads| ensures !Starved(r, j) {
        if j != i && k.threads[j].phase == Waiting {
          assert !Starved(k, j);
          TakenSignalsNoOne(k.objs, t.ethread, w, idx, k.threads[j].ethread, k.threads[j].wait);
        }
      }
      CheckOneInRange(k', i, 0);
      assert CheckOne(k', i, 0).objs == r.objs;
    } else {
      forall j | 0 <= j < |k.threads| ensures !Starved(r, j) {
        assert !Starved(k, j);
      }
    }
  }

  lemma PulseKeepsInv(k: Ke, x: nat, now: nat)
    requires KeInv(k) && Allowed(k, Pulse(x))
    ensures KeInv(Next(k, Pulse(x), now))
  {
    CheckAllKeeps(SetSignal(k, x, 1), now);
    KindKept(SetSignal(k, x, 1), |k.threads|, now, x);
    hide KeInv, CheckUpTo;
    LoweredKeeps(SetEvent(k, x, now), x);
  }

  lemma ReleaseKeepsInv(k: Ke, x: nat, count: int, now: nat)
    requires KeInv(k) && Allowed(k, Release(x, count))
    ensures KeInv(Next(k, Release(x, count), now))
  {
    var sum := Signed32(k.objs[x].signal + count);
    if count > 0 && sum <= k.objs[x].limit {
      assert InRange(k.objs[x]);
      CheckAllKeeps(SetSignal(k, x, sum), now);
    }
  }

  lemma ReturnKeepsInv(k: Ke, x: nat, now: nat)
    requires KeInv(k) && Allowed(k, Return(x))
    ensures KeInv(Next(k, Return(x), now))
  {
    var v := k.objs[x].signal + 1;
    var s := SetSignal(k, x, v);
    if v > 0 {
      CheckAllKeeps(s.(objs := s.objs[x := s.objs[x].(owner := 0)]), now);
    } else {
      forall i | 0 <= i < |s.threads| ensures !Starved(s, i) { assert !Starved(k, i); }
    }
  }

  lemma NextKeepsInv(k: Ke, op: Op, now: nat)
    requires KeInv(k) && Allowed(k, op)
    ensures KeInv(Next(k, op, now))
  {
    hide CheckAll;
    match op
    case Signal(x) => CheckAllKeeps(SetSignal(k, x, 1), now);
    case Reset(x) => LoweredKeeps(k, x);
    case Pulse(x) => PulseKeepsInv(k, x, now);
    case Release(x, count) => ReleaseKeepsInv(k, x, count, now);
    case Return(x) => ReturnKeepsInv(k, x, now);
    case Begin(i, w, timeout) => WaitForKeeps(k, i, w, timeout);
    case Tick => CheckAllKeeps(k, now);
    case Switch(i) => SwitchKeeps(k, i);
  }

  lemma {:induction false} KindKept(k: Ke, n: nat, now: nat, x: nat)
    requires Shaped(k) && n <= |k.threads| && x in k.objs
    ensures CheckUpTo(k, n, now).objs[x].kind == k.objs[x].kind
  {
    hide CheckOne;
    if n > 0 {
      KindKept(k, n - 1, now, x);
      KindKeptOne(CheckUpTo(k, n - 1, now), n - 1, now, x);
    }
  }

  lemma KindKeptOne(k: Ke, i: nat, now: nat, x: nat)
    requires Shaped(k) && i < |k.threads| && x in k.objs
    ensures x in CheckOne(k, i, now).objs && CheckOne(k, i, now).objs[x].kind == k.objs[x].kind
  {
    hide Satisfied;
    var t := k.threads[i];
    if t.phase == Waiting && t.wait.all {
      AcquireFirstKind(k.objs, t.ethread, t.wait, |t.wait.objects|, x);
    }
  }

  lemma {:induction false} AcquireFirstKind(objs: map<nat, Obj>, e: nat, w: Wait, n: nat, x: nat)
    requires Known(objs, w) && n <= |w.objects| && x in objs
    ensures AcquireFirst(objs, e, w, n)[x].kind == objs[x].kind
  {
    if n > 0 { AcquireFirstKind(objs, e, w, n - 1, x); }
  }

  // ---- Whole runs ----

  ghost predicate CanRun(k: Ke, ops: seq<(Op, nat)>)
    requires Shaped(k)
    decreases |ops|
  {
    ops == [] || (Allowed(k, ops[0].0) && CanRun(Next(k, ops[0].0, ops[0].1), ops[1..]))
  }

  ghost function Run(k: Ke, ops: seq<(Op, nat)>): (r: Ke)
    requires Shaped(k) && CanRun(k, ops)
    ensures Shaped(r)
    decreases |ops|
  {
    if ops == [] then k else Run(Next(k, ops[0].0, ops[0].1), ops[1..])
  }

  /** Over any run of events, semaphores, mutants, waits, clock ticks and thread switches: between operations no thread
      waits for what it could have, and every semaphore is between 0 and its limit. */
  lemma {:induction false} RunsStaySettled(k: Ke, ops: seq<(Op, nat)>)
    requires KeInv(k) && CanRun(k, ops)
    ensures Settled(Run(k, ops)) && AllInRange(Run(k, ops).objs)
    decreases |ops|
  {
    if ops != [] {
      NextKeepsInv(k, ops[0].0, ops[0].1);
      RunsStaySettled(Next(k, ops[0].0, ops[0].1), ops[1..]);
    }
  }

  lemma CheckOneOthers(k: Ke, i: nat, now: nat)
    requires Shaped(k) && i < |k.threads|
    ensures forall j :: 0 <= j < |k.threads| && j != i ==> CheckOne(k, i, now).threads[j] == k.threads[j]
  {
  }

  // ---- In place ----

  /** The kernel's tables: objects and sections in guest memory, the thread array. */
  class Kernel {
    var objs: map<nat, Obj>
    var sections: map<nat, Section>
    const threads: array<Thread>

    ghost function K(): Ke
      reads this, threads
    {
      Ke(objs, sections, threads[..])
    }

    constructor (ts: seq<Thread>)
      ensures K() == Ke(map[], map[], ts)
    {
      objs, sections := map[], map[];
      threads := new Thread[|ts|](i requires 0 <= i < |ts| => ts[i]);
      new;
      assert threads[..] == ts;
    }

    /** satisfied: a loop over the objects for each form of wait. */
    method SatisfiedBy(e: nat, w: Wait) returns (idx: int)
      requires Known(objs, w)
      ensures idx == Satisfied(objs, e, w)
    {
      if w.all {
        for i := 0 to |w.objects|
          invariant forall j :: 0 <= j < i ==> IsSignaled(objs[w.objects[j]], e)
        {
          if !IsSignaled(objs[w.objects[i]], e) {
            return -1;
          }
        }
        return if w.objects != [] then 0 else -1;
      }
      for i := 0 to |w.objects|
        invariant FirstSignaled(objs, e, w, 0) == FirstSignaled(objs, e, w, i)
      {
        if IsSignaled(objs[w.objects[i]], e) {
          return i;
        }
      }
      return -1;
    }

    /** take. */
    method TakeFor(e: nat, w: Wait, idx: nat)
      requires Known(objs, w) && idx < |w.objects|
      modifies this
      ensures objs == Taken(old(objs), e, w, idx) && sections == TakenSections(old(sections), e, w)
    {
      if w.all {
        for i := 0 to |w.objects|
          invariant Known(objs, w) && objs == AcquireFirst(old(objs), e, w, i) && sections == old(sections)
        {
          objs := objs[w.objects[i] := Acquire(objs[w.objects[i]], e)];
        }
      } else {
        objs := objs[w.objects[idx] := Acquire(objs[w.objects[idx]], e)];
      }
      if w.cs.Some? && w.cs.value in sections {
        sections := sections[w.cs.value := sections[w.cs.value].(owner := e, recursion := 1)];
      }
    }

    /** One thread of the pass. */
    method CheckThread(i: nat, now: nat)
      requires Shaped(K()) && i < threads.Length
      modifies this, threads
      ensures K() == CheckOne(old(K()), i, now)
    {
      var t := threads[i];
      if t.phase != Waiting {
        return;
      }
      assert Known(K().objs, K().threads[i].wait);
      var idx := SatisfiedBy(t.ethread, t.wait);
      if idx >= 0 {
        TakeFor(t.ethread, t.wait, idx);
        threads[i] := t.(phase := Ready, eax := idx);
      } else if t.wait.deadline != 0 && now >= t.wait.deadline {
        threads[i] := t.(phase := Ready, eax := if t.wait.objects != [] then STATUS_TIMEOUT else STATUS_SUCCESS);
      }
    }

    /** nc_ke_check_waits: wakes in one pass every thread that can be, and the earliest deadline left. */
    method CheckWaits(now: nat) returns (earliest: nat)
      requires Shaped(K())
      modifies this, threads
      ensures Shaped(K()) && K() == CheckAll(old(K()), now) && Settled(K())
      ensures earliest != 0 ==> exists i :: 0 <= i < threads.Length && threads[i].phase == Waiting && threads[i].wait.deadline == earliest
      ensures forall i :: 0 <= i < threads.Length && threads[i].phase == Waiting && threads[i].wait.deadline != 0 ==>
                0 < earliest <= threads[i].wait.deadline
    {
      hide CheckOne, Satisfied;
      earliest := 0;
      ghost var k0 := K();
      for i := 0 to threads.Length
        invariant Shaped(K()) && K() == CheckUpTo(k0, i, now)
        invariant earliest != 0 ==> exists j :: 0 <= j < i && threads[j].phase == Waiting && threads[j].wait.deadline == earliest
        invariant forall j :: 0 <= j < i && threads[j].phase == Waiting && threads[j].wait.deadline != 0 ==>
                    0 < earliest <= threads[j].wait.deadline
      {
        ghost var before := K();
        CheckThread(i, now);
        CheckOneOthers(before, i, now);
        if threads[i].phase == Waiting && threads[i].wait.deadline != 0 && (earliest == 0 || threads[i].wait.deadline < earliest) {
          earliest := threads[i].wait.deadline;
        }
      }
      OnePassSettles(k0, now);
    }

    /** set_event and what follows it. */
    method Set(x: nat, now: nat)
      requires Shaped(K()) && x in objs
      modifies this, threads
      ensures K() == SetEvent(old(K()), x, now)
    {
      objs := objs[x := objs[x].(signal := 1)];
      assert K() == SetSignal(old(K()), x, 1);
      var _ := CheckWaits(now);
    }

    method Release(x: nat, count: int, now: nat) returns (ok: bool)
      requires Shaped(K()) && x in objs
      modifies this, threads
      ensures K() == ReleaseSemaphore(old(K()), x, count, now)
      ensures ok <==> count > 0 && Signed32(old(objs)[x].signal + count) <= old(objs)[x].limit
    {
      var sum := Signed32(objs[x].signal + count);
      ok := count > 0 && sum <= objs[x].limit;
      if ok {
        objs := objs[x := objs[x].(signal := sum)];
        assert K() == SetSignal(old(K()), x, sum);
        var _ := CheckWaits(now);
      }
    }

    method Return(x: nat, now: nat)
      requires Shaped(K()) && x in objs
      modifies this, threads
      ensures K() == ReleaseMutant(old(K()), x, now)
    {
      objs := objs[x := objs[x].(signal := objs[x].signal + 1)];
      assert K() == SetSignal(old(K()), x, objs[x].signal);
      if objs[x].signal > 0 {
        objs := objs[x := objs[x].(owner := 0)];
        var _ := CheckWaits(now);
      }
    }

    /** wait. */
    method Wait(i: nat, w: Wait, timeout: Timeout)
      requires Shaped(K()) && i < threads.Length && Known(objs, w)
      modifies this, threads
      ensures K() == WaitFor(old(K()), i, w, timeout)
    {
      var t := threads[i];
      var idx := SatisfiedBy(t.ethread, w);
      if idx >= 0 {
        TakeFor(t.ethread, w, idx);
        threads[i] := t.(eax := idx);
      } else if timeout.Past? || (timeout.Never? && w.objects == []) {
        threads[i] := t.(eax := if timeout.Past? && w.objects != [] then STATUS_TIMEOUT else STATUS_SUCCESS);
      } else {
        threads[i] := t.(phase := Waiting, wait := w.(deadline := if timeout.At? then timeout.ns else 0));
      }
    }
  }
}
