/** Reader/writer locks over the dispatcher (native/kernel/ke.c, ERWLOCK): the four words of the lock,
  an event for the writers that wait and a semaphore for the readers that do.
  */
module RwLock {
  import opened Wrappers
  import opened Dispatcher
  import opened Handover
  import opened Holding
  import CriticalSection

  const INT_MAX: int := 0x7FFF_FFFF

  /** LockCount, WritersWaitingCount, ReadersWaitingCount, ReadersEntryCount. */
  datatype Words = Words(count: int, writersWait: int, readersWait: int, entry: int)

  /** The addresses of the lock's event and semaphore. */
  datatype Lock = Lock(event: nat, sem: nat)

  predicate HasLock(k: Ke, l: Lock) { l.event in k.objs && l.sem in k.objs }

  const Free := Words(-1, 0, 0, 0)

  /** ExInitializeReadWriteLock: the objects. */
  function Init(k: Ke, l: Lock): Ke {
    k.(objs := k.objs[l.event := Obj(Synchronization, 0, 0, 0)][l.sem := Obj(Semaphore, 0, INT_MAX, 0)])
  }

  function WaitOn(x: nat): Wait { Wait([x], false, 0, None) }

  /** ExAcquireReadWriteLockExclusive by thread i. */
  function AcquireExclusive(k: Ke, w: Words, l: Lock, i: nat): (r: (Ke, Words))
    requires Shaped(k) && HasLock(k, l) && i < |k.threads|
    ensures Shaped(r.0) && |r.0.threads| == |k.threads|
  {
    var w1 := w.(count := w.count + 1);
    if w1.count != 0 then (WaitFor(k, i, WaitOn(l.event), Never), w1.(writersWait := w1.writersWait + 1))
    else (k, w1)
  }

  /** ExAcquireReadWriteLockShared by thread i. */
  function AcquireShared(k: Ke, w: Words, l: Lock, i: nat): (r: (Ke, Words))
    requires Shaped(k) && HasLock(k, l) && i < |k.threads|
    ensures Shaped(r.0) && |r.0.threads| == |k.threads|
  {
    var mustWait := w.count >= 0 && (w.entry == 0 || w.writersWait != 0);
    var w1 := w.(count := w.count + 1);
    if mustWait then (WaitFor(k, i, WaitOn(l.sem), Never), w1.(readersWait := w1.readersWait + 1))
    else (k, w1.(entry := w1.entry + 1))
  }

  /** ExReleaseReadWriteLock. */
  function ReleaseLock(k: Ke, w: Words, l: Lock, now: nat): (r: (Ke, Words))
    requires Shaped(k) && HasLock(k, l)
    ensures Shaped(r.0) && |r.0.threads| == |k.threads|
  {
    var w1 := w.(count := w.count - 1);
    if w1.count == -1 then (k, w1.(entry := 0))
    else if w1.entry == 0 && w1.readersWait != 0 then
      (ReleaseSemaphore(k, l.sem, w1.readersWait, now), w1.(readersWait := 0, entry := w1.readersWait))
    else
      var w2 := if w1.entry == 0 then w1 else w1.(entry := w1.entry - 1);
      if w1.entry != 0 && w2.entry != 0 then (k, w2)
      else (SetEvent(k, l.event, now), w2.(writersWait := w2.writersWait - 1))
  }

  // ---- Who holds the lock ----

  /** How often each thread has acquired the lock, either way, and not released it. */
  datatype Run = Run(k: Ke, w: Words, shared: seq<nat>, exclusive: seq<nat>)

  predicate Sized(r: Run) { Shaped(r.k) && |r.shared| == |r.exclusive| == |r.k.threads| }

  datatype Step = Exclusive(i: nat) | Shared(i: nat) | Leave(i: nat) | Other(op: Op)

  /** Calls come from the running thread, releases from a holder, and nothing else uses the lock's objects. */
  predicate Allowed(r: Run, l: Lock, a: Step)
    requires Sized(r)
  {
    match a
    case Exclusive(i) => HasLock(r.k, l) && i < |r.k.threads| && r.k.threads[i].phase == Running && r.w.count < INT_MAX
    case Shared(i) => HasLock(r.k, l) && i < |r.k.threads| && r.k.threads[i].phase == Running && r.w.count < INT_MAX
    case Leave(i) =>
      HasLock(r.k, l) && i < |r.k.threads| && r.k.threads[i].phase == Running && (r.exclusive[i] > 0 || r.shared[i] > 0)
    case Other(op) => Dispatcher.Allowed(r.k, op) && Avoids(op, l.event) && Avoids(op, l.sem)
  }

  function Settle(k: Ke, k1: Ke, l: Lock, w: Words, shared: seq<nat>, exclusive: seq<nat>): (r: Run)
    requires |k1.threads| == |k.threads| == |shared| == |exclusive| && Shaped(k1)
    ensures Sized(r)
  {
    Run(k1, w, Woken(k, k1, l.sem, shared), Woken(k, k1, l.event, exclusive))
  }

  function Next(r: Run, l: Lock, a: Step, now: nat): (t: Run)
    requires Sized(r) && Allowed(r, l, a)
    ensures Sized(t)
  {
    match a
    case Exclusive(i) =>
      var (k, w) := AcquireExclusive(r.k, r.w, l, i);
      Run(k, w, r.shared, if k.threads[i].phase == Running then r.exclusive[i := r.exclusive[i] + 1] else r.exclusive)
    case Shared(i) =>
      var (k, w) := AcquireShared(r.k, r.w, l, i);
      Run(k, w, if k.threads[i].phase == Running then r.shared[i := r.shared[i] + 1] else r.shared, r.exclusive)
    case Leave(i) =>
      var (k, w) := ReleaseLock(r.k, r.w, l, now);
      if r.exclusive[i] > 0 then Settle(r.k, k, l, w, r.shared, r.exclusive[i := r.exclusive[i] - 1])
      else Settle(r.k, k, l, w, r.shared[i := r.shared[i] - 1], r.exclusive)
    case Other(op) =>
      CriticalSection.NextLength(r.k, op, now);
      Settle(r.k, Dispatcher.Next(r.k, op, now), l, r.w, r.shared, r.exclusive)
  }

  // ---- The invariant ----

  datatype Tally = Tally(readers: nat, writers: nat, readersWaiting: nat, writersWaiting: nat)

  function TallyOf(r: Run, l: Lock): Tally
    requires Sized(r)
  {
    var n := |r.k.threads|;
    Tally(Sum(r.shared, n), Sum(r.exclusive, n), Waiters(r.k, l.sem, n), Waiters(r.k, l.event, n))
  }

  /** The words count holders and waiters; writers are alone; readers wait while readers read only
      behind a writer; and nobody waits for nobody. */
  predicate Consistent(w: Words, t: Tally) {
    && w == Words(t.readers + t.writers + t.readersWaiting + t.writersWaiting - 1, t.writersWaiting, t.readersWaiting, t.readers)
    && w.count <= INT_MAX
    && (t.writers == 0 || (t.writers == 1 && t.readers == 0))
    && (t.readers == 0 || t.readersWaiting == 0 || t.writersWaiting > 0)
    && (t.readers + t.writers > 0 || (t.readersWaiting == 0 && t.writersWaiting == 0))
  }

  ghost predicate Objects(k: Ke, l: Lock) {
    && KeInv(k) && l.event != l.sem && HasLock(k, l)
    && k.objs[l.event] == Obj(Synchronization, 0, 0, 0) && k.objs[l.sem] == Obj(Semaphore, 0, INT_MAX, 0)
    && Simple(k, l.event, None) && Simple(k, l.sem, None)
  }

  ghost predicate Inv(r: Run, l: Lock) {
    Sized(r) && Objects(r.k, l) && Consistent(r.w, TallyOf(r, l))
  }

  // ---- Each step ----

  /** Waiting for the event or the semaphore of a lock. */
  lemma Blocked(k: Ke, l: Lock, i: nat, x: nat, y: nat)
    requires Objects(k, l) && i < |k.threads| && k.threads[i].phase == Running
    requires (x == l.event && y == l.sem) || (x == l.sem && y == l.event)
    ensures var r := WaitFor(k, i, WaitOn(x), Never);
      && Objects(r, l) && r.threads[i].phase == Waiting
      && Waiters(r, x, |r.threads|) == Waiters(k, x, |k.threads|) + 1 && Waiters(r, y, |r.threads|) == Waiters(k, y, |k.threads|)
  {
    WaitForKeeps(k, i, WaitOn(x), Never);
    assert Shaped(k);
    hide KeInv;
    var e := k.threads[i].ethread;
    assert FirstSignaled(k.objs, e, WaitOn(x), 0) == FirstSignaled(k.objs, e, WaitOn(x), 1) == -1;
    var r := WaitFor(k, i, WaitOn(x), Never);
    assert r == k.(threads := k.threads[i := k.threads[i].(phase := Waiting, wait := WaitOn(x))]);
    WaitersChange(k, r, x, |r.threads|, i);
    WaitersChange(k, r, y, |r.threads|, i);
  }

  lemma ExclusiveKeeps(r: Run, l: Lock, i: nat, now: nat)
    requires Inv(r, l) && Allowed(r, l, Exclusive(i))
    ensures Inv(Next(r, l, Exclusive(i), now), l)
  {
    hide Inv, Next;
    if r.w.count == -1 { ExclusiveFree(r, l, i, now); } else { ExclusiveWaits(r, l, i, now); }
  }

  lemma ExclusiveWaits(r: Run, l: Lock, i: nat, now: nat)
    requires Inv(r, l) && Allowed(r, l, Exclusive(i)) && r.w.count != -1
    ensures Inv(Next(r, l, Exclusive(i), now), l)
  {
    hide Objects, Consistent, WaitFor, Sum, Waiters;
    WriterWaits(r.w, TallyOf(r, l));
    Blocked(r.k, l, i, l.event, l.sem);
    var k := WaitFor(r.k, i, WaitOn(l.event), Never);
    var t := Run(k, r.w.(count := r.w.count + 1, writersWait := r.w.writersWait + 1), r.shared, r.exclusive);
    assert Next(r, l, Exclusive(i), now) == t;
    assert TallyOf(t, l) == TallyOf(r, l).(writersWaiting := TallyOf(r, l).writersWaiting + 1);
  }

  lemma WriterWaits(w: Words, t: Tally)
    requires Consistent(w, t) && w.count != -1 && w.count < INT_MAX
    ensures Consistent(w.(count := w.count + 1, writersWait := w.writersWait + 1), t.(writersWaiting := t.writersWaiting + 1))
  {
  }

  lemma ExclusiveFree(r: Run, l: Lock, i: nat, now: nat)
    requires Inv(r, l) && Allowed(r, l, Exclusive(i)) && r.w.count == -1
    ensures Inv(Next(r, l, Exclusive(i), now), l)
  {
    hide Consistent;
    NobodyThere(r.w, TallyOf(r, l));
    FirstWriter(r, l, i);
    hide Inv;
    assert Next(r, l, Exclusive(i), now) == Run(r.k, Words(0, 0, 0, 0), r.shared, r.exclusive[i := r.exclusive[i] + 1]);
  }

  lemma FirstWriter(r: Run, l: Lock, i: nat)
    requires Inv(r, l) && i < |r.exclusive| && r.w.count == -1
    ensures Inv(Run(r.k, Words(0, 0, 0, 0), r.shared, r.exclusive[i := r.exclusive[i] + 1]), l)
  {
    hide Consistent;
    NobodyThere(r.w, TallyOf(r, l));
    hide Objects, Consistent;
    SumMember(r.exclusive, i, |r.exclusive|);
    SumUpdate(r.exclusive, i, 1, |r.exclusive|);
    hide Sum, Waiters;
    assert r.exclusive[i] == 0;
    assert Sum(r.exclusive[i := 1], |r.exclusive|) == 1;
    var t := Run(r.k, Words(0, 0, 0, 0), r.shared, r.exclusive[i := r.exclusive[i] + 1]);
    assert TallyOf(t, l) == Tally(0, 1, 0, 0);
  }

  /** The holder gone, a waiting writer's turn. */
  lemma OneWriterIn(w: Words, t: Tally)
    requires Consistent(w, t) && t.readers + t.writers == 1 && w.writersWait > 0
    ensures w.writersWait == t.writersWaiting && w.readersWait == t.readersWaiting
    ensures Consistent(Words(w.count - 1, w.writersWait - 1, w.readersWait, 0), Tally(0, 1, t.readersWaiting, t.writersWaiting - 1))
  {
  }

  lemma NobodyThere(w: Words, t: Tally)
    requires Consistent(w, t) && w.count == -1
    ensures w == Words(-1, 0, 0, 0) && t == Tally(0, 0, 0, 0) && Consistent(Words(0, 0, 0, 0), Tally(0, 1, 0, 0))
  {
  }

  lemma SharedKeeps(r: Run, l: Lock, i: nat, now: nat)
    requires Inv(r, l) && Allowed(r, l, Shared(i))
    ensures Inv(Next(r, l, Shared(i), now), l)
  {
    hide Inv, Next;
    if r.w.count >= 0 && (r.w.entry == 0 || r.w.writersWait != 0) { SharedWaits(r, l, i, now); } else { SharedEnters(r, l, i, now); }
  }

  lemma SharedWaits(r: Run, l: Lock, i: nat, now: nat)
    requires Inv(r, l) && Allowed(r, l, Shared(i)) && r.w.count >= 0 && (r.w.entry == 0 || r.w.writersWait != 0)
    ensures Inv(Next(r, l, Shared(i), now), l)
  {
    hide Objects, Consistent, WaitFor, Sum, Waiters;
    ReaderWaits(r.w, TallyOf(r, l));
    Blocked(r.k, l, i, l.sem, l.event);
    var k := WaitFor(r.k, i, WaitOn(l.sem), Never);
    var t := Run(k, r.w.(count := r.w.count + 1, readersWait := r.w.readersWait + 1), r.shared, r.exclusive);
    assert Next(r, l, Shared(i), now) == t;
    assert TallyOf(t, l) == TallyOf(r, l).(readersWaiting := TallyOf(r, l).readersWaiting + 1);
  }

  lemma ReaderWaits(w: Words, t: Tally)
    requires Consistent(w, t) && 0 <= w.count < INT_MAX && (w.entry == 0 || w.writersWait != 0)
    ensures Consistent(w.(count := w.count + 1, readersWait := w.readersWait + 1), t.(readersWaiting := t.readersWaiting + 1))
  {
  }

  lemma SharedEnters(r: Run, l: Lock, i: nat, now: nat)
    requires Inv(r, l) && Allowed(r, l, Shared(i)) && !(r.w.count >= 0 && (r.w.entry == 0 || r.w.writersWait != 0))
    ensures Inv(Next(r, l, Shared(i), now), l)
  {
    hide Objects, Consistent, Sum, Waiters;
    ReaderEnters(r.w, TallyOf(r, l));
    SumUpdate(r.shared, i, r.shared[i] + 1, |r.shared|);
    var t := Run(r.k, r.w.(count := r.w.count + 1, entry := r.w.entry + 1), r.shared[i := r.shared[i] + 1], r.exclusive);
    assert Next(r, l, Shared(i), now) == t;
    assert TallyOf(t, l) == TallyOf(r, l).(readers := TallyOf(r, l).readers + 1);
  }

  lemma ReaderEnters(w: Words, t: Tally)
    requires Consistent(w, t) && w.count < INT_MAX && !(w.count >= 0 && (w.entry == 0 || w.writersWait != 0))
    ensures Consistent(w.(count := w.count + 1, entry := w.entry + 1), t.(readers := t.readers + 1))
  {
  }

  /** The threads that stay waiting waited, and y's are the same. */
  predicate Fewer(k: Ke, r: Ke, x: nat, y: nat) {
    && |r.threads| == |k.threads|
    && (forall i :: 0 <= i < |k.threads| && WaitsOn(r.threads[i], x) ==> WaitsOn(k.threads[i], x))
    && (forall i :: 0 <= i < |k.threads| ==> (WaitsOn(r.threads[i], y) <==> WaitsOn(k.threads[i], y)))
  }

  /** Signaling x once for each of some of its waiters. */
  lemma Serve(k: Ke, l: Lock, x: nat, y: nat, units: nat, now: nat)
    requires Objects(k, l) && ((x == l.event && y == l.sem && units == 1) || (x == l.sem && y == l.event))
    requires units <= Waiters(k, x, |k.threads|) && units <= INT_MAX
    ensures var r := CheckAll(SetSignal(k, x, units), now);
      && Objects(r, l) && Fewer(k, r, x, y)
      && Waiters(r, x, |r.threads|) == Waiters(k, x, |k.threads|) - units
      && Waiters(r, y, |r.threads|) == Waiters(k, y, |k.threads|)
  {
    var k1 := SetSignal(k, x, units);
    ServeReady(k, l, x, units);
    hide KeInv, AllWaitsOk, AllInRange, Signaled, Simple;
    PassBoth(k1, x, y, units, now);
    hide Passed, Undisturbed, CheckUpTo;
    AfterServing(k, l, k1, CheckAll(k1, now), x, y, units);
  }

  /** What a pass does at x and y after x was signaled. */
  lemma PassBoth(k: Ke, x: nat, y: nat, units: nat, now: nat)
    requires Signaled(k, x, units, None) && Quiet(k, y, None) && AllWaitsOk(k) && AllInRange(k.objs)
    ensures var r := CheckAll(k, now);
      KeInv(r) && |r.threads| == |k.threads| && Passed(k, r, x, units, |k.threads|) && Undisturbed(k, r, y)
  {
    var n := |k.threads|;
    CheckAllKeeps(k, now);
    PassServes(k, x, units, None, n, now);
    PassElsewhere(k, y, None, n, now);
  }

  lemma AfterServing(k: Ke, l: Lock, k1: Ke, r: Ke, x: nat, y: nat, units: nat)
    requires Objects(k, l) && ((x == l.event && y == l.sem) || (x == l.sem && y == l.event))
    requires k1 == SetSignal(k, x, units) && KeInv(r) && |r.threads| == |k.threads|
    requires Passed(k1, r, x, units, |k1.threads|) && Undisturbed(k1, r, y) && units <= Waiters(k, x, |k.threads|)
    ensures Objects(r, l) && Fewer(k, r, x, y)
    ensures Waiters(r, x, |r.threads|) == Waiters(k, x, |k.threads|) - units
    ensures Waiters(r, y, |r.threads|) == Waiters(k, y, |k.threads|)
  {
    hide KeInv;
    var n := |k.threads|;
    WaitersSame(k, k1, x, n);
    WaitersAfterPass(k1, r, x, units, n);
    Stayed(k, k1, r, x, y, units);
    ObjectsBack(k, k1, r, x, units);
    hide Simple, Passed;
    WaitersSame(k, r, y, n);
  }

  lemma ObjectsBack(k: Ke, k1: Ke, r: Ke, x: nat, units: nat)
    requires x in k.objs && k.objs[x].signal == 0 && k1 == SetSignal(k, x, units)
    requires Passed(k1, r, x, units, |k1.threads|) && units <= Waiters(k1, x, |k1.threads|)
    ensures r.objs == k.objs
  {
    assert r.objs[x] == k.objs[x];
  }

  lemma ServeReady(k: Ke, l: Lock, x: nat, units: nat)
    requires Objects(k, l) && ((x == l.event && units == 1) || x == l.sem) && units <= INT_MAX
    ensures var k1 := SetSignal(k, x, units);
      Signaled(k1, x, units, None) && AllWaitsOk(k1) && AllInRange(k1.objs)
  {
    var k1 := SetSignal(k, x, units);
    forall i | 0 <= i < |k1.threads| && k1.threads[i].phase == Waiting && x !in k1.threads[i].wait.objects
      ensures !Starved(k1, i)
    {
      assert !Starved(k, i);
    }
  }

  /** Whoever still waits after a pass waited before, and so for the same. */
  lemma Stayed(k: Ke, k1: Ke, r: Ke, x: nat, y: nat, units: nat)
    requires k1.threads == k.threads && Passed(k1, r, x, units, |k1.threads|) && Undisturbed(k1, r, y)
    requires Simple(k, x, None) && Simple(k, y, None) && x != y
    ensures Fewer(k, r, x, y) && Simple(r, x, None) && Simple(r, y, None)
  {
    forall i | 0 <= i < |r.threads| && r.threads[i].phase == Waiting ensures r.threads[i] == k.threads[i] {
    }
    forall i | 0 <= i < |r.threads| && WaitsOn(k.threads[i], y) ensures r.threads[i] == k.threads[i] {
      assert y in k.threads[i].wait.objects && x !in k.threads[i].wait.objects;
    }
  }

  // ---- Releasing ----

  /** A writer lets in every waiting reader. */
  lemma ReadersIn(r: Run, l: Lock, i: nat, now: nat)
    requires Inv(r, l) && Allowed(r, l, Leave(i)) && r.exclusive[i] > 0 && r.w.readersWait > 0
    ensures Inv(Next(r, l, Leave(i), now), l)
  {
    hide Consistent;
    WriterAlone(r, l, i);
    WriterThere(r.w, TallyOf(r, l));
    ObjectsFree(r.k, l);
    hide Objects, Consistent;
    ReleaseToReaders(r.k, r.w, l, now);
    hide ReleaseLock, CheckAll;
    ReadersSettle(r, l, i, now);
  }

  lemma ReleaseToReaders(k: Ke, w: Words, l: Lock, now: nat)
    requires Shaped(k) && HasLock(k, l) && k.objs[l.sem] == Obj(Semaphore, 0, INT_MAX, 0)
    requires w.count > 0 && w.entry == 0 && 0 < w.readersWait <= INT_MAX
    ensures ReleaseLock(k, w, l, now) ==
            (CheckAll(SetSignal(k, l.sem, w.readersWait), now), Words(w.count - 1, w.writersWait, 0, w.readersWait))
  {
    hide CheckAll;
    assert Signed32(w.readersWait) == w.readersWait;
  }

  lemma ReadersSettle(r: Run, l: Lock, i: nat, now: nat)
    requires Inv(r, l) && i < |r.exclusive| && r.exclusive[i] > 0 && r.w.readersWait > 0
    ensures l.sem in r.k.objs
    ensures var k := CheckAll(SetSignal(r.k, l.sem, r.w.readersWait), now);
      Inv(Settle(r.k, k, l, Words(r.w.count - 1, r.w.writersWait, 0, r.w.readersWait), r.shared, r.exclusive[i := r.exclusive[i] - 1]), l)
  {
    hide Consistent, Objects, CheckAll, Woken, Waiters;
    WriterAlone(r, l, i);
    WriterThere(r.w, TallyOf(r, l));
    AllReadersIn(r.w, TallyOf(r, l));
    ObjectsFree(r.k, l);
    var held := r.exclusive[i := 0];
    SumUpdate(r.exclusive, i, 0, |held|);
    hide Sum;
    Serve(r.k, l, l.sem, l.event, r.w.readersWait, now);
    var k := CheckAll(SetSignal(r.k, l.sem, r.w.readersWait), now);
    SumWoken(r.k, k, l.sem, r.shared, |held|);
    SumWoken(r.k, k, l.event, held, |held|);
  }

  /** The writer gone, the waiting readers' turn. */
  lemma AllReadersIn(w: Words, t: Tally)
    requires Consistent(w, t) && t.writers > 0 && t.readersWaiting > 0
    ensures Consistent(Words(w.count - 1, w.writersWait, 0, w.readersWait), Tally(t.readersWaiting, 0, 0, t.writersWaiting))
  {
  }

  lemma ObjectsFree(k: Ke, l: Lock)
    requires Objects(k, l)
    ensures HasLock(k, l) && k.objs[l.event] == Obj(Synchronization, 0, 0, 0) && k.objs[l.sem] == Obj(Semaphore, 0, INT_MAX, 0)
  {
  }

  lemma WriterAlone(r: Run, l: Lock, i: nat)
    requires Inv(r, l) && i < |r.exclusive| && r.exclusive[i] > 0
    ensures r.exclusive[i] == 1 && Sum(r.exclusive, |r.exclusive|) == 1 && r.w.entry == 0
  {
    SumMember(r.exclusive, i, |r.exclusive|);
  }

  /** The last holder lets in one writer. */
  lemma WriterIn(r: Run, l: Lock, shared: seq<nat>, exclusive: seq<nat>, now: nat)
    requires Inv(r, l) && |shared| == |exclusive| == |r.k.threads|
    requires Sum(shared, |shared|) == 0 && Sum(exclusive, |shared|) == 0 && r.w.writersWait > 0
    requires Sum(r.shared, |shared|) + Sum(r.exclusive, |shared|) == 1
    ensures var k := SetEvent(r.k, l.event, now);
      Inv(Settle(r.k, k, l, Words(r.w.count - 1, r.w.writersWait - 1, r.w.readersWait, 0), shared, exclusive), l)
  {
    hide Consistent, Objects, CheckAll, Woken, Sum, Waiters;
    OneWriterIn(r.w, TallyOf(r, l));
    ObjectsFree(r.k, l);
    Serve(r.k, l, l.event, l.sem, 1, now);
    var k := SetEvent(r.k, l.event, now);
    SumWoken(r.k, k, l.sem, shared, |shared|);
    SumWoken(r.k, k, l.event, exclusive, |shared|);
    var t := Settle(r.k, k, l, Words(r.w.count - 1, r.w.writersWait - 1, r.w.readersWait, 0), shared, exclusive);
    assert TallyOf(t, l) == Tally(0, 1, r.w.readersWait, r.w.writersWait - 1);
  }

  lemma WriterLeaves(r: Run, l: Lock, i: nat, now: nat)
    requires Inv(r, l) && Allowed(r, l, Leave(i)) && r.exclusive[i] > 0
    ensures Inv(Next(r, l, Leave(i), now), l)
  {
    hide Consistent;
    WriterAlone(r, l, i);
    WriterThere(r.w, TallyOf(r, l));
    if r.w.readersWait > 0 {
      ReadersIn(r, l, i, now);
    } else {
      var held := r.exclusive[i := 0];
      SumUpdate(r.exclusive, i, 0, |r.exclusive|);
      ReleaseIs(r.k, r.w, l, now);
      if r.w.count == 0 {
        NobodyElse(r.w, TallyOf(r, l));
        LastOut(r, l, r.shared, held);
      } else {
        WriterIn(r, l, r.shared, held, now);
      }
      hide Inv, ReleaseLock, CheckAll;
    }
  }

  lemma WriterThere(w: Words, t: Tally)
    requires Consistent(w, t) && t.writers > 0
    ensures w.entry == t.readers == 0 && t.writers == 1 && w.readersWait >= 0 && w.count >= 0
    ensures w.readersWait == 0 ==> w.writersWait == t.writersWaiting == w.count
    ensures w.readersWait == t.readersWaiting <= INT_MAX && (t.readersWaiting > 0 ==> w.count > 0)
  {
  }

  /** The last holder goes and nobody waits. */
  lemma LastOut(r: Run, l: Lock, shared: seq<nat>, exclusive: seq<nat>)
    requires Inv(r, l) && r.w.count == 0 && |shared| == |exclusive| == |r.k.threads|
    requires Sum(shared, |shared|) == 0 && Sum(exclusive, |shared|) == 0
    ensures Inv(Settle(r.k, r.k, l, Free, shared, exclusive), l)
  {
    hide Consistent;
    NobodyElse(r.w, TallyOf(r, l));
    NothingWoken(r.k, l.sem, shared);
    NothingWoken(r.k, l.event, exclusive);
    hide Objects, Consistent, Woken;
    var t := Run(r.k, Free, shared, exclusive);
    assert TallyOf(t, l) == Tally(0, 0, 0, 0);
  }

  /** What a release is: the last one, a reader's among others, or one that lets a writer in. */
  lemma ReleaseIs(k: Ke, w: Words, l: Lock, now: nat)
    requires Shaped(k) && HasLock(k, l)
    ensures w.count == 0 ==> ReleaseLock(k, w, l, now) == (k, w.(count := -1, entry := 0))
    ensures w.count > 0 && w.entry > 1 ==> ReleaseLock(k, w, l, now) == (k, w.(count := w.count - 1, entry := w.entry - 1))
    ensures w.count > 0 && (w.entry == 1 || (w.entry == 0 && w.readersWait == 0)) ==>
      ReleaseLock(k, w, l, now) == (SetEvent(k, l.event, now), Words(w.count - 1, w.writersWait - 1, w.readersWait, 0))
  {
  }

  lemma NobodyElse(w: Words, t: Tally)
    requires Consistent(w, t) && w.count == 0
    ensures w.(count := -1, entry := 0) == Free && Consistent(Free, Tally(0, 0, 0, 0))
    ensures t.readersWaiting == t.writersWaiting == 0 && t.readers + t.writers == 1 && w.entry == t.readers
  {
    FreeIsConsistent();
    hide Consistent;
    OneHolder(w, t);
  }

  lemma FreeIsConsistent()
    ensures Consistent(Free, Tally(0, 0, 0, 0))
  {
  }

  lemma OneHolder(w: Words, t: Tally)
    requires Consistent(w, t) && w.count == 0
    ensures t.readersWaiting == t.writersWaiting == 0 && t.readers + t.writers == 1
    ensures w.entry == t.readers && w.readersWait == 0 && w.writersWait == 0
  {
    assert t.readers + t.writers + t.readersWaiting + t.writersWaiting == 1;
    if t.readers + t.writers == 0 {
      assert false;
    }
  }

  lemma ReaderLeaves(r: Run, l: Lock, i: nat, now: nat)
    requires Inv(r, l) && Allowed(r, l, Leave(i)) && r.exclusive[i] == 0
    ensures Inv(Next(r, l, Leave(i), now), l)
  {
    hide Consistent;
    var held := r.shared[i := r.shared[i] - 1];
    SumMember(r.shared, i, |held|);
    SumUpdate(r.shared, i, r.shared[i] - 1, |held|);
    EntryIsReaders(r.w, TallyOf(r, l));
    OneReaderLess(r.w, TallyOf(r, l));
    ReleaseIs(r.k, r.w, l, now);
    hide ReleaseLock, CheckAll, Consistent, Objects;
    if r.w.count == 0 {
      NobodyElse(r.w, TallyOf(r, l));
      LastOut(r, l, held, r.exclusive);
    } else if r.w.entry > 1 {
      ReaderOut(r, l, held);
    } else {
      WriterIn(r, l, held, r.exclusive, now);
    }
    hide Inv;
  }

  lemma ReaderOut(r: Run, l: Lock, held: seq<nat>)
    requires Inv(r, l) && |held| == |r.shared| && r.w.entry > 1 && Sum(held, |held|) == r.w.entry - 1
    ensures Inv(Settle(r.k, r.k, l, r.w.(count := r.w.count - 1, entry := r.w.entry - 1), held, r.exclusive), l)
  {
    hide Consistent;
    OneReaderLess(r.w, TallyOf(r, l));
    NothingWoken(r.k, l.sem, held);
    NothingWoken(r.k, l.event, r.exclusive);
    hide Objects, Woken, Consistent;
    var t := Run(r.k, r.w.(count := r.w.count - 1, entry := r.w.entry - 1), held, r.exclusive);
    assert TallyOf(t, l) == TallyOf(r, l).(readers := r.w.entry - 1);
  }

  lemma EntryIsReaders(w: Words, t: Tally)
    requires Consistent(w, t)
    ensures w.entry == t.readers
  {
  }

  /** A reader goes: others stay, or it was alone, or a writer waits. */
  lemma OneReaderLess(w: Words, t: Tally)
    requires Consistent(w, t) && w.entry > 0
    ensures w.entry == t.readers && t.writers == 0 && w.count >= 0
    ensures w.entry > 1 ==> Consistent(w.(count := w.count - 1, entry := w.entry - 1), t.(readers := t.readers - 1)) && w.count > 0
    ensures w.entry == 1 && w.count > 0 ==> w.writersWait > 0
    ensures w.count == 0 ==> w.entry == 1
  {
  }

  lemma OtherKeeps(r: Run, l: Lock, op: Op, now: nat)
    requires Inv(r, l) && Allowed(r, l, Other(op))
    ensures Inv(Next(r, l, Other(op), now), l)
    ensures Next(r, l, Other(op), now) == r.(k := Dispatcher.Next(r.k, op, now))
  {
    NextKeepsInv(r.k, op, now);
    OperationAvoids(r.k, l.event, op, now);
    OperationAvoids(r.k, l.sem, op, now);
    var k := Dispatcher.Next(r.k, op, now);
    hide KeInv, Dispatcher.Next, Simple;
    WaitersSame(r.k, k, l.event, |k.threads|);
    WaitersSame(r.k, k, l.sem, |k.threads|);
    assert Woken(r.k, k, l.sem, r.shared) == r.shared;
    assert Woken(r.k, k, l.event, r.exclusive) == r.exclusive;
  }

  lemma NextKeeps(r: Run, l: Lock, a: Step, now: nat)
    requires Inv(r, l) && Allowed(r, l, a)
    ensures Inv(Next(r, l, a, now), l)
  {
    match a
    case Exclusive(i) => ExclusiveKeeps(r, l, i, now);
    case Shared(i) => SharedKeeps(r, l, i, now);
    case Leave(i) => if r.exclusive[i] > 0 { WriterLeaves(r, l, i, now); } else { ReaderLeaves(r, l, i, now); }
    case Other(op) => OtherKeeps(r, l, op, now);
  }

  // ---- Who is let in ----

  /** After a release: other readers go on; a writer that leaves lets in every reader that waits, or else one writer
      that does; the last reader lets in a writer. */
  function Admitted(t: Tally, writer: bool): Tally {
    if !writer && t.readers > 1 then t.(readers := t.readers - 1)
    else if writer && t.readersWaiting > 0 then Tally(t.readersWaiting, 0, 0, t.writersWaiting)
    else if t.writersWaiting > 0 then Tally(0, 1, t.readersWaiting, t.writersWaiting - 1)
    else Tally(0, 0, 0, 0)
  }

  /** A writer that asks has a free lock, and waits for one that is not. */
  function AfterExclusive(t: Tally): Tally {
    if t.readers + t.writers == 0 then t.(writers := 1) else t.(writersWaiting := t.writersWaiting + 1)
  }

  /** A reader that asks joins readers unless a writer waits, and has a free lock; else it waits. */
  function AfterShared(t: Tally): Tally {
    if t.writers == 0 && (t.readers == 0 || t.writersWaiting == 0) then t.(readers := t.readers + 1)
    else t.(readersWaiting := t.readersWaiting + 1)
  }

  /** The words say it all. */
  lemma TallyIs(w: Words, t: Tally, u: Tally)
    requires Consistent(w, t) && Consistent(w, u)
    ensures t == u
  {
  }

  lemma ExclusiveWords(w: Words, t: Tally)
    requires Consistent(w, t) && w.count < INT_MAX
    ensures w.count == -1 <==> t.readers + t.writers == 0
    ensures Consistent(if w.count == -1 then Words(0, 0, 0, 0) else w.(count := w.count + 1, writersWait := w.writersWait + 1), AfterExclusive(t))
  {
  }

  lemma SharedWords(w: Words, t: Tally)
    requires Consistent(w, t) && w.count < INT_MAX
    ensures var waits := w.count >= 0 && (w.entry == 0 || w.writersWait != 0);
      && (waits <==> !(t.writers == 0 && (t.readers == 0 || t.writersWaiting == 0)))
      && Consistent(if waits then w.(count := w.count + 1, readersWait := w.readersWait + 1)
                    else w.(count := w.count + 1, entry := w.entry + 1), AfterShared(t))
  {
  }

  lemma InvWords(r: Run, l: Lock)
    requires Inv(r, l)
    ensures Consistent(r.w, TallyOf(r, l))
  {
  }

  lemma Entered(k: Ke, l: Lock, i: nat, x: nat)
    requires Objects(k, l) && i < |k.threads| && k.threads[i].phase == Running && (x == l.event || x == l.sem)
    ensures var r := WaitFor(k, i, WaitOn(x), Never); r.threads[i].phase == Waiting && WaitsOn(r.threads[i], x)
  {
    hide KeInv;
    assert FirstSignaled(k.objs, k.threads[i].ethread, WaitOn(x), 0) == FirstSignaled(k.objs, k.threads[i].ethread, WaitOn(x), 1) == -1;
  }

  lemma ExclusiveNext(r: Run, l: Lock, i: nat, now: nat)
    requires Sized(r) && Allowed(r, l, Exclusive(i)) && (r.w.count == -1 ==> r.w == Free)
    ensures var t := Next(r, l, Exclusive(i), now);
      if r.w.count == -1 then t == Run(r.k, Words(0, 0, 0, 0), r.shared, r.exclusive[i := r.exclusive[i] + 1])
      else
        && t.k == WaitFor(r.k, i, WaitOn(l.event), Never) && t.w == r.w.(count := r.w.count + 1, writersWait := r.w.writersWait + 1)
        && t.shared == r.shared && (t.k.threads[i].phase == Waiting ==> t.exclusive == r.exclusive)
  {
    hide WaitFor;
  }

  /** Who asks for the lock for writing has it at once where it is free, and waits otherwise; nobody else's holds
      change. */
  lemma ExclusiveAsks(r: Run, l: Lock, i: nat, now: nat)
    requires Inv(r, l) && Allowed(r, l, Exclusive(i))
    ensures var t := Next(r, l, Exclusive(i), now); var free := TallyOf(r, l).readers + TallyOf(r, l).writers == 0;
      && TallyOf(t, l) == AfterExclusive(TallyOf(r, l)) && t.shared == r.shared
      && t.exclusive == (if free then r.exclusive[i := r.exclusive[i] + 1] else r.exclusive)
      && (free ==> t.k == r.k) && (!free ==> WaitsOn(t.k.threads[i], l.event))
  {
    hide Consistent, WaitFor, TallyOf, AfterExclusive, Next, Objects;
    ExclusiveKeeps(r, l, i, now);
    InvWords(r, l);
    NobodyIsThere(r.w, TallyOf(r, l));
    ExclusiveNext(r, l, i, now);
    ExclusiveWords(r.w, TallyOf(r, l));
    var t := Next(r, l, Exclusive(i), now);
    InvWords(t, l);
    Entered(r.k, l, i, l.event);
    TallyIs(t.w, TallyOf(t, l), AfterExclusive(TallyOf(r, l)));
  }

  lemma NobodyIsThere(w: Words, t: Tally)
    requires Consistent(w, t)
    ensures w.count == -1 ==> w == Free
  {
  }

  lemma SharedNext(r: Run, l: Lock, i: nat, now: nat)
    requires Sized(r) && Allowed(r, l, Shared(i))
    ensures var t := Next(r, l, Shared(i), now);
      if r.w.count >= 0 && (r.w.entry == 0 || r.w.writersWait != 0) then
        && t.k == WaitFor(r.k, i, WaitOn(l.sem), Never) && t.w == r.w.(count := r.w.count + 1, readersWait := r.w.readersWait + 1)
        && t.exclusive == r.exclusive && (t.k.threads[i].phase == Waiting ==> t.shared == r.shared)
      else t == Run(r.k, r.w.(count := r.w.count + 1, entry := r.w.entry + 1), r.shared[i := r.shared[i] + 1], r.exclusive)
  {
    hide WaitFor;
  }

  /** Who asks for it for reading has it at once where AfterShared says, and waits otherwise; nobody else's holds
      change. */
  lemma SharedAsks(r: Run, l: Lock, i: nat, now: nat)
    requires Inv(r, l) && Allowed(r, l, Shared(i))
    ensures var t := Next(r, l, Shared(i), now); var t0 := TallyOf(r, l);
      var enters := t0.writers == 0 && (t0.readers == 0 || t0.writersWaiting == 0);
      && TallyOf(t, l) == AfterShared(t0) && t.exclusive == r.exclusive
      && t.shared == (if enters then r.shared[i := r.shared[i] + 1] else r.shared)
      && (enters ==> t.k == r.k) && (!enters ==> WaitsOn(t.k.threads[i], l.sem))
  {
    hide Consistent, WaitFor, TallyOf, AfterShared, Next, Objects;
    SharedKeeps(r, l, i, now);
    InvWords(r, l);
    SharedNext(r, l, i, now);
    SharedWords(r.w, TallyOf(r, l));
    var t := Next(r, l, Shared(i), now);
    InvWords(t, l);
    Entered(r.k, l, i, l.sem);
    TallyIs(t.w, TallyOf(t, l), AfterShared(TallyOf(r, l)));
  }

  /** The words a release leaves. */
  lemma ReleaseWords(k: Ke, w: Words, l: Lock, t: Tally, writer: bool, now: nat)
    requires Shaped(k) && HasLock(k, l) && Consistent(w, t) && (if writer then t.writers > 0 else t.readers > 0)
    ensures Consistent(ReleaseLock(k, w, l, now).1, Admitted(t, writer))
  {
    hide CheckAll;
  }

  /** A release takes one hold from its caller and lets in who is next. */
  lemma LeaveAdmits(r: Run, l: Lock, i: nat, now: nat)
    requires Inv(r, l) && Allowed(r, l, Leave(i))
    ensures var t := Next(r, l, Leave(i), now); var writer := r.exclusive[i] > 0;
      && TallyOf(t, l) == Admitted(TallyOf(r, l), writer)
      && (if writer then t.exclusive[i] == 0 else t.shared[i] == r.shared[i] - 1)
      && forall j :: 0 <= j < |t.shared| && j != i ==>
           && t.shared[j] == r.shared[j] + (if WaitsOn(r.k.threads[j], l.sem) && !WaitsOn(t.k.threads[j], l.sem) then 1 else 0)
           && t.exclusive[j] == r.exclusive[j] + (if WaitsOn(r.k.threads[j], l.event) && !WaitsOn(t.k.threads[j], l.event) then 1 else 0)
  {
    var writer := r.exclusive[i] > 0;
    if writer { WriterLeaves(r, l, i, now); WriterAlone(r, l, i); } else { ReaderLeaves(r, l, i, now); }
    var t := Next(r, l, Leave(i), now);
    InvWords(r, l);
    InvWords(t, l);
    HolderThere(r, l, i);
    hide Inv, Consistent, ReleaseLock, Admitted;
    ReleaseWords(r.k, r.w, l, TallyOf(r, l), writer, now);
    TallyIs(t.w, TallyOf(t, l), Admitted(TallyOf(r, l), writer));
  }

  lemma HolderThere(r: Run, l: Lock, i: nat)
    requires Sized(r) && i < |r.exclusive|
    ensures r.exclusive[i] > 0 ==> TallyOf(r, l).writers > 0
    ensures r.shared[i] > 0 ==> TallyOf(r, l).readers > 0
  {
    SumMember(r.exclusive, i, |r.exclusive|);
    SumMember(r.shared, i, |r.shared|);
  }

  // ---- Whole runs ----

  ghost predicate CanRun(r: Run, l: Lock, steps: seq<(Step, nat)>)
    requires Sized(r)
    decreases |steps|
  {
    steps == [] || (Allowed(r, l, steps[0].0) && CanRun(Next(r, l, steps[0].0, steps[0].1), l, steps[1..]))
  }

  ghost function Execute(r: Run, l: Lock, steps: seq<(Step, nat)>): (t: Run)
    requires Sized(r) && CanRun(r, l, steps)
    ensures Sized(t)
    decreases |steps|
  {
    if steps == [] then r else Execute(Next(r, l, steps[0].0, steps[0].1), l, steps[1..])
  }

  /** A run is its steps, one after the other. */
  lemma {:induction false} ExecuteGoesOn(r: Run, l: Lock, steps: seq<(Step, nat)>, a: (Step, nat))
    requires Sized(r) && CanRun(r, l, steps + [a])
    ensures CanRun(r, l, steps) && Allowed(Execute(r, l, steps), l, a.0)
    ensures Execute(r, l, steps + [a]) == Next(Execute(r, l, steps), l, a.0, a.1)
    decreases |steps|
  {
    hide Next, Allowed;
    if steps == [] {
      assert ([] + [a])[1..] == [];
    } else {
      assert (steps + [a])[1..] == steps[1..] + [a];
      ExecuteGoesOn(Next(r, l, steps[0].0, steps[0].1), l, steps[1..], a);
    }
  }

  lemma {:induction false} ExecuteKeeps(r: Run, l: Lock, steps: seq<(Step, nat)>)
    requires Inv(r, l) && CanRun(r, l, steps)
    ensures Inv(Execute(r, l, steps), l)
    decreases |steps|
  {
    if steps != [] {
      NextKeeps(r, l, steps[0].0, steps[0].1);
      ExecuteKeeps(Next(r, l, steps[0].0, steps[0].1), l, steps[1..]);
    }
  }

  function Start(k: Ke, l: Lock): Run {
    Run(Init(k, l), Free, seq(|k.threads|, _ => 0), seq(|k.threads|, _ => 0))
  }

  lemma StartInv(k: Ke, l: Lock)
    requires CriticalSection.Fresh(k) && l.event != l.sem
    ensures Sized(Start(k, l)) && Inv(Start(k, l), l)
  {
    var r := Start(k, l);
    CriticalSection.NobodyWaits(r.k, l.event, |k.threads|);
    CriticalSection.NobodyWaits(r.k, l.sem, |k.threads|);
    SumNone(seq(|k.threads|, _ => 0), |k.threads|);
  }

  /** A thread with the lock for writing has it once, and no other thread has it. */
  predicate WriterIsAlone(r: Run)
    requires Sized(r)
  {
    forall i, j :: 0 <= i < |r.exclusive| && 0 <= j < |r.exclusive| && r.exclusive[i] > 0 ==>
      r.exclusive[i] == 1 && r.shared[j] == 0 && (j != i ==> r.exclusive[j] == 0)
  }

  /** Over all runs of shared and exclusive acquires and releases by holders, among any other dispatcher
      operations: a thread with the lock for writing is the only holder, and holds it once; LockCount + 1
      counts holders and waiters; no count is negative; readers wait while others read only behind a
      waiting writer; and while threads wait, one holds the lock. */
  lemma LocksAreSafe(k: Ke, l: Lock, steps: seq<(Step, nat)>)
    requires CriticalSection.Fresh(k) && l.event != l.sem && Sized(Start(k, l)) && CanRun(Start(k, l), l, steps)
    ensures var r := Execute(Start(k, l), l, steps);
      WriterIsAlone(r) && Consistent(r.w, TallyOf(r, l))
  {
    StartInv(k, l);
    ExecuteKeeps(Start(k, l), l, steps);
    hide Execute, CanRun, CriticalSection.Fresh, Start, Objects, Waiters, Sum;
    var r := Execute(Start(k, l), l, steps);
    WritersAlone(r, l);
    hide WriterIsAlone, Consistent;
  }

  lemma WritersAlone(r: Run, l: Lock)
    requires Inv(r, l)
    ensures WriterIsAlone(r)
  {
    hide Objects;
    var n := |r.k.threads|;
    forall i, j | 0 <= i < n && 0 <= j < n && r.exclusive[i] > 0
      ensures r.exclusive[i] == 1 && r.shared[j] == 0 && (j != i ==> r.exclusive[j] == 0)
    {
      WriterAlone(r, l, i);
      SumMember(r.shared, j, n);
      if j != i { SumPair(r.exclusive, i, j); }
    }
  }

  // ---- In place ----

  /** ERWLOCK. */
  class Erwlock {
    var count: int
    var writersWait: int
    var readersWait: int
    var entry: int
    const objects: Lock

    ghost function W(): Words
      reads this
    {
      Words(count, writersWait, readersWait, entry)
    }

    constructor (k: Kernel, l: Lock)
      modifies k
      ensures W() == Free && objects == l && k.K() == Init(old(k.K()), l)
    {
      count, writersWait, readersWait, entry := -1, 0, 0, 0;
      objects := l;
      k.objs := k.objs[l.event := Obj(Synchronization, 0, 0, 0)][l.sem := Obj(Semaphore, 0, INT_MAX, 0)];
    }

    method TakeExclusive(k: Kernel, i: nat)
      requires Shaped(k.K()) && HasLock(k.K(), objects) && i < k.threads.Length
      modifies this, k, k.threads
      ensures (k.K(), W()) == AcquireExclusive(old(k.K()), old(W()), objects, i)
    {
      count := count + 1;
      if count != 0 {
        writersWait := writersWait + 1;
        k.Wait(i, WaitOn(objects.event), Never);
      }
    }

    method TakeShared(k: Kernel, i: nat)
      requires Shaped(k.K()) && HasLock(k.K(), objects) && i < k.threads.Length
      modifies this, k, k.threads
      ensures (k.K(), W()) == AcquireShared(old(k.K()), old(W()), objects, i)
    {
      var mustWait := count >= 0 && (entry == 0 || writersWait != 0);
      count := count + 1;
      if mustWait {
        readersWait := readersWait + 1;
        k.Wait(i, WaitOn(objects.sem), Never);
      } else {
        entry := entry + 1;
      }
    }

    method Drop(k: Kernel, now: nat)
      requires Shaped(k.K()) && HasLock(k.K(), objects)
      modifies this, k, k.threads
      ensures (k.K(), W()) == ReleaseLock(old(k.K()), old(W()), objects, now)
    {
      count := count - 1;
      if count == -1 {
        entry := 0;
        return;
      }
      if entry == 0 {
        if readersWait != 0 {
          var readers := readersWait;
          readersWait, entry := 0, readers;
          var _ := k.Release(objects.sem, readers, now);
          return;
        }
      } else {
        entry := entry - 1;
        if entry != 0 {
          return;
        }
      }
      writersWait := writersWait - 1;
      k.Set(objects.event, now);
    }
  }
}
