/** Mutants: who holds one, counted from the waits that end with it and the returns.  (native/kernel/ke.c) */
module Mutants {
  import opened Wrappers
  import opened Dispatcher
  import opened Grants
  import opened Holding

  /** ETHREADs are addresses of objects. */
  predicate Named(k: Ke) { forall i :: 0 <= i < |k.threads| ==> k.threads[i].ethread != 0 }

  /** Mutant x says what the threads hold of it: holds[i] times thread i. */
  predicate Accounted(k: Ke, x: nat, holds: seq<nat>) {
    && x in k.objs && k.objs[x].kind == Mutant && |holds| == |k.threads|
    && k.objs[x].signal == 1 - Sum(holds, |holds|)
    && (k.objs[x].owner == 0 <==> Sum(holds, |holds|) == 0)
    && (forall i :: 0 <= i < |holds| && holds[i] > 0 ==> k.objs[x].owner == k.threads[i].ethread)
  }

  predicate OneHolder(holds: seq<nat>) {
    forall i, j :: 0 <= i < |holds| && 0 <= j < |holds| && holds[i] > 0 && holds[j] > 0 ==> i == j
  }

  lemma OnlyOneHolds(k: Ke, x: nat, holds: seq<nat>)
    requires Shaped(k) && Accounted(k, x, holds)
    ensures OneHolder(holds)
  {
    forall i, j | 0 <= i < |holds| && 0 <= j < |holds| && holds[i] > 0 && holds[j] > 0 ensures i == j {
      assert k.threads[i].ethread == k.threads[j].ethread;
    }
  }

  /** init_mutant: free, or held once by the running thread. */
  function Initialized(o: Obj, owned: bool, e: nat): Obj {
    o.(kind := Mutant, signal := if owned then 0 else 1, owner := if owned then e else 0)
  }

  lemma InitializedIsHeld(k: Ke, x: nat, o: Obj, owned: bool, i: nat)
    requires Shaped(k) && Named(k) && i < |k.threads|
    ensures Accounted(k.(objs := k.objs[x := Initialized(o, owned, k.threads[i].ethread)]), x,
              seq(|k.threads|, j requires 0 <= j < |k.threads| => if owned && j == i then 1 else 0))
  {
    var holds := seq(|k.threads|, j requires 0 <= j < |k.threads| => if owned && j == i then 1 else 0);
    if owned { SumOne(holds, i); } else { SumNone(holds, |holds|); }
  }

  // ---- One step ----

  predicate SameThreads(a: seq<Thread>, b: seq<Thread>) {
    |a| == |b| && forall i :: 0 <= i < |a| ==> a[i].ethread == b[i].ethread
  }

  /** x given to thread i is one hold more of its. */
  lemma GivenIsHeld(k: Ke, r: Ke, x: nat, holds: seq<nat>, i: nat)
    requires Shaped(k) && Named(k) && Accounted(k, x, holds) && i < |holds| && SameThreads(k.threads, r.threads)
    requires x in r.objs && GivenTo(k.objs[x], r.objs[x], k.threads[i].ethread)
    ensures Accounted(r, x, holds[i := holds[i] + 1])
  {
    var h := holds[i := holds[i] + 1];
    SumUpdate(holds, i, holds[i] + 1, |holds|);
    assert forall j :: 0 <= j < |h| && j != i ==> h[j] == holds[j];
    if Sum(holds, |holds|) == 0 {
      forall j | 0 <= j < |h| && j != i ensures holds[j] == 0 { SumMember(holds, j, |holds|); }
    } else {
      assert k.objs[x].owner == k.threads[i].ethread;
      forall j | 0 <= j < |h| && j != i ensures holds[j] == 0 { assert k.threads[j].ethread != k.threads[i].ethread; }
    }
  }

  /** One hold less. */
  lemma ReturnedIsHeld(k: Ke, x: nat, holds: seq<nat>, c: nat)
    requires Shaped(k) && Named(k) && Accounted(k, x, holds) && c < |holds| && holds[c] > 0
    ensures Allowed(k, Return(x)) && Accounted(Before(k, Return(x)), x, holds[c := holds[c] - 1])
  {
    SumUpdate(holds, c, holds[c] - 1, |holds|);
    var h := holds[c := holds[c] - 1];
    forall j | 0 <= j < |h| && h[j] > 0 ensures Before(k, Return(x)).objs[x].owner == k.threads[j].ethread {
      SumMember(h, j, |h|);
    }
  }

  // ---- The pass ----

  /** A hold more for each of the first n threads whose waits ended with x. */
  function Awarded(before: seq<Thread>, after: seq<Thread>, x: nat, holds: seq<nat>, n: nat): (r: seq<nat>)
    requires n <= |holds| == |before| == |after|
    ensures |r| == |holds|
  {
    seq(|holds|, i requires 0 <= i < |holds| =>
      if i < n && Ended(before[i], after[i], x) then holds[i] + 1 else holds[i])
  }

  lemma StepAccounts(s: Ke, i: nat, now: nat, x: nat, h: seq<nat>)
    requires Shaped(s) && AllWaitsOk(s) && Named(s) && Accounted(s, x, h) && i < |s.threads|
    ensures var r := CheckOne(s, i, now);
      && SameThreads(s.threads, r.threads) && AllWaitsOk(r)
      && Accounted(r, x, if Ended(s.threads[i], r.threads[i], x) then h[i := h[i] + 1] else h)
  {
    var r := CheckOne(s, i, now);
    assert SameThreads(s.threads, r.threads);
    StepGives(s, i, now, x);
    hide CheckOne, Ended, Accounted, AllWaitsOk;
    if Ended(s.threads[i], r.threads[i], x) {
      GivenIsHeld(s, r, x, h, i);
    } else {
      MutantKept(s, r, x, h);
    }
  }

  lemma MutantKept(k: Ke, r: Ke, x: nat, holds: seq<nat>)
    requires Accounted(k, x, holds) && SameThreads(k.threads, r.threads) && x in r.objs && Gave(k.objs[x], r.objs[x], 0)
    ensures Accounted(r, x, holds)
  {
  }

  lemma {:induction false} PassAccounts(k: Ke, n: nat, now: nat, x: nat, holds: seq<nat>)
    requires Shaped(k) && AllWaitsOk(k) && Named(k) && Accounted(k, x, holds) && n <= |k.threads| == |holds|
    ensures var r := CheckUpTo(k, n, now);
      && SameThreads(k.threads, r.threads) && AllWaitsOk(r) && (forall i :: n <= i < |k.threads| ==> r.threads[i] == k.threads[i])
      && Accounted(r, x, Awarded(k.threads, r.threads, x, holds, n))
  {
    hide CheckOne, AllWaitsOk, Accounted, Ended;
    if n == 0 {
      assert Awarded(k.threads, k.threads, x, holds, 0) == holds;
    } else {
      var s := CheckUpTo(k, n - 1, now);
      var r := CheckOne(s, n - 1, now);
      PassAccounts(k, n - 1, now, x, holds);
      var h := Awarded(k.threads, s.threads, x, holds, n - 1);
      StepAccounts(s, n - 1, now, x, h);
      CheckOneOthers(s, n - 1, now);
      AwardedMore(k.threads, s.threads, r.threads, x, holds, n);
    }
  }

  lemma AwardedMore(k: seq<Thread>, s: seq<Thread>, r: seq<Thread>, x: nat, holds: seq<nat>, n: nat)
    requires 0 < n <= |k| == |s| == |r| == |holds| && s[n - 1] == k[n - 1]
    requires forall j :: 0 <= j < |s| && j != n - 1 ==> r[j] == s[j]
    ensures var h := Awarded(k, s, x, holds, n - 1);
      Awarded(k, r, x, holds, n) == if Ended(s[n - 1], r[n - 1], x) then h[n - 1 := h[n - 1] + 1] else h
  {
    hide Ended;
  }

  // ---- Operations ----

  /** Mutant x is returned by a thread that holds it. */
  predicate Proper(op: Op, caller: nat, x: nat, holds: seq<nat>) {
    op == Return(x) ==> caller < |holds| && holds[caller] > 0
  }

  /** The holds after the operation: a return is one less of its caller's, and each wait that ended with x, or
      begun went on with it, one more. */
  function HoldsAfter(k: Ke, r: Ke, op: Op, caller: nat, x: nat, holds: seq<nat>): (h: seq<nat>)
    requires |holds| == |k.threads| == |r.threads| && Proper(op, caller, x, holds)
    ensures |h| == |holds|
  {
    var h := Awarded(k.threads, r.threads, x, if op == Return(x) then holds[caller := holds[caller] - 1] else holds, |holds|);
    if BeganWith(r, op, x) then h[op.i := h[op.i] + 1] else h
  }

  lemma PassOpAccounts(k: Ke, op: Op, caller: nat, now: nat, x: nat, holds: seq<nat>)
    requires KeInv(k) && Named(k) && Allowed(k, op) && Accounted(k, x, holds) && Proper(op, caller, x, holds) && Passes(k, op)
    ensures var r := CheckAll(Before(k, op), now); var h := if op == Return(x) then holds[caller := holds[caller] - 1] else holds;
      SameThreads(k.threads, r.threads) && Accounted(r, x, Awarded(k.threads, r.threads, x, h, |holds|))
  {
    var h := if op == Return(x) then holds[caller := holds[caller] - 1] else holds;
    hide CheckUpTo, Settled;
    if op == Return(x) { ReturnedIsHeld(k, x, holds, caller); }
    assert Accounted(Before(k, op), x, h);
    PassAccounts(Before(k, op), |holds|, now, x, h);
  }

  lemma BeginAccounts(k: Ke, i: nat, w: Wait, timeout: Timeout, x: nat, holds: seq<nat>)
    requires KeInv(k) && Named(k) && Allowed(k, Begin(i, w, timeout)) && Accounted(k, x, holds)
    ensures var r := WaitFor(k, i, w, timeout); var op := Begin(i, w, timeout);
      && SameThreads(k.threads, r.threads)
      && Accounted(r, x, if BeganWith(r, op, x) then holds[i := holds[i] + 1] else holds)
      && Awarded(k.threads, r.threads, x, holds, |holds|) == holds
  {
    var r := WaitFor(k, i, w, timeout);
    BeginGives(k, i, w, timeout, x);
    hide KeInv, Satisfied, Got;
    if BeganWith(r, Begin(i, w, timeout), x) { GivenIsHeld(k, r, x, holds, i); } else { MutantKept(k, r, x, holds); }
  }

  lemma NoneAwarded(before: seq<Thread>, after: seq<Thread>, x: nat, holds: seq<nat>)
    requires |holds| == |before| == |after|
    requires forall i :: 0 <= i < |before| && before[i].phase == Waiting ==> after[i] == before[i]
    ensures Awarded(before, after, x, holds, |holds|) == holds
  {
  }

  lemma OtherKept(k: Ke, r: Ke, x: nat, holds: seq<nat>)
    requires Accounted(k, x, holds) && SameThreads(k.threads, r.threads) && x in r.objs && r.objs[x] == k.objs[x]
    ensures Accounted(r, x, holds)
  {
  }

  lemma QuietAccounts(k: Ke, op: Op, caller: nat, now: nat, x: nat, holds: seq<nat>)
    requires KeInv(k) && Named(k) && Allowed(k, op) && Accounted(k, x, holds) && Proper(op, caller, x, holds)
    requires !Passes(k, op) && !op.Begin?
    ensures var r := Dispatcher.Next(k, op, now); Named(r) && Accounted(r, x, HoldsAfter(k, r, op, caller, x, holds))
  {
    hide CheckAll, Settled, AllWaitsOk, AllInRange, Got, GivenTo;
    var r := Dispatcher.Next(k, op, now);
    var h := if op == Return(x) then holds[caller := holds[caller] - 1] else holds;
    NextIs(k, op, now);
    NoneAwarded(k.threads, r.threads, x, h);
    if op == Return(x) {
      ReturnedIsHeld(k, x, holds, caller);
    } else {
      OtherKept(k, r, x, holds);
    }
  }

  lemma PulseAccounts(k: Ke, y: nat, caller: nat, now: nat, x: nat, holds: seq<nat>)
    requires KeInv(k) && Named(k) && Allowed(k, Pulse(y)) && Accounted(k, x, holds)
    ensures var op := Pulse(y); var r := Dispatcher.Next(k, op, now); Named(r) && Accounted(r, x, HoldsAfter(k, r, op, caller, x, holds))
  {
    hide CheckAll, Settled, AllWaitsOk, AllInRange, Ended, Got;
    var op := Pulse(y);
    NextIs(k, op, now);
    PassOpAccounts(k, op, caller, now, x, holds);
    OtherKept(CheckAll(Before(k, op), now), Dispatcher.Next(k, op, now), x, Awarded(k.threads, CheckAll(Before(k, op), now).threads, x, holds, |holds|));
  }

  lemma PassedAccounts(k: Ke, op: Op, caller: nat, now: nat, x: nat, holds: seq<nat>)
    requires KeInv(k) && Named(k) && Allowed(k, op) && Accounted(k, x, holds) && Proper(op, caller, x, holds)
    requires Passes(k, op) && !op.Pulse?
    ensures var r := Dispatcher.Next(k, op, now); Named(r) && Accounted(r, x, HoldsAfter(k, r, op, caller, x, holds))
  {
    hide CheckAll, Settled, AllWaitsOk, AllInRange, Accounted, Got, Ended;
    NextIs(k, op, now);
    PassOpAccounts(k, op, caller, now, x, holds);
  }

  lemma BegunAccounts(k: Ke, i: nat, w: Wait, timeout: Timeout, caller: nat, now: nat, x: nat, holds: seq<nat>)
    requires KeInv(k) && Named(k) && Allowed(k, Begin(i, w, timeout)) && Accounted(k, x, holds)
    ensures var op := Begin(i, w, timeout); var r := Dispatcher.Next(k, op, now);
      Named(r) && Accounted(r, x, HoldsAfter(k, r, op, caller, x, holds))
  {
    hide WaitFor, Settled, AllWaitsOk, AllInRange, Accounted, Got;
    BeginAccounts(k, i, w, timeout, x, holds);
  }

  /** Whatever the operation, the mutant says what the threads hold of it after. */
  lemma NextAccounts(k: Ke, op: Op, caller: nat, now: nat, x: nat, holds: seq<nat>)
    requires KeInv(k) && Named(k) && Allowed(k, op) && Accounted(k, x, holds) && Proper(op, caller, x, holds)
    ensures var r := Dispatcher.Next(k, op, now); Named(r) && Accounted(r, x, HoldsAfter(k, r, op, caller, x, holds))
  {
    hide Dispatcher.Next, HoldsAfter, Settled, AllWaitsOk, AllInRange, Named;
    if op.Pulse? {
      PulseAccounts(k, op.x, caller, now, x, holds);
    } else if Passes(k, op) {
      PassedAccounts(k, op, caller, now, x, holds);
    } else if op.Begin? {
      BegunAccounts(k, op.i, op.w, op.timeout, caller, now, x, holds);
    } else {
      QuietAccounts(k, op, caller, now, x, holds);
    }
  }

  // ---- Whole runs ----

  /** Each return of x in the run is by a thread that holds it. */
  ghost predicate Orderly(k: Ke, ops: seq<(Op, nat)>, callers: seq<nat>, x: nat, holds: seq<nat>)
    requires Shaped(k) && CanRun(k, ops) && |callers| == |ops| && |holds| == |k.threads|
    decreases |ops|
  {
    ops == [] || (
      && Proper(ops[0].0, callers[0], x, holds)
      && var r := Dispatcher.Next(k, ops[0].0, ops[0].1);
         Orderly(r, ops[1..], callers[1..], x, HoldsAfter(k, r, ops[0].0, callers[0], x, holds)))
  }

  ghost function HoldsOver(k: Ke, ops: seq<(Op, nat)>, callers: seq<nat>, x: nat, holds: seq<nat>): (h: seq<nat>)
    requires Shaped(k) && CanRun(k, ops) && |callers| == |ops| && |holds| == |k.threads| && Orderly(k, ops, callers, x, holds)
    ensures |h| == |holds|
    decreases |ops|
  {
    if ops == [] then holds
    else
      var r := Dispatcher.Next(k, ops[0].0, ops[0].1);
      HoldsOver(r, ops[1..], callers[1..], x, HoldsAfter(k, r, ops[0].0, callers[0], x, holds))
  }

  /** Over any run in which only holders return mutant x: at most one thread holds it, the mutant names it as its
      owner with its holds as counts below free, and it is free with no owner exactly where no one holds it. */
  lemma {:induction false} MutantsAreSafe(k: Ke, ops: seq<(Op, nat)>, callers: seq<nat>, x: nat, holds: seq<nat>)
    requires KeInv(k) && Named(k) && CanRun(k, ops) && |callers| == |ops|
    requires Accounted(k, x, holds) && Orderly(k, ops, callers, x, holds)
    ensures var r := Run(k, ops); var h := HoldsOver(k, ops, callers, x, holds);
      Accounted(r, x, h) && OneHolder(h)
    decreases |ops|
  {
    hide Dispatcher.Next, HoldsAfter, Settled, AllWaitsOk, AllInRange, Proper;
    if ops == [] {
      OnlyOneHolds(k, x, holds);
    } else {
      var r := Dispatcher.Next(k, ops[0].0, ops[0].1);
      NextKeepsInv(k, ops[0].0, ops[0].1);
      NextAccounts(k, ops[0].0, callers[0], ops[0].1, x, holds);
      MutantsAreSafe(r, ops[1..], callers[1..], x, HoldsAfter(k, r, ops[0].0, callers[0], x, holds));
    }
  }

  // ---- Waits for a mutant ----

  /** Thread i holds x or no thread does. */
  predicate MayHave(holds: seq<nat>, i: nat) { forall j :: 0 <= j < |holds| && j != i ==> holds[j] == 0 }

  /** A wait for a mutant alone goes on at once, with one hold more, exactly where no other thread holds it;
      otherwise nothing is given, and the thread has its time-out's status or waits for its deadline. */
  lemma WaitForMutant(k: Ke, i: nat, timeout: Timeout, x: nat, holds: seq<nat>)
    requires KeInv(k) && Named(k) && Allowed(k, Begin(i, Wait([x], false, 0, None), timeout)) && Accounted(k, x, holds)
    ensures var w := Wait([x], false, 0, None); var r := WaitFor(k, i, w, timeout); var t := r.threads[i];
      if MayHave(holds, i) then
        t.phase == Running && t.eax == STATUS_SUCCESS && Accounted(r, x, holds[i := holds[i] + 1])
      else
        && r.objs == k.objs
        && (if timeout.Past? then t.phase == Running && t.eax == STATUS_TIMEOUT
            else t.phase == Waiting && t.wait == w.(deadline := if timeout.At? then timeout.ns else 0))
  {
    var w := Wait([x], false, 0, None);
    var r := WaitFor(k, i, w, timeout);
    MayHaveIsSignaled(k, i, x, holds);
    assert w.objects == [x];
    assert Satisfied(k.objs, k.threads[i].ethread, w) == if MayHave(holds, i) then 0 else -1 by {
      assert FirstSignaled(k.objs, k.threads[i].ethread, w, 0) ==
             if IsSignaled(k.objs[x], k.threads[i].ethread) then 0 else FirstSignaled(k.objs, k.threads[i].ethread, w, 1);
    }
    BeginAccounts(k, i, w, timeout, x, holds);
  }

  lemma MayHaveIsSignaled(k: Ke, i: nat, x: nat, holds: seq<nat>)
    requires Shaped(k) && Named(k) && Accounted(k, x, holds) && i < |k.threads|
    ensures MayHave(holds, i) <==> IsSignaled(k.objs[x], k.threads[i].ethread)
  {
    if MayHave(holds, i) {
      SumOne(holds, i);
    } else {
      var j :| 0 <= j < |holds| && j != i && holds[j] != 0;
      SumMember(holds, j, |holds|);
      assert k.threads[j].ethread != k.threads[i].ethread;
    }
  }

  /** The last return of a mutant passes it on where any thread waits for it: a thread that does, alone or among
      others, is given what it waits for, or another thread was given the mutant. */
  lemma LastReturnPassesOn(k: Ke, caller: nat, now: nat, x: nat, holds: seq<nat>, i: nat)
    requires KeInv(k) && Named(k) && Accounted(k, x, holds) && caller < |holds| && holds[caller] == 1
    requires i < |k.threads| && k.threads[i].phase == Waiting && !k.threads[i].wait.all && x in k.threads[i].wait.objects
    ensures Allowed(k, Return(x))
    ensures var r := Dispatcher.Next(k, Return(x), now);
      && |r.threads| == |k.threads|
      && (WasGiven(k.threads[i], r.threads[i]) || exists j :: 0 <= j < |k.threads| && Ended(k.threads[j], r.threads[j], x))
  {
    var a := k.threads[i];
    LastHolds(k, caller, x, holds);
    hide CheckAll, WasGiven, WaitMoved, Accounted, Ended, Settled;
    NextIs(k, Return(x), now);
    var r := CheckAll(Before(k, Return(x)), now);
    PassEndsWait(k, Return(x), now, i);
    PassOpAccounts(k, Return(x), caller, now, x, holds);
    if !WasGiven(a, r.threads[i]) {
      var h := Awarded(k.threads, r.threads, x, holds[caller := holds[caller] - 1], |holds|);
      SignaledIsFree(r, i, x, a.wait, h);
      var j :| 0 <= j < |h| && h[j] > 0;
      assert Ended(k.threads[j], r.threads[j], x);
    }
  }

  lemma LastHolds(k: Ke, caller: nat, x: nat, holds: seq<nat>)
    requires Shaped(k) && Accounted(k, x, holds) && caller < |holds| && holds[caller] == 1
    ensures k.objs[x].signal == 0 && Allowed(k, Return(x)) && forall j :: 0 <= j < |holds| && j != caller ==> holds[j] == 0
  {
    OnlyOneHolds(k, x, holds);
    SumOne(holds, caller);
  }

  lemma {:induction false} SumHeld(s: seq<nat>, n: nat)
    requires n <= |s| && Sum(s, n) > 0
    ensures exists i :: 0 <= i < n && s[i] > 0
  {
    if s[n - 1] == 0 { SumHeld(s, n - 1); }
  }

  /** A thread cannot have x among others only where a thread holds x. */
  lemma SignaledIsFree(r: Ke, i: nat, x: nat, w: Wait, h: seq<nat>)
    requires Accounted(r, x, h) && i < |r.threads| && Known(r.objs, w) && !w.all && x in w.objects
    requires Satisfied(r.objs, r.threads[i].ethread, w) < 0
    ensures exists j :: 0 <= j < |h| && h[j] > 0
  {
    var n :| 0 <= n < |w.objects| && w.objects[n] == x;
    assert !IsSignaled(r.objs[w.objects[n]], r.threads[i].ethread);
    SumHeld(h, |h|);
  }

  // ---- A mutant no one holds ----

  /** Held by its owner, or free without one. */
  predicate MutantOk(o: Obj) { (o.signal <= 0 && o.owner != 0) || Free(o) }

  predicate Free(o: Obj) { o.signal == 1 && o.owner == 0 }

  lemma {:induction false} PassKeepsOk(k: Ke, n: nat, now: nat, x: nat)
    requires Shaped(k) && AllWaitsOk(k) && Named(k) && n <= |k.threads|
    requires x in k.objs && k.objs[x].kind == Mutant && MutantOk(k.objs[x])
    ensures var r := CheckUpTo(k, n, now); Named(r) && AllWaitsOk(r) && r.objs[x].kind == Mutant && MutantOk(r.objs[x])
  {
    hide CheckOne, AllWaitsOk;
    if n > 0 {
      PassKeepsOk(k, n - 1, now, x);
      StepKeepsOk(CheckUpTo(k, n - 1, now), n - 1, now, x);
    }
  }

  lemma StepKeepsOk(k: Ke, i: nat, now: nat, x: nat)
    requires Shaped(k) && AllWaitsOk(k) && Named(k) && i < |k.threads|
    requires x in k.objs && k.objs[x].kind == Mutant && MutantOk(k.objs[x])
    ensures var r := CheckOne(k, i, now); Named(r) && AllWaitsOk(r) && r.objs[x].kind == Mutant && MutantOk(r.objs[x])
  {
    StepGives(k, i, now, x);
  }

  /** A pass in which no thread can have what it waits for gives nothing. */
  lemma {:induction false} IdlePass(k: Ke, n: nat, now: nat)
    requires Shaped(k) && Settled(k) && n <= |k.threads|
    ensures var r := CheckUpTo(k, n, now); r.objs == k.objs && forall i :: n <= i < |k.threads| ==> r.threads[i] == k.threads[i]
  {
    hide Satisfied;
    if n > 0 {
      IdlePass(k, n - 1, now);
      assert !Starved(k, n - 1);
    }
  }

  /** The mutant with a signal more, its waits as settled as they were. */
  lemma RaisedSettled(k: Ke, x: nat)
    requires KeInv(k) && Allowed(k, Return(x)) && Free(k.objs[x])
    ensures Settled(Before(k, Return(x)))
  {
    var s := Before(k, Return(x));
    forall i | 0 <= i < |s.threads| ensures !Starved(s, i) {
      assert !Starved(k, i);
      if s.threads[i].phase == Waiting {
        var t := k.threads[i];
        assert forall j :: 0 <= j < |t.wait.objects| ==>
                 (IsSignaled(s.objs[t.wait.objects[j]], t.ethread) <==> IsSignaled(k.objs[t.wait.objects[j]], t.ethread));
      }
    }
  }

  /** Returning a mutant that is free gives it a second unit. */
  lemma ReturnFree(k: Ke, x: nat, now: nat)
    requires KeInv(k) && Allowed(k, Return(x)) && Free(k.objs[x])
    ensures var r := ReleaseMutant(k, x, now);
      && |r.threads| == |k.threads|
      && r.objs == k.objs[x := k.objs[x].(signal := 2)]
      && forall i :: 0 <= i < |k.threads| && k.threads[i].phase != Waiting ==> r.threads[i] == k.threads[i]
  {
    hide CheckUpTo, Settled;
    RaisedSettled(k, x);
    NextIs(k, Return(x), now);
    var s := Before(k, Return(x));
    IdlePass(s, |s.threads|, now);
    PassLeavesOthers(s, |s.threads|, now);
  }

  lemma {:induction false} PassLeavesOthers(k: Ke, n: nat, now: nat)
    requires Shaped(k) && n <= |k.threads|
    ensures var r := CheckUpTo(k, n, now);
      forall i :: 0 <= i < |k.threads| && k.threads[i].phase != Waiting ==> r.threads[i] == k.threads[i]
  {
    hide Satisfied;
    if n > 0 { PassLeavesOthers(k, n - 1, now); }
  }

  /** A return keeps a mutant held by its owner, or free without one, exactly where some thread holds it. */
  lemma ReturnKeepsMutantExactly(k: Ke, x: nat, now: nat)
    requires KeInv(k) && Named(k) && Allowed(k, Return(x)) && MutantOk(k.objs[x])
    ensures MutantOk(ReleaseMutant(k, x, now).objs[x]) <==> k.objs[x].signal <= 0
  {
    hide CheckUpTo;
    if k.objs[x].signal == 1 {
      ReturnFree(k, x, now);
    } else if k.objs[x].signal == 0 {
      NextIs(k, Return(x), now);
      PassKeepsOk(Before(k, Return(x)), |k.threads|, now, x);
    }
  }

  lemma TakenAtOnce(k: Ke, i: nat, x: nat)
    requires Shaped(k) && i < |k.threads| && k.threads[i].phase == Running && x in k.objs && k.objs[x].signal > 0
    ensures var op := Begin(i, Wait([x], false, 0, None), Never);
      && Allowed(k, op)
      && var r := Dispatcher.Next(k, op, 0);
         BeganWith(r, op, x) && r.objs == k.objs[x := Acquire(k.objs[x], k.threads[i].ethread)]
         && r.threads == k.threads[i := k.threads[i].(eax := 0)]
  {
    var w := Wait([x], false, 0, None);
    assert w.objects == [x] && IsSignaled(k.objs[w.objects[0]], k.threads[i].ethread);
    assert FirstSignaled(k.objs, k.threads[i].ethread, w, 0) == 0;
  }

  /** After a return of a free mutant, two threads' waits for it end at once, one after the other. */
  lemma FreeReturnLetsTwoIn(k: Ke, x: nat, now: nat, i: nat, j: nat)
    requires KeInv(k) && Named(k) && Allowed(k, Return(x)) && Free(k.objs[x])
    requires i < |k.threads| && j < |k.threads| && i != j && k.threads[i].phase == Running && k.threads[j].phase == Ready
    ensures var w := Wait([x], false, 0, None);
      var returned := Dispatcher.Next(k, Return(x), now);
      && Allowed(returned, Begin(i, w, Never))
      && var one := Dispatcher.Next(returned, Begin(i, w, Never), now);
      && Allowed(one, Switch(j))
      && var other := Dispatcher.Next(one, Switch(j), now);
      && Allowed(other, Begin(j, w, Never))
      && var two := Dispatcher.Next(other, Begin(j, w, Never), now);
      && BeganWith(one, Begin(i, w, Never), x) && BeganWith(two, Begin(j, w, Never), x)
  {
    hide Settled, AllWaitsOk, AllInRange, CheckAll, Satisfied, Taken;
    ReturnFree(k, x, now);
    var returned := Dispatcher.Next(k, Return(x), now);
    TakenAtOnce(returned, i, x);
    var one := Dispatcher.Next(returned, Begin(i, Wait([x], false, 0, None), Never), now);
    var other := Dispatcher.Next(one, Switch(j), now);
    TakenAtOnce(other, j, x);
  }
}
