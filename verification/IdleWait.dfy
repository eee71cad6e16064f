/** The idle wake-up protocol between device threads and the guest CPU (native/core/irq.c).

  Every atomic access of the C code is one step here, and the steps of all threads interleave
  in any order (sequentially consistent).  The two loads of `nc_irq_lines` are unordered in C,
  so each side may do them in either order.
  */
module IdleWait {
  import opened Wrappers

  const LINES: nat := 16

  /** Where a device thread is inside nc_irq_set, nc_irq_enable, nc_irq_post_work or wake_idle. */
  datatype DevicePc =
    | Idle
    | SetLook(line: nat)                                         // loads g_lines: already up?
    | SetRaise(line: nat)                                        // fetch_or of g_lines
    | SetMask(line: nat)                                         // loads g_enabled
    | SetLower(line: nat)                                        // fetch_and of g_lines
    | EnableOn(line: nat)                                        // fetch_or of g_enabled
    | EnableCheck(line: nat, up: Option<bool>, on: Option<bool>) // nc_irq_lines, a load at a time
    | EnableOff(line: nat)                                       // fetch_and of g_enabled
    | PostStore                                                  // g_work = 1
    | WakeLook                                                   // loads g_nc_idle_waiting
    | WakeLock                                                   // waits for g_mu
    | WakeSignal                                                 // holds g_mu, before the broadcast
    | WakeUnlock                                                 // holds g_mu, after the broadcast

  /** Where the guest CPU's thread is around nc_irq_idle_wait. */
  datatype CpuPc =
    | Running
    | TakeLock                                                   // the flag is up
    | Check(lines: Option<set<nat>>, mask: Option<set<nat>>)     // nc_irq_lines, a load at a time
    | CheckWork                                                  // no line: loads g_work
    | Wait                                                       // about to call cond_timedwait
    | Asleep                                                     // in cond_timedwait, g_mu released
    | Relock(timedOut: bool)                                     // woken, waits for g_mu
    | Unlock
    | ClearFlag

  datatype Owner = Free | Cpu | Device(id: nat)

  datatype State = State(
    lines: set<nat>,            // g_lines
    enabled: set<nat>,          // g_enabled
    work: bool,                 // g_work
    waiting: bool,              // g_nc_idle_waiting
    mutex: Owner,               // g_mu
    cpu: CpuPc,
    devices: map<nat, DevicePc>)

  /** One scheduling choice.  `Load` picks which of two unordered loads comes first. */
  datatype Action =
    | Call(id: nat, entry: DevicePc)      // a device thread enters one of the functions
    | Advance(id: nat, linesFirst: bool)  // a device thread's next atomic step
    | CpuIdle                             // the CPU enters nc_irq_idle_wait
    | CpuAdvance(linesFirst: bool)        // the CPU's next atomic step
    | CpuWake(timedOut: bool)             // cond_timedwait returns by itself: time out, or spuriously
    | CpuTakeWork                         // nc_irq_take_work, outside the wait

  predicate IsEntry(pc: DevicePc) {
    match pc
    case SetLook(i) => i < LINES
    case SetLower(i) => i < LINES
    case EnableOn(i) => i < LINES
    case EnableOff(i) => i < LINES
    case PostStore => true
    case _ => false
  }

  function Start(ids: set<nat>): State {
    State({}, {}, false, false, Free, Running, map id | id in ids :: Idle)
  }

  predicate Enabled(s: State, a: Action) {
    match a
    case Call(id, entry) => id in s.devices && s.devices[id] == Idle && IsEntry(entry)
    case Advance(id, _) => id in s.devices && s.devices[id] != Idle &&
                           (s.devices[id] == WakeLock ==> s.mutex == Free)
    case CpuIdle => s.cpu == Running
    case CpuAdvance(_) => !s.cpu.Running? && !s.cpu.Asleep? &&
                          (s.cpu.TakeLock? || s.cpu.Relock? ==> s.mutex == Free)
    case CpuWake(_) => s.cpu == Asleep
    case CpuTakeWork => s.cpu == Running
  }

  function Goto(s: State, id: nat, pc: DevicePc): State {
    s.(devices := s.devices[id := pc])
  }

  /** Both loads of nc_irq_enable's check done: wake_idle if the line is up and unmasked. */
  function EnableVerdict(i: nat, up: Option<bool>, on: Option<bool>): DevicePc {
    if up.None? || on.None? then EnableCheck(i, up, on)
    else if up.value && on.value then WakeLook else Idle
  }

  function DeviceStep(s: State, id: nat, linesFirst: bool): State
    requires id in s.devices
  {
    match s.devices[id]
    case Idle => s
    case SetLook(i) => Goto(s, id, if i in s.lines then Idle else SetRaise(i))
    case SetRaise(i) => Goto(s.(lines := s.lines + {i}), id, if i in s.lines then Idle else SetMask(i))
    case SetMask(i) => Goto(s, id, if i in s.enabled then WakeLook else Idle)
    case SetLower(i) => Goto(s.(lines := s.lines - {i}), id, Idle)
    case EnableOn(i) => Goto(s.(enabled := s.enabled + {i}), id, EnableCheck(i, None, None))
    case EnableCheck(i, up, on) =>
      if up.None? && (linesFirst || on.Some?)
      then Goto(s, id, EnableVerdict(i, Some(i in s.lines), on))
      else Goto(s, id, EnableVerdict(i, up, Some(i in s.enabled)))
    case EnableOff(i) => Goto(s.(enabled := s.enabled - {i}), id, Idle)
    case PostStore => Goto(s.(work := true), id, WakeLook)
    case WakeLook => Goto(s, id, if s.waiting then WakeLock else Idle)
    case WakeLock => Goto(s.(mutex := Device(id)), id, WakeSignal)
    case WakeSignal => Goto(s.(cpu := if s.cpu.Asleep? then Relock(false) else s.cpu), id, WakeUnlock)
    case WakeUnlock => Goto(s.(mutex := Free), id, Idle)
  }

  /** Both loads of the wait loop's condition done: out if a line is pending, else on to g_work. */
  function CpuVerdict(lines: Option<set<nat>>, mask: Option<set<nat>>): CpuPc {
    if lines.None? || mask.None? then Check(lines, mask)
    else if lines.value * mask.value != {} then Unlock else CheckWork
  }

  function CpuStep(s: State, linesFirst: bool): State {
    match s.cpu
    case Running => s
    case TakeLock => s.(mutex := Cpu, cpu := Check(None, None))
    case Check(lines, mask) =>
      if lines.None? && (linesFirst || mask.Some?)
      then s.(cpu := CpuVerdict(Some(s.lines), mask))
      else s.(cpu := CpuVerdict(lines, Some(s.enabled)))
    case CheckWork => s.(cpu := if s.work then Unlock else Wait)
    case Wait => s.(mutex := Free, cpu := Asleep)
    case Asleep => s
    case Relock(timedOut) => s.(mutex := Cpu, cpu := if timedOut then Unlock else Check(None, None))
    case Unlock => s.(mutex := Free, cpu := ClearFlag)
    case ClearFlag => s.(waiting := false, cpu := Running)
  }

  function Next(s: State, a: Action): State
    requires Enabled(s, a)
  {
    match a
    case Call(id, entry) => Goto(s, id, entry)
    case Advance(id, linesFirst) => DeviceStep(s, id, linesFirst)
    case CpuIdle => s.(waiting := true, cpu := TakeLock)
    case CpuAdvance(linesFirst) => CpuStep(s, linesFirst)
    case CpuWake(timedOut) => s.(cpu := Relock(timedOut))
    case CpuTakeWork => s.(work := false)
  }

  /** `run` can be executed from `s`. */
  predicate CanRun(s: State, run: seq<Action>)
    decreases |run|
  {
    run == [] || (Enabled(s, run[0]) && CanRun(Next(s, run[0]), run[1..]))
  }

  function Run(s: State, run: seq<Action>): State
    requires CanRun(s, run)
    decreases |run|
  {
    if run == [] then s else Run(Next(s, run[0]), run[1..])
  }

  // ---- The property ----

  predicate Pending(s: State, i: nat) { i in s.lines && i in s.enabled }

  /** Something the sleeping CPU has to be woken for. */
  predicate HasCause(s: State) { s.work || s.lines * s.enabled != {} }

  /** The thread is on its way to the broadcast, whatever line it is for. */
  predicate WillWake(pc: DevicePc) { pc.WakeLook? || pc.WakeLock? || pc.WakeSignal? }

  /** The thread's broadcast for line `i` is still ahead of it. */
  predicate WillWakeFor(pc: DevicePc, i: nat) {
    || WillWake(pc)
    || pc == SetMask(i)
    || (pc.EnableCheck? && pc.line == i && pc.up != Some(false) && pc.on != Some(false))
  }

  ghost predicate SomeoneWakesFor(s: State, i: nat) {
    exists id :: id in s.devices && WillWakeFor(s.devices[id], i)
  }

  ghost predicate SomeoneWakes(s: State) {
    exists id :: id in s.devices && WillWake(s.devices[id])
  }

  /** No lost wake-up: asleep with a cause, some thread's broadcast is still ahead of it. */
  ghost predicate NoLostWakeup(s: State) {
    s.cpu == Asleep ==>
      && (s.work ==> SomeoneWakes(s))
      && (forall i :: Pending(s, i) ==> SomeoneWakesFor(s, i))
  }

  // ---- The invariant ----

  /** The CPU's checks of this round can no longer see line `i`. */
  predicate Missed(cpu: CpuPc, i: nat) {
    match cpu
    case Check(lines, mask) => (lines.Some? && i !in lines.value) || (mask.Some? && i !in mask.value)
    case CheckWork => true
    case Wait => true
    case Asleep => true
    case _ => false
  }

  predicate HoldsMutex(s: State, id: nat) {
    id in s.devices && (s.devices[id].WakeSignal? || s.devices[id].WakeUnlock?)
  }

  /** g_mu has one holder: the thread whose place in the code says so. */
  ghost predicate MutexInv(s: State) {
    && (s.mutex == Cpu <==> s.cpu.Check? || s.cpu.CheckWork? || s.cpu.Wait? || s.cpu.Unlock?)
    && (forall id :: HoldsMutex(s, id) <==> s.mutex == Device(id))
  }

  ghost predicate Inv(s: State) {
    && (forall i :: Pending(s, i) && Missed(s.cpu, i) ==> SomeoneWakesFor(s, i))
    && (s.work && (s.cpu.Wait? || s.cpu.Asleep?) ==> SomeoneWakes(s))
    && (s.waiting <==> !s.cpu.Running?)
    && MutexInv(s)
    && (s.cpu.Check? ==> s.cpu.lines.None? || s.cpu.mask.None?)
    && (forall id :: id in s.devices && s.devices[id].EnableCheck? ==>
          s.devices[id].up.None? || s.devices[id].on.None?)
  }

  /** The thread's own step keeps its promise to wake for `i` until the broadcast, or `i` is not missed. */
  lemma StepKeepsPromise(s: State, id: nat, linesFirst: bool, i: nat)
    requires Inv(s) && Enabled(s, Advance(id, linesFirst))
    requires WillWakeFor(s.devices[id], i)
    requires Pending(DeviceStep(s, id, linesFirst), i) && Missed(DeviceStep(s, id, linesFirst).cpu, i)
    ensures WillWakeFor(DeviceStep(s, id, linesFirst).devices[id], i)
  {
    assert HoldsMutex(s, id) <==> s.mutex == Device(id);
  }

  lemma StepKeepsLineWakers(s: State, id: nat, linesFirst: bool)
    requires Inv(s) && Enabled(s, Advance(id, linesFirst))
    ensures var t := DeviceStep(s, id, linesFirst);
            forall i :: Pending(t, i) && Missed(t.cpu, i) ==> SomeoneWakesFor(t, i)
  {
    var t := DeviceStep(s, id, linesFirst);
    forall i | Pending(t, i) && Missed(t.cpu, i) ensures SomeoneWakesFor(t, i) {
      if Pending(s, i) {
        assert Missed(s.cpu, i);
        assert SomeoneWakesFor(s, i);
        var w :| w in s.devices && WillWakeFor(s.devices[w], i);
        if w == id {
          StepKeepsPromise(s, id, linesFirst, i);
        } else {
          assert t.devices[w] == s.devices[w];
        }
      } else {
        assert WillWakeFor(t.devices[id], i);
      }
    }
  }

  lemma StepKeepsWorkWakers(s: State, id: nat, linesFirst: bool)
    requires Inv(s) && Enabled(s, Advance(id, linesFirst))
    ensures var t := DeviceStep(s, id, linesFirst);
            t.work && (t.cpu.Wait? || t.cpu.Asleep?) ==> SomeoneWakes(t)
  {
    var t := DeviceStep(s, id, linesFirst);
    if t.work && (t.cpu.Wait? || t.cpu.Asleep?) {
      if s.work {
        var w :| w in s.devices && WillWake(s.devices[w]);
        assert HoldsMutex(s, id) <==> s.mutex == Device(id);
        assert w != id ==> t.devices[w] == s.devices[w];
        assert w == id ==> WillWake(t.devices[id]);
      } else {
        assert WillWake(t.devices[id]);
      }
    }
  }

  lemma StepKeepsMutex(s: State, id: nat, linesFirst: bool)
    requires MutexInv(s) && Enabled(s, Advance(id, linesFirst))
    ensures MutexInv(DeviceStep(s, id, linesFirst))
  {
    var t := DeviceStep(s, id, linesFirst);
    assert HoldsMutex(s, id) <==> s.mutex == Device(id);
    forall x ensures HoldsMutex(t, x) <==> t.mutex == Device(x) {
      assert HoldsMutex(s, x) <==> s.mutex == Device(x);
    }
  }

  lemma DeviceStepKeepsInv(s: State, id: nat, linesFirst: bool)
    requires Inv(s) && Enabled(s, Advance(id, linesFirst))
    ensures Inv(DeviceStep(s, id, linesFirst))
  {
    hide SomeoneWakesFor, SomeoneWakes, Pending, Missed, MutexInv;
    StepKeepsLineWakers(s, id, linesFirst);
    StepKeepsWorkWakers(s, id, linesFirst);
    StepKeepsMutex(s, id, linesFirst);
    var t := DeviceStep(s, id, linesFirst);
    forall x | x in t.devices && t.devices[x].EnableCheck?
      ensures t.devices[x].up.None? || t.devices[x].on.None?
    {
      assert x != id ==> t.devices[x] == s.devices[x];
    }
  }

  lemma CpuStepKeepsInv(s: State, linesFirst: bool)
    requires Inv(s) && Enabled(s, CpuAdvance(linesFirst))
    ensures Inv(CpuStep(s, linesFirst))
  {
    var t := CpuStep(s, linesFirst);
    assert t.devices == s.devices;
    forall x ensures HoldsMutex(t, x) <==> t.mutex == Device(x) {
      assert HoldsMutex(s, x) <==> s.mutex == Device(x);
    }
    forall i | Pending(t, i) && Missed(t.cpu, i) ensures SomeoneWakesFor(t, i) {
      assert Pending(s, i);
      if s.cpu.Check? && t.cpu == CheckWork {
        var l := if s.cpu.lines.None? then s.lines else s.cpu.lines.value;
        var m := if s.cpu.mask.None? then s.enabled else s.cpu.mask.value;
        assert i !in l * m;
      }
      assert Missed(s.cpu, i);
      assert SomeoneWakesFor(s, i);
    }
  }

  lemma NextKeepsInv(s: State, a: Action)
    requires Inv(s) && Enabled(s, a)
    ensures Inv(Next(s, a))
  {
    var t := Next(s, a);
    match a
    case Advance(id, linesFirst) => DeviceStepKeepsInv(s, id, linesFirst);
    case CpuAdvance(linesFirst) => CpuStepKeepsInv(s, linesFirst);
    case Call(id, entry) =>
      forall x ensures HoldsMutex(t, x) <==> t.mutex == Device(x) {
        assert HoldsMutex(s, x) <==> s.mutex == Device(x);
      }
      forall i | Pending(t, i) && Missed(t.cpu, i) ensures SomeoneWakesFor(t, i) {
        assert SomeoneWakesFor(s, i);
        var w :| w in s.devices && WillWakeFor(s.devices[w], i);
        assert w in t.devices && WillWakeFor(t.devices[w], i);
      }
      if t.work && (t.cpu.Wait? || t.cpu.Asleep?) {
        var w :| w in s.devices && WillWake(s.devices[w]);
        assert w in t.devices && WillWake(t.devices[w]);
      }
    case _ =>
      forall x ensures HoldsMutex(t, x) <==> t.mutex == Device(x) {
        assert HoldsMutex(s, x) <==> s.mutex == Device(x);
      }
  }

  lemma {:induction false} RunKeepsInv(s: State, run: seq<Action>)
    requires Inv(s) && CanRun(s, run)
    ensures Inv(Run(s, run))
    decreases |run|
  {
    if run != [] {
      NextKeepsInv(s, run[0]);
      RunKeepsInv(Next(s, run[0]), run[1..]);
    }
  }

  /** Whatever the interleaving, no wake-up is lost. */
  lemma NoWakeupIsLost(ids: set<nat>, run: seq<Action>)
    requires CanRun(Start(ids), run)
    ensures NoLostWakeup(Run(Start(ids), run))
  {
    assert Inv(Start(ids));
    RunKeepsInv(Start(ids), run);
  }

  // ---- "Still ahead of it" is not empty: the broadcast is a bounded number of steps away ----

  predicate SameBits(s: State, t: State) { t.lines == s.lines && t.enabled == s.enabled && t.work == s.work }

  /** Device steps only, at most six of them, that end the sleep and change no line, mask or work. */
  ghost predicate Rescues(s: State, run: seq<Action>) {
    && |run| <= 6
    && (forall k :: 0 <= k < |run| ==> run[k].Advance?)
    && CanRun(s, run)
    && Run(s, run).cpu == Relock(false) && SameBits(s, Run(s, run))
  }

  /** One more device step in front of a rescue. */
  lemma Prepend(s: State, id: nat, run: seq<Action>)
    requires Enabled(s, Advance(id, true)) && |run| < 6
    requires Rescues(DeviceStep(s, id, true), run) && SameBits(s, DeviceStep(s, id, true))
    ensures Rescues(s, [Advance(id, true)] + run)
  {
    var all := [Advance(id, true)] + run;
    assert all[1..] == run;
  }

  /** The mutex holder, if there is one, broadcasts or lets go; then thread `id` broadcasts. */
  lemma RescueFromLock(s: State, id: nat) returns (run: seq<Action>)
    requires Inv(s) && s.cpu == Asleep && id in s.devices && s.devices[id] == WakeLock
    ensures |run| <= 3 && Rescues(s, run)
  {
    if s.mutex == Free {
      var s1 := DeviceStep(s, id, true);
      assert Rescues(DeviceStep(s1, id, true), []);
      Prepend(s1, id, []);
      Prepend(s, id, [Advance(id, true)]);
      run := [Advance(id, true)] + ([Advance(id, true)] + []);
    } else {
      assert s.mutex != Cpu;
      var h := s.mutex.id;
      assert HoldsMutex(s, h);
      if s.devices[h].WakeSignal? {
        assert Rescues(DeviceStep(s, h, true), []);
        Prepend(s, h, []);
        run := [Advance(h, true)] + [];
      } else {
        var s1 := DeviceStep(s, h, true);
        var s2 := DeviceStep(s1, id, true);
        assert Rescues(DeviceStep(s2, id, true), []);
        Prepend(s2, id, []);
        Prepend(s1, id, [Advance(id, true)]);
        run := [Advance(id, true)] + ([Advance(id, true)] + []);
        Prepend(s, h, run);
        run := [Advance(h, true)] + run;
      }
    }
  }

  lemma RescueFromWake(s: State, id: nat) returns (run: seq<Action>)
    requires Inv(s) && s.cpu == Asleep && id in s.devices && WillWake(s.devices[id])
    ensures |run| <= 4 && Rescues(s, run)
  {
    if s.devices[id].WakeLook? {
      DeviceStepKeepsInv(s, id, true);
      var rest := RescueFromLock(DeviceStep(s, id, true), id);
      Prepend(s, id, rest);
      run := [Advance(id, true)] + rest;
    } else if s.devices[id].WakeLock? {
      run := RescueFromLock(s, id);
    } else {
      assert Rescues(DeviceStep(s, id, true), []);
      Prepend(s, id, []);
      run := [Advance(id, true)] + [];
    }
  }

  lemma RescueFor(s: State, id: nat, i: nat) returns (run: seq<Action>)
    requires Inv(s) && s.cpu == Asleep && Pending(s, i) && id in s.devices && WillWakeFor(s.devices[id], i)
    ensures Rescues(s, run)
    ensures WillWake(s.devices[id]) ==> |run| <= 4
    ensures s.devices[id].EnableCheck? && (s.devices[id].up.Some? || s.devices[id].on.Some?) ==> |run| <= 5
    decreases if s.devices[id].EnableCheck? && s.devices[id].up.None? && s.devices[id].on.None? then 2
              else if WillWake(s.devices[id]) then 0 else 1
  {
    if WillWake(s.devices[id]) {
      run := RescueFromWake(s, id);
    } else {
      DeviceStepKeepsInv(s, id, true);
      var rest := RescueFor(DeviceStep(s, id, true), id, i);
      Prepend(s, id, rest);
      run := [Advance(id, true)] + rest;
    }
  }

  /** From every reachable state that sleeps with a cause, six device steps or fewer end the sleep,
      and no help from the CPU, its time out or a new call is needed. */
  lemma SleepWithCauseEnds(ids: set<nat>, run: seq<Action>)
    requires CanRun(Start(ids), run)
    requires Run(Start(ids), run).cpu == Asleep && HasCause(Run(Start(ids), run))
    ensures exists more :: Rescues(Run(Start(ids), run), more)
  {
    var s := Run(Start(ids), run);
    assert Inv(Start(ids));
    RunKeepsInv(Start(ids), run);
    if s.work {
      var id :| id in s.devices && WillWake(s.devices[id]);
      var more := RescueFromWake(s, id);
    } else {
      var i :| i in s.lines * s.enabled;
      assert Pending(s, i);
      assert SomeoneWakesFor(s, i);
      var id :| id in s.devices && WillWakeFor(s.devices[id], i);
      var more := RescueFor(s, id, i);
    }
  }

  // ---- What the calls do ----

  /** A bit of the state that a call sets or clears. */
  datatype Fact = Up(i: nat) | Down(i: nat) | On(i: nat) | Off(i: nat) | Work | NoWork

  predicate Holds(s: State, f: Fact) {
    match f
    case Up(i) => i in s.lines
    case Down(i) => i !in s.lines
    case On(i) => i in s.enabled
    case Off(i) => i !in s.enabled
    case Work => s.work
    case NoWork => !s.work
  }

  /** What the function is called for. */
  function Purpose(entry: DevicePc): Fact
    requires IsEntry(entry)
  {
    match entry
    case SetLook(i) => Up(i)
    case SetLower(i) => Down(i)
    case EnableOn(i) => On(i)
    case EnableOff(i) => Off(i)
    case PostStore => Work
  }

  /** The store that makes the fact hold is still ahead of the thread. */
  predicate Ahead(pc: DevicePc, f: Fact) {
    match f
    case Up(i) => pc == SetLook(i) || pc == SetRaise(i)
    case Down(i) => pc == SetLower(i)
    case On(i) => pc == EnableOn(i)
    case Off(i) => pc == EnableOff(i)
    case Work => pc == PostStore
    case NoWork => false
  }

  function Opposite(f: Fact): Fact {
    match f
    case Up(i) => Down(i)
    case Down(i) => Up(i)
    case On(i) => Off(i)
    case Off(i) => On(i)
    case Work => NoWork
    case NoWork => Work
  }

  /** No call for the fact's opposite is under way, and the run makes none. */
  predicate Unopposed(s: State, run: seq<Action>, f: Fact) {
    && (forall id :: id in s.devices ==> !Ahead(s.devices[id], Opposite(f)))
    && (forall a :: a in run ==> (a.Call? ==> !Ahead(a.entry, Opposite(f))) && (a.CpuTakeWork? ==> f != Work))
  }

  lemma UnopposedStep(s: State, run: seq<Action>, f: Fact)
    requires run != [] && Enabled(s, run[0]) && Unopposed(s, run, f)
    ensures Unopposed(Next(s, run[0]), run[1..], f)
    ensures Holds(s, f) ==> Holds(Next(s, run[0]), f)
  {
    hide Next, Ahead, Opposite, Holds, Enabled;
    var t := Next(s, run[0]);
    assert run[0] in run && forall a :: a in run[1..] ==> a in run;
    StepKeepsFact(s, run[0], f);
    forall id | id in t.devices ensures !Ahead(t.devices[id], Opposite(f)) { StepStaysOff(s, run[0], id, f); }
  }

  lemma StepStaysOff(s: State, a: Action, id: nat, f: Fact)
    requires Enabled(s, a) && id in Next(s, a).devices && (a.Call? ==> !Ahead(a.entry, Opposite(f)))
    requires id in s.devices ==> !Ahead(s.devices[id], Opposite(f))
    ensures id in s.devices && !Ahead(Next(s, a).devices[id], Opposite(f))
  {
    hide Ahead, Opposite, CpuStep, DeviceStep, IsEntry;
    match a
    case Call(_, _) =>
    case Advance(other, first) =>
      DeviceStepMoves(s, other, first);
      if other == id { AdvanceStaysOff(s, id, first, Opposite(f)); }
    case CpuAdvance(first) => CpuStepLeavesDevices(s, first);
    case _ =>
  }

  lemma DeviceStepMoves(s: State, id: nat, first: bool)
    requires id in s.devices
    ensures id in DeviceStep(s, id, first).devices
    ensures DeviceStep(s, id, first).devices == s.devices[id := DeviceStep(s, id, first).devices[id]]
  {
    hide EnableVerdict;
  }

  lemma CpuStepLeavesDevices(s: State, first: bool)
    ensures CpuStep(s, first).devices == s.devices
  {
  }

  lemma AdvanceStaysOff(s: State, id: nat, first: bool, f: Fact)
    requires id in s.devices && !Ahead(s.devices[id], f)
    ensures !Ahead(DeviceStep(s, id, first).devices[id], f)
  {
  }

  lemma StepKeepsFact(s: State, a: Action, f: Fact)
    requires Enabled(s, a) && (a.CpuTakeWork? ==> f != Work)
    requires forall id :: id in s.devices ==> !Ahead(s.devices[id], Opposite(f))
    ensures Holds(s, f) ==> Holds(Next(s, a), f)
  {
    if a.Advance? { assert !Ahead(s.devices[a.id], Opposite(f)); }
  }

  /** What no call undoes stays: a line goes up or down, is unmasked or masked, and work is posted or
      taken, by the calls for that alone. */
  lemma {:induction false} FactStays(s: State, run: seq<Action>, f: Fact)
    requires CanRun(s, run) && Holds(s, f) && Unopposed(s, run, f)
    ensures Holds(Run(s, run), f)
    decreases |run|
  {
    if run != [] {
      UnopposedStep(s, run, f);
      FactStays(Next(s, run[0]), run[1..], f);
    }
  }

  /** The fact holds in some state of the run. */
  predicate Sometime(s: State, run: seq<Action>, f: Fact)
    requires CanRun(s, run)
    decreases |run|
  {
    Holds(s, f) || (run != [] && Sometime(Next(s, run[0]), run[1..], f))
  }

  lemma StepTowards(s: State, a: Action, id: nat, f: Fact)
    requires Enabled(s, a) && id in s.devices && Ahead(s.devices[id], f)
    ensures var t := Next(s, a); id in t.devices && (Holds(s, f) || Holds(t, f) || Ahead(t.devices[id], f))
  {
  }

  lemma {:induction false} EffectComes(s: State, run: seq<Action>, id: nat, f: Fact)
    requires CanRun(s, run) && id in s.devices && Ahead(s.devices[id], f)
    requires id in Run(s, run).devices && Run(s, run).devices[id] == Idle
    ensures Sometime(s, run, f) && (Unopposed(s, run, f) ==> Holds(Run(s, run), f))
    decreases |run|
  {
    if Holds(s, f) {
      if Unopposed(s, run, f) { FactStays(s, run, f); }
    } else {
      var t := Next(s, run[0]);
      StepTowards(s, run[0], id, f);
      if Unopposed(s, run, f) { UnopposedStep(s, run, f); }
      if Holds(t, f) {
        if Unopposed(t, run[1..], f) { FactStays(t, run[1..], f); }
      } else {
        EffectComes(t, run[1..], id, f);
      }
    }
  }

  /** Between a device thread's call and its return the line went up, or down, was unmasked or masked, or
      work was posted; and it still is, if no call for the opposite was under way or made since. */
  lemma CallsTakeEffect(s: State, run: seq<Action>, id: nat, entry: DevicePc)
    requires CanRun(s, run) && run != [] && run[0] == Call(id, entry)
    requires id in Run(s, run).devices && Run(s, run).devices[id] == Idle
    ensures IsEntry(entry) && Sometime(s, run, Purpose(entry))
    ensures Unopposed(s, run, Purpose(entry)) ==> Holds(Run(s, run), Purpose(entry))
  {
    var f := Purpose(entry);
    if Unopposed(s, run, f) { UnopposedStep(s, run, f); }
    EffectComes(Next(s, run[0]), run[1..], id, f);
  }

  /** Work that was taken is gone until it is posted again. */
  lemma TakenStays(s: State, run: seq<Action>)
    requires CanRun(s, run) && run != [] && run[0] == CpuTakeWork && Unopposed(s, run, NoWork)
    ensures Holds(Run(s, run), NoWork)
  {
    UnopposedStep(s, run, NoWork);
    FactStays(Next(s, run[0]), run[1..], NoWork);
  }

  // ---- Every call returns ----

  /** At most how many of its own steps a thread is from its return. */
  function StepsLeft(pc: DevicePc): nat {
    match pc
    case Idle => 0
    case SetLook(_) => 7
    case SetRaise(_) => 6
    case SetMask(_) => 5
    case EnableOn(_) => 7
    case EnableCheck(_, up, on) => if up.None? && on.None? then 6 else 5
    case SetLower(_) => 1
    case EnableOff(_) => 1
    case PostStore => 5
    case WakeLook => 4
    case WakeLock => 3
    case WakeSignal => 2
    case WakeUnlock => 1
  }

  /** Steps of the CPU and of threads already called, at most n of them, after which the thread has returned. */
  ghost predicate Returns(s: State, run: seq<Action>, id: nat, n: nat) {
    && |run| <= n
    && (forall k :: 0 <= k < |run| ==> run[k].Advance? || run[k].CpuAdvance?)
    && CanRun(s, run) && id in Run(s, run).devices && Run(s, run).devices[id] == Idle
  }

  lemma PrependReturn(s: State, a: Action, run: seq<Action>, id: nat, n: nat)
    requires (a.Advance? || a.CpuAdvance?) && Enabled(s, a) && Returns(Next(s, a), run, id, n)
    ensures Returns(s, [a] + run, id, n + 1)
  {
    assert ([a] + run)[1..] == run;
  }

  /** How many steps the mutex is from being let go. */
  function HeldFor(s: State): nat {
    match s.mutex
    case Free => 0
    case Cpu => (match s.cpu
                 case Check(lines, mask) => if lines.None? && mask.None? then 4 else 3
                 case CheckWork => 2
                 case _ => 1)
    case Device(id) => if id in s.devices && s.devices[id].WakeSignal? then 2 else 1
  }

  /** With what it may have to wait for the mutex. */
  function Budget(s: State, pc: DevicePc): nat {
    StepsLeft(pc) + if pc == WakeLock then HeldFor(s) else if StepsLeft(pc) > 3 then 4 else 0
  }

  /** The holder's step. */
  function HoldersStep(s: State): Action
    requires s.mutex != Free
  {
    if s.mutex == Cpu then CpuAdvance(true) else Advance(s.mutex.id, true)
  }

  /** Whoever holds the mutex can go on, and lets it go. */
  lemma HolderGoesOn(s: State, id: nat)
    requires Inv(s) && s.mutex != Free && id in s.devices && s.devices[id] == WakeLock
    ensures Enabled(s, HoldersStep(s))
    ensures var t := Next(s, HoldersStep(s)); HeldFor(t) < HeldFor(s) && id in t.devices && t.devices[id] == WakeLock
  {
    if s.mutex.Device? { assert HoldsMutex(s, s.mutex.id); }
  }

  lemma {:induction false} ReturnFrom(s: State, id: nat) returns (run: seq<Action>)
    requires Inv(s) && id in s.devices
    ensures Returns(s, run, id, Budget(s, s.devices[id]))
    decreases StepsLeft(s.devices[id]), HeldFor(s)
  {
    var pc := s.devices[id];
    if pc == Idle {
      run := [];
    } else if pc == WakeLock && s.mutex != Free {
      HolderGoesOn(s, id);
      NextKeepsInv(s, HoldersStep(s));
      var rest := ReturnFrom(Next(s, HoldersStep(s)), id);
      PrependReturn(s, HoldersStep(s), rest, id, 3 + HeldFor(Next(s, HoldersStep(s))));
      run := [HoldersStep(s)] + rest;
    } else {
      NextKeepsInv(s, Advance(id, true));
      run := ReturnAfterStep(s, id);
    }
  }

  lemma {:induction false} ReturnAfterStep(s: State, id: nat) returns (run: seq<Action>)
    requires Inv(s) && id in s.devices && s.devices[id] != Idle && Enabled(s, Advance(id, true)) && Inv(DeviceStep(s, id, true))
    ensures Returns(s, run, id, Budget(s, s.devices[id]))
    decreases StepsLeft(s.devices[id]), HeldFor(s), 0
  {
    var t := DeviceStep(s, id, true);
    var rest := ReturnFrom(t, id);
    PrependReturn(s, Advance(id, true), rest, id, |rest|);
    run := [Advance(id, true)] + rest;
  }

  /** From every reachable state a call returns: at most 11 steps of its thread, of the CPU and of the thread that holds
      the mutex take it there. */
  lemma CallsReturn(ids: set<nat>, run: seq<Action>, id: nat)
    requires CanRun(Start(ids), run) && id in ids
    ensures exists more :: Returns(Run(Start(ids), run), more, id, 11)
  {
    assert Inv(Start(ids));
    RunKeepsInv(Start(ids), run);
    DevicesStay(Start(ids), run);
    var more := ReturnFrom(Run(Start(ids), run), id);
    assert Returns(Run(Start(ids), run), more, id, 11);
  }

  lemma {:induction false} DevicesStay(s: State, run: seq<Action>)
    requires CanRun(s, run)
    ensures Run(s, run).devices.Keys == s.devices.Keys
    decreases |run|
  {
    if run != [] { DevicesStay(Next(s, run[0]), run[1..]); }
  }

  // ---- A cause gets the CPU out of the wait ----

  datatype Cause = Line(i: nat) | Posted

  predicate Stands(s: State, c: Cause) {
    match c
    case Line(i) => Pending(s, i)
    case Posted => s.work
  }

  predicate StandsOver(s: State, run: seq<Action>, c: Cause) {
    match c
    case Line(i) => Unopposed(s, run, Up(i)) && Unopposed(s, run, On(i))
    case Posted => Unopposed(s, run, Work)
  }

  /** The CPU's checks of this round can no longer see the cause. */
  predicate TooLate(cpu: CpuPc, c: Cause) {
    match c
    case Line(i) => Missed(cpu, i)
    case Posted => cpu.Wait? || cpu.Asleep?
  }

  lemma SeenStep(s: State, a: Action, c: Cause)
    requires Enabled(s, a) && Stands(s, c) && !TooLate(s.cpu, c) && (s.cpu.Check? ==> s.cpu.lines.None? || s.cpu.mask.None?)
    ensures !TooLate(Next(s, a).cpu, c)
  {
    if s.cpu.Check? && c.Line? {
      var l := if s.cpu.lines.None? then s.lines else s.cpu.lines.value;
      var m := if s.cpu.mask.None? then s.enabled else s.cpu.mask.value;
      assert c.i in l * m;
    }
  }

  lemma {:induction false} StandsStays(s: State, run: seq<Action>, c: Cause)
    requires CanRun(s, run) && Stands(s, c) && StandsOver(s, run, c)
    ensures Stands(Run(s, run), c)
  {
    match c {
      case Line(i) =>
        FactStays(s, run, Up(i));
        FactStays(s, run, On(i));
      case Posted => FactStays(s, run, Work);
    }
  }

  /** While a cause stands the CPU does not go to sleep again: once its checks can see it, no interleaving
      takes it past them into the sleep. */
  lemma {:induction false} StaysAwake(s: State, run: seq<Action>, c: Cause)
    requires Inv(s) && CanRun(s, run) && Stands(s, c) && StandsOver(s, run, c) && !TooLate(s.cpu, c)
    ensures !TooLate(Run(s, run).cpu, c) && Run(s, run).cpu != Asleep
    decreases |run|
  {
    if run != [] {
      SeenStep(s, run[0], c);
      NextKeepsInv(s, run[0]);
      match c {
        case Line(i) =>
          UnopposedStep(s, run, Up(i));
          UnopposedStep(s, run, On(i));
        case Posted => UnopposedStep(s, run, Work);
      }
      StaysAwake(Next(s, run[0]), run[1..], c);
    }
  }

  predicate InWait(cpu: CpuPc) { !cpu.Running? && !cpu.ClearFlag? }

  /** Steps of the CPU and of threads already called, at most n of them, that take the CPU out of the loop. */
  ghost predicate Exits(s: State, run: seq<Action>, n: nat) {
    && |run| <= n
    && (forall k :: 0 <= k < |run| ==> run[k].Advance? || run[k].CpuAdvance?)
    && CanRun(s, run)
    && Run(s, run).cpu == Unlock
  }

  lemma PrependStep(s: State, a: Action, run: seq<Action>, n: nat)
    requires (a.Advance? || a.CpuAdvance?) && Enabled(s, a) && Exits(Next(s, a), run, n)
    ensures Exits(s, [a] + run, n + 1)
  {
    assert ([a] + run)[1..] == run;
  }

  lemma {:induction false} PrependRun(s: State, first: seq<Action>, rest: seq<Action>, m: nat, n: nat)
    requires CanRun(s, first) && |first| <= m && Exits(Run(s, first), rest, n)
    requires forall k :: 0 <= k < |first| ==> first[k].Advance?
    ensures Exits(s, first + rest, m + n)
    decreases |first|
  {
    if first == [] {
      assert first + rest == rest;
    } else {
      PrependRun(Next(s, first[0]), first[1..], rest, |first| - 1, n);
      PrependStep(s, first[0], first[1..] + rest, |first| - 1 + n);
      assert first + rest == [first[0]] + (first[1..] + rest);
    }
  }

  lemma RunOne(s: State, a: Action)
    requires Enabled(s, a)
    ensures CanRun(s, [a]) && Run(s, [a]) == Next(s, a)
  {
    assert [a][1..] == [];
  }

  /** The mutex is free, or its holder's next steps let it go. */
  lemma MutexComesFree(s: State) returns (run: seq<Action>)
    requires Inv(s) && (s.cpu.TakeLock? || s.cpu.Relock?)
    ensures |run| <= 2 && (forall k :: 0 <= k < |run| ==> run[k].Advance?) && CanRun(s, run)
    ensures var t := Run(s, run); Inv(t) && t.mutex == Free && t.cpu == s.cpu && SameBits(s, t)
  {
    if s.mutex == Free {
      run := [];
    } else {
      var h := s.mutex.id;
      assert HoldsMutex(s, h);
      var s1 := DeviceStep(s, h, true);
      DeviceStepKeepsInv(s, h, true);
      if s.devices[h].WakeUnlock? {
        run := [Advance(h, true)];
        RunOne(s, Advance(h, true));
      } else {
        var s2 := DeviceStep(s1, h, true);
        DeviceStepKeepsInv(s1, h, true);
        run := [Advance(h, true), Advance(h, true)];
        RunOne(s1, Advance(h, true));
        assert run[1..] == [Advance(h, true)];
        assert CanRun(s, run) && Run(s, run) == Run(s1, run[1..]) == s2;
      }
    }
  }

  /** How many of the CPU's steps its checks may still take. */
  function ChecksLeft(cpu: CpuPc): nat {
    match cpu
    case Check(lines, mask) => if lines.None? && mask.None? then 3 else 2
    case CheckWork => 1
    case _ => 0
  }

  /** From checks that can still see the cause. */
  lemma ExitFromChecks(s: State, c: Cause) returns (run: seq<Action>)
    requires Inv(s) && Stands(s, c) && !TooLate(s.cpu, c) && (s.cpu.Check? || s.cpu.CheckWork? || s.cpu.Unlock?)
    ensures Exits(s, run, ChecksLeft(s.cpu))
    decreases ChecksLeft(s.cpu)
  {
    if s.cpu.Unlock? {
      run := [];
    } else {
      SeenStep(s, CpuAdvance(true), c);
      NextKeepsInv(s, CpuAdvance(true));
      var t := Next(s, CpuAdvance(true));
      var rest := ExitFromChecks(t, c);
      PrependStep(s, CpuAdvance(true), rest, ChecksLeft(t.cpu));
      run := [CpuAdvance(true)] + rest;
    }
  }

  /** From before the checks: the mutex, then the checks anew. */
  lemma ExitFromLock(s: State, c: Cause) returns (run: seq<Action>)
    requires Inv(s) && Stands(s, c) && (s.cpu.TakeLock? || s.cpu.Relock?)
    ensures Exits(s, run, 6)
  {
    var free := MutexComesFree(s);
    var t := Run(s, free);
    NextKeepsInv(t, CpuAdvance(true));
    var u := Next(t, CpuAdvance(true));
    var rest := ExitFromChecks(u, c);
    assert Exits(u, rest, 3);
    PrependStep(t, CpuAdvance(true), rest, 3);
    PrependRun(s, free, [CpuAdvance(true)] + rest, 2, 4);
    run := free + ([CpuAdvance(true)] + rest);
  }

  /** From the sleep: its end, and on from there. */
  lemma ExitFromSleep(s: State, c: Cause) returns (run: seq<Action>)
    requires Inv(s) && Stands(s, c) && s.cpu == Asleep
    ensures Exits(s, run, 12)
  {
    var wake: seq<Action>;
    match c {
      case Line(i) =>
        assert SomeoneWakesFor(s, i);
        var id :| id in s.devices && WillWakeFor(s.devices[id], i);
        wake := RescueFor(s, id, i);
      case Posted =>
        var id :| id in s.devices && WillWake(s.devices[id]);
        wake := RescueFromWake(s, id);
    }
    RunKeepsInv(s, wake);
    var rest := ExitFromLock(Run(s, wake), c);
    PrependRun(s, wake, rest, 6, 6);
    run := wake + rest;
  }

  /** How many of the CPU's steps lead from checks the cause came too late for into the sleep. */
  function StepsToSleep(cpu: CpuPc): nat { if cpu.Check? then 3 else if cpu.CheckWork? then 2 else if cpu.Wait? then 1 else 0 }

  lemma ExitFromMissed(s: State, c: Cause) returns (run: seq<Action>)
    requires Inv(s) && Stands(s, c) && TooLate(s.cpu, c)
    ensures Exits(s, run, 12 + StepsToSleep(s.cpu))
    decreases StepsToSleep(s.cpu)
  {
    if s.cpu == Asleep {
      run := ExitFromSleep(s, c);
    } else {
      NextKeepsInv(s, CpuAdvance(true));
      var t := Next(s, CpuAdvance(true));
      var rest := [];
      if !t.cpu.Unlock? { rest := ExitFromMissed(t, c); }
      PrependStep(s, CpuAdvance(true), rest, 11 + StepsToSleep(s.cpu));
      run := [CpuAdvance(true)] + rest;
    }
  }

  lemma ExitFromWait(s: State, c: Cause) returns (run: seq<Action>)
    requires Inv(s) && Stands(s, c) && InWait(s.cpu)
    ensures Exits(s, run, 15)
  {
    if TooLate(s.cpu, c) { run := ExitFromMissed(s, c); }
    else if s.cpu.TakeLock? || s.cpu.Relock? { run := ExitFromLock(s, c); }
    else { run := ExitFromChecks(s, c); }
  }

  /** Steps of the CPU and of threads already called, at most n of them, that bring the CPU back from the wait. */
  ghost predicate Back(s: State, run: seq<Action>, n: nat) {
    && |run| <= n
    && (forall k :: 0 <= k < |run| ==> run[k].Advance? || run[k].CpuAdvance?)
    && CanRun(s, run)
    && var t := Run(s, run); t.cpu == Running && !t.waiting && t.mutex != Cpu
  }

  lemma PrependBack(s: State, a: Action, run: seq<Action>, n: nat)
    requires (a.Advance? || a.CpuAdvance?) && Enabled(s, a) && Back(Next(s, a), run, n)
    ensures Back(s, [a] + run, n + 1)
  {
    assert ([a] + run)[1..] == run;
  }

  lemma BackFromUnlock(s: State) returns (run: seq<Action>)
    requires Inv(s) && (s.cpu == Unlock || s.cpu == ClearFlag)
    ensures Back(s, run, 2)
  {
    var t := Next(s, CpuAdvance(true));
    NextKeepsInv(s, CpuAdvance(true));
    if s.cpu == ClearFlag {
      assert Back(t, [], 0);
      PrependBack(s, CpuAdvance(true), [], 0);
      run := [CpuAdvance(true)] + [];
    } else {
      NextKeepsInv(t, CpuAdvance(true));
      assert Back(Next(t, CpuAdvance(true)), [], 0);
      PrependBack(t, CpuAdvance(true), [], 0);
      PrependBack(s, CpuAdvance(true), [CpuAdvance(true)] + [], 1);
      run := [CpuAdvance(true)] + ([CpuAdvance(true)] + []);
    }
  }

  lemma {:induction false} BackAfter(s: State, first: seq<Action>, rest: seq<Action>, n: nat)
    requires CanRun(s, first) && Back(Run(s, first), rest, n)
    requires forall k :: 0 <= k < |first| ==> first[k].Advance? || first[k].CpuAdvance?
    ensures Back(s, first + rest, |first| + n)
    decreases |first|
  {
    if first == [] {
      assert first + rest == rest;
    } else {
      BackAfter(Next(s, first[0]), first[1..], rest, n);
      PrependBack(s, first[0], first[1..] + rest, |first| - 1 + n);
      assert first + rest == [first[0]] + (first[1..] + rest);
    }
  }

  lemma BackWithCause(s: State, c: Cause) returns (run: seq<Action>)
    requires Inv(s) && Stands(s, c) && s.cpu != Running
    ensures Back(s, run, 17)
  {
    var first: seq<Action> := [];
    if InWait(s.cpu) { first := ExitFromWait(s, c); }
    RunKeepsInv(s, first);
    var rest := BackFromUnlock(Run(s, first));
    BackAfter(s, first, rest, 2);
    run := first + rest;
  }

  /** The time-out ends the sleep: in five steps of threads already called or its own the CPU is back. */
  lemma TimeOutEndsWait(ids: set<nat>, before: seq<Action>)
    requires CanRun(Start(ids), before) && Run(Start(ids), before).cpu == Asleep
    ensures var s := Run(Start(ids), before); Enabled(s, CpuWake(true)) && exists more :: Back(Next(s, CpuWake(true)), more, 5)
  {
    var s := Run(Start(ids), before);
    assert Inv(Start(ids));
    RunKeepsInv(Start(ids), before);
    NextKeepsInv(s, CpuWake(true));
    var t := Next(s, CpuWake(true));
    var free := MutexComesFree(t);
    var u := Run(t, free);
    NextKeepsInv(u, CpuAdvance(true));
    var rest := BackFromUnlock(Next(u, CpuAdvance(true)));
    PrependBack(u, CpuAdvance(true), rest, 2);
    BackAfter(t, free, [CpuAdvance(true)] + rest, 3);
    assert Back(t, free + ([CpuAdvance(true)] + rest), 5);
  }

  /** A CPU that goes idle with nothing to do, and no thread in the way, sleeps after its five steps. */
  lemma IdleSleeps(s: State)
    requires Inv(s) && s.cpu == Running && s.mutex == Free && !HasCause(s)
    ensures var run := [CpuIdle] + Steps(5); CanRun(s, run) && Run(s, run).cpu == Asleep && Run(s, run).waiting && Run(s, run).mutex == Free
  {
    var s0 := Next(s, CpuIdle);
    var s1 := CpuStep(s0, true);
    var s2 := CpuStep(s1, true);
    var s3 := CpuStep(s2, true);
    var s4 := CpuStep(s3, true);
    var s5 := CpuStep(s4, true);
    assert s5.cpu == Asleep;
    StepsOne(s4, 0);
    StepsOne(s3, 1);
    StepsOne(s2, 2);
    StepsOne(s1, 3);
    StepsOne(s0, 4);
    assert ([CpuIdle] + Steps(5))[1..] == Steps(5);
  }

  /** At the start nothing is up and no work is posted, so it sleeps. */
  lemma StartSleeps(ids: set<nat>)
    ensures var run := [CpuIdle] + Steps(5); CanRun(Start(ids), run) && Run(Start(ids), run).cpu == Asleep
  {
    IdleSleeps(Start(ids));
  }

  function Steps(n: nat): seq<Action> { seq(n, _ => CpuAdvance(true)) }

  lemma StepsOne(s: State, n: nat)
    requires Enabled(s, CpuAdvance(true)) && CanRun(CpuStep(s, true), Steps(n))
    ensures CanRun(s, Steps(n + 1)) && Run(s, Steps(n + 1)) == Run(CpuStep(s, true), Steps(n))
  {
    assert Steps(n + 1)[1..] == Steps(n);
  }

  /** The call makes the cause stand in state s: a line raised that is unmasked, a line unmasked that is
      up, or work. */
  predicate Completes(s: State, entry: DevicePc, c: Cause) {
    match c
    case Line(i) => (entry == SetLook(i) && i in s.enabled) || (entry == EnableOn(i) && i in s.lines)
    case Posted => entry == PostStore
  }

  /** A device's call gets the CPU out of the wait: whenever it has returned, and nothing it was called for
      was undone, the cause stands, the CPU is back from the wait or at most 17 steps of its own and of threads
      already called bring it back, 15 out of the loop, and past its checks it does not go to sleep again. */
  lemma CallEndsWait(ids: set<nat>, before: seq<Action>, run: seq<Action>, id: nat, entry: DevicePc, c: Cause)
    requires CanRun(Start(ids), before) && CanRun(Run(Start(ids), before), run)
    requires run != [] && run[0] == Call(id, entry) && Completes(Run(Start(ids), before), entry, c)
    requires StandsOver(Run(Start(ids), before), run, c)
    requires var t := Run(Run(Start(ids), before), run); id in t.devices && t.devices[id] == Idle
    ensures var t := Run(Run(Start(ids), before), run);
      && Stands(t, c)
      && (InWait(t.cpu) ==> exists more :: Exits(t, more, 15))
      && (t.cpu != Running ==> exists more :: Back(t, more, 17))
      && (!TooLate(t.cpu, c) ==>
            forall more :: CanRun(t, more) && StandsOver(t, more, c) ==> Run(t, more).cpu != Asleep)
  {
    var s := Run(Start(ids), before);
    var t := Run(s, run);
    assert Inv(Start(ids));
    RunKeepsInv(Start(ids), before);
    RunKeepsInv(s, run);
    CallsTakeEffect(s, run, id, entry);
    match c {
      case Line(i) => if entry == SetLook(i) { FactStays(s, run, On(i)); } else { FactStays(s, run, Up(i)); }
      case Posted =>
    }
    if InWait(t.cpu) { var more := ExitFromWait(t, c); }
    if t.cpu != Running { var more := BackWithCause(t, c); }
    if !TooLate(t.cpu, c) {
      forall more | CanRun(t, more) && StandsOver(t, more, c) ensures Run(t, more).cpu != Asleep { StaysAwake(t, more, c); }
    }
  }

  // ---- Who wakes the CPU ----

  /** Thread id is inside its call in every state of the run. */
  predicate Inside(s: State, run: seq<Action>, id: nat)
    requires CanRun(s, run)
    decreases |run|
  {
    id in s.devices && s.devices[id] != Idle && (run != [] ==> Inside(Next(s, run[0]), run[1..], id))
  }

  /** The fact the thread has still to see before it wakes the CPU. */
  predicate Needs(pc: DevicePc, f: Fact) {
    match f
    case On(i) => pc == SetLook(i) || pc == SetRaise(i) || pc == SetMask(i)
    case Up(i) => pc == EnableOn(i) || (pc.EnableCheck? && pc.line == i && pc.up.None?)
    case _ => false
  }

  /** It will return without waking the CPU. */
  predicate Mute(pc: DevicePc) {
    pc.SetLower? || pc.EnableOff? || (pc.EnableCheck? && ((pc.up == Some(false) && pc.on.None?) || (pc.up.None? && pc.on == Some(false))))
  }

  lemma {:induction false} MuteNeverWakes(s: State, run: seq<Action>, id: nat)
    requires CanRun(s, run) && Inside(s, run, id) && Mute(s.devices[id])
    ensures id in Run(s, run).devices && !WillWake(Run(s, run).devices[id])
    decreases |run|
  {
    if run != [] { MuteNeverWakes(Next(s, run[0]), run[1..], id); }
  }

  lemma {:induction false} WakesHavingSeen(s: State, run: seq<Action>, id: nat, f: Fact)
    requires CanRun(s, run) && Inside(s, run, id) && Needs(s.devices[id], f)
    requires id in Run(s, run).devices && WillWake(Run(s, run).devices[id])
    ensures Sometime(s, run, f)
    decreases |run|
  {
    if run != [] && !Holds(s, f) {
      var t := Next(s, run[0]);
      if Needs(t.devices[id], f) { WakesHavingSeen(t, run[1..], id, f); } else { MuteNeverWakes(t, run[1..], id); }
    }
  }

  /** The thread's own store took the line up. */
  predicate RaisedBy(s: State, run: seq<Action>, id: nat, i: nat)
    requires CanRun(s, run)
    decreases |run|
  {
    run != [] && ((run[0].Advance? && run[0].id == id && i !in s.lines && i in Next(s, run[0]).lines) ||
                  RaisedBy(Next(s, run[0]), run[1..], id, i))
  }

  lemma {:induction false} WakesHavingRaised(s: State, run: seq<Action>, id: nat, i: nat)
    requires CanRun(s, run) && Inside(s, run, id) && (s.devices[id] == SetLook(i) || s.devices[id] == SetRaise(i))
    requires id in Run(s, run).devices && WillWake(Run(s, run).devices[id])
    ensures RaisedBy(s, run, id, i)
    decreases |run|
  {
    if run != [] {
      var t := Next(s, run[0]);
      if t.devices[id] == SetLook(i) || t.devices[id] == SetRaise(i) { WakesHavingRaised(t, run[1..], id, i); }
    }
  }

  /** The CPU's flag is up in some state of the run. */
  predicate SometimeFlagged(s: State, run: seq<Action>)
    requires CanRun(s, run)
    decreases |run|
  {
    s.waiting || (run != [] && SometimeFlagged(Next(s, run[0]), run[1..]))
  }

  predicate PastLook(pc: DevicePc) { pc.WakeLock? || pc.WakeSignal? }

  lemma {:induction false} LocksHavingSeenFlag(s: State, run: seq<Action>, id: nat)
    requires CanRun(s, run) && Inside(s, run, id) && !PastLook(s.devices[id]) && s.devices[id] != WakeUnlock
    requires id in Run(s, run).devices && PastLook(Run(s, run).devices[id])
    ensures SometimeFlagged(s, run)
    decreases |run|
  {
    if run != [] {
      var t := Next(s, run[0]);
      if !PastLook(t.devices[id]) { LocksHavingSeenFlag(t, run[1..], id); }
    }
  }

  /** No call wakes the CPU for nothing: raising a line does only if the call itself took it up and it was
      unmasked, unmasking one only if it was up, lowering and masking never do, and none takes the mutex for it
      but where the CPU's flag was up. */
  lemma WakesOnlyForCause(s: State, run: seq<Action>, id: nat, entry: DevicePc)
    requires CanRun(s, run) && run != [] && run[0] == Call(id, entry) && Inside(Next(s, run[0]), run[1..], id)
    requires id in Run(s, run).devices && WillWake(Run(s, run).devices[id])
    ensures entry.SetLook? || entry.EnableOn? || entry.PostStore?
    ensures entry.SetLook? ==> Sometime(s, run, On(entry.line))
    ensures entry.SetLook? ==> RaisedBy(s, run, id, entry.line)
    ensures entry.EnableOn? ==> Sometime(s, run, Up(entry.line))
    ensures PastLook(Run(s, run).devices[id]) ==> SometimeFlagged(s, run)
  {
    var t := Next(s, run[0]);
    if PastLook(Run(s, run).devices[id]) { LocksHavingSeenFlag(t, run[1..], id); }
    match entry {
      case SetLook(i) => WakesHavingSeen(t, run[1..], id, On(i)); WakesHavingRaised(t, run[1..], id, i);
      case EnableOn(i) => WakesHavingSeen(t, run[1..], id, Up(i));
      case SetLower(_) => MuteNeverWakes(t, run[1..], id);
      case EnableOff(_) => MuteNeverWakes(t, run[1..], id);
      case _ =>
    }
  }

  // ---- Why the CPU leaves the wait ----

  /** The CPU is in the wait's loop in every state of the run but the last, and its time-out does not come. */
  predicate Loops(s: State, run: seq<Action>)
    requires CanRun(s, run)
    decreases |run|
  {
    run != [] ==>
      && run[0] != CpuWake(true) && s.cpu != Relock(true)
      && !s.cpu.Running? && !s.cpu.Unlock? && !s.cpu.ClearFlag?
      && Loops(Next(s, run[0]), run[1..])
  }

  /** What the checks have seen or the run shows of a line. */
  ghost predicate SeenUp(s: State, run: seq<Action>, i: nat)
    requires CanRun(s, run)
  {
    (s.cpu.Check? && s.cpu.lines.Some? && i in s.cpu.lines.value) || Sometime(s, run, Up(i))
  }

  ghost predicate SeenOn(s: State, run: seq<Action>, i: nat)
    requires CanRun(s, run)
  {
    (s.cpu.Check? && s.cpu.mask.Some? && i in s.cpu.mask.value) || Sometime(s, run, On(i))
  }

  ghost predicate SeenCause(s: State, run: seq<Action>)
    requires CanRun(s, run)
  {
    Sometime(s, run, Work) || exists i :: SeenUp(s, run, i) && SeenOn(s, run, i)
  }

  lemma SeenBefore(s: State, run: seq<Action>)
    requires CanRun(s, run) && run != [] && SeenCause(Next(s, run[0]), run[1..])
    ensures SeenCause(s, run)
  {
    var t := Next(s, run[0]);
    if !Sometime(t, run[1..], Work) {
      var i :| SeenUp(t, run[1..], i) && SeenOn(t, run[1..], i);
      assert SeenUp(s, run, i);
      assert SeenOn(s, run, i);
    }
  }

  lemma LeavesSeeing(s: State, run: seq<Action>)
    requires CanRun(s, run) && run != [] && Loops(s, run) && Next(s, run[0]).cpu == Unlock
    requires s.cpu.Check? ==> s.cpu.lines.None? || s.cpu.mask.None?
    ensures SeenCause(s, run)
  {
    if s.cpu.Check? {
      var l := if s.cpu.lines.None? then s.lines else s.cpu.lines.value;
      var m := if s.cpu.mask.None? then s.enabled else s.cpu.mask.value;
      assert l * m != {};
      var i :| i in l * m;
      assert SeenUp(s, run, i) && SeenOn(s, run, i);
    }
  }

  lemma {:induction false} LeavesFrom(s: State, run: seq<Action>)
    requires Inv(s) && CanRun(s, run) && Loops(s, run) && run != [] && Run(s, run).cpu == Unlock
    ensures SeenCause(s, run)
    decreases |run|
  {
    var t := Next(s, run[0]);
    if t.cpu == Unlock {
      LeavesSeeing(s, run);
    } else {
      NextKeepsInv(s, run[0]);
      LeavesFrom(t, run[1..]);
      SeenBefore(s, run);
    }
  }

  /** Without its time-out the CPU leaves the wait only having seen a line that was up since it entered and was
      unmasked since, or work. */
  lemma LeavesOnlyForCause(ids: set<nat>, before: seq<Action>, run: seq<Action>)
    requires CanRun(Start(ids), before) && var s := Run(Start(ids), before);
      s.cpu == Running && CanRun(s, [CpuIdle] + run) && Loops(Next(s, CpuIdle), run) && Run(Next(s, CpuIdle), run).cpu == Unlock
    ensures var s := Run(Start(ids), before); var t := Next(s, CpuIdle);
      CanRun(t, run) && (Sometime(t, run, Work) || exists i :: Sometime(t, run, Up(i)) && Sometime(t, run, On(i)))
  {
    var s := Run(Start(ids), before);
    var t := Next(s, CpuIdle);
    assert ([CpuIdle] + run)[1..] == run;
    assert Inv(Start(ids));
    RunKeepsInv(Start(ids), before);
    NextKeepsInv(s, CpuIdle);
    LeavesFrom(t, run);
    if !Sometime(t, run, Work) {
      var i :| SeenUp(t, run, i) && SeenOn(t, run, i);
      assert Sometime(t, run, Up(i)) && Sometime(t, run, On(i));
    }
  }
}
