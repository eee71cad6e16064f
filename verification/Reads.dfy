/** Overlapped disc reads (native/kernel/io.c): a reader thread writes through captured physical
  addresses while the guest's CPU goes on, relocates pages and completes what was read.

  Each section the two threads run under g_reader.mu, and each piece the reader writes, is one step;
  steps interleave in any order.
  */
module Reads {
  import opened Wrappers
  import opened GuestState
  import opened Protection
  import opened Relocation
  import opened Placement
  import Tracking

  const JOBS: nat := 64

  /** The part of a job's buffer in one page: the VA's page, the physical page captured for it, and
      where the file's bytes go in it. */
  datatype Piece = Piece(v: nat, page: nat, off: nat, bytes: seq<nat>)

  datatype Job = Job(pieces: seq<Piece>, ok: bool)

  datatype Reader = Reader(
    vm: State,
    title: seq<nat>,                  // the locks the title itself holds on each page
    queue: seq<Job>,
    current: Option<(Job, nat)>,      // the job the reader works on, and its pieces written so far
    done: seq<Job>,
    landing: seq<Job>,                // taken by nc_io_poll, to be completed
    completed: seq<Job>,
    busy: nat,
    issued: seq<seq<Piece>>)

  // ---- Pins ----

  function LockCount(byte: nat): nat { byte % PIN_KNOWN }

  /** Pieces on page p. */
  function PiecesOn(pieces: seq<Piece>, p: nat): nat {
    if pieces == [] then 0 else PiecesOn(pieces[1..], p) + if pieces[0].page == p then 1 else 0
  }

  function JobsOn(jobs: seq<Job>, p: nat): nat {
    if jobs == [] then 0 else PiecesOn(jobs[0].pieces, p) + JobsOn(jobs[1..], p)
  }

  lemma {:induction false} JobsOnAppend(a: seq<Job>, b: seq<Job>, p: nat)
    ensures JobsOn(a + b, p) == JobsOn(a, p) + JobsOn(b, p)
  {
    if a == [] {
      assert a + b == b;
    } else {
      assert (a + b)[1..] == a[1..] + b;
      JobsOnAppend(a[1..], b, p);
    }
  }

  lemma {:induction false} JobsOnMember(jobs: seq<Job>, j: nat, i: nat)
    requires j < |jobs| && i < |jobs[j].pieces|
    ensures JobsOn(jobs, jobs[j].pieces[i].page) > 0
  {
    if j == 0 { PiecesOnMember(jobs[0].pieces, i); } else { JobsOnMember(jobs[1..], j - 1, i); }
  }

  lemma {:induction false} PiecesOnMember(pieces: seq<Piece>, i: nat)
    requires i < |pieces|
    ensures PiecesOn(pieces, pieces[i].page) > 0
  {
    if i > 0 { PiecesOnMember(pieces[1..], i - 1); }
  }

  /** pin_buffer: each piece's page one lock up or down. */
  function PinBuffer(pin: seq<nat>, pieces: seq<Piece>, lock: int): (r: seq<nat>)
    ensures |r| == |pin|
    decreases |pieces|
  {
    if pieces == [] then pin
    else
      var p := pieces[0].page;
      PinBuffer(if p < |pin| then pin[p := PinValue(pin[p], false, lock)] else pin, pieces[1..], lock)
  }

  /** While no count reaches its limit of 127, pinning a buffer adds a lock for each piece. */
  lemma {:induction false} PinBufferUp(pin: seq<nat>, pieces: seq<Piece>, p: nat)
    requires p < |pin| && LockCount(pin[p]) + PiecesOn(pieces, p) < PIN_KNOWN
    ensures PinBuffer(pin, pieces, 1)[p] == pin[p] + PiecesOn(pieces, p)
    ensures LockCount(PinBuffer(pin, pieces, 1)[p]) == LockCount(pin[p]) + PiecesOn(pieces, p)
    decreases |pieces|
  {
    if pieces != [] {
      var q := pieces[0].page;
      var next := if q < |pin| then pin[q := PinValue(pin[q], false, 1)] else pin;
      PinBufferUp(next, pieces[1..], p);
    }
  }

  lemma {:induction false} PinBufferDown(pin: seq<nat>, pieces: seq<Piece>, p: nat)
    requires p < |pin| && LockCount(pin[p]) >= PiecesOn(pieces, p)
    ensures PinBuffer(pin, pieces, -1)[p] == pin[p] - PiecesOn(pieces, p)
    ensures LockCount(PinBuffer(pin, pieces, -1)[p]) == LockCount(pin[p]) - PiecesOn(pieces, p)
    decreases |pieces|
  {
    if pieces != [] {
      var q := pieces[0].page;
      var next := if q < |pin| then pin[q := PinValue(pin[q], false, -1)] else pin;
      PinBufferDown(next, pieces[1..], p);
    }
  }

  /** One lock taken and given back restores the count exactly below the limit: at 127 the lock is not
      counted, and giving it back takes one of the title's. */
  lemma LockRestoredBelowLimit(byte: nat)
    requires byte < 2 * PIN_KNOWN
    ensures PinValue(PinValue(byte, false, 1), false, -1) == byte <==> LockCount(byte) < PIN_KNOWN - 1
  {
  }

  // ---- The steps ----

  function CurrentJobs(r: Reader): seq<Job> {
    if r.current.Some? then [r.current.value.0] else []
  }

  /** Every job from its queueing to its completion, oldest first. */
  function InFlight(r: Reader): seq<Job> { r.landing + r.done + CurrentJobs(r) + r.queue }

  function Splice(page: Page, off: nat, bytes: seq<nat>): (s: Page)
    requires off + |bytes| <= |page|
    ensures |s| == |page|
  {
    page[..off] + bytes + page[off + |bytes|..]
  }

  predicate HasBytes(page: Page, off: nat, bytes: seq<nat>) {
    off + |bytes| <= |page| && page[off..off + |bytes|] == bytes
  }

  /** Two pieces write no byte in common. */
  predicate Apart(a: Piece, b: Piece) {
    a.page != b.page || a.off + |a.bytes| <= b.off || b.off + |b.bytes| <= a.off
  }

  ghost predicate ApartFrom(pieces: seq<Piece>, jobs: seq<Job>) {
    forall i, j, k :: 0 <= i < |pieces| && 0 <= j < |jobs| && 0 <= k < |jobs[j].pieces| ==>
      Apart(pieces[i], jobs[j].pieces[k])
  }

  /** The buffer as disc_read_later captures it: each VA's page, resident, distinct bytes. */
  ghost predicate Captured(vm: State, pieces: seq<Piece>)
    requires Shaped(vm)
  {
    && (forall i :: 0 <= i < |pieces| ==>
          Resident(vm, pieces[i]))
    && (forall i, k :: 0 <= i < k < |pieces| ==> Apart(pieces[i], pieces[k]))
  }

  datatype Step =
    | Submit(pieces: seq<Piece>)      // disc_read_later
    | Take                            // the reader thread takes the oldest job
    | Write                           // ... reads the file into the next piece
    | Fail                            // ... or the read fails there
    | Finish                          // ... and hands the job over
    | Poll                            // nc_io_poll takes what is done
    | Complete                        // disc_read_done of the oldest taken
    | Allocate(next: State, w: nat, k: nat)   // a contiguous allocation, block [w, w + k)
    | Shuffle(next: State)                    // ... one that failed after some moves
    | TitleLock(p: nat, lock: int)
    | Title(next: State)              // the title: anything that leaves the buffers alone

  ghost predicate Enabled(r: Reader, a: Step)
    requires Shaped(r.vm)
  {
    match a
    case Submit(pieces) =>
      && Captured(r.vm, pieces) && ApartFrom(pieces, InFlight(r))
      && (forall p :: 0 <= p < r.vm.Pages() ==> LockCount(r.vm.pin[p]) + PiecesOn(pieces, p) < PIN_KNOWN)
    case Take => r.current.None? && r.queue != []
    case Write => r.current.Some? && r.current.value.0.ok && r.current.value.1 < |r.current.value.0.pieces|
    case Fail => r.current.Some? && r.current.value.0.ok && r.current.value.1 < |r.current.value.0.pieces|
    case Finish => r.current.Some? && (!r.current.value.0.ok || r.current.value.1 == |r.current.value.0.pieces|)
    case Poll => r.landing == []
    case Complete => r.landing != []
    case Allocate(next, w, k) => Placed(r.vm, next, w, k)
    case Shuffle(next) => SameMeaning(r.vm, next)
    case TitleLock(p, lock) =>
      p < r.vm.Pages() && p < |r.title| &&
      ((lock == 1 && LockCount(r.vm.pin[p]) < PIN_KNOWN - 1) || (lock == -1 && r.title[p] > 0))
    case Title(next) =>
      && Ok(next) && next.Pages() == r.vm.Pages() && next.pin == r.vm.pin
      && forall j, i :: 0 <= j < |InFlight(r)| && 0 <= i < |InFlight(r)[j].pieces| ==>
           Untouched(r.vm, next, InFlight(r)[j].pieces[i])
  }

  /** The title freed, moved and stored nothing there. */
  ghost predicate Untouched(a: State, b: State, c: Piece)
    requires Shaped(a) && Shaped(b)
  {
    Resident(a, c) ==>
      && b.pte[c.v] == a.pte[c.v] && c.page < |b.ram| && |b.ram[c.page]| == |a.ram[c.page]|
      && b.ram[c.page][c.off..c.off + |c.bytes|] == a.ram[c.page][c.off..c.off + |c.bytes|]
  }

  /** The guest finds the piece where it was captured. */
  predicate Resident(vm: State, c: Piece)
    requires Shaped(vm)
  {
    c.v < USER_PAGES && vm.pte[c.v] == Some(c.page) && c.off + |c.bytes| <= |vm.ram[c.page]|
  }

  /** nc_vm_dma.wrote over the pieces: their pages reported written. */
  function Report(vm: State, pieces: seq<Piece>): (s: State)
    requires Shaped(vm)
    ensures Shaped(s) && s.Pages() == vm.Pages()
    ensures s.pte == vm.pte && s.ram == vm.ram && s.used == vm.used && s.rmap == vm.rmap && s.pin == vm.pin
    decreases |pieces|
  {
    if pieces == [] then vm
    else
      var p := pieces[0].page;
      Report(if p < vm.Pages() then Retrack(vm, p, 1, false) else vm, pieces[1..])
  }

  /** A piece of the read is on page p. */
  predicate Touches(pieces: seq<Piece>, p: nat) { exists i :: 0 <= i < |pieces| && pieces[i].page == p }

  /** The report marks exactly the read's pages written. */
  lemma {:induction false} ReportMarks(vm: State, pieces: seq<Piece>, p: nat)
    requires Shaped(vm) && p < vm.Pages()
    ensures Report(vm, pieces).wp[p] == if Touches(pieces, p) then Untracked else vm.wp[p]
    decreases |pieces|
  {
    if pieces != [] {
      hide Retrack;
      var q := pieces[0].page;
      var vm1 := if q < vm.Pages() then Retrack(vm, q, 1, false) else vm;
      if q < vm.Pages() { RetrackWp(vm, q, 1, false); }
      ReportMarks(vm1, pieces[1..], p);
      if Touches(pieces, p) && q != p {
        var i :| 0 <= i < |pieces| && pieces[i].page == p;
        assert pieces[1..][i - 1].page == p;
      }
      if Touches(pieces[1..], p) {
        var i :| 0 <= i < |pieces[1..]| && pieces[1..][i].page == p;
        assert pieces[i + 1].page == p;
      }
    }
  }

  lemma CompletionReports(r: Reader)
    requires Inv(r) && Enabled(r, Complete)
    ensures var t := Next(r, Complete); var j := r.landing[0];
      forall p :: 0 <= p < t.vm.Pages() ==> t.vm.wp[p] == if Touches(j.pieces, p) then Untracked else r.vm.wp[p]
  {
    var j := r.landing[0];
    var vm := r.vm.(pin := PinBuffer(r.vm.pin, j.pieces, -1));
    hide Inv, Report, Touches;
    forall p | 0 <= p < vm.Pages() ensures Report(vm, j.pieces).wp[p] == if Touches(j.pieces, p) then Untracked else vm.wp[p] {
      ReportMarks(vm, j.pieces, p);
    }
  }

  function Next(r: Reader, a: Step): Reader
    requires Shaped(r.vm) && Enabled(r, a)
  {
    match a
    case Submit(pieces) =>
      if r.busy < JOBS
      then r.(vm := r.vm.(pin := PinBuffer(r.vm.pin, pieces, 1)), queue := r.queue + [Job(pieces, true)],
              busy := r.busy + 1, issued := r.issued + [pieces])
      else r                                                        // read in place instead
    case Take => r.(queue := r.queue[1..], current := Some((r.queue[0], 0)))
    case Write =>
      var (j, n) := r.current.value;
      var c := j.pieces[n];
      if c.page < |r.vm.ram| && c.off + |c.bytes| <= |r.vm.ram[c.page]|
      then r.(vm := r.vm.(ram := r.vm.ram[c.page := Splice(r.vm.ram[c.page], c.off, c.bytes)]), current := Some((j, n + 1)))
      else r
    case Fail => r.(current := Some((r.current.value.0.(ok := false), r.current.value.1)))
    case Finish => r.(current := None, done := r.done + [r.current.value.0])
    case Poll => r.(landing := r.done, done := [], busy := if r.busy >= |r.done| then r.busy - |r.done| else 0)
    case Complete =>
      var j := r.landing[0];
      r.(vm := Report(r.vm.(pin := PinBuffer(r.vm.pin, j.pieces, -1)), j.pieces),
         landing := r.landing[1..], completed := r.completed + [j])
    case Allocate(next, _, _) => r.(vm := next)
    case Shuffle(next) => r.(vm := next)
    case TitleLock(p, lock) =>
      r.(vm := r.vm.(pin := r.vm.pin[p := PinValue(r.vm.pin[p], false, lock)]), title := r.title[p := r.title[p] + lock])
    case Title(next) => r.(vm := next)
  }

  // ---- The invariant ----

  function PiecesOf(jobs: seq<Job>): (s: seq<seq<Piece>>)
    ensures |s| == |jobs|
  {
    seq(|jobs|, i requires 0 <= i < |jobs| => jobs[i].pieces)
  }

  /** queued + in progress + done == busy, and neither array overflows. */
  predicate Counted(r: Reader) {
    |r.queue| + |CurrentJobs(r)| + |r.done| == r.busy <= JOBS
  }

  /** Each page's count is the title's locks and one for each piece in flight. */
  ghost predicate Pinned(r: Reader)
    requires Shaped(r.vm)
  {
    && |r.title| == r.vm.Pages()
    && forall p :: 0 <= p < r.vm.Pages() ==> LockCount(r.vm.pin[p]) == r.title[p] + JobsOn(InFlight(r), p)
  }

  ghost predicate AllResident(r: Reader)
    requires Shaped(r.vm)
  {
    forall j, i :: 0 <= j < |InFlight(r)| && 0 <= i < |InFlight(r)[j].pieces| ==> Resident(r.vm, InFlight(r)[j].pieces[i])
  }

  /** No two pieces in flight share a byte. */
  ghost predicate AllApart(jobs: seq<Job>) {
    forall j, i, j', i' |
        0 <= j < |jobs| && 0 <= i < |jobs[j].pieces| && 0 <= j' < |jobs| && 0 <= i' < |jobs[j'].pieces| && (j != j' || i != i') ::
      Apart(jobs[j].pieces[i], jobs[j'].pieces[i'])
  }

  /** The first n pieces of a job hold the file's bytes. */
  ghost predicate Holds(vm: State, pieces: seq<Piece>, n: nat)
    requires Shaped(vm)
  {
    n <= |pieces| && forall i :: 0 <= i < n ==>
      pieces[i].page < |vm.ram| && HasBytes(vm.ram[pieces[i].page], pieces[i].off, pieces[i].bytes)
  }

  ghost predicate Landed(r: Reader)
    requires Shaped(r.vm)
  {
    && (forall j :: 0 <= j < |r.landing| && r.landing[j].ok ==> Holds(r.vm, r.landing[j].pieces, |r.landing[j].pieces|))
    && (forall j :: 0 <= j < |r.done| && r.done[j].ok ==> Holds(r.vm, r.done[j].pieces, |r.done[j].pieces|))
    && (r.current.Some? && r.current.value.0.ok ==> Holds(r.vm, r.current.value.0.pieces, r.current.value.1))
  }

  ghost predicate Inv(r: Reader) {
    && Ok(r.vm)
    && Counted(r)
    && PiecesOf(r.completed + InFlight(r)) == r.issued
    && Pinned(r)
    && AllResident(r)
    && AllApart(InFlight(r))
    && Landed(r)
  }

  lemma MovesKeepInv(r: Reader, next: State)
    requires Inv(r) && Ok(next) && next.Pages() == r.vm.Pages() && next.pin == r.vm.pin
    requires forall v: nat :: r.vm.Mapped(v) ==> next.Mapped(v) && next.Read(v) == r.vm.Read(v)
    requires forall v: nat :: r.vm.Mapped(v) && r.vm.pin[r.vm.pte[v].value] != 0 ==> next.pte[v] == r.vm.pte[v]
    ensures Inv(r.(vm := next))
  {
    var t := r.(vm := next);
    var jobs := InFlight(r);
    assert InFlight(t) == jobs;
    forall j, i | 0 <= j < |jobs| && 0 <= i < |jobs[j].pieces|
      ensures Resident(next, jobs[j].pieces[i]) && next.ram[jobs[j].pieces[i].page] == r.vm.ram[jobs[j].pieces[i].page]
    {
      var c := jobs[j].pieces[i];
      assert Resident(r.vm, c);
      JobsOnMember(jobs, j, i);
      assert r.vm.Mapped(c.v) && r.vm.pin[c.page] != 0;
      assert next.Read(c.v) == r.vm.Read(c.v);
    }
    LandedFrame(r, t);
  }

  /** What is read stays read while the buffers' bytes do. */
  lemma LandedFrame(r: Reader, t: Reader)
    requires Shaped(r.vm) && Shaped(t.vm) && Landed(r)
    requires t.landing == r.landing && t.done == r.done && t.current == r.current
    requires forall j, i :: 0 <= j < |InFlight(r)| && 0 <= i < |InFlight(r)[j].pieces| ==>
      var c := InFlight(r)[j].pieces[i];
      c.page < |r.vm.ram| && c.page < |t.vm.ram| && (HasBytes(r.vm.ram[c.page], c.off, c.bytes) ==> HasBytes(t.vm.ram[c.page], c.off, c.bytes))
    ensures Landed(t)
  {
    var jobs := InFlight(r);
    forall j | 0 <= j < |r.landing| && r.landing[j].ok ensures Holds(t.vm, r.landing[j].pieces, |r.landing[j].pieces|) {
      assert jobs[j] == r.landing[j];
    }
    forall j | 0 <= j < |r.done| && r.done[j].ok ensures Holds(t.vm, r.done[j].pieces, |r.done[j].pieces|) {
      assert jobs[|r.landing| + j] == r.done[j];
    }
    if r.current.Some? && r.current.value.0.ok {
      assert jobs[|r.landing| + |r.done|] == r.current.value.0;
    }
  }

  lemma {:induction false} JobsOnPieces(a: seq<Job>, b: seq<Job>, p: nat)
    requires |a| == |b| && forall j :: 0 <= j < |a| ==> a[j].pieces == b[j].pieces
    ensures JobsOn(a, p) == JobsOn(b, p)
  {
    if a != [] { JobsOnPieces(a[1..], b[1..], p); }
  }

  lemma SubmitPins(r: Reader, pieces: seq<Piece>)
    requires Inv(r) && Enabled(r, Submit(pieces)) && r.busy < JOBS
    ensures Pinned(Next(r, Submit(pieces)))
    ensures InFlight(Next(r, Submit(pieces))) == InFlight(r) + [Job(pieces, true)]
  {
    hide AllResident, AllApart, Landed, ApartFrom, Captured;
    var t := Next(r, Submit(pieces));
    var job := Job(pieces, true);
    assert InFlight(t) == InFlight(r) + [job];
    forall p | 0 <= p < t.vm.Pages() ensures LockCount(t.vm.pin[p]) == t.title[p] + JobsOn(InFlight(t), p) {
      PinBufferUp(r.vm.pin, pieces, p);
      JobsOnAppend(InFlight(r), [job], p);
      assert JobsOn([job], p) == PiecesOn(pieces, p) + JobsOn([job][1..], p);
    }
  }

  lemma AppendApart(jobs: seq<Job>, pieces: seq<Piece>)
    requires AllApart(jobs) && ApartFrom(pieces, jobs)
    requires forall i, k :: 0 <= i < k < |pieces| ==> Apart(pieces[i], pieces[k])
    ensures AllApart(jobs + [Job(pieces, true)])
  {
    forall i, k | 0 <= i < |pieces| && 0 <= k < |pieces| && i != k ensures Apart(pieces[i], pieces[k]) {
      if i < k { assert Apart(pieces[i], pieces[k]); } else { assert Apart(pieces[k], pieces[i]); }
    }
  }

  lemma SubmitKeepsInv(r: Reader, pieces: seq<Piece>)
    requires Inv(r) && Enabled(r, Submit(pieces))
    ensures Inv(Next(r, Submit(pieces)))
  {
    hide Pinned, PinBuffer, LockCount, PiecesOn, AllApart, Apart, ApartFrom, Landed, HasBytes, PiecesOf;
    if r.busy < JOBS {
      SubmitPins(r, pieces);
      AppendApart(InFlight(r), pieces);
      SubmitJoins(r, pieces);
      LandedFrame(r, Next(r, Submit(pieces)));
    }
  }

  /** The job joins those in flight, its pieces where they were captured. */
  lemma SubmitJoins(r: Reader, pieces: seq<Piece>)
    requires Inv(r) && Enabled(r, Submit(pieces)) && r.busy < JOBS
    ensures var t := Next(r, Submit(pieces));
      && InFlight(t) == InFlight(r) + [Job(pieces, true)]
      && PiecesOf(t.completed + InFlight(t)) == t.issued
      && Shaped(t.vm) && AllResident(t)
  {
    hide Pinned, PinBuffer, LockCount, PiecesOn, AllApart, Apart, ApartFrom, Landed;
    var t := Next(r, Submit(pieces));
    var a := InFlight(r);
    assert InFlight(t) == a + [Job(pieces, true)];
    assert t.completed + InFlight(t) == (r.completed + a) + [Job(pieces, true)];
    forall j, i | 0 <= j < |InFlight(t)| && 0 <= i < |InFlight(t)[j].pieces| ensures Resident(t.vm, InFlight(t)[j].pieces[i]) {
      if j < |a| { assert Resident(r.vm, a[j].pieces[i]); } else { assert Resident(r.vm, pieces[i]); }
    }
  }

  lemma HandOversKeepInv(r: Reader, a: Step)
    requires Inv(r) && Enabled(r, a) && (a.Take? || a.Poll? || a.Finish?)
    ensures Inv(Next(r, a)) && InFlight(Next(r, a)) == InFlight(r)
  {
    var t := Next(r, a);
    if a.Take? {
      assert CurrentJobs(t) == [r.queue[0]] && r.queue == [r.queue[0]] + r.queue[1..];
    } else if a.Finish? {
      assert t.done == r.done + CurrentJobs(r);
    }
    assert InFlight(t) == InFlight(r);
  }

  lemma FailKeepsInv(r: Reader)
    requires Inv(r) && Enabled(r, Fail)
    ensures Inv(Next(r, Fail))
  {
    var t := Next(r, Fail);
    var a, b := InFlight(r), InFlight(t);
    assert |a| == |b| && forall j :: 0 <= j < |a| ==> a[j].pieces == b[j].pieces;
    assert PiecesOf(t.completed + b) == PiecesOf(r.completed + a);
    forall p | 0 <= p < t.vm.Pages() ensures LockCount(t.vm.pin[p]) == t.title[p] + JobsOn(b, p) {
      JobsOnPieces(a, b, p);
    }
  }

  /** The bytes of one piece go in; every other piece keeps its own. */
  lemma SpliceApart(page: Page, c: Piece, d: Piece)
    requires c.page == d.page && Apart(c, d)
    requires c.off + |c.bytes| <= |page| && HasBytes(page, d.off, d.bytes)
    ensures HasBytes(Splice(page, c.off, c.bytes), d.off, d.bytes)
  {
    var s := Splice(page, c.off, c.bytes);
    assert forall i :: d.off <= i < d.off + |d.bytes| ==> s[i] == page[i] || |c.bytes| == 0;
    assert s[d.off..d.off + |d.bytes|] == page[d.off..d.off + |d.bytes|];
  }

  lemma WriteKeepsInv(r: Reader)
    requires Inv(r) && Enabled(r, Write)
    ensures Inv(Next(r, Write))
  {
    var (j, n) := r.current.value;
    var c := j.pieces[n];
    var m := |r.landing| + |r.done|;
    assert InFlight(r)[m] == j;
    assert Resident(r.vm, c);
    var t := Next(r, Write);
    assert InFlight(t) == InFlight(r);
    assert HasBytes(t.vm.ram[c.page], c.off, c.bytes);
    WriteLeavesOthers(r.vm, InFlight(r), m, n);
    hide Pinned, Counted, AllApart, Apart, HasBytes, Resident;
    LandedFrame(r, t.(current := r.current));
  }

  /** A piece written leaves the pieces where they are, and the bytes of the others. */
  lemma WriteLeavesOthers(vm: State, jobs: seq<Job>, m: nat, n: nat)
    requires Ok(vm) && m < |jobs| && n < |jobs[m].pieces| && Resident(vm, jobs[m].pieces[n]) && AllApart(jobs)
    requires forall x, i :: 0 <= x < |jobs| && 0 <= i < |jobs[x].pieces| ==> Resident(vm, jobs[x].pieces[i])
    ensures var c := jobs[m].pieces[n];
      var after := vm.ram[c.page := Splice(vm.ram[c.page], c.off, c.bytes)];
      forall x, i :: 0 <= x < |jobs| && 0 <= i < |jobs[x].pieces| ==> var d := jobs[x].pieces[i];
        Resident(vm.(ram := after), d) && (HasBytes(vm.ram[d.page], d.off, d.bytes) ==> HasBytes(after[d.page], d.off, d.bytes))
  {
    var c := jobs[m].pieces[n];
    var after := vm.ram[c.page := Splice(vm.ram[c.page], c.off, c.bytes)];
    assert HasBytes(after[c.page], c.off, c.bytes);
    forall x, i | 0 <= x < |jobs| && 0 <= i < |jobs[x].pieces|
      ensures var d := jobs[x].pieces[i];
        Resident(vm.(ram := after), d) && (HasBytes(vm.ram[d.page], d.off, d.bytes) ==> HasBytes(after[d.page], d.off, d.bytes))
    {
      var d := jobs[x].pieces[i];
      assert Resident(vm, d);
      if d.page == c.page && HasBytes(vm.ram[d.page], d.off, d.bytes) && (x != m || i != n) {
        assert Apart(jobs[m].pieces[n], jobs[x].pieces[i]);
        SpliceApart(vm.ram[c.page], c, d);
      }
    }
  }

  lemma TitleKeepsInv(r: Reader, next: State)
    requires Inv(r) && Enabled(r, Title(next))
    ensures Inv(Next(r, Title(next)))
  {
    var t := Next(r, Title(next));
    assert InFlight(t) == InFlight(r);
    forall j, i | 0 <= j < |InFlight(r)| && 0 <= i < |InFlight(r)[j].pieces|
      ensures var c := InFlight(r)[j].pieces[i];
        Resident(next, c) && (HasBytes(r.vm.ram[c.page], c.off, c.bytes) ==> HasBytes(next.ram[c.page], c.off, c.bytes))
    {
      assert Resident(r.vm, InFlight(r)[j].pieces[i]);
      assert Untouched(r.vm, next, InFlight(r)[j].pieces[i]);
    }
    LandedFrame(r, t);
  }

  lemma AllocateKeepsInv(r: Reader, next: State, w: nat, k: nat)
    requires Inv(r) && Enabled(r, Allocate(next, w, k))
    ensures Inv(Next(r, Allocate(next, w, k)))
  {
    PlacedMeans(r.vm, next, w, k);
    MovesKeepInv(r, next);
  }

  lemma ShuffleKeepsInv(r: Reader, next: State)
    requires Inv(r) && Enabled(r, Shuffle(next))
    ensures Inv(Next(r, Shuffle(next)))
  {
    MovesKeepInv(r, next);
  }

  lemma TitleLockKeepsInv(r: Reader, p: nat, lock: int)
    requires Inv(r) && Enabled(r, TitleLock(p, lock))
    ensures Inv(Next(r, TitleLock(p, lock)))
  {
    var t := Next(r, TitleLock(p, lock));
    assert InFlight(t) == InFlight(r);
    TitleLockPins(r, p, lock);
    hide Pinned, AllApart, LockCount;
    LandedFrame(r, t);
  }

  lemma TitleLockPins(r: Reader, p: nat, lock: int)
    requires Inv(r) && Enabled(r, TitleLock(p, lock))
    ensures Ok(Next(r, TitleLock(p, lock)).vm) && Pinned(Next(r, TitleLock(p, lock)))
  {
    hide AllResident, AllApart, Landed;
    assert InFlight(Next(r, TitleLock(p, lock))) == InFlight(r);
  }

  lemma CompletionPins(r: Reader)
    requires Inv(r) && Enabled(r, Complete)
    ensures var t := Next(r, Complete); var j := r.landing[0];
      && Pinned(t)
      && (forall p :: 0 <= p < t.vm.Pages() ==> LockCount(t.vm.pin[p]) == LockCount(r.vm.pin[p]) - PiecesOn(j.pieces, p))
  {
    hide AllResident, AllApart, Landed, Counted;
    var t := Next(r, Complete);
    var j := r.landing[0];
    var a, b := InFlight(r), InFlight(t);
    assert a == [j] + b;
    forall p | 0 <= p < t.vm.Pages()
      ensures LockCount(t.vm.pin[p]) == LockCount(r.vm.pin[p]) - PiecesOn(j.pieces, p) == t.title[p] + JobsOn(b, p)
    {
      assert a[1..] == b;
      assert JobsOn(a, p) == PiecesOn(j.pieces, p) + JobsOn(b, p);
      PinBufferDown(r.vm.pin, j.pieces, p);
    }
  }

  lemma CompletionApart(a: seq<Job>, b: seq<Job>)
    requires a != [] && b == a[1..] && AllApart(a)
    ensures AllApart(b)
  {
    forall x, i, x', i' |
        0 <= x < |b| && 0 <= i < |b[x].pieces| && 0 <= x' < |b| && 0 <= i' < |b[x'].pieces| && (x != x' || i != i')
      ensures Apart(b[x].pieces[i], b[x'].pieces[i'])
    {
      assert Apart(a[x + 1].pieces[i], a[x' + 1].pieces[i']);
    }
  }

  /** The VAs and the bytes of memory are as they were. */
  lemma CompletionFrame(r: Reader)
    requires Inv(r) && Enabled(r, Complete)
    ensures var t := Next(r, Complete);
      && Ok(t.vm) && t.vm.Pages() == r.vm.Pages() && t.vm.pte == r.vm.pte && t.vm.ram == r.vm.ram
      && InFlight(r) == [r.landing[0]] + InFlight(t) && AllResident(t) && Counted(t)
      && PiecesOf(t.completed + InFlight(t)) == t.issued
  {
    hide Pinned, AllApart, PinBuffer, LockCount, Landed, Report, PiecesOf;
    var t := Next(r, Complete);
    var a, b := InFlight(r), InFlight(t);
    assert a == [r.landing[0]] + b;
    assert t.completed + b == r.completed + a;
    forall x, i | 0 <= x < |b| && 0 <= i < |b[x].pieces| ensures Resident(t.vm, b[x].pieces[i]) {
      assert b[x] == a[x + 1] && Resident(r.vm, a[x + 1].pieces[i]);
    }
  }

  lemma CompletionLanded(r: Reader)
    requires Inv(r) && Enabled(r, Complete) && Shaped(Next(r, Complete).vm) && Next(r, Complete).vm.ram == r.vm.ram
    ensures Landed(Next(r, Complete))
  {
    hide Pinned, AllApart, AllResident, PinBuffer, Report;
    var t := Next(r, Complete);
    assert forall x :: 0 <= x < |t.landing| ==> t.landing[x] == r.landing[x + 1];
  }

  /** The oldest read lands where the guest looks: at its completion every buffer VA still maps the page
      the reader wrote, which holds the file's bytes there if the read succeeded; exactly those pages become
      reported written, and their pins are back to the title's and the other reads'. */
  ghost predicate Lands(r: Reader)
    requires Shaped(r.vm) && Enabled(r, Complete)
  {
    var t := Next(r, Complete); var j := r.landing[0];
    && Shaped(t.vm) && t.vm.Pages() == r.vm.Pages()
    && (forall c :: c in j.pieces ==>
          && Resident(t.vm, c) && c.page < t.vm.Pages() && Tracking.Dirty(t.vm, c.page)
          && (j.ok ==> t.vm.Mapped(c.v) && HasBytes(t.vm.Read(c.v), c.off, c.bytes)))
    && (forall p :: 0 <= p < t.vm.Pages() ==>
          && t.vm.wp[p] == (if Touches(j.pieces, p) then Untracked else r.vm.wp[p])
          && LockCount(t.vm.pin[p]) == LockCount(r.vm.pin[p]) - PiecesOn(j.pieces, p))
  }

  lemma ReadLands(r: Reader)
    requires Inv(r) && Enabled(r, Complete)
    ensures Inv(Next(r, Complete)) && Lands(r)
  {
    hide Pinned, AllApart, Next, Landed, Counted, PiecesOf, HasBytes;
    CompletionPins(r);
    CompletionFrame(r);
    CompletionLanded(r);
    CompletionReports(r);
    LandingHolds(r);
    var t := Next(r, Complete);
    var j := r.landing[0];
    var a, b := InFlight(r), InFlight(t);
    CompletionApart(a, b);
    forall i | 0 <= i < |j.pieces| ensures Resident(t.vm, j.pieces[i]) && Tracking.Dirty(t.vm, j.pieces[i].page) {
      assert Resident(r.vm, a[0].pieces[i]) && Touches(j.pieces, j.pieces[i].page);
    }
  }

  lemma LandingHolds(r: Reader)
    requires Inv(r) && r.landing != []
    ensures r.landing[0].ok ==> Holds(r.vm, r.landing[0].pieces, |r.landing[0].pieces|)
  {
  }

  lemma NextKeepsInv(r: Reader, a: Step)
    requires Inv(r) && Enabled(r, a)
    ensures Inv(Next(r, a))
  {
    hide Inv, Enabled, Next;
    match a
    case Submit(pieces) => SubmitKeepsInv(r, pieces);
    case Take => HandOversKeepInv(r, a);
    case Write => WriteKeepsInv(r);
    case Fail => FailKeepsInv(r);
    case Finish => HandOversKeepInv(r, a);
    case Poll => HandOversKeepInv(r, a);
    case Complete => ReadLands(r);
    case Allocate(next, w, k) => AllocateKeepsInv(r, next, w, k);
    case Shuffle(next) => ShuffleKeepsInv(r, next);
    case TitleLock(p, lock) => TitleLockKeepsInv(r, p, lock);
    case Title(next) => TitleKeepsInv(r, next);
  }

  // ---- Whole runs ----

  function Start(vm: State): Reader {
    Reader(vm, seq(|vm.pin|, p requires 0 <= p < |vm.pin| => LockCount(vm.pin[p])), [], None, [], [], [], 0, [])
  }

  ghost predicate CanRun(r: Reader, steps: seq<Step>)
    decreases |steps|
  {
    steps == [] || (Shaped(r.vm) && Enabled(r, steps[0]) && CanRun(Next(r, steps[0]), steps[1..]))
  }

  ghost function Run(r: Reader, steps: seq<Step>): Reader
    requires CanRun(r, steps)
    decreases |steps|
  {
    if steps == [] then r else Run(Next(r, steps[0]), steps[1..])
  }

  /** Every read the run completes lands. */
  ghost predicate AllLand(r: Reader, steps: seq<Step>)
    requires CanRun(r, steps)
    decreases |steps|
  {
    steps == [] || ((steps[0].Complete? ==> Lands(r)) && AllLand(Next(r, steps[0]), steps[1..]))
  }

  lemma {:induction false} RunKeepsInv(r: Reader, steps: seq<Step>)
    requires Inv(r) && CanRun(r, steps)
    ensures Inv(Run(r, steps)) && AllLand(r, steps)
    decreases |steps|
  {
    hide Inv, Lands, Next, Enabled;
    if steps != [] {
      NextKeepsInv(r, steps[0]);
      if steps[0].Complete? { ReadLands(r); }
      RunKeepsInv(Next(r, steps[0]), steps[1..]);
    }
  }

  /** Over any run from any consistent memory: the counters agree and the arrays never overflow, each
      request is in exactly one place, completed in the order it was queued; no buffer page in flight can
      move; and every read lands when it completes. */
  lemma ReadsAreConserved(vm: State, steps: seq<Step>)
    requires Ok(vm) && CanRun(Start(vm), steps)
    ensures var r := Run(Start(vm), steps);
      && Shaped(r.vm) && Counted(r)
      && PiecesOf(r.completed + InFlight(r)) == r.issued
      && (forall j, i :: 0 <= j < |InFlight(r)| && 0 <= i < |InFlight(r)[j].pieces| ==>
            Resident(r.vm, InFlight(r)[j].pieces[i]) && !Movable(r.vm, InFlight(r)[j].pieces[i].page))
    ensures AllLand(Start(vm), steps)
  {
    StartInv(vm);
    RunKeepsInv(Start(vm), steps);
    var r := Run(Start(vm), steps);
    forall j, i | 0 <= j < |InFlight(r)| && 0 <= i < |InFlight(r)[j].pieces|
      ensures Resident(r.vm, InFlight(r)[j].pieces[i]) && !Movable(r.vm, InFlight(r)[j].pieces[i].page)
    {
      JobsOnMember(InFlight(r), j, i);
    }
  }

  lemma StartInv(vm: State)
    requires Ok(vm)
    ensures Inv(Start(vm))
  {
    var r := Start(vm);
    assert InFlight(r) == [];
    assert PiecesOf(r.completed + InFlight(r)) == r.issued;
  }

  // ---- Reads end ----

  function Left(jobs: seq<Job>): nat { if jobs == [] then 0 else |jobs[0].pieces| + 4 + Left(jobs[1..]) }

  /** At most how many steps of the reader and of the title's polls are left. */
  function WorkLeft(r: Reader): nat {
    Left(r.queue) + 2 * |r.done| + |r.landing| +
    if r.current.None? then 0
    else 3 + if r.current.value.0.ok && r.current.value.1 <= |r.current.value.0.pieces| then |r.current.value.0.pieces| - r.current.value.1 else 0
  }

  /** One of the reader's steps, or of the title's taking what is done. */
  predicate OfRead(r: Reader, a: Step) { a.Take? || a.Write? || a.Fail? || a.Finish? || a.Complete? || (a.Poll? && r.done != []) }

  /** Each of them leaves less to do. */
  lemma StepsLessWork(r: Reader, a: Step)
    requires Inv(r) && Enabled(r, a) && OfRead(r, a)
    ensures WorkLeft(Next(r, a)) < WorkLeft(r)
  {
    hide AllApart, Pinned, PiecesOf, Report, PinBuffer, Counted;
    if a.Write? {
      var (j, n) := r.current.value;
      assert InFlight(r)[|r.landing| + |r.done|] == j;
      assert Resident(r.vm, j.pieces[n]);
    }
  }

  /** What the allocator and the title do leaves the jobs alone. */
  lemma OthersLeaveJobs(r: Reader, a: Step)
    requires Inv(r) && Enabled(r, a)
    ensures a.Allocate? || a.Shuffle? || a.Title? ==> Next(r, a) == r.(vm := a.next)
    ensures a.TitleLock? ==>
              var t := Next(r, a);
              && t == r.(vm := t.vm, title := t.title)
              && t.title == r.title[a.p := r.title[a.p] + a.lock] && t.vm == r.vm.(pin := r.vm.pin[a.p := r.vm.pin[a.p] + a.lock])
  {
    hide AllApart, AllResident, Landed, PiecesOf, Report, PinBuffer, Counted;
    if a.TitleLock? { assert LockCount(r.vm.pin[a.p]) == r.title[a.p] + JobsOn(InFlight(r), a.p); }
  }

  /** The step that is next while a read is in flight. */
  function NextStep(r: Reader): Step {
    if r.landing != [] then Complete
    else if r.done != [] then Poll
    else if r.current.None? then Take
    else if r.current.value.0.ok && r.current.value.1 < |r.current.value.0.pieces| then Write
    else Finish
  }

  lemma ReaderGoesOn(r: Reader)
    requires Inv(r) && InFlight(r) != []
    ensures Enabled(r, NextStep(r)) && OfRead(r, NextStep(r))
  {
    hide AllApart, Pinned, PiecesOf, Counted, AllResident;
  }

  /** From every state the reader and the title's polls complete what was queued, in as many steps as there are
      pieces and four for each read; then every read queued is completed. */
  lemma {:induction false} EveryReadCompletes(r: Reader) returns (steps: seq<Step>)
    requires Inv(r)
    ensures |steps| <= WorkLeft(r) && CanRun(r, steps)
    ensures forall k :: 0 <= k < |steps| ==> !steps[k].Fail? && !steps[k].Submit?
    ensures InFlight(Run(r, steps)) == [] && PiecesOf(Run(r, steps).completed) == r.issued
    decreases WorkLeft(r)
  {
    if InFlight(r) == [] {
      steps := [];
      assert r.completed + InFlight(r) == r.completed;
    } else {
      hide Inv, Enabled, InFlight, WorkLeft;
      ReaderGoesOn(r);
      StepsLessWork(r, NextStep(r));
      NextKeepsInv(r, NextStep(r));
      InvShaped(r);
      var t := Next(r, NextStep(r));
      var rest := EveryReadCompletes(t);
      steps := [NextStep(r)] + rest;
      assert steps[1..] == rest;
      IssuedStays(r, NextStep(r));
    }
  }

  lemma InvShaped(r: Reader)
    requires Inv(r)
    ensures Shaped(r.vm)
  {
  }

  lemma IssuedStays(r: Reader, a: Step)
    requires Shaped(r.vm) && Enabled(r, a) && !a.Submit?
    ensures Next(r, a).issued == r.issued
  {
    hide Enabled;
  }

  /** No job failed. */
  predicate NoneFailed(r: Reader) {
    && (forall j :: j in r.completed ==> j.ok) && (forall j :: j in r.landing ==> j.ok) && (forall j :: j in r.done ==> j.ok)
    && (forall j :: j in r.queue ==> j.ok) && (r.current.Some? ==> r.current.value.0.ok)
  }

  /** A read is reported failed only if reading the file failed. */
  lemma {:induction false} FailsOnlyIfReadFails(r: Reader, steps: seq<Step>)
    requires CanRun(r, steps) && NoneFailed(r) && forall k :: 0 <= k < |steps| ==> !steps[k].Fail?
    ensures NoneFailed(Run(r, steps))
    decreases |steps|
  {
    hide Enabled;
    if steps != [] {
      StepFailsNone(r, steps[0]);
      hide NoneFailed, Next;
      FailsOnlyIfReadFails(Next(r, steps[0]), steps[1..]);
    }
  }

  lemma StepFailsNone(r: Reader, a: Step)
    requires Shaped(r.vm) && Enabled(r, a) && NoneFailed(r) && !a.Fail?
    ensures NoneFailed(Next(r, a))
  {
  }

  // ---- The ring, in place ----

  /** The k-th slot from head round the ring. */
  function Slot(head: nat, k: nat): (i: nat)
    ensures i < JOBS
  {
    (head + k) % JOBS
  }

  lemma FirstSlot(head: nat)
    requires head < JOBS
    ensures Slot(head, 0) == head
  {
  }

  lemma NextSlot(head: nat, k: nat)
    ensures Slot(Slot(head, 1), k) == Slot(head, k + 1)
  {
  }

  /** The next free slot is none of those in use. */
  lemma SlotsApart(head: nat, k: nat, n: nat)
    requires k < n < JOBS
    ensures Slot(head, k) != Slot(head, n)
  {
  }

  /** g_reader's arrays and counters.  A job being read is with the reader thread. */
  class Ring {
    const q: array<Job>
    const done: array<Job>
    var head: nat
    var n: nat
    var ndone: nat
    var busy: nat

    ghost predicate Valid()
      reads this, q, done
    {
      q != done && q.Length == done.Length == JOBS && head < JOBS && n <= JOBS && ndone <= JOBS && n + ndone <= busy <= JOBS
    }

    /** The queued jobs, oldest first. */
    ghost function Queue(): seq<Job>
      reads this, q, done
      requires Valid()
    {
      seq(n, i requires 0 <= i < n && Valid() reads this, q, done => q[Slot(head, i)])
    }

    constructor (idle: Job)
      ensures Valid() && Queue() == [] && done[..ndone] == [] && busy == 0
    {
      q, done := new Job[JOBS](_ => idle), new Job[JOBS](_ => idle);
      head, n, ndone, busy := 0, 0, 0, 0;
    }

    /** disc_read_later's critical section: queued behind the others, unless all slots are taken. */
    method Submit(j: Job) returns (queued: bool)
      requires Valid()
      modifies this, q
      ensures Valid() && queued == (old(busy) < JOBS) && done[..ndone] == old(done[..ndone])
      ensures Queue() == if queued then old(Queue()) + [j] else old(Queue())
      ensures busy == old(busy) + if queued then 1 else 0
    {
      queued := busy < JOBS;
      if queued {
        ghost var was := Queue();
        hide Slot;
        q[Slot(head, n)] := j;
        n := n + 1;
        busy := busy + 1;
        forall k | 0 <= k < |was| ensures Queue()[k] == was[k] { SlotsApart(head, k, |was|); }
        assert Queue() == was + [j];
      }
    }

    /** The reader takes the oldest. */
    method Take() returns (j: Job)
      requires Valid() && n > 0
      modifies this
      ensures Valid() && [j] + Queue() == old(Queue()) && done[..ndone] == old(done[..ndone]) && busy == old(busy)
      ensures n + ndone < busy
    {
      ghost var was := Queue();
      ghost var from := head;
      hide Slot;
      FirstSlot(head);
      j := q[head];
      head := Slot(head, 1);
      n := n - 1;
      forall k | 0 <= k < n ensures Queue()[k] == was[k + 1] { NextSlot(from, k); }
      assert [j] + Queue() == was;
    }

    /** The reader hands the job it took over. */
    method Finish(j: Job)
      requires Valid() && n + ndone < busy
      modifies this, done
      ensures Valid() && Queue() == old(Queue()) && done[..ndone] == old(done[..ndone]) + [j] && busy == old(busy)
    {
      done[ndone] := j;
      ndone := ndone + 1;
    }

    /** nc_io_poll's critical section: all that is done, taken. */
    method Poll() returns (jobs: seq<Job>)
      requires Valid()
      modifies this
      ensures Valid() && jobs == old(done[..ndone]) && ndone == 0 && Queue() == old(Queue()) && busy == old(busy) - |jobs|
    {
      jobs := done[..ndone];
      busy := busy - ndone;
      ndone := 0;
    }
  }
}
