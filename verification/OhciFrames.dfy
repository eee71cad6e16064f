/** Which descriptors a frame serves, and when its done queue goes back.  (native/dev/ohci.c) */
module OhciFrames {
  import opened Wrappers
  import opened TransferBuffer
  import opened Ohci

  // ---- One packet ----

  /** The packet moved all it was to, or an IN that may be short some of it. */
  predicate Good(ed: Ed, td: Td, reply: Reply) {
    reply.Moved? && (|reply.data| >= Len(td.cbp, td.be) || (IsIn(ed, td) && td.rounding))
  }

  /** What a TD and its ED say of the answer: the data toggle goes on, TD and ED alike, where the packet was good, and
      neither changes where it was not; the condition names the fault, and a fault halts the ED. */
  predicate Says(td: Td, ed: Ed, reply: Reply, td1: Td, ed1: Ed) {
    && td1.errors == 0 && td1.rounding == td.rounding && td1.direction == td.direction && td1.delay == td.delay && td1.be == td.be
    && (!reply.Moved? ==> td1.cbp == td.cbp)
    && ed1.skip == ed.skip && ed1.direction == ed.direction && ed1.tail == ed.tail && ed1.next == ed.next
    && (Good(ed, td, reply) ==>
          && td1.cc == CC_NOERROR && td1.toggle1 && td1.toggle0 == !td.toggle0 && ed1.carry == td1.toggle0
          && ed1.halted == ed.halted)
    && (!Good(ed, td, reply) ==>
          && td1.cc == (if reply.Moved? then CC_DATAUNDERRUN else if reply.Stall? then CC_STALL else CC_DEVICENOTRESPONDING)
          && td1.toggle1 == td.toggle1 && td1.toggle0 == td.toggle0 && ed1.carry == ed.carry && ed1.halted)
  }

  lemma AnsweredSays(td: Td, ed: Ed, reply: Reply)
    requires Len(td.cbp, td.be) <= MAX && !reply.Nak?
    ensures var (td1, ed1) := Answered(ed, td, reply); Says(td, ed, reply, td1, ed1)
  {
    hide Advanced, Len;
  }

  lemma SoundKept(td: Td, ed: Ed, reply: Reply)
    requires Len(td.cbp, td.be) <= MAX && !reply.Nak?
    ensures var td1 := Answered(ed, td, reply).0; Len(td1.cbp, td1.be) <= MAX
  {
    var len := Len(td.cbp, td.be);
    var r := if reply.Moved? then Min(|reply.data|, len) else 0;
    if reply.Moved? && r < len {
      ShortTransferExactly(td.cbp, td.be, r);
      hide Advanced, Continues, Crosses;
    }
  }

  /** A retired TD says what its device answered; the done list waits no longer than the TD asks, and not at all
      after a fault. */
  lemma RetiredSays(h: Hc, e: nat)
    requires e in h.eds && ServiceTd(h, e).0.log != h.log
    ensures var r := ServiceTd(h, e).0; var x := h.eds[e].head;
      && RetiredTo(h, e, r) && h.replies != [] && !h.replies[0].Nak?
      && Len(h.tds[x].cbp, h.tds[x].be) <= MAX && Len(r.tds[x].cbp, r.tds[x].be) <= MAX
      && Says(h.tds[x], h.eds[e], h.replies[0], r.tds[x], r.eds[e])
      && r.doneCount == (if Good(h.eds[e], h.tds[x], h.replies[0]) then Min(h.tds[x].delay, h.doneCount) else 0)
      && r.replies == h.replies[1..] && r.clf == h.clf && r.blf == h.blf && r.wdh == h.wdh && r.hcca == h.hcca
      && ServiceTd(h, e).1 == !r.eds[e].halted
  {
    hide Answered, Received, Len, Min;
    var x := h.eds[e].head;
    AnsweredSays(h.tds[x], h.eds[e], h.replies[0]);
    SoundKept(h.tds[x], h.eds[e], h.replies[0]);
  }

  /** A service without an answer, or of a TD it cannot take, leaves everything but the answer taken. */
  lemma NotRetired(h: Hc, e: nat)
    requires e in h.eds && ServiceTd(h, e).0.log == h.log
    ensures var r := ServiceTd(h, e).0;
      && r == h.(replies := r.replies) && !ServiceTd(h, e).1
      && (r.replies == h.replies || (h.replies != [] && h.replies[0].Nak? && r.replies == h.replies[1..]))
      && (h.eds[e].head !in h.tds || Len(h.tds[h.eds[e].head].cbp, h.tds[h.eds[e].head].be) > MAX || h.replies == [] || h.replies[0].Nak?)
  {
    hide Answered, Len, Received, Min;
    var r := ServiceTd(h, e).0;
    assert |h.log + [(e, h.eds[e].head)]| > |h.log|;
  }

  /** The packet goes the way its ED says, or where that leaves it open its TD; what does not go in goes out. */
  lemma DirectionIs(h: Hc, e: nat)
    requires e in h.eds && h.eds[e].head in h.tds
    ensures var ed, td := h.eds[e], h.tds[h.eds[e].head];
      && (IsIn(ed, td) <==> ed.direction == IN || (ed.direction != OUT && td.direction == IN))
      && (Sends(h, e) <==> Len(td.cbp, td.be) <= MAX && (ed.direction == OUT || (ed.direction != IN && td.direction != IN)))
  {
  }

  // ---- A visit to an ED ----

  predicate Queued(ed: Ed) { !ed.skip && !ed.halted && ed.head != ed.tail }

  /** No TD's buffer is longer than the controller takes. */
  predicate Sound(tds: map<nat, Td>) { forall x :: x in tds ==> Len(tds[x].cbp, tds[x].be) <= MAX }

  /** The TDs of ED e in the log. */
  function Times(l: seq<(nat, nat)>, e: nat): nat {
    if l == [] then 0 else Times(l[..|l| - 1], e) + if l[|l| - 1].0 == e then 1 else 0
  }

  lemma TimesMore(l: seq<(nat, nat)>, x: (nat, nat), e: nat)
    ensures Times(l + [x], e) == Times(l, e) + if x.0 == e then 1 else 0
  {
    assert (l + [x])[..|l|] == l;
  }

  /** EDs keep their order and their tails, and what is skipped, halted or empty stays so. */
  predicate EdsKept(a: map<nat, Ed>, b: map<nat, Ed>) {
    b.Keys == a.Keys && forall e :: e in a ==>
      b[e].next == a[e].next && b[e].tail == a[e].tail && b[e].skip == a[e].skip && (Queued(b[e]) ==> Queued(a[e]))
  }

  /** r's answers are the last of h's. */
  predicate TookAnswers(h: Hc, r: Hc) {
    |r.replies| <= |h.replies| && r.replies == h.replies[|h.replies| - |r.replies|..]
  }

  /** What any number of services does at most. */
  ghost predicate Changed(h: Hc, r: Hc) {
    && EdsKept(h.eds, r.eds) && TookAnswers(h, r)
    && r.clf == h.clf && r.blf == h.blf && r.wdh == h.wdh && r.hcca == h.hcca
    && (Sound(h.tds) ==> Sound(r.tds))
    && (forall f :: Times(r.log, f) >= Times(h.log, f))
    && |r.log| >= |h.log| && (|r.log| == |h.log| ==> r == h.(replies := r.replies))
  }

  lemma ChangedThen(h: Hc, m: Hc, r: Hc)
    requires Changed(h, m) && Changed(m, r)
    ensures Changed(h, r)
  {
    hide Sound, Queued;
    TookThen(h, m, r);
    hide TookAnswers;
    forall f ensures Times(r.log, f) >= Times(h.log, f) { assert Times(m.log, f) >= Times(h.log, f); }
  }

  lemma TookThen(h: Hc, m: Hc, r: Hc)
    requires TookAnswers(h, m) && TookAnswers(m, r)
    ensures TookAnswers(h, r)
  {
  }

  lemma StepChanges(h: Hc, e: nat)
    requires e in h.eds && Queued(h.eds[e])
    ensures Changed(h, ServiceTd(h, e).0)
  {
    hide ServiceTd, Len, Min, Good;
    var r := ServiceTd(h, e).0;
    if r.log == h.log {
      NotRetired(h, e);
    } else {
      RetiredSays(h, e);
      var x := h.eds[e].head;
      forall f ensures Times(r.log, f) >= Times(h.log, f) { TimesMore(h.log, (e, x), f); }
    }
  }

  /** From h to r answers were left, and none of those taken was to wait. */
  predicate NoneWaits(h: Hc, r: Hc) {
    r.replies != [] && forall i :: 0 <= i < |h.replies| - |r.replies| ==> !h.replies[i].Nak?
  }

  lemma SplitWaits(h: Hc, m: Hc, r: Hc)
    requires TookAnswers(h, m) && TookAnswers(m, r) && NoneWaits(h, r)
    ensures NoneWaits(h, m) && NoneWaits(m, r)
  {
    var d := |h.replies| - |m.replies|;
    forall i | 0 <= i < |m.replies| - |r.replies| ensures !m.replies[i].Nak? {
      assert m.replies[i] == h.replies[d + i];
    }
  }

  /** ED e has nothing left to serve, or has had its share since it had `before` TDs in the log. */
  predicate Served(h: Hc, e: nat, before: nat, share: nat)
    requires e in h.eds
  {
    !Queued(h.eds[e]) || Times(h.log, e) >= before + share
  }

  lemma StaysServed(h: Hc, r: Hc, e: nat, before: nat, share: nat)
    requires Changed(h, r) && e in h.eds && Served(h, e, before, share)
    ensures e in r.eds && Served(r, e, before, share)
  {
  }

  function Share(periodic: bool, n: nat): nat
    requires n <= TDS_A_VISIT
  {
    if periodic then 1 else TDS_A_VISIT - n
  }

  /** An answer that is not to wait retires the head. */
  lemma StepServes(h: Hc, v: View, e: nat)
    requires Shows(h, v) && Sound(h.tds) && e in h.eds && Queued(h.eds[e]) && NoneWaits(h, ServiceTd(h, e).0)
    ensures var (r, more) := ServiceTd(h, e);
      e in r.eds && Times(r.log, e) == Times(h.log, e) + 1 && (more || !Queued(r.eds[e]))
  {
    assert h.eds[e].head in h.tds;
    var r := ServiceTd(h, e).0;
    hide ServiceTd, Shows, Len;
    if r.log == h.log {
      NotRetired(h, e);
    } else {
      RetiredSays(h, e);
      TimesMore(h.log, (e, r.done), e);
    }
  }

  lemma ChangedNot(h: Hc)
    ensures Changed(h, h)
  {
  }

  lemma {:induction false} VisitServes(h: Hc, v: View, e: nat, periodic: bool, n: nat)
    requires Shows(h, v) && e in h.eds && !h.eds[e].skip && n <= TDS_A_VISIT && (periodic ==> n == 0)
    ensures var r := ServiceEd(h, e, periodic, n).0;
      Changed(h, r) && (Sound(h.tds) && NoneWaits(h, r) ==> Served(r, e, Times(h.log, e), Share(periodic, n)))
    decreases TDS_A_VISIT - n
  {
    hide Shows, ServiceTd, Changed, NoneWaits, Sound, Times;
    if n == TDS_A_VISIT || h.eds[e].halted || h.eds[e].head == h.eds[e].tail {
      ChangedNot(h);
    } else {
      var (h1, more) := ServiceTd(h, e);
      StepChanges(h, e);
      ChangedTook(h, h1);
      ServiceTdKeeps(h, v, e);
      KeptLog(h, v, h1);
      var r := ServiceEd(h, e, periodic, n).0;
      if more && !periodic {
        VisitServes(h1, Apply(v, h1.log[|h.log|..]), e, periodic, n + 1);
        ChangedTook(h1, r);
        ChangedThen(h, h1, r);
      }
      if Sound(h.tds) && NoneWaits(h, r) {
        if more && !periodic { SplitWaits(h, h1, r); }
        StepServes(h, v, e);
      }
    }
  }

  lemma ChangedTook(h: Hc, r: Hc)
    requires Changed(h, r)
    ensures TookAnswers(h, r) && EdsKept(h.eds, r.eds) && (Sound(h.tds) ==> Sound(r.tds))
  {
  }

  // ---- A list ----

  /** The EDs a list walk comes to. */
  function Walk(eds: map<nat, Ed>, pa: nat, n: nat): seq<nat>
    decreases n
  {
    if n == 0 || pa == 0 || pa !in eds then [] else [pa] + Walk(eds, eds[pa].next, n - 1)
  }

  lemma {:induction false} WalkSame(a: map<nat, Ed>, b: map<nat, Ed>, pa: nat, n: nat)
    requires EdsKept(a, b)
    ensures Walk(b, pa, n) == Walk(a, pa, n)
    decreases n
  {
    if n > 0 && pa != 0 && pa in a { WalkSame(a, b, a[pa].next, n - 1); }
  }

  lemma {:induction false} WalkIn(eds: map<nat, Ed>, pa: nat, n: nat, e: nat)
    requires e in Walk(eds, pa, n)
    ensures e in eds && n > 0 && pa != 0 && pa in eds
    decreases n
  {
    if e != pa { WalkIn(eds, eds[pa].next, n - 1, e); }
  }

  lemma {:induction false} ListChanges(h: Hc, v: View, pa: nat, periodic: bool, seen: nat)
    requires Shows(h, v) && seen <= EDS_A_LIST
    ensures Changed(h, ServiceList(h, pa, periodic, seen).0)
    decreases EDS_A_LIST - seen
  {
    hide Shows, ServiceEd, Changed;
    if pa == 0 || seen == EDS_A_LIST || pa !in h.eds {
      ChangedNot(h);
    } else {
      var h1 := if h.eds[pa].skip then h else ServiceEd(h, pa, periodic, 0).0;
      FirstVisit(h, v, pa, periodic, h1);
      ListChanges(h1, Apply(v, h1.log[|h.log|..]), h.eds[pa].next, periodic, seen + 1);
      ChangedThen(h, h1, ServiceList(h1, h.eds[pa].next, periodic, seen + 1).0);
    }
  }

  lemma FirstVisit(h: Hc, v: View, pa: nat, periodic: bool, h1: Hc)
    requires Shows(h, v) && pa in h.eds && h1 == if h.eds[pa].skip then h else ServiceEd(h, pa, periodic, 0).0
    ensures Changed(h, h1) && |h1.log| >= |h.log| && Legal(v, h1.log[|h.log|..]) && Shows(h1, Apply(v, h1.log[|h.log|..]))
    ensures pa in h1.eds && (Sound(h.tds) && NoneWaits(h, h1) ==> Served(h1, pa, Times(h.log, pa), Share(periodic, 0)))
  {
    hide Shows, ServiceEd, NoneWaits, Sound, Times, Apply, Legal, TookAnswers;
    if h.eds[pa].skip {
      KeptSame(h, v, h);
      ChangedNot(h);
    } else {
      ServiceEdKeeps(h, v, pa, periodic, 0);
      VisitServes(h, v, pa, periodic, 0);
    }
    KeptLog(h, v, h1);
  }

  /** Where no device had it wait, every ED a walk of the list comes to ends halted, skipped or empty, or has had its
      share: a TD on a periodic list, 64 on another. */
  lemma {:induction false} ListServes(h: Hc, v: View, pa: nat, periodic: bool, seen: nat, e: nat)
    requires Shows(h, v) && Sound(h.tds) && seen <= EDS_A_LIST && e in Walk(h.eds, pa, EDS_A_LIST - seen)
    requires NoneWaits(h, ServiceList(h, pa, periodic, seen).0)
    ensures var r := ServiceList(h, pa, periodic, seen).0; e in r.eds && Served(r, e, Times(h.log, e), Share(periodic, 0))
    decreases EDS_A_LIST - seen
  {
    hide Shows, ServiceEd, Changed, NoneWaits, Sound, Times, Served, TookAnswers;
    WalkIn(h.eds, pa, EDS_A_LIST - seen, e);
    var h1 := if h.eds[pa].skip then h else ServiceEd(h, pa, periodic, 0).0;
    var r := ServiceList(h, pa, periodic, seen).0;
    FirstVisit(h, v, pa, periodic, h1);
    ListChanges(h1, Apply(v, h1.log[|h.log|..]), h.eds[pa].next, periodic, seen + 1);
    ChangedTook(h, h1);
    ChangedTook(h1, r);
    SplitWaits(h, h1, r);
    if e == pa {
      StaysServed(h1, r, e, Times(h.log, e), Share(periodic, 0));
    } else {
      WalkSame(h.eds, h1.eds, h.eds[pa].next, EDS_A_LIST - seen - 1);
      ListServes(h1, Apply(v, h1.log[|h.log|..]), h.eds[pa].next, periodic, seen + 1, e);
      ServedSince(h, h1, r, e, Share(periodic, 0));
    }
  }

  lemma ServedSince(h: Hc, m: Hc, r: Hc, e: nat, share: nat)
    requires Changed(h, m) && e in r.eds && Served(r, e, Times(m.log, e), share)
    ensures Served(r, e, Times(h.log, e), share)
  {
    hide Times;
    assert Times(m.log, e) >= Times(h.log, e);
  }

  /** Some ED of these has TDs queued. */
  predicate AnyQueued(eds: map<nat, Ed>, walk: seq<nat>) { exists e :: e in walk && e in eds && Queued(eds[e]) }

  lemma VisitIsActive(h: Hc, e: nat, periodic: bool)
    requires e in h.eds && !h.eds[e].skip
    ensures ServiceEd(h, e, periodic, 0).1 <==> Queued(h.eds[e])
    ensures !Queued(h.eds[e]) ==> ServiceEd(h, e, periodic, 0).0 == h
  {
    hide ServiceTd;
    if Queued(h.eds[e]) {
      var (h1, more) := ServiceTd(h, e);
      EdStays(h, e);
      if more && !periodic { VisitedOn(h1, e, 1); }
    }
  }

  lemma {:induction false} VisitedOn(h: Hc, e: nat, n: nat)
    requires e in h.eds && 0 < n <= TDS_A_VISIT
    ensures ServiceEd(h, e, false, n).1
    decreases TDS_A_VISIT - n
  {
    hide ServiceTd;
    if n < TDS_A_VISIT && !h.eds[e].halted && h.eds[e].head != h.eds[e].tail {
      EdStays(h, e);
      if ServiceTd(h, e).1 { VisitedOn(ServiceTd(h, e).0, e, n + 1); }
    }
  }

  /** A walk says that TDs were queued exactly where an ED it comes to had some. */
  lemma {:induction false} ListIsActiveExactly(h: Hc, v: View, pa: nat, periodic: bool, seen: nat)
    requires Shows(h, v) && seen <= EDS_A_LIST
    ensures ServiceList(h, pa, periodic, seen).1 <==> AnyQueued(h.eds, Walk(h.eds, pa, EDS_A_LIST - seen))
    decreases EDS_A_LIST - seen
  {
    hide Shows, ServiceEd, Changed, NoneWaits, Sound, Times, Served, TookAnswers, Queued, Apply, Legal, EdsKept;
    if pa != 0 && seen < EDS_A_LIST && pa in h.eds {
      var h1 := if h.eds[pa].skip then h else ServiceEd(h, pa, periodic, 0).0;
      var rest := Walk(h.eds, h.eds[pa].next, EDS_A_LIST - seen - 1);
      assert Walk(h.eds, pa, EDS_A_LIST - seen) == [pa] + rest;
      FirstVisit(h, v, pa, periodic, h1);
      ChangedTook(h, h1);
      WalkSame(h.eds, h1.eds, h.eds[pa].next, EDS_A_LIST - seen - 1);
      ListIsActiveExactly(h1, Apply(v, h1.log[|h.log|..]), h.eds[pa].next, periodic, seen + 1);
      if h.eds[pa].skip {
        SkippedIsNot(h.eds[pa]);
      } else {
        VisitIsActive(h, pa, periodic);
      }
      AnyQueuedSplits(h.eds, h1.eds, pa, rest);
    } else {
      assert Walk(h.eds, pa, EDS_A_LIST - seen) == [];
    }
  }

  lemma SkippedIsNot(ed: Ed)
    requires ed.skip
    ensures !Queued(ed)
  {
  }

  lemma AnyQueuedSplits(a: map<nat, Ed>, b: map<nat, Ed>, pa: nat, rest: seq<nat>)
    requires EdsKept(a, b) && pa in a && (!Queued(a[pa]) ==> b == a)
    ensures AnyQueued(a, [pa] + rest) <==> Queued(a[pa]) || AnyQueued(b, rest)
  {
    hide Queued;
    assert Queued(a[pa]) ==> pa in [pa] + rest;
    if e :| e in rest && e in b && Queued(b[e]) { assert e in [pa] + rest; }
  }

  // ---- A frame ----

  lemma PartChanges(h: Hc, v: View, m: Hc, pa: nat, periodic: bool, r: Hc)
    requires Kept(h, v, m)
    requires var s := ServiceList(m, pa, periodic, 0).0; r == s.(clf := r.clf, blf := r.blf)
    ensures Kept(h, v, r) && Changed(m, ServiceList(m, pa, periodic, 0).0)
  {
    ListKeeps(h, v, m, pa, periodic, r);
    KeptLog(h, v, m);
    ListChanges(m, Apply(v, m.log[|h.log|..]), pa, periodic, 0);
  }

  /** Changed, but for the bits of the status that say lists are filled. */
  ghost predicate FrameChanged(h: Hc, r: Hc) { Changed(h, r.(clf := h.clf, blf := h.blf)) }

  lemma FrameChangedThen(h: Hc, m: Hc, r: Hc)
    requires FrameChanged(h, m) && FrameChanged(m, r)
    ensures FrameChanged(h, r)
  {
    hide Sound, EdsKept, TookAnswers;
    var m1, r1 := m.(clf := h.clf, blf := h.blf), r.(clf := h.clf, blf := h.blf);
    FrameBits(m, r, h.clf, h.blf);
    ChangedThen(h, m1, r1);
  }

  lemma FrameBits(m: Hc, r: Hc, clf: bool, blf: bool)
    requires FrameChanged(m, r)
    ensures Changed(m.(clf := clf, blf := blf), r.(clf := clf, blf := blf))
  {
    hide Sound, EdsKept, Times;
  }

  /** A frame in which nothing is retired leaves the done list, its delay and the descriptors. */
  lemma QuietLists(h: Hc, v: View, input: Input)
    requires Shows(h, v) && Lists(h, input).log == h.log
    ensures var r := Lists(h, input); r == h.(replies := r.replies, clf := r.clf, blf := r.blf)
  {
    ListsChange(h, v, input);
  }

  lemma ListsChange(h: Hc, v: View, input: Input)
    requires Shows(h, v)
    ensures var h0 := h.(replies := input.replies); var h1 := PeriodicPart(h0, input); var h2 := ControlPart(h1, input);
      && Kept(h, v, h0) && Kept(h, v, h1) && Kept(h, v, h2)
      && FrameChanged(h0, h1) && FrameChanged(h1, h2) && FrameChanged(h2, Lists(h, input)) && FrameChanged(h0, Lists(h, input))
  {
    hide Kept, Shows, ServiceList, Changed, FrameChanged;
    var h0 := h.(replies := input.replies);
    KeptSame(h, v, h0);
    var h1 := PeriodicPart(h0, input);
    if input.periodic.Some? && input.hccaOk { PartFrame(h, v, h0, input.periodic.value, true, h1); } else { FrameSame(h0); }
    var h2 := ControlPart(h1, input);
    if input.control.Some? && h1.clf { PartFrame(h, v, h1, input.control.value, false, h2); } else { FrameSame(h1); }
    var h3 := BulkPart(h2, input);
    if input.bulk.Some? && h2.blf { PartFrame(h, v, h2, input.bulk.value, false, h3); } else { FrameSame(h2); }
    FrameChangedThen(h0, h1, h2);
    FrameChangedThen(h0, h2, h3);
  }

  lemma PartFrame(h: Hc, v: View, m: Hc, pa: nat, periodic: bool, r: Hc)
    requires Kept(h, v, m)
    requires var s := ServiceList(m, pa, periodic, 0).0; r == s.(clf := r.clf, blf := r.blf)
    ensures Kept(h, v, r) && FrameChanged(m, r)
  {
    hide Kept, Sound, EdsKept, TookAnswers, ServiceList;
    PartChanges(h, v, m, pa, periodic, r);
    var s := ServiceList(m, pa, periodic, 0).0;
    assert r.(clf := m.clf, blf := m.blf) == s;
  }

  lemma FrameSame(h: Hc)
    ensures FrameChanged(h, h)
  {
    ChangedNot(h);
  }

  lemma FrameSplits(h: Hc, m: Hc, r: Hc)
    requires FrameChanged(h, m) && FrameChanged(m, r) && NoneWaits(h, r)
    ensures NoneWaits(h, m) && NoneWaits(m, r)
  {
    hide Sound, EdsKept, Times, NoneWaits;
    SplitWaits(h, m, r);
  }

  lemma FrameHas(h: Hc, r: Hc)
    requires FrameChanged(h, r)
    ensures EdsKept(h.eds, r.eds) && (Sound(h.tds) ==> Sound(r.tds))
  {
  }

  lemma FrameSince(h: Hc, m: Hc, r: Hc, e: nat, share: nat)
    requires FrameChanged(h, m) && e in r.eds && Served(r, e, Times(m.log, e), share)
    ensures Served(r, e, Times(h.log, e), share)
  {
    hide Sound, EdsKept, TookAnswers;
    ServedSince(h, m.(clf := h.clf, blf := h.blf), r, e, share);
  }

  /** The ED is served when its list is walked, and by what follows stays so. */
  lemma PartServes(h: Hc, v: View, m: Hc, pa: nat, periodic: bool, mid: Hc, r: Hc, e: nat)
    requires Kept(h, v, m) && Sound(m.tds) && e in Walk(m.eds, pa, EDS_A_LIST)
    requires var s := ServiceList(m, pa, periodic, 0).0; mid == s.(clf := mid.clf, blf := mid.blf)
    requires NoneWaits(m, mid) && FrameChanged(mid, r)
    ensures e in r.eds && Served(r, e, Times(m.log, e), Share(periodic, 0))
  {
    hide Sound, EdsKept, Times, NoneWaits, Shows, ServiceList, TookAnswers, Served;
    var s := ServiceList(m, pa, periodic, 0).0;
    KeptLog(h, v, m);
    SameAnswers(m, mid, s);
    ListServes(m, Apply(v, m.log[|h.log|..]), pa, periodic, 0, e);
    FrameBits(mid, r, s.clf, s.blf);
    StaysServed(s, r.(clf := s.clf, blf := s.blf), e, Times(m.log, e), Share(periodic, 0));
    SameServed(r, r.(clf := s.clf, blf := s.blf), e, Times(m.log, e), Share(periodic, 0));
  }

  lemma SameAnswers(h: Hc, m: Hc, r: Hc)
    requires NoneWaits(h, m) && r.replies == m.replies
    ensures NoneWaits(h, r)
  {
  }

  lemma SameServed(h: Hc, r: Hc, e: nat, before: nat, share: nat)
    requires h.eds == r.eds && h.log == r.log && e in r.eds && Served(r, e, before, share)
    ensures Served(h, e, before, share)
  {
  }

  lemma PartBits(h: Hc, v: View, m: Hc, pa: nat, periodic: bool)
    requires Kept(h, v, m)
    ensures var s := ServiceList(m, pa, periodic, 0).0; s.clf == m.clf && s.blf == m.blf
  {
    KeptLog(h, v, m);
    ListChanges(m, Apply(v, m.log[|h.log|..]), pa, periodic, 0);
  }

  /** The bits the control and bulk lists are walked by are those the frame found. */
  lemma BitsFound(h: Hc, v: View, input: Input)
    requires Shows(h, v)
    ensures var h1 := PeriodicPart(h.(replies := input.replies), input); h1.clf == h.clf && h1.blf == h.blf && ControlPart(h1, input).blf == h.blf
  {
    hide Kept, Shows, ServiceList, FrameChanged;
    ListsChange(h, v, input);
    var h0 := h.(replies := input.replies);
    var h1 := PeriodicPart(h0, input);
    if input.periodic.Some? { PartBits(h, v, h0, input.periodic.value, true); }
    if input.control.Some? { PartBits(h, v, h1, input.control.value, false); }
  }

  /** ED e is on a list that the frame walks. */
  predicate Listed(h: Hc, input: Input, e: nat, periodic: bool) {
    if periodic then input.periodic.Some? && input.hccaOk && e in Walk(h.eds, input.periodic.value, EDS_A_LIST)
    else
      || (input.control.Some? && h.clf && e in Walk(h.eds, input.control.value, EDS_A_LIST))
      || (input.bulk.Some? && h.blf && e in Walk(h.eds, input.bulk.value, EDS_A_LIST))
  }

  /** The frame's parts, one after the other. */
  lemma FrameParts(h: Hc, v: View, input: Input)
    requires Shows(h, v) && NoneWaits(h.(replies := input.replies), Lists(h, input))
    ensures var h0 := h.(replies := input.replies); var h1 := PeriodicPart(h0, input); var h2 := ControlPart(h1, input);
      && NoneWaits(h0, h1) && NoneWaits(h1, h2) && NoneWaits(h2, Lists(h, input))
      && EdsKept(h0.eds, h1.eds) && EdsKept(h1.eds, h2.eds)
      && (Sound(h0.tds) ==> Sound(h1.tds)) && (Sound(h1.tds) ==> Sound(h2.tds))
      && FrameChanged(h1, Lists(h, input))
  {
    hide Kept, Shows, PeriodicPart, ControlPart, BulkPart, FrameChanged, NoneWaits, Sound, EdsKept;
    var h0 := h.(replies := input.replies);
    var h1 := PeriodicPart(h0, input);
    var h2 := ControlPart(h1, input);
    var h3 := Lists(h, input);
    ListsChange(h, v, input);
    FrameChangedThen(h1, h2, h3);
    FrameSplits(h0, h1, h3);
    FrameSplits(h1, h2, h3);
    FrameHas(h0, h1);
    FrameHas(h1, h2);
  }

  lemma PeriodicServes(h: Hc, v: View, input: Input, e: nat)
    requires Shows(h, v) && Sound(h.tds) && Listed(h, input, e, true)
    requires NoneWaits(h.(replies := input.replies), Lists(h, input))
    ensures var r := Lists(h, input); e in r.eds && Served(r, e, Times(h.log, e), Share(true, 0))
  {
    hide Kept, Shows, ServiceList, FrameChanged, NoneWaits, Sound, Served, EdsKept, Lists;
    FrameParts(h, v, input);
    ListsChange(h, v, input);
    var h0 := h.(replies := input.replies);
    PartServes(h, v, h0, input.periodic.value, true, PeriodicPart(h0, input), Lists(h, input), e);
  }

  lemma ControlServes(h: Hc, v: View, input: Input, e: nat)
    requires Shows(h, v) && Sound(h.tds) && input.control.Some? && h.clf && e in Walk(h.eds, input.control.value, EDS_A_LIST)
    requires NoneWaits(h.(replies := input.replies), Lists(h, input))
    ensures var r := Lists(h, input); e in r.eds && Served(r, e, Times(h.log, e), Share(false, 0))
  {
    hide Kept, Shows, ServiceList, FrameChanged, NoneWaits, Sound, Served, EdsKept, Lists, PeriodicPart;
    FrameParts(h, v, input);
    ListsChange(h, v, input);
    BitsFound(h, v, input);
    var h0 := h.(replies := input.replies);
    var h1 := PeriodicPart(h0, input);
    WalkSame(h0.eds, h1.eds, input.control.value, EDS_A_LIST);
    PartServes(h, v, h1, input.control.value, false, ControlPart(h1, input), Lists(h, input), e);
    FrameSince(h0, h1, Lists(h, input), e, Share(false, 0));
  }

  lemma BulkServes(h: Hc, v: View, input: Input, e: nat)
    requires Shows(h, v) && Sound(h.tds) && input.bulk.Some? && h.blf && e in Walk(h.eds, input.bulk.value, EDS_A_LIST)
    requires NoneWaits(h.(replies := input.replies), Lists(h, input))
    ensures var r := Lists(h, input); e in r.eds && Served(r, e, Times(h.log, e), Share(false, 0))
  {
    hide Kept, Shows, ServiceList, FrameChanged, NoneWaits, Sound, Served, EdsKept, PeriodicPart, ControlPart;
    FrameParts(h, v, input);
    ListsChange(h, v, input);
    BitsFound(h, v, input);
    var h0 := h.(replies := input.replies);
    var h1 := PeriodicPart(h0, input);
    var h2 := ControlPart(h1, input);
    var h3 := Lists(h, input);
    WalkSame(h0.eds, h1.eds, input.bulk.value, EDS_A_LIST);
    WalkSame(h1.eds, h2.eds, input.bulk.value, EDS_A_LIST);
    FrameSame(h3);
    PartServes(h, v, h2, input.bulk.value, false, h3, h3, e);
    FrameSince(h1, h2, h3, e, Share(false, 0));
    FrameSince(h0, h1, h3, e, Share(false, 0));
  }

  /** Where no device has its endpoint wait, a frame leaves every ED of the lists it walks halted, skipped or empty, or
      has served it its share. */
  lemma FrameServes(h: Hc, v: View, input: Input, e: nat, periodic: bool)
    requires Shows(h, v) && Sound(h.tds) && Listed(h, input, e, periodic)
    requires NoneWaits(h.(replies := input.replies), Lists(h, input))
    ensures var r := Lists(h, input); e in r.eds && Served(r, e, Times(h.log, e), Share(periodic, 0))
  {
    hide Shows, Lists, NoneWaits, Sound, Served;
    if periodic {
      PeriodicServes(h, v, input, e);
    } else if input.control.Some? && h.clf && e in Walk(h.eds, input.control.value, EDS_A_LIST) {
      ControlServes(h, v, input, e);
    } else {
      BulkServes(h, v, input, e);
    }
  }

  /** The status says that the control list is filled, where it said so, until the frame walks it and finds no TD
      queued; the bulk list's bit likewise. */
  lemma FilledExactly(h: Hc, v: View, input: Input)
    requires Shows(h, v)
    ensures var h1 := PeriodicPart(h.(replies := input.replies), input); var h2 := ControlPart(h1, input); var r := Lists(h, input);
      && (r.clf <==> h.clf && (input.control.None? || AnyQueued(h1.eds, Walk(h1.eds, input.control.value, EDS_A_LIST))))
      && (r.blf <==> h.blf && (input.bulk.None? || AnyQueued(h2.eds, Walk(h2.eds, input.bulk.value, EDS_A_LIST))))
  {
    hide Kept, Shows, ServiceList, FrameChanged, AnyQueued, Legal;
    ListsChange(h, v, input);
    BitsFound(h, v, input);
    var h1 := PeriodicPart(h.(replies := input.replies), input);
    var h2 := ControlPart(h1, input);
    if input.control.Some? { PartIsActive(h, v, h1, input.control.value); }
    if input.bulk.Some? { PartIsActive(h, v, h2, input.bulk.value); }
  }

  lemma PartIsActive(h: Hc, v: View, m: Hc, pa: nat)
    requires Kept(h, v, m)
    ensures ServiceList(m, pa, false, 0).1 <==> AnyQueued(m.eds, Walk(m.eds, pa, EDS_A_LIST))
    ensures ServiceList(m, pa, false, 0).0.clf == m.clf && ServiceList(m, pa, false, 0).0.blf == m.blf
  {
    hide Shows, ServiceList, AnyQueued;
    KeptLog(h, v, m);
    ListIsActiveExactly(m, Apply(v, m.log[|h.log|..]), pa, false, 0);
    ListChanges(m, Apply(v, m.log[|h.log|..]), pa, false, 0);
  }

  // ---- The done list goes back ----

  /** Frames that retire nothing, with the HCCA in RAM and the last list taken. */
  ghost predicate Quiet(h: Hc, inputs: seq<Input>)
    decreases |inputs|
  {
    inputs == [] || (inputs[0].hccaOk && Lists(h, inputs[0]).log == h.log && Quiet(Frame(h, inputs[0]), inputs[1..]))
  }

  ghost function Frames(h: Hc, inputs: seq<Input>): Hc
    decreases |inputs|
  {
    if inputs == [] then h else Frames(Frame(h, inputs[0]), inputs[1..])
  }

  /** One of them. */
  lemma QuietFrame(h: Hc, v: View, input: Input)
    requires Shows(h, v) && input.hccaOk && Lists(h, input).log == h.log
    ensures var r := Frame(h, input); var due := h.done != 0 && !h.wdh && h.doneCount == 0;
      && (due ==> r.hcca == (h.done, input.other) && r.done == 0 && r.doneCount == NO_DELAY && r.wdh)
      && (!due ==>
            && r.hcca == h.hcca && r.done == h.done && r.wdh == h.wdh
            && r.doneCount == (if h.doneCount == 0 || h.doneCount == NO_DELAY then h.doneCount else h.doneCount - 1)
            && Shows(r, v))
  {
    hide Lists, Shows;
    QuietLists(h, v, input);
    ShowsStill(h, v, Frame(h, input));
  }

  lemma ShowsStill(h: Hc, v: View, r: Hc)
    requires Shows(h, v)
    ensures r.tds == h.tds && r.eds == h.eds && r.done == h.done ==> Shows(r, v)
  {
  }

  lemma FrameBitsKept(h: Hc, r: Hc)
    requires FrameChanged(h, r)
    ensures r.wdh == h.wdh && r.hcca == h.hcca
  {
  }

  /** With no HCCA in RAM none goes back. */
  lemma NeedsHcca(h: Hc, v: View, input: Input)
    requires Shows(h, v) && !input.hccaOk
    ensures var m, r := Lists(h, input), Frame(h, input); r.hcca == h.hcca && r.wdh == h.wdh && r.done == m.done
  {
    hide Lists, Shows, FrameChanged;
    ListsChange(h, v, input);
    FrameBitsKept(h.(replies := input.replies), Lists(h, input));
  }

  /** A done list whose TDs ask for a delay of d frames waits d frames that retire nothing, and goes back in the next;
      one that asks for none to be counted, with 7, waits on. */
  lemma {:induction false} WaitsItsDelay(h: Hc, v: View, inputs: seq<Input>)
    requires Shows(h, v) && h.done != 0 && !h.wdh && h.doneCount <= NO_DELAY && Quiet(h, inputs)
    ensures var r := Frames(h, inputs);
      && (|inputs| <= h.doneCount < NO_DELAY ==> r.done == h.done && r.hcca == h.hcca && r.doneCount == h.doneCount - |inputs|)
      && (|inputs| == h.doneCount + 1 && h.doneCount < NO_DELAY ==>
            r.hcca == (h.done, inputs[h.doneCount].other) && r.done == 0 && r.doneCount == NO_DELAY && r.wdh)
      && (h.doneCount == NO_DELAY ==> r.done == h.done && r.hcca == h.hcca && r.doneCount == NO_DELAY)
    decreases |inputs|
  {
    hide Frame, Lists, Shows;
    if inputs != [] {
      QuietFrame(h, v, inputs[0]);
      var r := Frame(h, inputs[0]);
      if h.doneCount > 0 {
        WaitsItsDelay(r, v, inputs[1..]);
      }
    }
  }

  /** A done list waits, whatever its delay, while the driver has not taken the last one. */
  lemma {:induction false} WaitsForDriver(h: Hc, v: View, inputs: seq<Input>)
    requires Shows(h, v) && h.wdh && Quiet(h, inputs)
    ensures Frames(h, inputs).done == h.done && Frames(h, inputs).hcca == h.hcca
    decreases |inputs|
  {
    hide Frame, Lists, Shows;
    if inputs != [] {
      QuietFrame(h, v, inputs[0]);
      WaitsForDriver(Frame(h, inputs[0]), v, inputs[1..]);
    }
  }

  // ---- A driver's request ----

  /** The driver takes the last list, and the one that waited for that goes back in the next frame that retires
      nothing. */
  lemma TakenThenGoesBack(r: Run, input: Input)
    requires Inv(r) && r.h.done != 0 && r.h.doneCount == 0 && input.hccaOk
    requires Lists(Ohci.Next(r, Acknowledge).h, input).log == r.h.log
    ensures var t := Ohci.Next(Ohci.Next(r, Acknowledge), FrameStep(input)); t.h.hcca == (r.h.done, input.other) && t.h.done == 0
  {
    var a := Ohci.Next(r, Acknowledge);
    assert Inv(a) by { NextKeeps(r, Acknowledge); }
    hide Lists, Shows;
    QuietFrame(a.h, a.v, input);
  }

  lemma AppendedIs(r: Run, e: nat, td: Td, newTail: nat)
    requires Inv(r) && Ohci.Allowed(r, Append(e, td, newTail))
    ensures var t := Ohci.Next(r, Append(e, td, newTail)); var x := r.h.eds[e].tail;
      && Inv(t) && e in t.h.eds && t.v.q.Keys == t.h.eds.Keys && t.v.q[e] == r.v.q[e] + [x]
      && t.h.tds == r.h.tds[x := td] && t.h.eds.Keys == r.h.eds.Keys && t.h.eds[e].tail == newTail != 0 && t.h.log == r.h.log
  {
    AppendKeeps(r, e, td, newTail);
  }

  lemma ConfiguredIs(r: Run, e: nat, ed: Ed)
    requires Inv(r) && r.v.q.Keys == r.h.eds.Keys && Ohci.Allowed(r, Configure(e, ed))
    ensures var t := Ohci.Next(r, Configure(e, ed)); Inv(t) && t == r.(h := r.h.(eds := r.h.eds[e := ed]))
  {
    NextKeeps(r, Configure(e, ed));
  }

  lemma EnabledIs(r: Run, clf: bool, blf: bool)
    requires Inv(r) && r.v.q.Keys == r.h.eds.Keys
    ensures var t := Ohci.Next(r, Enable(clf, blf));
      Inv(t) && t == r.(h := r.h.(clf := t.h.clf, blf := t.h.blf)) && (clf ==> t.h.clf) && (blf ==> t.h.blf)
  {
    NextKeeps(r, Enable(clf, blf));
  }

  /** The driver appends a TD to an ED of a list, has the ED go on, and says that the list is filled. */
  lemma Requests(r: Run, e: nat, td: Td, newTail: nat, bulk: bool) returns (q: Run)
    requires Inv(r) && r.v.q.Keys == r.h.eds.Keys && Ohci.Allowed(r, Append(e, td, newTail))
    ensures var s1 := Ohci.Next(r, Append(e, td, newTail));
      && s1.v.q.Keys == s1.h.eds.Keys && e in s1.h.eds
      && var c := Configure(e, s1.h.eds[e].(skip := false, halted := false));
      && Ohci.Allowed(s1, c)
      && var s2 := Ohci.Next(s1, c);
      && s2.v.q.Keys == s2.h.eds.Keys && q == Ohci.Next(s2, Enable(!bulk, bulk))
    ensures Inv(q) && q.h.log == r.h.log && q.v.q.Keys == q.h.eds.Keys && e in q.h.eds && (if bulk then q.h.blf else q.h.clf)
    ensures q.v.q[e] == r.v.q[e] + [r.h.eds[e].tail] && q.h.tds == r.h.tds[r.h.eds[e].tail := td]
    ensures !q.h.eds[e].skip && !q.h.eds[e].halted && q.h.eds[e].tail != 0
  {
    hide Inv, Ohci.Next;
    AppendedIs(r, e, td, newTail);
    var s1 := Ohci.Next(r, Append(e, td, newTail));
    var ed := s1.h.eds[e].(skip := false, halted := false);
    ConfiguredIs(s1, e, ed);
    var s2 := Ohci.Next(s1, Configure(e, ed));
    EnabledIs(s2, !bulk, bulk);
    q := Ohci.Next(s2, Enable(!bulk, bulk));
  }

  /** An empty list of an ED: what was on it is what was retired from it. */
  lemma EmptiedRetired(h: Hc, v: View, m: Hc, e: nat, x: nat)
    requires Shows(h, v) && Kept(h, v, m) && Conserved(v, m.log[|h.log|..], Apply(v, m.log[|h.log|..]))
    requires e in v.q && x in v.q[e] && e in m.eds && m.eds[e].head == m.eds[e].tail != 0
    ensures |h.log| <= |m.log| && x in From(m.log[|h.log|..], e)
  {
    var w := Apply(v, m.log[|h.log|..]);
    KeptLog(h, v, m);
    hide Kept, Apply, Legal, Separate, From;
    assert Linked(m.tds, m.eds[e].head, w.q[e], m.eds[e].tail);
    assert w.q[e] == [];
  }

  /** A request is served in the next frame in which no device has its endpoint wait: its TD is retired, but where a
      fault halted the ED or 64 TDs before it were. */
  lemma RequestIsServed(r: Run, e: nat, td: Td, newTail: nat, bulk: bool, input: Input) returns (q: Run)
    requires Inv(r) && r.v.q.Keys == r.h.eds.Keys && Ohci.Allowed(r, Append(e, td, newTail))
    requires Sound(r.h.tds) && Len(td.cbp, td.be) <= MAX
    ensures var s1 := Ohci.Next(r, Append(e, td, newTail));
      && s1.v.q.Keys == s1.h.eds.Keys && e in s1.h.eds
      && var c := Configure(e, s1.h.eds[e].(skip := false, halted := false));
      && Ohci.Allowed(s1, c)
      && var s2 := Ohci.Next(s1, c);
      && s2.v.q.Keys == s2.h.eds.Keys && q == Ohci.Next(s2, Enable(!bulk, bulk))
    ensures var m := Lists(q.h, input); var list := if bulk then input.bulk else input.control;
      list.Some? && e in Walk(q.h.eds, list.value, EDS_A_LIST) && NoneWaits(q.h.(replies := input.replies), m) ==>
        && |r.h.log| <= |m.log| && e in m.eds
        && (m.eds[e].halted || Times(m.log, e) >= Times(r.h.log, e) + TDS_A_VISIT || r.h.eds[e].tail in From(m.log[|r.h.log|..], e))
  {
    hide Lists, Shows, NoneWaits, Times, From, Inv, Ohci.Next, Sound, Len, Walk;
    q := Requests(r, e, td, newTail, bulk);
    SoundWith(r.h.tds, r.h.eds[e].tail, td);
    var m := Lists(q.h, input);
    var list := if bulk then input.bulk else input.control;
    if list.Some? && e in Walk(q.h.eds, list.value, EDS_A_LIST) && NoneWaits(q.h.(replies := input.replies), m) {
      ServesRequest(r, q, e, bulk, input, r.h.eds[e].tail);
    }
  }

  lemma SoundWith(tds: map<nat, Td>, x: nat, td: Td)
    requires Sound(tds) && Len(td.cbp, td.be) <= MAX
    ensures Sound(tds[x := td])
  {
  }

  lemma ServesRequest(r: Run, q: Run, e: nat, bulk: bool, input: Input, x: nat)
    requires Inv(q) && q.h.log == r.h.log && e in q.h.eds && (if bulk then q.h.blf else q.h.clf)
    requires e in q.v.q && x in q.v.q[e] && !q.h.eds[e].skip && q.h.eds[e].tail != 0 && Sound(q.h.tds)
    requires var list := if bulk then input.bulk else input.control; list.Some? && e in Walk(q.h.eds, list.value, EDS_A_LIST)
    requires NoneWaits(q.h.(replies := input.replies), Lists(q.h, input))
    ensures var m := Lists(q.h, input);
      && |r.h.log| <= |m.log| && e in m.eds
      && (m.eds[e].halted || Times(m.log, e) >= Times(r.h.log, e) + TDS_A_VISIT || x in From(m.log[|r.h.log|..], e))
  {
    hide Lists, Shows, Kept, NoneWaits, Sound, Times, From, Conserved, FrameChanged;
    var m := Lists(q.h, input);
    FrameServes(q.h, q.v, input, e, false);
    FrameConservesTds(q.h, q.v, input);
    ListsChange(q.h, q.v, input);
    FrameHas(q.h.(replies := input.replies), m);
    KeptLog(q.h, q.v, m);
    if m.eds[e].head == m.eds[e].tail { EmptiedRetired(q.h, q.v, m, e, x); }
  }
}
