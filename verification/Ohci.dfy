/** The OHCI controller's transfers (native/dev/ohci.c): endpoint descriptors' lists of transfer
  descriptors, serviced from the head, and the queue of done ones it hands back.  TDs, EDs and buffers
  are apart in memory.
  */
module Ohci {
  import opened Wrappers
  import opened TransferBuffer

  const CC_NOERROR: nat := 0
  const CC_STALL: nat := 4
  const CC_DEVICENOTRESPONDING: nat := 5
  const CC_DATAUNDERRUN: nat := 9
  const OUT: nat := 1
  const IN: nat := 2
  const NO_DELAY: nat := 7

  /** A TD's words: rounding R, direction DP, delay DI, toggle T, errors EC, condition CC. */
  datatype Td = Td(rounding: bool, direction: nat, delay: nat, toggle0: bool, toggle1: bool, errors: nat, cc: nat,
                   cbp: Word, next: nat, be: Word)

  /** An ED's: direction D, skip K or F; TailP, and HeadP with its bits H and C. */
  datatype Ed = Ed(direction: nat, skip: bool, tail: nat, head: nat, halted: bool, carry: bool, next: nat)

  /** A device's answer to a packet. */
  datatype Reply = Nak | Moved(data: seq<Byte>) | Stall | NotResponding

  /** log: each TD retired with its ED, in order.  hcca: the done head written and its low bit. */
  datatype Hc = Hc(ram: seq<Byte>, tds: map<nat, Td>, eds: map<nat, Ed>, done: nat, doneCount: nat,
                   clf: bool, blf: bool, wdh: bool, hcca: (nat, bool), replies: seq<Reply>, log: seq<(nat, nat)>)

  // ---- One transfer ----

  predicate IsIn(ed: Ed, td: Td) {
    (if ed.direction == OUT || ed.direction == IN then ed.direction else td.direction) == IN
  }

  /** The TD and the ED's bits once the device answered. */
  function Answered(ed: Ed, td: Td, reply: Reply): (Td, Ed)
    requires Len(td.cbp, td.be) <= MAX
  {
    var len := Len(td.cbp, td.be);
    var r := if reply.Moved? then Min(|reply.data|, len) else 0;
    var td1 := if reply.Moved? then td.(cbp := Advanced(td.cbp, td.be, len, r)) else td;
    if reply.Moved? && (r == len || (IsIn(ed, td) && td.rounding)) then
      var td2 := td1.(toggle1 := true, toggle0 := !td.toggle0, errors := 0, cc := CC_NOERROR);
      (td2, ed.(carry := td2.toggle0))
    else
      (td1.(errors := 0, cc := if reply.Moved? then CC_DATAUNDERRUN else if reply.Stall? then CC_STALL else CC_DEVICENOTRESPONDING),
       ed.(halted := true))
  }

  /** What the buffers hold once the device answered. */
  function Received(ram: seq<Byte>, ed: Ed, td: Td, reply: Reply): seq<Byte> {
    if reply.Moved? && IsIn(ed, td) then Scatter(ram, td.cbp, td.be, reply.data[..Min(|reply.data|, Len(td.cbp, td.be))]) else ram
  }

  /** ED e's head, answered and retired: onto the done list, its delay counted, an error's at once. */
  function Retired(h: Hc, e: nat, td: Td, reply: Reply): Hc
    requires e in h.eds && Len(td.cbp, td.be) <= MAX
  {
    var ed := h.eds[e];
    var (td1, ed1) := Answered(ed, td, reply);
    h.(ram := Received(h.ram, ed, td, reply),
       tds := h.tds[ed.head := td1.(next := h.done)],
       eds := h.eds[e := ed1.(head := td.next)],
       done := ed.head,
       doneCount := if td1.cc != CC_NOERROR then 0 else Min(td.delay, h.doneCount),
       log := h.log + [(e, ed.head)])
  }

  /** service_td on ED e's head, and whether the ED goes on. */
  function ServiceTd(h: Hc, e: nat): (Hc, bool)
    requires e in h.eds
  {
    var ed := h.eds[e];
    if ed.head !in h.tds then (h, false)
    else
      var td := h.tds[ed.head];
      if Len(td.cbp, td.be) > MAX then (h, false)
      else
        var reply := if h.replies == [] then Nak else h.replies[0];
        var h1 := h.(replies := if h.replies == [] then [] else h.replies[1..]);
        if reply.Nak? then (h1, false) else (Retired(h1, e, td, reply), !Answered(ed, td, reply).1.halted)
  }

  /** The packet of ED e's head carries bytes to its device: a SETUP or an OUT. */
  predicate Sends(h: Hc, e: nat)
    requires e in h.eds
  {
    var ed := h.eds[e];
    ed.head in h.tds && Len(h.tds[ed.head].cbp, h.tds[ed.head].be) <= MAX && !IsIn(ed, h.tds[ed.head])
  }

  /** The data is the TD's buffer, in order; `was` stands where a stretch of it is outside RAM. */
  predicate Carries(ram: seq<Byte>, td: Td, was: seq<Byte>, data: seq<Byte>)
    requires Len(td.cbp, td.be) <= |was|
  {
    var len := Len(td.cbp, td.be);
    && |data| == len
    && (forall i :: 0 <= i < len && Reaches(|ram|, td.cbp, td.be, len, i) ==>
          Address(td.cbp, td.be, i) < |ram| && data[i] == ram[Address(td.cbp, td.be, i)])
    && (forall i :: 0 <= i < len && !Reaches(|ram|, td.cbp, td.be, len, i) ==> data[i] == was[i])
  }

  /** ED e's head is an IN packet whose device sent data: what fits of it. */
  function Arrived(h: Hc, e: nat): Option<seq<Byte>>
    requires e in h.eds
  {
    var ed := h.eds[e];
    if ed.head in h.tds && Len(h.tds[ed.head].cbp, h.tds[ed.head].be) <= MAX && IsIn(ed, h.tds[ed.head])
       && h.replies != [] && h.replies[0].Moved?
    then Some(h.replies[0].data[..Min(|h.replies[0].data|, Len(h.tds[ed.head].cbp, h.tds[ed.head].be))])
    else None
  }

  /** A service leaves in RAM what an IN packet brought, in the TD's buffer; and RAM as it was without one. */
  predicate Arrives(h: Hc, e: nat, ram: seq<Byte>)
    requires e in h.eds
  {
    match Arrived(h, e)
    case None => ram == h.ram
    case Some(data) => var td := h.tds[h.eds[e].head]; Written(h.ram, ram, td.cbp, td.be, data)
  }

  lemma DataArrives(h: Hc, e: nat)
    requires e in h.eds
    ensures Arrives(h, e, ServiceTd(h, e).0.ram)
  {
    hide Written, Scatter;
    if Arrived(h, e).Some? {
      var td := h.tds[h.eds[e].head];
      ScatterWrites(h.ram, td.cbp, td.be, Arrived(h, e).value);
    }
  }

  const TDS_A_VISIT: nat := 64
  const EDS_A_LIST: nat := 256

  /** The visit to an ED, n TDs of it serviced already; and whether TDs were queued. */
  function ServiceEd(h: Hc, e: nat, periodic: bool, n: nat): (Hc, bool)
    requires e in h.eds && n <= TDS_A_VISIT
    decreases TDS_A_VISIT - n
  {
    if n == TDS_A_VISIT || h.eds[e].halted || h.eds[e].head == h.eds[e].tail then (h, n > 0)
    else
      var (h1, more) := ServiceTd(h, e);
      if more && !periodic then ServiceEd(h1, e, periodic, n + 1) else (h1, true)
  }

  /** service_list from ED pa, `seen` EDs walked. */
  function ServiceList(h: Hc, pa: nat, periodic: bool, seen: nat): (Hc, bool)
    requires seen <= EDS_A_LIST
    decreases EDS_A_LIST - seen
  {
    if pa == 0 || seen == EDS_A_LIST || pa !in h.eds then (h, false)
    else
      var (h1, here) := if h.eds[pa].skip then (h, false) else ServiceEd(h, pa, periodic, 0);
      var (h2, later) := ServiceList(h1, h.eds[pa].next, periodic, seen + 1);
      (h2, here || later)
  }

  // ---- A frame ----

  /** What a frame finds: the list heads that are enabled, whether the HCCA is in RAM, whether another
      enabled interrupt is pending, and the devices' answers. */
  datatype Input = Input(periodic: Option<nat>, control: Option<nat>, bulk: Option<nat>, hccaOk: bool, other: bool, replies: seq<Reply>)

  function PeriodicPart(h: Hc, input: Input): Hc {
    if input.periodic.Some? && input.hccaOk then ServiceList(h, input.periodic.value, true, 0).0 else h
  }

  function ControlPart(h: Hc, input: Input): Hc {
    if input.control.Some? && h.clf then
      var (r, active) := ServiceList(h, input.control.value, false, 0); r.(clf := r.clf && active)
    else h
  }

  function BulkPart(h: Hc, input: Input): Hc {
    if input.bulk.Some? && h.blf then
      var (r, active) := ServiceList(h, input.bulk.value, false, 0); r.(blf := r.blf && active)
    else h
  }

  function Lists(h: Hc, input: Input): Hc {
    BulkPart(ControlPart(PeriodicPart(h.(replies := input.replies), input), input), input)
  }

  predicate WritesBack(h: Hc, input: Input) { h.done != 0 && h.doneCount == 0 && !h.wdh && input.hccaOk }

  function WriteBack(h: Hc, input: Input): Hc {
    var h1 := if WritesBack(h, input) then h.(hcca := (h.done, input.other), done := 0, doneCount := NO_DELAY, wdh := true) else h;
    if h1.doneCount != NO_DELAY && h1.doneCount != 0 then h1.(doneCount := h1.doneCount - 1) else h1
  }

  function Frame(h: Hc, input: Input): Hc { WriteBack(Lists(h, input), input) }

  // ---- The lists ----

  /** The TDs q follow one another by their next links from `from` to `to`. */
  predicate Linked(tds: map<nat, Td>, from: nat, q: seq<nat>, to: nat)
    decreases |q|
  {
    if q == [] then from == to else from == q[0] && from != 0 && from in tds && Linked(tds, tds[from].next, q[1..], to)
  }

  /** Each ED's TDs, and the done ones, newest first. */
  datatype View = View(q: map<nat, seq<nat>>, done: seq<nat>)

  predicate NoDup(s: seq<nat>) { forall i, j :: 0 <= i < j < |s| ==> s[i] != s[j] }

  predicate Apart(s: seq<nat>, t: seq<nat>) { forall i :: 0 <= i < |s| ==> s[i] !in t }

  predicate Separate(v: View) {
    && (forall e :: e in v.q ==> NoDup(v.q[e]) && Apart(v.q[e], v.done))
    && (forall e, f :: e in v.q && f in v.q && e != f ==> Apart(v.q[e], v.q[f]))
  }

  /** The tail of a list is no TD of any. */
  predicate TailsFree(h: Hc, v: View)
    requires v.q.Keys == h.eds.Keys
  {
    && (forall e, f :: e in h.eds && f in h.eds && h.eds[e].tail != 0 ==> h.eds[e].tail !in v.q[f])
    && (forall e :: e in h.eds && h.eds[e].tail != 0 ==> h.eds[e].tail !in v.done)
    && (forall e, f :: e in h.eds && f in h.eds && e != f && h.eds[e].tail != 0 ==> h.eds[e].tail != h.eds[f].tail)
  }

  predicate Shows(h: Hc, v: View) {
    && v.q.Keys == h.eds.Keys
    && (forall e :: e in v.q ==> Linked(h.tds, h.eds[e].head, v.q[e], h.eds[e].tail))
    && Linked(h.tds, h.done, v.done, 0)
    && Separate(v) && TailsFree(h, v)
  }

  /** ED e's head goes to the front of the done list. */
  function Retire(v: View, e: nat): View
    requires e in v.q && v.q[e] != []
  {
    View(v.q[e := v.q[e][1..]], [v.q[e][0]] + v.done)
  }

  predicate Legal(v: View, l: seq<(nat, nat)>)
    decreases |l|
  {
    l == [] || (l[0].0 in v.q && v.q[l[0].0] != [] && v.q[l[0].0][0] == l[0].1 && Legal(Retire(v, l[0].0), l[1..]))
  }

  function Apply(v: View, l: seq<(nat, nat)>): View
    requires Legal(v, l)
    decreases |l|
  {
    if l == [] then v else Apply(Retire(v, l[0].0), l[1..])
  }

  // ---- Retiring one TD ----

  lemma {:induction false} LinkedElsewhere(tds: map<nat, Td>, x: nat, td: Td, from: nat, q: seq<nat>, to: nat)
    requires Linked(tds, from, q, to) && x !in q
    ensures Linked(tds[x := td], from, q, to)
    decreases |q|
  {
    if q != [] { LinkedElsewhere(tds, x, td, tds[from].next, q[1..], to); }
  }

  lemma RetireSeparate(v: View, e: nat)
    requires Separate(v) && e in v.q && v.q[e] != []
    ensures Separate(Retire(v, e))
  {
    var r := Retire(v, e);
    forall f | f in r.q ensures NoDup(r.q[f]) && Apart(r.q[f], r.done) {
      if f != e { assert Apart(v.q[e], v.q[f]); }
    }
    forall f, g | f in r.q && g in r.q && f != g ensures Apart(r.q[f], r.q[g]) {
      assert Apart(v.q[f], v.q[g]);
    }
  }

  /** What the controller's memory shows once ED e's head is retired. */
  lemma RetireShows(h: Hc, v: View, e: nat, r: Hc)
    requires Shows(h, v) && e in h.eds && v.q[e] != []
    requires r.done == h.eds[e].head && r.done in r.tds && r.tds == h.tds[r.done := r.tds[r.done]] && r.tds[r.done].next == h.done
    requires e in r.eds && r.eds == h.eds[e := r.eds[e]] && r.eds[e].head == h.tds[h.eds[e].head].next && r.eds[e].tail == h.eds[e].tail
    ensures Shows(r, Retire(v, e))
  {
    var x := h.eds[e].head;
    var w := Retire(v, e);
    RetireSeparate(v, e);
    RetireTails(h, v, e, r);
    hide Separate, TailsFree;
    assert Separate(v);
    RetireLinks(h, v, e, r);
  }

  lemma RetireLinks(h: Hc, v: View, e: nat, r: Hc)
    requires Shows(h, v) && e in h.eds && v.q[e] != []
    requires r.done == h.eds[e].head && r.done in r.tds && r.tds == h.tds[r.done := r.tds[r.done]] && r.tds[r.done].next == h.done
    requires e in r.eds && r.eds == h.eds[e := r.eds[e]] && r.eds[e].head == h.tds[h.eds[e].head].next && r.eds[e].tail == h.eds[e].tail
    ensures var w := Retire(v, e);
      Linked(r.tds, r.done, w.done, 0) && forall f :: f in w.q ==> f in r.eds && Linked(r.tds, r.eds[f].head, w.q[f], r.eds[f].tail)
  {
    hide TailsFree;
    var x, td := r.done, r.tds[r.done];
    var w := Retire(v, e);
    assert x == v.q[e][0];
    LinkedElsewhere(h.tds, x, td, h.done, v.done, 0);
    assert w.done[1..] == v.done;
    forall f | f in w.q ensures Linked(r.tds, r.eds[f].head, w.q[f], r.eds[f].tail) {
      if f != e { assert Apart(v.q[e], v.q[f]); }
      LinkedElsewhere(h.tds, x, td, r.eds[f].head, w.q[f], r.eds[f].tail);
    }
  }

  lemma RetireTails(h: Hc, v: View, e: nat, r: Hc)
    requires Shows(h, v) && e in h.eds && v.q[e] != []
    requires e in r.eds && r.eds == h.eds[e := r.eds[e]] && r.eds[e].tail == h.eds[e].tail
    ensures Retire(v, e).q.Keys == r.eds.Keys && TailsFree(r, Retire(v, e))
  {
    hide Linked, Separate;
    var w := Retire(v, e);
    forall f, g | f in r.eds && g in r.eds && r.eds[f].tail != 0 ensures r.eds[f].tail !in w.q[g] {
      assert h.eds[f].tail !in v.q[g];
    }
    forall f | f in r.eds && r.eds[f].tail != 0 ensures r.eds[f].tail !in w.done {
      assert h.eds[f].tail !in v.q[e];
    }
  }

  /** The view changes by what the log gained. */
  ghost predicate Kept(h: Hc, v: View, r: Hc) {
    && |h.log| <= |r.log| && r.log[..|h.log|] == h.log
    && Legal(v, r.log[|h.log|..])
    && Shows(r, Apply(v, r.log[|h.log|..]))
  }

  /** r is h with ED e's head retired: its TD rewritten and at the front of the done list. */
  predicate RetiredTo(h: Hc, e: nat, r: Hc) {
    && e in h.eds && e in r.eds
    && r.done == h.eds[e].head && r.done in h.tds && r.done in r.tds
    && r.tds == h.tds[r.done := r.tds[r.done]] && r.tds[r.done].next == h.done
    && r.eds == h.eds[e := r.eds[e]] && r.eds[e].head == h.tds[h.eds[e].head].next && r.eds[e].tail == h.eds[e].tail
    && r.log == h.log + [(e, r.done)]
  }

  /** A service retires the head or leaves every descriptor. */
  lemma ServiceTdRetires(h: Hc, e: nat)
    requires e in h.eds
    ensures var r := ServiceTd(h, e).0; r == h.(replies := r.replies) || RetiredTo(h, e, r)
  {
  }

  lemma ServiceTdKeeps(h: Hc, v: View, e: nat)
    requires Shows(h, v) && e in h.eds && h.eds[e].head != h.eds[e].tail
    ensures Kept(h, v, ServiceTd(h, e).0)
  {
    hide ServiceTd, Kept;
    ServiceTdRetires(h, e);
    var r := ServiceTd(h, e).0;
    if r == h.(replies := r.replies) { KeptSame(h, v, r); } else { RetiredKeeps(h, v, e, r); }
  }

  lemma RetiredKeeps(h: Hc, v: View, e: nat, r: Hc)
    requires Shows(h, v) && e in h.eds && h.eds[e].head != h.eds[e].tail && RetiredTo(h, e, r)
    ensures Kept(h, v, r)
  {
    hide Separate, TailsFree;
    assert v.q[e] != [] && v.q[e][0] == r.done;
    RetireShows(h, v, e, r);
    hide Shows, Linked;
    assert r.log[|h.log|..] == [(e, r.done)];
    assert [(e, r.done)][1..] == [];
    assert Legal(Retire(v, e), []);
    assert Apply(v, [(e, r.done)]) == Apply(Retire(v, e), []) == Retire(v, e);
    hide RetiredTo, Retire;
  }

  // ---- Whole visits, lists and frames ----

  lemma {:induction false} ApplyConcat(v: View, l: seq<(nat, nat)>, m: seq<(nat, nat)>)
    requires Legal(v, l) && Legal(Apply(v, l), m)
    ensures Legal(v, l + m) && Apply(v, l + m) == Apply(Apply(v, l), m)
    decreases |l|
  {
    if l == [] {
      assert l + m == m;
    } else {
      assert (l + m)[1..] == l[1..] + m;
      ApplyConcat(Retire(v, l[0].0), l[1..], m);
    }
  }

  /** What happened since h, in two parts. */
  lemma KeptThen(h: Hc, v: View, m: Hc, r: Hc)
    requires Kept(h, v, m) && Kept(m, Apply(v, m.log[|h.log|..]), r)
    ensures Kept(h, v, r)
  {
    hide Shows;
    var l, l2 := m.log[|h.log|..], r.log[|m.log|..];
    assert r.log[|h.log|..] == l + l2 by {
      assert m.log == h.log + l;
      assert r.log == m.log + l2;
    }
    assert r.log[..|h.log|] == r.log[..|m.log|][..|h.log|];
    ApplyConcat(v, l, l2);
  }

  lemma KeptSame(h: Hc, v: View, r: Hc)
    requires Shows(h, v) && r.log == h.log && r.tds == h.tds && r.eds == h.eds && r.done == h.done
    ensures Kept(h, v, r)
  {
    assert r.log[|h.log|..] == [];
  }

  lemma KeptLog(h: Hc, v: View, r: Hc)
    requires Kept(h, v, r)
    ensures |h.log| <= |r.log| && Legal(v, r.log[|h.log|..]) && Shows(r, Apply(v, r.log[|h.log|..]))
  {
  }

  lemma SameEds(h: Hc, v: View, r: Hc)
    requires Shows(h, v) && Kept(h, v, r)
    ensures r.eds.Keys == h.eds.Keys
  {
    hide Linked, Separate, TailsFree;
    ApplyKeys(v, r.log[|h.log|..]);
  }

  lemma {:induction false} ApplyKeys(v: View, l: seq<(nat, nat)>)
    requires Legal(v, l)
    ensures Apply(v, l).q.Keys == v.q.Keys
    decreases |l|
  {
    if l != [] { ApplyKeys(Retire(v, l[0].0), l[1..]); }
  }

  lemma {:induction false} ServiceEdKeeps(h: Hc, v: View, e: nat, periodic: bool, n: nat)
    requires Shows(h, v) && e in h.eds && n <= TDS_A_VISIT
    ensures Kept(h, v, ServiceEd(h, e, periodic, n).0)
    decreases TDS_A_VISIT - n
  {
    hide Shows, ServiceTd, Kept;
    if n == TDS_A_VISIT || h.eds[e].halted || h.eds[e].head == h.eds[e].tail {
      KeptSame(h, v, h);
    } else {
      var (h1, more) := ServiceTd(h, e);
      ServiceTdKeeps(h, v, e);
      KeptLog(h, v, h1);
      if more && !periodic {
        SameEds(h, v, h1);
        ServiceEdKeeps(h1, Apply(v, h1.log[|h.log|..]), e, periodic, n + 1);
        KeptThen(h, v, h1, ServiceEd(h1, e, periodic, n + 1).0);
      }
    }
  }

  lemma {:induction false} ServiceListKeeps(h: Hc, v: View, pa: nat, periodic: bool, seen: nat)
    requires Shows(h, v) && seen <= EDS_A_LIST
    ensures Kept(h, v, ServiceList(h, pa, periodic, seen).0)
    decreases EDS_A_LIST - seen
  {
    hide Shows, ServiceEd;
    if pa == 0 || seen == EDS_A_LIST || pa !in h.eds {
      KeptSame(h, v, h);
    } else {
      var (h1, here) := if h.eds[pa].skip then (h, false) else ServiceEd(h, pa, periodic, 0);
      if h.eds[pa].skip { KeptSame(h, v, h); } else { ServiceEdKeeps(h, v, pa, periodic, 0); }
      SameEds(h, v, h1);
      ServiceListKeeps(h1, Apply(v, h1.log[|h.log|..]), h.eds[pa].next, periodic, seen + 1);
      KeptThen(h, v, h1, ServiceList(h1, h.eds[pa].next, periodic, seen + 1).0);
    }
  }

  /** A list walked, and its bit of the status updated. */
  lemma ListKeeps(h: Hc, v: View, m: Hc, pa: nat, periodic: bool, r: Hc)
    requires Kept(h, v, m)
    requires var s := ServiceList(m, pa, periodic, 0).0; r == s.(clf := r.clf, blf := r.blf)
    ensures Kept(h, v, r)
  {
    hide ServiceList, Shows;
    var w := Apply(v, m.log[|h.log|..]);
    ServiceListKeeps(m, w, pa, periodic, 0);
    var s := ServiceList(m, pa, periodic, 0).0;
    KeptBits(m, w, s, r);
    KeptThen(h, v, m, r);
  }

  lemma KeptBits(h: Hc, v: View, m: Hc, r: Hc)
    requires Kept(h, v, m) && r.log == m.log && r.tds == m.tds && r.eds == m.eds && r.done == m.done
    ensures Kept(h, v, r)
  {
  }

  lemma ListsKeep(h: Hc, v: View, input: Input)
    requires Shows(h, v)
    ensures Kept(h, v, Lists(h, input))
  {
    hide Kept, Shows, ServiceList;
    var h0 := h.(replies := input.replies);
    KeptSame(h, v, h0);
    var h1 := PeriodicPart(h0, input);
    if h1 != h0 { ListKeeps(h, v, h0, input.periodic.value, true, h1); }
    var h2 := ControlPart(h1, input);
    if h2 != h1 { ListKeeps(h, v, h1, input.control.value, false, h2); }
    var h3 := BulkPart(h2, input);
    if h3 != h2 { ListKeeps(h, v, h2, input.bulk.value, false, h3); }
  }

  // ---- What a log means ----

  /** The TDs retired, the last first. */
  function Newest(l: seq<(nat, nat)>): seq<nat> {
    if l == [] then [] else Newest(l[1..]) + [l[0].1]
  }

  /** The TDs retired from ED e, in order. */
  function From(l: seq<(nat, nat)>, e: nat): seq<nat> {
    if l == [] then [] else (if l[0].0 == e then [l[0].1] else []) + From(l[1..], e)
  }

  /** Each TD retired leaves its ED's head once and is on the done list once, the last one first. */
  lemma {:induction false} RetiredOnce(v: View, l: seq<(nat, nat)>)
    requires Legal(v, l)
    ensures Conserved(v, l, Apply(v, l))
    decreases |l|
  {
    if l == [] {
    } else {
      hide Conserved, Retire;
      RetiredOnce(Retire(v, l[0].0), l[1..]);
      RetireConserves(v, l, Apply(v, l));
    }
  }

  lemma RetireConserves(v: View, l: seq<(nat, nat)>, w: View)
    requires Legal(v, l) && l != [] && Conserved(Retire(v, l[0].0), l[1..], w)
    ensures Conserved(v, l, w)
  {
    hide Newest, From;
    RetireDone(v, l, w);
    forall e | e in v.q ensures v.q[e] == From(l, e) + w.q[e] { RetireFrom(v, l, w, e); }
  }

  lemma RetireDone(v: View, l: seq<(nat, nat)>, w: View)
    requires l != [] && l[0].0 in v.q && v.q[l[0].0] != [] && v.q[l[0].0][0] == l[0].1
    requires w.done == Newest(l[1..]) + Retire(v, l[0].0).done
    ensures w.done == Newest(l) + v.done
  {
    var a := Newest(l[1..]);
    assert Newest(l) == a + [l[0].1];
    assert a + ([l[0].1] + v.done) == a + [l[0].1] + v.done;
  }

  lemma RetireFrom(v: View, l: seq<(nat, nat)>, w: View, e: nat)
    requires l != [] && l[0].0 in v.q && v.q[l[0].0] != [] && v.q[l[0].0][0] == l[0].1 && e in v.q && e in w.q
    requires Retire(v, l[0].0).q[e] == From(l[1..], e) + w.q[e]
    ensures v.q[e] == From(l, e) + w.q[e]
  {
    if e == l[0].0 {
      Prepend(v.q[e], From(l[1..], e), w.q[e]);
    } else {
      assert From(l, e) == From(l[1..], e);
    }
  }

  lemma Prepend(s: seq<nat>, a: seq<nat>, b: seq<nat>)
    requires s != [] && s[1..] == a + b
    ensures s == [s[0]] + a + b
  {
    assert s == [s[0]] + s[1..];
  }

  lemma {:induction false} NewestConcat(l: seq<(nat, nat)>, m: seq<(nat, nat)>)
    ensures Newest(l + m) == Newest(m) + Newest(l)
    decreases |l|
  {
    if l == [] {
      assert l + m == m;
    } else {
      assert (l + m)[1..] == l[1..] + m;
      NewestConcat(l[1..], m);
    }
  }

  /** A frame's lists: what the log gained left its EDs' heads for the done list. */
  lemma FrameConservesTds(h: Hc, v: View, input: Input)
    requires Shows(h, v)
    ensures var r := Lists(h, input);
      Kept(h, v, r) && Conserved(v, r.log[|h.log|..], Apply(v, r.log[|h.log|..]))
  {
    ListsKeep(h, v, input);
    hide Shows, Lists;
    RetiredOnce(v, Lists(h, input).log[|h.log|..]);
  }

  /** From v to w the TDs of l, and no others, moved from the heads of their lists to the done list. */
  predicate Conserved(v: View, l: seq<(nat, nat)>, w: View) {
    w.done == Newest(l) + v.done && w.q.Keys == v.q.Keys && forall e :: e in v.q ==> v.q[e] == From(l, e) + w.q[e]
  }

  // ---- Whole runs ----

  /** mark: the length of the log at the last write-back. */
  datatype Run = Run(h: Hc, v: View, mark: nat)

  datatype Step =
    | FrameStep(input: Input)
    | Acknowledge                                    // the driver clears WDH
    | Enable(clf: bool, blf: bool)                   // and says that lists are filled
    | Append(e: nat, td: Td, newTail: nat)           // fills the TD at an ED's tail, and has a new tail after it
    | Configure(e: nat, ed: Ed)                      // changes an ED but for its list's ends

  /** The driver appends TDs that are nowhere else. */
  predicate Allowed(r: Run, a: Step)
    requires r.v.q.Keys == r.h.eds.Keys
  {
    match a
    case FrameStep(_) => true
    case Acknowledge => true
    case Enable(_, _) => true
    case Append(e, td, newTail) =>
      && e in r.h.eds && r.h.eds[e].tail != 0 && newTail != 0 && td.next == newTail
      && newTail !in r.v.done
      && (forall f :: f in r.h.eds ==> newTail !in r.v.q[f] && r.h.eds[f].tail != newTail)
    case Configure(e, ed) => e in r.h.eds && ed.tail == r.h.eds[e].tail && ed.head == r.h.eds[e].head
  }

  function Next(r: Run, a: Step): Run
    requires r.v.q.Keys == r.h.eds.Keys && Allowed(r, a)
  {
    match a
    case FrameStep(input) =>
      var m := Lists(r.h, input);
      var l := if |r.h.log| <= |m.log| then m.log[|r.h.log|..] else [];
      var w := if Legal(r.v, l) then Apply(r.v, l) else r.v;
      if WritesBack(m, input) then Run(WriteBack(m, input), w.(done := []), |m.log|)
      else Run(WriteBack(m, input), w, r.mark)
    case Acknowledge => r.(h := r.h.(wdh := false))
    case Enable(clf, blf) => r.(h := r.h.(clf := r.h.clf || clf, blf := r.h.blf || blf))
    case Append(e, td, newTail) =>
      var ed := r.h.eds[e];
      Run(r.h.(tds := r.h.tds[ed.tail := td], eds := r.h.eds[e := ed.(tail := newTail)]),
          r.v.(q := r.v.q[e := r.v.q[e] + [ed.tail]]), r.mark)
    case Configure(e, ed) => r.(h := r.h.(eds := r.h.eds[e := ed]))
  }

  /** The memory shows the lists; the done list is what was retired since the last write-back. */
  predicate Inv(r: Run) {
    Shows(r.h, r.v) && r.mark <= |r.h.log| && r.v.done == Newest(r.h.log[r.mark..])
  }

  /** A frame: what it writes back is the TDs retired since the last write-back, the last one first. */
  lemma FrameHandsBack(r: Run, input: Input)
    requires Inv(r)
    ensures Inv(Next(r, FrameStep(input)))
    ensures var m := Lists(r.h, input); var t := Next(r, FrameStep(input));
      && r.mark <= |m.log|
      && (WritesBack(m, input) ==>
            && Linked(t.h.tds, t.h.hcca.0, Newest(m.log[r.mark..]), 0) && t.h.hcca.1 == input.other
            && t.h.done == 0 && t.mark == |m.log|)
      && (!WritesBack(m, input) ==> t.mark == r.mark && t.h.hcca == m.hcca)
  {
    var m := Lists(r.h, input);
    var w := AfterLists(r, input);
    WrittenBack(m, w, input);
    hide Lists, Legal, Apply, Linked, Separate, TailsFree, Shows;
    assert m.log[|m.log|..] == [];
  }

  lemma AfterLists(r: Run, input: Input) returns (w: View)
    requires Inv(r)
    ensures var m := Lists(r.h, input);
      && |r.h.log| <= |m.log| && Legal(r.v, m.log[|r.h.log|..]) && w == Apply(r.v, m.log[|r.h.log|..])
      && Shows(m, w) && w.done == Newest(m.log[r.mark..])
  {
    FrameConservesTds(r.h, r.v, input);
    hide Lists, Legal, Apply, Linked, Separate, TailsFree;
    var m := Lists(r.h, input);
    LogSince(r.h.log, m.log, r.mark);
    w := Apply(r.v, m.log[|r.h.log|..]);
  }

  lemma LogSince(a: seq<(nat, nat)>, b: seq<(nat, nat)>, mark: nat)
    requires mark <= |a| <= |b| && b[..|a|] == a
    ensures Newest(b[mark..]) == Newest(b[|a|..]) + Newest(a[mark..])
  {
    assert b[mark..] == a[mark..] + b[|a|..] by {
      assert b == a + b[|a|..];
    }
    NewestConcat(a[mark..], b[|a|..]);
  }

  lemma WrittenBack(m: Hc, w: View, input: Input)
    requires Shows(m, w)
    ensures var t := WriteBack(m, input);
      if WritesBack(m, input) then Shows(t, w.(done := [])) && Linked(t.tds, t.hcca.0, w.done, 0) else Shows(t, w)
  {
    var t := WriteBack(m, input);
    if WritesBack(m, input) {
      var u := w.(done := []);
      assert Separate(u) && TailsFree(t, u);
    }
  }

  lemma AppendKeeps(r: Run, e: nat, td: Td, newTail: nat)
    requires Inv(r) && Allowed(r, Append(e, td, newTail))
    ensures Inv(Next(r, Append(e, td, newTail)))
    ensures var t := Next(r, Append(e, td, newTail)); var x := r.h.eds[e].tail;
      && t.v == r.v.(q := r.v.q[e := r.v.q[e] + [x]])
      && t.h.tds == r.h.tds[x := td] && t.h.eds == r.h.eds[e := r.h.eds[e].(tail := newTail)] && t.h.log == r.h.log
  {
    var t := Next(r, Append(e, td, newTail));
    var x := r.h.eds[e].tail;
    hide Separate, TailsFree;
    forall f | f in t.v.q ensures Linked(t.h.tds, t.h.eds[f].head, t.v.q[f], t.h.eds[f].tail) {
      TailElsewhere(r.h, r.v, e);
      LinkedElsewhere(r.h.tds, x, td, r.h.eds[f].head, r.v.q[f], r.h.eds[f].tail);
      if f == e { LinkedMore(t.h.tds, r.h.eds[e].head, r.v.q[e], x, newTail); }
    }
    TailElsewhere(r.h, r.v, e);
    LinkedElsewhere(r.h.tds, x, td, r.h.done, r.v.done, 0);
    AppendSeparate(r, e, td, newTail);
  }

  lemma TailElsewhere(h: Hc, v: View, e: nat)
    requires Shows(h, v) && e in h.eds && h.eds[e].tail != 0
    ensures h.eds[e].tail !in v.done && forall f :: f in v.q ==> h.eds[e].tail !in v.q[f]
  {
  }

  lemma {:induction false} LinkedMore(tds: map<nat, Td>, from: nat, q: seq<nat>, x: nat, to: nat)
    requires Linked(tds, from, q, x) && x in tds && x != 0 && tds[x].next == to
    ensures Linked(tds, from, q + [x], to)
    decreases |q|
  {
    if q == [] {
      assert [x][1..] == [];
    } else {
      LinkedMore(tds, tds[from].next, q[1..], x, to);
      assert (q + [x])[1..] == q[1..] + [x];
    }
  }

  lemma AppendSeparate(r: Run, e: nat, td: Td, newTail: nat)
    requires Inv(r) && Allowed(r, Append(e, td, newTail))
    ensures var t := Next(r, Append(e, td, newTail)); Separate(t.v) && TailsFree(t.h, t.v)
  {
    hide Linked;
    TailElsewhere(r.h, r.v, e);
    ApartAppend(r.v, e, r.h.eds[e].tail);
    AppendTails(r, e, td, newTail);
  }

  lemma ApartAppend(v: View, e: nat, x: nat)
    requires Separate(v) && e in v.q && x !in v.done && forall f :: f in v.q ==> x !in v.q[f]
    ensures Separate(v.(q := v.q[e := v.q[e] + [x]]))
  {
    var w := v.(q := v.q[e := v.q[e] + [x]]);
    forall f, g | f in w.q && g in w.q && f != g ensures Apart(w.q[f], w.q[g]) {
      assert Apart(v.q[f], v.q[g]);
    }
  }

  lemma AppendTails(r: Run, e: nat, td: Td, newTail: nat)
    requires Inv(r) && Allowed(r, Append(e, td, newTail))
    ensures var t := Next(r, Append(e, td, newTail)); TailsFree(t.h, t.v)
  {
    hide Linked, Separate;
    var t := Next(r, Append(e, td, newTail));
    forall f, g | f in t.h.eds && g in t.h.eds && t.h.eds[f].tail != 0 ensures t.h.eds[f].tail !in t.v.q[g] {
      if f != e { assert r.h.eds[f].tail !in r.v.q[g]; }
    }
  }

  lemma NextKeeps(r: Run, a: Step)
    requires Inv(r) && Allowed(r, a)
    ensures Inv(Next(r, a))
  {
    match a
    case FrameStep(input) => FrameHandsBack(r, input);
    case Acknowledge =>
    case Enable(_, _) =>
    case Append(e, td, newTail) => AppendKeeps(r, e, td, newTail);
    case Configure(e, ed) =>
  }

  ghost predicate CanRun(r: Run, steps: seq<Step>)
    decreases |steps|
  {
    steps == [] || (r.v.q.Keys == r.h.eds.Keys && Allowed(r, steps[0]) && CanRun(Next(r, steps[0]), steps[1..]))
  }

  ghost function Execute(r: Run, steps: seq<Step>): Run
    requires CanRun(r, steps)
    decreases |steps|
  {
    if steps == [] then r else Execute(Next(r, steps[0]), steps[1..])
  }

  /** A run is its steps, one after the other. */
  lemma {:induction false} ExecuteGoesOn(r: Run, steps: seq<Step>, a: Step)
    requires CanRun(r, steps + [a])
    ensures CanRun(r, steps) && Execute(r, steps).v.q.Keys == Execute(r, steps).h.eds.Keys && Allowed(Execute(r, steps), a)
    ensures Execute(r, steps + [a]) == Next(Execute(r, steps), a)
    decreases |steps|
  {
    hide Next;
    if steps == [] {
      assert ([] + [a])[1..] == [];
    } else {
      assert (steps + [a])[1..] == steps[1..] + [a];
      ExecuteGoesOn(Next(r, steps[0]), steps[1..], a);
    }
  }

  /** Over any run of frames and of a driver that appends TDs, takes done ones and changes EDs: the
      lists in memory stay apart, and the done queue is the TDs retired since the last write-back. */
  lemma {:induction false} ListsStayWhole(r: Run, steps: seq<Step>)
    requires Inv(r) && CanRun(r, steps)
    ensures Inv(Execute(r, steps))
    decreases |steps|
  {
    if steps != [] {
      NextKeeps(r, steps[0]);
      ListsStayWhole(Next(r, steps[0]), steps[1..]);
    }
  }

  /** A TD retired by a device that moved r of its len bytes: CBP 0 where all moved, and where not the
      len - r bytes left, but when the move stopped at the crossing into page 0. */
  lemma RetiredTdLeavesRest(h: Hc, e: nat, data: seq<Byte>)
    requires e in h.eds && h.replies != [] && h.replies[0] == Moved(data)
    requires ServiceTd(h, e).0.log != h.log
    ensures h.eds[e].head in h.tds && h.eds[e].head in ServiceTd(h, e).0.tds
    ensures var td, td1 := h.tds[h.eds[e].head], ServiceTd(h, e).0.tds[h.eds[e].head];
      var len := Len(td.cbp, td.be); var r := Min(|data|, len);
      && len <= MAX && td1.be == td.be
      && (r == len ==> td1.cbp == 0)
      && (r < len ==>
            && (Len(td1.cbp, td1.be) == len - r <==> !(Crosses(td.cbp, td.be) && r == First(td.cbp) && td.be < PAGE))
            && (td1.cbp != 0 ==> Continues(td.cbp, td.be, r, td1.cbp)))
      && (td1.cc == CC_NOERROR <==> r == len || (IsIn(h.eds[e], td) && td.rounding))
      && (ServiceTd(h, e).0.eds[e].halted <==> h.eds[e].halted || td1.cc != CC_NOERROR)
  {
    var td := h.tds[h.eds[e].head];
    var len := Len(td.cbp, td.be);
    var r := Min(|data|, len);
    if r < len { ShortTransferExactly(td.cbp, td.be, r); }
    hide Advanced, Crosses, Continues, TransferBuffer.First, Scatter, Len;
  }

  // ---- In place ----

  /** The controller over guest memory: buffers in RAM, descriptors by address. */
  class Controller {
    const ram: array<Byte>
    const buf: array<Byte>
    var tds: map<nat, Td>
    var eds: map<nat, Ed>
    var done: nat
    var doneCount: nat
    var clf: bool
    var blf: bool
    var wdh: bool
    var hcca: (nat, bool)
    var replies: seq<Reply>
    ghost var log: seq<(nat, nat)>

    ghost predicate Valid()
      reads this
    {
      ram != buf && buf.Length == MAX
    }

    ghost function H(): Hc
      reads this, ram
    {
      Hc(ram[..], tds, eds, done, doneCount, clf, blf, wdh, hcca, replies, log)
    }

    constructor (size: nat)
      ensures Valid() && fresh(ram) && fresh(buf) && ram.Length == size
      ensures H() == Hc(seq(size, _ => 0), map[], map[], 0, NO_DELAY, false, false, false, (0, false), [], [])
    {
      ram, buf := new Byte[size](_ => 0), new Byte[MAX](_ => 0);
      tds, eds, done, doneCount, clf, blf, wdh := map[], map[], 0, NO_DELAY, false, false, false;
      hcca, replies, log := (0, false), [], [];
    }

    /** The bytes a device moved, in the buffer. */
    method Receive(td: Td, data: seq<Byte>)
      requires Valid() && |data| <= MAX
      modifies ram, buf
      ensures ram[..] == Scatter(old(ram[..]), td.cbp, td.be, data)
    {
      hide Scatter;
      Fill(data);
      TdCopy(ram, td.cbp, td.be, buf, |data|, true);
    }

    method Fill(data: seq<Byte>)
      requires Valid() && |data| <= MAX
      modifies buf
      ensures buf[..|data|] == data
    {
      for i := 0 to |data|
        invariant buf[..i] == data[..i]
      {
        buf[i] := data[i];
      }
    }

    /** The bytes for a device, in the buffer. */
    method Send(td: Td) returns (data: seq<Byte>)
      requires Valid() && Len(td.cbp, td.be) <= MAX
      modifies ram, buf
      ensures ram[..] == old(ram[..]) && Carries(ram[..], td, old(buf[..]), data)
    {
      var len := Len(td.cbp, td.be);
      ghost var was := buf[..];
      if len > 0 {
        TdCopy(ram, td.cbp, td.be, buf, len, false);
      }
      data := buf[..len];
      assert was[..len] == old(buf[..len]);
      GathersInOrder(ram[..], td, was);
    }

    /** service_td, and what the device was sent. */
    method Service(e: nat) returns (more: bool, sent: Option<seq<Byte>>)
      requires Valid() && e in eds
      modifies this, ram, buf
      ensures Valid() && (H(), more) == ServiceTd(old(H()), e)
      ensures sent.Some? <==> Sends(old(H()), e)
      ensures sent.Some? ==> Carries(old(ram[..]), old(H()).tds[old(H()).eds[e].head], old(buf[..]), sent.value)
      ensures Arrives(old(H()), e, ram[..])
    {
      hide Retired, Carries, Arrives;
      DataArrives(H(), e);
      sent := None;
      var ed := eds[e];
      if ed.head !in tds {
        return false, sent;
      }
      var td := tds[ed.head];
      if Len(td.cbp, td.be) > MAX {
        return false, sent;
      }
      if !IsIn(ed, td) {
        var data := Send(td);
        sent := Some(data);
      }
      var reply := Nak;
      if replies != [] {
        reply, replies := replies[0], replies[1..];
      }
      if reply.Nak? {
        return false, sent;
      }
      more := Retire(e, td, reply);
    }

    /** What the device sent, into the buffer. */
    method Accept(ed: Ed, td: Td, reply: Reply)
      requires Valid() && Len(td.cbp, td.be) <= MAX
      modifies ram, buf
      ensures ram[..] == Received(old(ram[..]), ed, td, reply)
    {
      hide Scatter, IsIn, Len;
      if reply.Moved? && IsIn(ed, td) {
        Receive(td, reply.data[..Min(|reply.data|, Len(td.cbp, td.be))]);
      }
    }

    /** Its part once the device answered. */
    method Retire(e: nat, td: Td, reply: Reply) returns (more: bool)
      requires Valid() && e in eds && Len(td.cbp, td.be) <= MAX
      modifies this, ram, buf
      ensures Valid() && H() == Retired(old(H()), e, td, reply)
      ensures more == !Answered(old(eds)[e], td, reply).1.halted
    {
      hide Received, Len, Answered, Min;
      var ed := eds[e];
      var (td1, ed1) := Answered(ed, td, reply);
      AnsweredDelay(ed, td, reply);
      Accept(ed, td, reply);
      Unlink(e, td1, ed1, td.next);
      CountDelay(td1.delay, td1.cc != CC_NOERROR);
      more := !ed1.halted;
    }

    /** The head off its ED and onto the done list. */
    method Unlink(e: nat, td: Td, ed: Ed, next: nat)
      requires e in eds
      modifies this`tds, this`eds, this`done, this`log
      ensures H() == old(H()).(tds := old(tds)[ed.head := td.(next := old(done))], eds := old(eds)[e := ed.(head := next)],
                               done := ed.head, log := old(log) + [(e, ed.head)])
    {
      tds := tds[ed.head := td.(next := done)];
      eds := eds[e := ed.(head := next)];
      log := log + [(e, ed.head)];
      done := ed.head;
    }

    /** The done queue waits no longer than the TD asks, and not at all after an error. */
    method CountDelay(delay: nat, error: bool)
      modifies this`doneCount
      ensures doneCount == if error then 0 else Min(delay, old(doneCount))
    {
      if delay < doneCount {
        doneCount := delay;
      }
      if error {
        doneCount := 0;
      }
    }

    /** The visit to one ED. */
    method Visit(e: nat, periodic: bool) returns (active: bool)
      requires Valid() && e in eds
      modifies this, ram, buf
      ensures Valid() && (H(), active) == ServiceEd(old(H()), e, periodic, 0)
    {
      hide ServiceTd;
      active := false;
      var n := 0;
      ghost var h0 := H();
      while !eds[e].halted && eds[e].head != eds[e].tail && n < TDS_A_VISIT
        invariant Valid() && n <= TDS_A_VISIT && e in eds && (active <==> n > 0)
        invariant ServiceEd(h0, e, periodic, 0) == ServiceEd(H(), e, periodic, n)
        decreases TDS_A_VISIT - n
      {
        ghost var h1 := H();
        EdStays(h1, e);
        active, n := true, n + 1;
        var more, _ := Service(e);
        if !more || periodic {
          return;
        }
      }
    }

    /** service_list. */
    method WalkList(head: nat, periodic: bool) returns (active: bool)
      requires Valid()
      modifies this, ram, buf
      ensures Valid() && (H(), active) == ServiceList(old(H()), head, periodic, 0)
    {
      hide ServiceEd;
      active := false;
      var pa, guard := head, 0;
      ghost var h0 := H();
      while pa != 0 && guard < EDS_A_LIST
        invariant Valid() && guard <= EDS_A_LIST
        invariant ServiceList(h0, head, periodic, 0) ==
                  (ServiceList(H(), pa, periodic, guard).0, active || ServiceList(H(), pa, periodic, guard).1)
        decreases EDS_A_LIST - guard
      {
        if pa !in eds {
          break;
        }
        var ed := eds[pa];
        if !ed.skip {
          var here := Visit(pa, periodic);
          active := active || here;
        }
        pa, guard := ed.next, guard + 1;
      }
    }

    /** frame. */
    method Tick(input: Input)
      requires Valid()
      modifies this, ram, buf
      ensures Valid() && H() == Frame(old(H()), input)
    {
      hide Lists;
      WalkLists(input);
      if done != 0 && doneCount == 0 && !wdh && input.hccaOk {
        hcca, done, doneCount, wdh := (done, input.other), 0, NO_DELAY, true;
      }
      if doneCount != NO_DELAY && doneCount != 0 {
        doneCount := doneCount - 1;
      }
    }

    /** Its lists. */
    method WalkLists(input: Input)
      requires Valid()
      modifies this, ram, buf
      ensures Valid() && H() == Lists(old(H()), input)
    {
      hide PeriodicPart, ControlPart, BulkPart;
      replies := input.replies;
      WalkPeriodic(input);
      WalkControl(input);
      WalkBulk(input);
    }

    method WalkPeriodic(input: Input)
      requires Valid()
      modifies this, ram, buf
      ensures Valid() && H() == PeriodicPart(old(H()), input)
    {
      hide ServiceList;
      if input.periodic.Some? && input.hccaOk {
        var _ := WalkList(input.periodic.value, true);
      }
    }

    method WalkControl(input: Input)
      requires Valid()
      modifies this, ram, buf
      ensures Valid() && H() == ControlPart(old(H()), input)
    {
      hide ServiceList;
      if input.control.Some? && clf {
        var active := WalkList(input.control.value, false);
        clf := clf && active;
      }
    }

    method WalkBulk(input: Input)
      requires Valid()
      modifies this, ram, buf
      ensures Valid() && H() == BulkPart(old(H()), input)
    {
      hide ServiceList;
      if input.bulk.Some? && blf {
        var active := WalkList(input.bulk.value, false);
        blf := blf && active;
      }
    }
  }

  lemma GathersInOrder(ram: seq<Byte>, td: Td, was: seq<Byte>)
    requires Len(td.cbp, td.be) <= |was| <= MAX
    ensures Carries(ram, td, was, Gather(ram, td.cbp, td.be, was[..Len(td.cbp, td.be)]))
  {
    var len := Len(td.cbp, td.be);
    hide Gather, Reaches, Len, Address;
    forall i | 0 <= i < len
      ensures Reaches(|ram|, td.cbp, td.be, len, i) ==>
        Address(td.cbp, td.be, i) < |ram| && Gather(ram, td.cbp, td.be, was[..len])[i] == ram[Address(td.cbp, td.be, i)]
      ensures !Reaches(|ram|, td.cbp, td.be, len, i) ==> Gather(ram, td.cbp, td.be, was[..len])[i] == was[i]
    {
      GatherReads(ram, td.cbp, td.be, was[..len], i);
    }
  }

  lemma AnsweredDelay(ed: Ed, td: Td, reply: Reply)
    requires Len(td.cbp, td.be) <= MAX
    ensures Answered(ed, td, reply).0.delay == td.delay && Answered(ed, td, reply).1.head == ed.head
  {
  }

  lemma EdStays(h: Hc, e: nat)
    requires e in h.eds
    ensures e in ServiceTd(h, e).0.eds
  {
  }
}
