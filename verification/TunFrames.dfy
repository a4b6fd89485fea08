/**
  Where a frame goes: the copies made for sniffers and for protocol streams, and the way up to the
  control stream, for every answer the flow control and the allocators may give.
 */
module TunFrames {
  import opened Basics
  import opened TunSpec
  import opened EtherFrame

  datatype Mode = Tun | Tap

  const ETHERTYPE_IP: nat := 0x0800
  const ETHERTYPE_IPV6: nat := 0x86dd

  /** Bytes the driver reads from the front of a frame. */
  predicate Readable(mode: Mode, f: Frame) {
    |f| >= if mode.Tap? then HDRLEN else 1
  }

  /** The type that routes a frame in the TUN build, from the IP version nibble. */
  function IpType(f: Frame): nat
    requires |f| > 0
  {
    if f[0] / 16 == 6 then ETHERTYPE_IPV6 else ETHERTYPE_IP
  }

  /** What reaches the queue above a stream. */
  datatype Up =
    | Plain(frame: Frame)
    | Ether(etherType: nat, frame: Frame)
    | UnitInd(addrs: Option<(Mac, Mac)>, sap: nat, frame: Frame)
    | SetOpts

  datatype Put = Put(q: Qid, what: Up)

  /** The places where the driver asks for room or memory while routing one frame. */
  datatype Site = Sniff(q: Qid) | Proto(q: Qid) | Ctl

  /** Arbitrary answers of canputnext, dupmsg and the allocb of a header block. */
  datatype Outcomes = Outcomes(can: Site -> bool, dup: Site -> bool, hdr: Site -> bool)

  predicate Sniffer(flags: set<Flag>) {
    AllSap in flags || AllPhy in flags
  }

  /** Only the raw streams of the TAP build get the frame without a block in front. */
  predicate NeedsBlock(mode: Mode, flags: set<Flag>) {
    !(mode.Tap? && Raw in flags)
  }

  function Wrap(mode: Mode, flags: set<Flag>, f: Frame): Up
    requires Readable(mode, f)
  {
    if Raw in flags then (if mode.Tap? then Plain(f) else Ether(IpType(f), f))
    else if mode.Tap? then UnitInd(Some((Dest(f), Src(f))), EtherType(f), Payload(f))
    else UnitInd(None, IpType(f), f)
  }

  /** Does a frame from the control stream interest a protocol stream? */
  predicate Wants(mode: Mode, s: Strm, mac: Mac, f: Frame)
    requires Readable(mode, f)
  {
    if mode.Tap? then Eligible(f, s.sap, mac) else s.sap == IpType(f)
  }

  predicate Passes(mode: Mode, flags: set<Flag>, site: Site, o: Outcomes) {
    o.can(site) && o.dup(site) && (NeedsBlock(mode, flags) ==> o.hdr(site))
  }

  function SniffPut(mode: Mode, v: View, q: Qid, f: Frame, o: Outcomes): seq<Put>
    requires Readable(mode, f)
  {
    if q in v.strs && Sniffer(v.strs[q].flags) && Passes(mode, v.strs[q].flags, Sniff(q), o)
    then [Put(q, Wrap(mode, v.strs[q].flags, f))] else []
  }

  function ProtoPut(mode: Mode, v: View, q: Qid, mac: Mac, f: Frame, o: Outcomes): seq<Put>
    requires Readable(mode, f)
  {
    if q in v.strs && Wants(mode, v.strs[q], mac, f) && Passes(mode, v.strs[q].flags, Proto(q), o)
    then [Put(q, Wrap(mode, v.strs[q].flags, f))] else []
  }

  function SniffPuts(mode: Mode, v: View, ms: seq<Qid>, f: Frame, o: Outcomes): seq<Put>
    requires Readable(mode, f)
  {
    if ms == [] then []
    else SniffPuts(mode, v, ms[..|ms| - 1], f, o) + SniffPut(mode, v, ms[|ms| - 1], f, o)
  }

  function ProtoPuts(mode: Mode, v: View, ms: seq<Qid>, mac: Mac, f: Frame, o: Outcomes): seq<Put>
    requires Readable(mode, f)
  {
    if ms == [] then []
    else ProtoPuts(mode, v, ms[..|ms| - 1], mac, f, o) + ProtoPut(mode, v, ms[|ms| - 1], mac, f, o)
  }

  /** One more entry of the list, one more possible copy. */
  lemma SniffSnoc(mode: Mode, v: View, ms: seq<Qid>, i: nat, f: Frame, o: Outcomes)
    requires Readable(mode, f) && i < |ms|
    ensures SniffPuts(mode, v, ms[..i + 1], f, o) == SniffPuts(mode, v, ms[..i], f, o) + SniffPut(mode, v, ms[i], f, o)
  {
    assert ms[..i + 1][..i] == ms[..i];
  }

  lemma ProtoSnoc(mode: Mode, v: View, ms: seq<Qid>, i: nat, mac: Mac, f: Frame, o: Outcomes)
    requires Readable(mode, f) && i < |ms|
    ensures ProtoPuts(mode, v, ms[..i + 1], mac, f, o)
         == ProtoPuts(mode, v, ms[..i], mac, f, o) + ProtoPut(mode, v, ms[i], mac, f, o)
  {
    assert ms[..i + 1][..i] == ms[..i];
  }

  function PpaOf(v: View, q: Qid): Option<PpaRec> {
    if q in v.strs && v.strs[q].ppa.Some? && v.strs[q].ppa.value in v.table then Some(v.table[v.strs[q].ppa.value])
    else None
  }

  predicate IsControl(v: View, q: Qid) {
    q in v.strs && Control in v.strs[q].flags
  }

  /** Everything one frame of stream q sends up, in order. */
  function FramePuts(mode: Mode, v: View, q: Qid, f: Frame, o: Outcomes): seq<Put>
    requires Readable(mode, f)
  {
    match PpaOf(v, q)
    case None => []
    case Some(p) =>
      SniffPuts(mode, v, p.members, f, o) +
      if IsControl(v, q) then ProtoPuts(mode, v, p.members, p.mac, f, o)
      else if o.can(Ctl) then [Put(p.rq, Plain(f))] else []
  }

  /** The frame goes back on its own queue: only on the way to a full control stream, and only once. */
  predicate Requeued(v: View, q: Qid, drop: bool, o: Outcomes) {
    PpaOf(v, q).Some? && !IsControl(v, q) && !o.can(Ctl) && !drop
  }

  // ---------------------------------------------------------------- counting deliveries

  function Count(ps: seq<Put>, x: Qid): nat {
    if ps == [] then 0 else Count(ps[..|ps| - 1], x) + Bit(ps[|ps| - 1].q == x)
  }

  lemma {:induction false} CountAdd(a: seq<Put>, b: seq<Put>, x: Qid)
    ensures Count(a + b, x) == Count(a, x) + Count(b, x)
  {
    if b == [] {
      assert a + b == a;
    } else {
      assert (a + b)[..|a + b| - 1] == a + b[..|b| - 1];
      CountAdd(a, b[..|b| - 1], x);
    }
  }

  lemma CountOne(p: Put, x: Qid)
    ensures Count([p], x) == Bit(p.q == x)
  {
    assert [p][..0] == [];
  }

  lemma {:induction false} SniffCount(mode: Mode, v: View, ms: seq<Qid>, f: Frame, o: Outcomes, x: Qid)
    requires Readable(mode, f) && NoDup(ms) && forall q :: q in ms ==> q in v.strs
    ensures Count(SniffPuts(mode, v, ms, f, o), x)
         == Bit(x in ms && Sniffer(v.strs[x].flags) && Passes(mode, v.strs[x].flags, Sniff(x), o))
  {
    if ms != [] {
      var l, q := ms[..|ms| - 1], ms[|ms| - 1];
      assert q in ms && (forall y :: y in l ==> y in ms) && (x in ms <==> x in l || x == q);
      SniffCount(mode, v, l, f, o, x);
      CountAdd(SniffPuts(mode, v, l, f, o), SniffPut(mode, v, q, f, o), x);
      CountOne(Put(q, Wrap(mode, v.strs[q].flags, f)), x);
      assert q !in l;
    }
  }

  lemma {:induction false} ProtoCount(mode: Mode, v: View, ms: seq<Qid>, mac: Mac, f: Frame, o: Outcomes, x: Qid)
    requires Readable(mode, f) && NoDup(ms) && forall q :: q in ms ==> q in v.strs
    ensures Count(ProtoPuts(mode, v, ms, mac, f, o), x)
         == Bit(x in ms && Wants(mode, v.strs[x], mac, f) && Passes(mode, v.strs[x].flags, Proto(x), o))
  {
    if ms != [] {
      var l, q := ms[..|ms| - 1], ms[|ms| - 1];
      assert q in ms && (forall y :: y in l ==> y in ms) && (x in ms <==> x in l || x == q);
      ProtoCount(mode, v, l, mac, f, o, x);
      CountAdd(ProtoPuts(mode, v, l, mac, f, o), ProtoPut(mode, v, q, mac, f, o), x);
      CountOne(Put(q, Wrap(mode, v.strs[q].flags, f)), x);
      assert q !in l;
    }
  }

  lemma MembersLive(v: View, p: nat)
    requires Wf(v) && p in v.table
    ensures NoDup(v.table[p].members)
    ensures forall q :: q in v.table[p].members <==> IsMember(v, q, p)
  {
    assert PpaOk(v, p);
  }

  /** A frame of a control stream: how often it reaches each queue x, for all answers. */
  lemma ControlFrameCount(mode: Mode, v: View, q: Qid, f: Frame, o: Outcomes, x: Qid)
    requires Wf(v) && Readable(mode, f) && IsControl(v, q)
    ensures PpaOf(v, q).Some?
    ensures Count(FramePuts(mode, v, q, f, o), x) ==
            if x in v.strs && v.strs[x].ppa == v.strs[q].ppa && !IsControl(v, x)
            then Bit(Sniffer(v.strs[x].flags) && Passes(mode, v.strs[x].flags, Sniff(x), o))
               + Bit(Wants(mode, v.strs[x], PpaOf(v, q).value.mac, f) && Passes(mode, v.strs[x].flags, Proto(x), o))
            else 0
  {
    assert StreamOk(v, q);
    var p := v.strs[q].ppa.value;
    MembersLive(v, p);
    var ms := v.table[p].members;
    SniffCount(mode, v, ms, f, o, x);
    ProtoCount(mode, v, ms, v.table[p].mac, f, o, x);
    CountAdd(SniffPuts(mode, v, ms, f, o), ProtoPuts(mode, v, ms, v.table[p].mac, f, o), x);
    assert x in ms <==> IsMember(v, x, p);
  }

  /** A frame of a protocol stream: one copy per sniffer, and the frame itself to the control queue. */
  lemma ProtocolFrameCount(mode: Mode, v: View, q: Qid, f: Frame, o: Outcomes, x: Qid)
    requires Wf(v) && Readable(mode, f) && !IsControl(v, q) && PpaOf(v, q).Some?
    ensures Count(FramePuts(mode, v, q, f, o), x) ==
            Bit(x in v.strs && v.strs[x].ppa == v.strs[q].ppa && !IsControl(v, x)
                && Sniffer(v.strs[x].flags) && Passes(mode, v.strs[x].flags, Sniff(x), o))
            + Bit(o.can(Ctl) && x == PpaOf(v, q).value.rq)
  {
    var p := v.strs[q].ppa.value;
    MembersLive(v, p);
    var ms := v.table[p].members;
    SniffCount(mode, v, ms, f, o, x);
    var last := if o.can(Ctl) then [Put(v.table[p].rq, Plain(f))] else [];
    CountAdd(SniffPuts(mode, v, ms, f, o), last, x);
    CountOne(Put(v.table[p].rq, Plain(f)), x);
    assert x in ms <==> IsMember(v, x, p);
  }

  /** Whatever frame q sends, and however flow control and memory answer, only open streams of q's PPA get it. */
  ghost predicate Isolated(mode: Mode, v: View, q: Qid)
    requires q in v.strs
  {
    forall f: Frame, o: Outcomes, x: Qid :: Readable(mode, f) && Count(FramePuts(mode, v, q, f, o), x) > 0 ==>
      x in v.strs && v.strs[x].ppa == v.strs[q].ppa
  }

  /** The way from q to its control stream, if it has one to take, ends at an open stream of q's PPA. */
  predicate OwnControl(v: View, q: Qid)
    requires q in v.strs
  {
    match PpaOf(v, q)
    case None => true
    case Some(p) => IsControl(v, q) || (p.rq in v.strs && v.strs[p.rq].ppa == v.strs[q].ppa)
  }

  /** Isolation, over every queue open or closed, is exactly a matter of where the PPA's queue pointer leads. */
  lemma IsolationIff(mode: Mode, v: View, q: Qid)
    requires Wf(v) && q in v.strs
    ensures Isolated(mode, v, q) <==> OwnControl(v, q)
  {
    hide Wf, FramePuts, Count;
    if OwnControl(v, q) {
      forall f: Frame, o: Outcomes, x: Qid | Readable(mode, f) && Count(FramePuts(mode, v, q, f, o), x) > 0
        ensures x in v.strs && v.strs[x].ppa == v.strs[q].ppa
      {
        FrameReaches(mode, v, q, f, o, x);
      }
    } else {
      GoesAstray(mode, v, q);
    }
  }

  lemma GoesAstray(mode: Mode, v: View, q: Qid)
    requires Wf(v) && q in v.strs && !OwnControl(v, q)
    ensures !Isolated(mode, v, q)
  {
    hide Wf, FramePuts, Count, Passes, Sniffer;
    var f: Frame := seq(HDRLEN, _ => 0);
    var o := Outcomes(_ => true, _ => true, _ => true);
    ProtocolFrameCount(mode, v, q, f, o, PpaOf(v, q).value.rq);
  }

  lemma FrameReaches(mode: Mode, v: View, q: Qid, f: Frame, o: Outcomes, x: Qid)
    requires Wf(v) && q in v.strs && Readable(mode, f) && Count(FramePuts(mode, v, q, f, o), x) > 0
    ensures PpaOf(v, q).Some?
    ensures (x in v.strs && v.strs[x].ppa == v.strs[q].ppa) || (!IsControl(v, q) && x == PpaOf(v, q).value.rq)
  {
    if PpaOf(v, q).Some? {
      if IsControl(v, q) {
        ControlFrameCount(mode, v, q, f, o, x);
      } else {
        ProtocolFrameCount(mode, v, q, f, o, x);
      }
    }
  }

  predicate AllSucceed(o: Outcomes, x: Qid) {
    && o.can(Sniff(x)) && o.dup(Sniff(x)) && o.hdr(Sniff(x))
    && o.can(Proto(x)) && o.dup(Proto(x)) && o.hdr(Proto(x))
  }

  /** Some frame of q reaches x, under some answers of flow control and memory. */
  ghost predicate CanReach(mode: Mode, v: View, q: Qid, x: Qid) {
    exists f: Frame, o: Outcomes :: Readable(mode, f) && Count(FramePuts(mode, v, q, f, o), x) > 0
  }

  /** Which streams a control stream can reach in the TUN build: a matter of PPA, sap and flags, not of state. */
  lemma TunReachIff(v: View, q: Qid, x: Qid)
    requires Wf(v) && IsControl(v, q) && x in v.strs
    ensures CanReach(Tun, v, q, x) <==>
      && Control !in v.strs[x].flags && v.strs[x].ppa == v.strs[q].ppa
      && (AllPhy in v.strs[x].flags || AllSap in v.strs[x].flags || v.strs[x].sap == 0x0800 || v.strs[x].sap == 0x86dd)
  {
    hide Wf, FramePuts, Count;
    if CanReach(Tun, v, q, x) {
      var f: Frame, o: Outcomes :| Readable(Tun, f) && Count(FramePuts(Tun, v, q, f, o), x) > 0;
      ControlFrameCount(Tun, v, q, f, o, x);
    }
    if !IsControl(v, x) && v.strs[x].ppa == v.strs[q].ppa {
      var f: Frame := [if v.strs[x].sap == ETHERTYPE_IPV6 then 0x60 else 0x45];
      var o := Outcomes(_ => true, _ => true, _ => true);
      TunExactCopies(v, q, f, o, x);
      assert Readable(Tun, f);
    }
  }

  /** The EtherType of an IP packet, by its version. */
  lemma IpTypeIff(f: Frame)
    requires |f| > 0
    ensures IpType(f) == 0x86dd <==> f[0] / 16 == 6
    ensures IpType(f) == 0x0800 <==> f[0] / 16 != 6
  {}

  /** With room and memory, the TUN build delivers [sniffer] + [sap equals type] copies. */
  lemma TunExactCopies(v: View, q: Qid, f: Frame, o: Outcomes, x: Qid)
    requires Wf(v) && |f| > 0 && IsControl(v, q) && AllSucceed(o, x)
    requires x in v.strs && !IsControl(v, x) && v.strs[x].ppa == v.strs[q].ppa
    ensures Count(FramePuts(Tun, v, q, f, o), x) ==
              Bit(AllPhy in v.strs[x].flags || AllSap in v.strs[x].flags)
            + Bit(v.strs[x].sap == if f[0] / 16 == 6 then 0x86dd else 0x0800)
  {
    ControlFrameCount(Tun, v, q, f, o, x);
  }

  /** A copy passes exactly with room above, a duplicate, and, except for raw TAP streams, a block in front. */
  lemma CopiesIff(mode: Mode, v: View, q: Qid, f: Frame, o: Outcomes, x: Qid)
    requires Wf(v) && Readable(mode, f) && IsControl(v, q)
    requires x in v.strs && !IsControl(v, x) && v.strs[x].ppa == v.strs[q].ppa
    ensures PpaOf(v, q).Some?
    ensures var s := v.strs[x];
      var plain := mode == Tap && Raw in s.flags;
      var wanted := match mode
                    case Tun => s.sap == (if f[0] / 16 == 6 then 0x86dd else 0x0800)
                    case Tap => Eligible(f, s.sap, PpaOf(v, q).value.mac);
      Count(FramePuts(mode, v, q, f, o), x) ==
          Bit((AllPhy in s.flags || AllSap in s.flags)
              && o.can(Sniff(x)) && o.dup(Sniff(x)) && (plain || o.hdr(Sniff(x))))
        + Bit(wanted && o.can(Proto(x)) && o.dup(Proto(x)) && (plain || o.hdr(Proto(x))))
  {
    ControlFrameCount(mode, v, q, f, o, x);
  }

  // ---------------------------------------------------------------- what is delivered

  ghost predicate WellWrapped(mode: Mode, v: View, f: Frame, ps: seq<Put>)
    requires Readable(mode, f)
  {
    forall i :: 0 <= i < |ps| ==> ps[i].q in v.strs && ps[i].what == Wrap(mode, v.strs[ps[i].q].flags, f)
  }

  lemma {:induction false} PutsWrapped(mode: Mode, v: View, ms: seq<Qid>, mac: Mac, f: Frame, o: Outcomes)
    requires Readable(mode, f)
    ensures WellWrapped(mode, v, f, SniffPuts(mode, v, ms, f, o))
    ensures WellWrapped(mode, v, f, ProtoPuts(mode, v, ms, mac, f, o))
  {
    if ms != [] {
      PutsWrapped(mode, v, ms[..|ms| - 1], mac, f, o);
    }
  }

  /** Every copy is wrapped as its stream asked for; the frame itself goes to the control queue last. */
  lemma FrameContents(mode: Mode, v: View, q: Qid, f: Frame, o: Outcomes, i: nat)
    requires Readable(mode, f) && i < |FramePuts(mode, v, q, f, o)|
    ensures var ps := FramePuts(mode, v, q, f, o);
            if i == |ps| - 1 && !IsControl(v, q) && o.can(Ctl)
            then PpaOf(v, q).Some? && ps[i] == Put(PpaOf(v, q).value.rq, Plain(f))
            else ps[i].q in v.strs && ps[i].what == Wrap(mode, v.strs[ps[i].q].flags, f)
  {
    PutsWrapped(mode, v, PpaOf(v, q).value.members, PpaOf(v, q).value.mac, f, o);
  }

  /** TUN: every copy carries the whole packet, and is told its type; raw streams get it behind a header. */
  lemma TunContents(v: View, q: Qid, f: Frame, o: Outcomes, i: nat)
    requires |f| > 0 && i < |FramePuts(Tun, v, q, f, o)|
    ensures var p, t := FramePuts(Tun, v, q, f, o)[i], if f[0] / 16 == 6 then 0x86dd else 0x0800;
      if i == |FramePuts(Tun, v, q, f, o)| - 1 && !IsControl(v, q) && o.can(Ctl) then p.what == Plain(f)
      else p.q in v.strs && p.what == if Raw in v.strs[p.q].flags then Ether(t, f) else UnitInd(None, t, f)
    ensures !FramePuts(Tun, v, q, f, o)[i].what.SetOpts? && FramePuts(Tun, v, q, f, o)[i].what.frame == f
  {
    FrameContents(Tun, v, q, f, o, i);
  }

  /** TAP: a raw stream gets the frame as it is, any other its payload, both addresses and the type. */
  lemma TapContents(v: View, q: Qid, f: Frame, o: Outcomes, i: nat)
    requires |f| >= 14 && i < |FramePuts(Tap, v, q, f, o)|
    ensures var p := FramePuts(Tap, v, q, f, o)[i];
      if i == |FramePuts(Tap, v, q, f, o)| - 1 && !IsControl(v, q) && o.can(Ctl) then p.what == Plain(f)
      else
        && p.q in v.strs
        && p.what == if Raw in v.strs[p.q].flags then Plain(f)
                     else UnitInd(Some((f[..6], f[6..12])), f[12] as int * 256 + f[13], f[14..])
  {
    FrameContents(Tap, v, q, f, o, i);
  }

  /** The frame itself goes back on its own queue exactly on the way from a protocol stream to a full control queue. */
  lemma RequeuedIff(v: View, q: Qid, drop: bool, o: Outcomes)
    requires Wf(v) && q in v.strs
    ensures Requeued(v, q, drop, o) <==>
      v.strs[q].ppa.Some? && Control !in v.strs[q].flags && !o.can(Ctl) && !drop
  {
    assert StreamOk(v, q);
  }

  /** TAP: what one driver's protocol stream sends is what a stream of another driver is told. */
  lemma TapEndToEnd(sap: nat, dest: Mac, src: Mac, payload: Frame, flags: set<Flag>)
    requires sap <= ETHERTYPE_MAX && Raw !in flags && |payload| < 0x10000
    ensures var f := Encap(sap, dest, src, payload);
            && Readable(Tap, f)
            && Wrap(Tap, flags, f) == UnitInd(Some((dest, src)), if sap > ETHERMTU then sap else |payload|, payload)
  {
    EncapRoundTrip(sap, dest, src, payload);
  }
}
