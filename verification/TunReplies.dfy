/**
  What every request is answered, condition by condition, and what one request tells of another: the
  PPA selected, the sap bound, the address set, the copies asked for.
 */
module TunReplies {
  import opened Basics
  import opened TunSpec
  import opened EtherFrame
  import opened TunFrames
  import opened TunRuns
  import opened TunMessages

  // ---------------------------------------------------------------- when each answer is given

  lemma AttachAnswers(v: View, q: Qid, short: bool, p: int)
    requires q in v.strs
    ensures var r := AttachReply(v, q, short, p);
      var free, known := v.strs[q].state == Unattached, 0 <= p < 4096 && p in v.table;
      && (r == ErrAck(CAttach, BadPrim) <==> short)
      && (r == ErrAck(CAttach, OutState) <==> !short && !free)
      && (r == ErrAck(CAttach, BadPpa) <==> !short && free && !known)
      && (r == OkAck(CAttach) <==> !short && free && known)
  {}

  lemma DetachAnswers(v: View, q: Qid, short: bool)
    requires q in v.strs
    ensures var r := DetachReply(v, q, short);
      && (r == ErrAck(CDetach, BadPrim) <==> short)
      && (r == ErrAck(CDetach, OutState) <==> !short && v.strs[q].state != Unbound)
      && (r == OkAck(CDetach) <==> !short && v.strs[q].state == Unbound)
  {}

  lemma BindAnswers(v: View, q: Qid, short: bool, sap: nat, xidtest: bool)
    requires q in v.strs
    ensures Wf(v) && v.strs[q].state == Unbound ==> v.strs[q].ppa.Some? && v.strs[q].ppa.value in v.table
    ensures var r, known := BindReply(v, q, short, sap, xidtest), v.strs[q].ppa.Some? && v.strs[q].ppa.value in v.table;
      var ready := !short && v.strs[q].state == Unbound && known;
      && (r == ErrAck(CBind, BadPrim) <==> short)
      && (r == ErrAck(CBind, OutState) <==> !short && v.strs[q].state != Unbound)
      && (r == ErrAck(CBind, SysErr) <==> !short && v.strs[q].state == Unbound && !known)
      && (r == ErrAck(CBind, NoAuto) <==> ready && xidtest)
      && (r == ErrAck(CBind, BadSap) <==> ready && !xidtest && sap > 0xffff)
      && (r.BindAck? <==> ready && !xidtest && sap <= 0xffff)
      && (r.BindAck? ==> known && r == BindAck(sap, v.table[v.strs[q].ppa.value].mac))
  {
    if Wf(v) { assert StreamOk(v, q); }
  }

  lemma UnbindAnswers(v: View, q: Qid, short: bool)
    requires q in v.strs
    ensures var r := UnbindReply(v, q, short);
      && (r == ErrAck(CUnbind, BadPrim) <==> short)
      && (r == ErrAck(CUnbind, OutState) <==> !short && v.strs[q].state != Idle)
      && (r == OkAck(CUnbind) <==> !short && v.strs[q].state == Idle)
  {}

  lemma PromiscAnswers(mode: Mode, v: View, q: Qid, on: bool, short: bool, l: Level)
    requires q in v.strs
    ensures var r, c := DlpiReply(mode, v, q, PromiscReq(on, l), short), if on then CPromiscOn else CPromiscOff;
      && (r == ErrAck(c, BadPrim) <==> short)
      && (r == ErrAck(c, NotSupported) <==> !short && l == LOther)
      && (r == OkAck(c) <==> !short && l != LOther)
  {}

  /** The requests that only ask, and those that one build or both do not support. */
  lemma OtherAnswers(mode: Mode, v: View, q: Qid, short: bool, mac: Mac, enable: bool, dest: Mac, code: nat)
    requires Wf(v) && q in v.strs
    ensures var s := v.strs[q];
      var own := if s.ppa.Some? && s.ppa.value in v.table then Some(v.table[s.ppa.value].mac) else None;
      && (s.ppa.Some? <==> own.Some?)
      && DlpiReply(mode, v, q, InfoReq, short) ==
           (if short then ErrAck(CInfo, BadPrim) else InfoAck(s.state, s.sap, own))
      && DlpiReply(mode, v, q, PhysAddrReq, short) ==
           (if short then ErrAck(CPhysAddr, BadPrim)
            else if s.ppa.None? then ErrAck(CPhysAddr, SysErr)
            else PhysAddrAck(own.value))
      && DlpiReply(mode, v, q, SetPhysAddrReq(mac), short) ==
           (if mode == Tap then OkAck(CSetPhysAddr) else ErrAck(CSetPhysAddr, Unsupported))
      && DlpiReply(mode, v, q, MultiReq(true), short) ==
           (if mode == Tap then OkAck(CEnabMulti) else ErrAck(CEnabMulti, Unsupported))
      && DlpiReply(mode, v, q, MultiReq(false), short) ==
           (if mode == Tap then OkAck(CDisabMulti) else ErrAck(CDisabMulti, Unsupported))
      && DlpiReply(mode, v, q, UnitdataReq(dest), short) == ErrAck(CUnitdata, Unsupported)
      && DlpiReply(mode, v, q, OtherReq(code), short) == ErrAck(COther(code), Unsupported)
  {
    assert StreamOk(v, q);
  }

  /** The reply itself with memory, an error message without, and nothing at all for a lost address. */
  lemma AnswersIff(mode: Mode, v: View, q: Qid, b: Body, r: Room)
    requires q in v.strs && b.Proto?
    ensures var reply := DlpiReply(mode, v, q, b.req, b.short);
      && (r.reuse || r.alloc ==> DlpiAnswers(mode, v, q, b, r) == [Dl(reply)])
      && (!r.reuse && !r.alloc && r.last && !reply.PhysAddrAck? ==>
            DlpiAnswers(mode, v, q, b, r) == [StreamError(ENOSR)])
      && (!r.reuse && !r.alloc && (!r.last || reply.PhysAddrAck?) ==> DlpiAnswers(mode, v, q, b, r) == [])
  {}

  lemma NewPpaAnswers(v: View, p: int, alloc: bool)
    requires Wf(v)
    ensures var r := NewPpaReply(v, p, alloc);
      var full := forall i :: 0 <= i < 4096 ==> i in v.table;
      && (r == Nak(EINVAL) <==> p < -1 || p >= 4096)
      && (r == Nak(EEXIST) <==> 0 <= p < 4096 && p in v.table)
      && (r == Nak(ENOMEM) <==> (p == -1 && (full || !alloc)) || (0 <= p < 4096 && p !in v.table && !alloc))
      && (r.Ack? <==> alloc && ((p == -1 && !full) || (0 <= p < 4096 && p !in v.table)))
      && (r.Ack? && p != -1 ==> r.ret == p)
      && (r.Ack? && p == -1 ==> 0 <= r.ret < 4096 && r.ret !in v.table && forall i :: 0 <= i < r.ret ==> i in v.table)
  {}

  lemma SetPpaAnswers(v: View, p: int)
    ensures var r := SetPpaReply(v, p);
      && (r == Nak(EINVAL) <==> p < 0 || p >= 4096)
      && (r == Nak(ENODEV) <==> 0 <= p < 4096 && p !in v.table)
      && (r == Ack(p) <==> 0 <= p < 4096 && p in v.table)
  {}

  /** Every ioctl; a new control stream, and no other, is told to raise its high water mark. */
  lemma IoctlAnswers(v: View, q: Qid, ioc: Ioc, alloc: bool)
    requires q in v.strs
    ensures var r := IoctlReply(v, q, ioc, alloc);
      && (ioc == IocGetPpa ==> r == match v.strs[q].ppa case Some(p) => Ack(p) case None => Nak(ENODEV))
      && (ioc == IocRaw ==> r == Ack(0))
      && (ioc == IocOther ==> r == Nak(EINVAL))
      && (ioc.IocNewPpa? ==> r == NewPpaReply(v, ioc.p, alloc))
      && (ioc.IocSetPpa? ==> r == SetPpaReply(v, ioc.p))
      && IoctlPuts(q, ioc, r) == if ioc.IocNewPpa? && r.Ack? then [Put(q, SetOpts)] else []
  {}

  // ---------------------------------------------------------------- what one request tells of another

  /** A PPA selected, attached to or newly made is the one that is told afterwards. */
  lemma SelectedIsTold(mac: Mac, v: View, q: Qid, p: int)
    requires Wf(v) && q in v.strs
    ensures SetPpaReply(v, p).Ack? ==>
      var w := Step(mac, v, Op.SetPpa(q, p)); GetPpaReply(w, q) == Ack(p) && w.strs[q].state == v.strs[q].state
    ensures AttachReply(v, q, false, p).OkAck? ==>
      var w := Step(mac, v, Attach(q, false, p)); GetPpaReply(w, q) == Ack(p) && w.strs[q].state == Unbound
    ensures NewPpaReply(v, p, true).Ack? ==>
      var w := Step(mac, v, Op.NewPpa(q, p, true)); GetPpaReply(w, q) == NewPpaReply(v, p, true)
  {}

  /** A new PPA has the caller's queue, no members and the local address; its stream has control. */
  lemma NewPpaMakes(mac: Mac, v: View, q: Qid, p: int)
    requires Wf(v) && q in v.strs && NewPpaReply(v, p, true).Ack?
    ensures var w, n := Step(mac, v, Op.NewPpa(q, p, true)), NewPpaReply(v, p, true).ret;
      && n >= 0 && w.table == v.table[n as nat := PpaRec(q, [], mac)] && w.order == v.order
      && w.strs == v.strs[q := v.strs[q].(ppa := Some(n as nat), flags := v.strs[q].flags + {Control})]
      && DlpiReply(Tap, w, q, PhysAddrReq, false) == PhysAddrAck(mac)
  {}

  /** What was bound is what is told, until it is unbound. */
  lemma BoundIsTold(mode: Mode, mac: Mac, v: View, q: Qid, sap: nat)
    requires Wf(v) && q in v.strs && v.strs[q].state == Unbound && sap <= 0xffff
    ensures var w := Step(mac, v, Bind(q, false, sap, false));
      var u := Step(mac, w, Unbind(q, false));
      && DlpiReply(mode, w, q, PhysAddrReq, false).PhysAddrAck?
      && BindReply(v, q, false, sap, false) == BindAck(sap, DlpiReply(mode, w, q, PhysAddrReq, false).mac)
      && DlpiReply(mode, w, q, InfoReq, false)
           == InfoAck(Idle, sap, Some(DlpiReply(mode, w, q, PhysAddrReq, false).mac))
      && DlpiReply(mode, u, q, InfoReq, false)
           == InfoAck(Unbound, 0, Some(DlpiReply(mode, w, q, PhysAddrReq, false).mac))
  {
    assert StreamOk(v, q);
  }

  /** Each level is one flag, and no other changes; nor does any other stream. */
  lemma PromiscChanges(mac: Mac, v: View, q: Qid, on: bool, l: Level)
    requires q in v.strs && l != LOther
    ensures var w := Step(mac, v, Promisc(q, on, false, l));
      var f := match l case LPhys => AllPhy case LSap => AllSap case _ => AllMul;
      w == v.(strs := v.strs[q := v.strs[q].(flags := if on then v.strs[q].flags + {f} else v.strs[q].flags - {f})])
  {}

  /** Is the frame for this stream, sniffer or not? */
  ghost predicate Addressed(mode: Mode, v: View, x: Qid, f: Frame)
    requires Readable(mode, f)
  {
    && PpaOf(v, x).Some?
    && match mode
       case Tun => v.strs[x].sap == (if f[0] / 16 == 6 then 0x86dd else 0x0800)
       case Tap => Eligible(f, v.strs[x].sap, PpaOf(v, x).value.mac)
  }

  /** Promiscuous by address or by sap: from then on a copy of every frame, besides those that are addressed. */
  lemma PromiscOnCopies(mode: Mode, mac: Mac, v: View, q: Qid, x: Qid, l: Level, f: Frame, o: Outcomes)
    requires Wf(v) && Readable(mode, f) && IsControl(v, q) && AllSucceed(o, x)
    requires x in v.strs && !IsControl(v, x) && v.strs[x].ppa == v.strs[q].ppa && (l == LPhys || l == LSap)
    ensures var w := Step(mac, v, Promisc(x, true, false, l));
      Count(FramePuts(mode, w, q, f, o), x) == 1 + Bit(Addressed(mode, v, x, f))
  {
    var w := Step(mac, v, Promisc(x, true, false, l));
    StepWf(mac, v, Promisc(x, true, false, l));
    PromiscChanges(mac, v, x, true, l);
    hide Step, FramePuts, Count, Wf;
    CopiesIff(mode, w, q, f, o, x);
  }

  /** Promiscuous no longer, in either way: only what is addressed. */
  lemma PromiscOffCopies(mode: Mode, mac: Mac, v: View, q: Qid, x: Qid, f: Frame, o: Outcomes)
    requires Wf(v) && Readable(mode, f) && IsControl(v, q) && AllSucceed(o, x)
    requires x in v.strs && !IsControl(v, x) && v.strs[x].ppa == v.strs[q].ppa
    ensures x in Step(mac, v, Promisc(x, false, false, LPhys)).strs
    ensures var w := Step(mac, Step(mac, v, Promisc(x, false, false, LPhys)), Promisc(x, false, false, LSap));
      Count(FramePuts(mode, w, q, f, o), x) == Bit(Addressed(mode, v, x, f))
  {
    PromiscChanges(mac, v, x, false, LPhys);
    StepWf(mac, v, Promisc(x, false, false, LPhys));
    var u := Step(mac, v, Promisc(x, false, false, LPhys));
    PromiscChanges(mac, u, x, false, LSap);
    StepWf(mac, u, Promisc(x, false, false, LSap));
    var w := Step(mac, u, Promisc(x, false, false, LSap));
    hide Step, FramePuts, Count, Wf;
    CopiesIff(mode, w, q, f, o, x);
  }

  /** Raw mode is one flag of one stream. */
  lemma RawChanges(mac: Mac, v: View, q: Qid)
    requires q in v.strs
    ensures Step(mac, v, SetRaw(q)) == v.(strs := v.strs[q := v.strs[q].(flags := v.strs[q].flags + {Raw})])
  {}

  /** An open adds one stream with the minor found or given, and leaves the others alone; a second one nothing. */
  lemma OpenAdds(mac: Mac, v: View, q: Qid, clone: bool, devMinor: nat)
    requires Wf(v)
    ensures var w := Step(mac, v, Open(q, clone, devMinor));
      && (q in v.strs ==> w == v)
      && (q !in v.strs ==>
            && w.table == v.table
            && w.strs == v.strs[q := Strm(if clone then CloneSlot(v, 0) else devMinor, None, {}, Unattached, 0)]
            && Remove(w.order, q) == v.order
            && |w.order| == |v.order| + 1 && w.order[if clone then CloneSlot(v, 0) else 0] == q)
  {
    if q !in v.strs {
      InsertedAt(v.order, if clone then CloneSlot(v, 0) else 0, q);
    }
  }

  lemma InsertedAt(s: seq<Qid>, k: nat, q: Qid)
    requires NoDup(s) && q !in s && k <= |s|
    ensures var r := s[..k] + [q] + s[k..]; Remove(r, q) == s && |r| == |s| + 1 && r[k] == q
  {
    var r := s[..k] + [q] + s[k..];
    InsertNew(s, k, q);
    assert r[k] == q;
    RemoveAt(r, k);
    assert r[..k] + r[k + 1..] == s;
  }
}
