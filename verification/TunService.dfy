/** The write side of one stream: DLPI requests, ioctls, and the put and service procedures. */
module TunService {
  import opened Basics
  import opened TunSpec
  import opened EtherFrame
  import opened TunFrames
  import opened TunRuns
  import opened TunStore
  import opened TunMessages
  import opened TunRouting
  import D = TunDriver

  // ---------------------------------------------------------------- DLPI requests from the queue

  lemma OwnPpaListed(drv: D.Driver, q: Qid)
    requires drv.Valid() && q in drv.qptr
    ensures drv.qptr[q].ppa != null ==> drv.qptr[q].ppa in drv.Ppas()
  {
    drv.StreamFacts(q);
  }

  /** The requests that change nothing. */
  method DlpiAsk(drv: D.Driver, mode: Mode, wq: Qid, req: DlReq, short: bool) returns (reply: DlReply)
    requires drv.Valid() && wq in drv.qptr && ReqOp(mode, wq, req, short).None?
    ensures drv.Valid() && drv.Tied(drv.store) && drv.view == old(drv.view) && wq in drv.view.strs
    ensures reply == DlpiReply(mode, drv.view, wq, req, short)
  {
    drv.StreamFacts(wq);
    var str := drv.qptr[wq];
    match req {
      case InfoReq =>
        if short { return ErrAck(CInfo, BadPrim); }
        reply := InfoAck(str.state, str.sap, if str.ppa == null then None else Some(str.ppa.mac));
      case PhysAddrReq =>
        if short { return ErrAck(CPhysAddr, BadPrim); }
        if str.ppa == null { return ErrAck(CPhysAddr, SysErr); }
        reply := PhysAddrAck(str.ppa.mac);
      case SetPhysAddrReq(_) => reply := ErrAck(CSetPhysAddr, Unsupported);
      case MultiReq(enable) =>
        var code := if enable then CEnabMulti else CDisabMulti;
        reply := if mode.Tap? then OkAck(code) else ErrAck(code, Unsupported);
      case UnitdataReq(_) => reply := ErrAck(CUnitdata, Unsupported);
      case OtherReq(code) => reply := ErrAck(COther(code), Unsupported);
    }
  }

  /**
    Carries out one request; the reply is still to be sent, unless a null pointer has been followed. The
    verdict is for the caller's information: the driver itself does not look at what it leaves.
   */
  method DlpiAct(drv: D.Driver, mode: Mode, wq: Qid, req: DlReq, short: bool)
    returns (reply: Option<DlReply>, verdict: Verdict)
    requires drv.Valid() && wq in drv.qptr
    modifies drv`store, drv`view, drv.qptr.Values, drv.Ppas()
    ensures drv.Tied(drv.store) && wq in old(drv.view).strs
    ensures verdict == DlpiVerdict(mode, old(drv.view), wq, req, short)
    ensures reply == if verdict.Fault? then None else Some(DlpiReply(mode, old(drv.view), wq, req, short))
    ensures verdict.Sound? ==>
              drv.Valid() && drv.view == DlpiStep(mode, drv.localMac, old(drv.view), wq, req, short)
    ensures verdict.Broken? ==> forall w :: !Represents(drv.store, w)
    ensures verdict.Fault? ==> drv.Valid() && drv.view == old(drv.view)
  {
    hide Represents, D.Driver.Tied, StreamOk, Wf, Step, DlpiStep, DlpiVerdict, Disciplined;
    hide AttachStep, DetachStep, BindStep, UnbindStep, PromiscStep;
    drv.StreamFacts(wq);
    OwnPpaListed(drv, wq);
    ghost var v, mac := drv.view, drv.localMac;
    RequestCases(mode, mac, v, wq, req, short);
    if mode.Tap? && req.SetPhysAddrReq? {
      reply := drv.SetPhysAddr(wq, req.mac);
      return reply, if reply.None? then Fault else Sound;
    }
    var listed := drv.qptr[wq].ppa != null;
    var answer: DlReply;
    match req {
      case AttachReq(p) => answer := drv.AttachReq(wq, short, p);
      case DetachReq => answer := drv.DetachReq(wq, short);
      case BindReq(sap, xidtest) => answer := drv.BindReq(wq, short, sap, xidtest);
      case UnbindReq => answer := drv.UnbindReq(wq, short);
      case PromiscReq(on, level) => answer := drv.PromiscReq(wq, on, short, level);
      case _ => answer := DlpiAsk(drv, mode, wq, req, short);
    }
    reply := Some(answer);
    verdict := if req.AttachReq? && listed && answer.OkAck? then Broken else Sound;
  }

  /** Reads the definitions back by request, for proofs in which they are hidden. */
  lemma RequestCases(mode: Mode, mac: Mac, v: View, q: Qid, req: DlReq, short: bool)
    requires q in v.strs
    ensures DlpiVerdict(mode, v, q, req, short) ==
              if mode.Tap? && req.SetPhysAddrReq? && v.strs[q].ppa.None? then Fault
              else if req.AttachReq? && AttachReply(v, q, short, req.ppa).OkAck? && v.strs[q].ppa.Some? then Broken
              else Sound
    ensures DlpiStep(mode, mac, v, q, req, short) ==
              match req
              case AttachReq(p) => AttachStep(v, q, short, p)
              case DetachReq => DetachStep(v, q, short)
              case BindReq(sap, xidtest) => BindStep(v, q, short, sap, xidtest)
              case UnbindReq => UnbindStep(v, q, short)
              case PromiscReq(on, level) => PromiscStep(v, q, on, short, level)
              case SetPhysAddrReq(m) => if mode.Tap? && v.strs[q].ppa.Some? then SetMacStep(v, q, m) else v
              case _ => v
  {}

  /** One request taken from the queue. Only a failed physical address reply goes unreported. */
  method TunDlpi(drv: D.Driver, mode: Mode, wq: Qid, mp: Msg, r: Room, k: Kernel) returns (k': Kernel, verdict: Verdict)
    requires drv.Valid() && wq in drv.qptr && mp.body.Proto?
    modifies drv`store, drv`view, drv.qptr.Values, drv.Ppas()
    ensures drv.Tied(drv.store) && wq in old(drv.view).strs
    ensures verdict == DlpiVerdict(mode, old(drv.view), wq, mp.body.req, mp.body.short)
    ensures !verdict.Fault? ==>
      && Balanced(k, k', mp.ids) && k'.pending == k.pending && k'.puts == k.puts && k'.passed == k.passed
      && k'.replies == k.replies + DlpiAnswers(mode, old(drv.view), wq, mp.body, r)
    ensures verdict.Sound? ==>
      drv.Valid() && drv.view == DlpiStep(mode, drv.localMac, old(drv.view), wq, mp.body.req, mp.body.short)
    ensures verdict.Broken? ==> forall w :: !Represents(drv.store, w)
    ensures verdict.Fault? ==> drv.Valid() && drv.view == old(drv.view) && k' == k
  {
    var reply;
    reply, verdict := DlpiAct(drv, mode, wq, mp.body.req, mp.body.short);
    k' := k;
    if reply.Some? {
      k' := SendReply(mp.ids, reply.value, r, !reply.value.PhysAddrAck?, k);
    }
  }

  // ---------------------------------------------------------------- ioctls

  /** Reads the definitions back by ioctl, for proofs in which they are hidden. */
  lemma IoctlCases(mac: Mac, v: View, q: Qid, ioc: Ioc, alloc: bool)
    requires q in v.strs
    ensures IoctlDisciplined(v, q, ioc, alloc) ==
              match ioc
              case IocNewPpa(p) => NewPpaClean(v, q, p, alloc)
              case IocSetPpa(p) => SetPpaReply(v, p).Nak? || v.strs[q].ppa.None?
              case _ => true
    ensures IoctlStep(mac, v, q, ioc, alloc) ==
              match ioc
              case IocNewPpa(p) => NewPpaStep(v, q, p, alloc, mac)
              case IocSetPpa(p) => SetPpaStep(v, q, p)
              case IocRaw => SetFlag(v, q, Raw)
              case _ => v
  {}

  /** Carries out one ioctl; the reply is still to be sent. */
  method IoctlAct(drv: D.Driver, wq: Qid, ioc: Ioc, alloc: bool) returns (reply: IocReply)
    requires drv.Valid() && wq in drv.qptr
    modifies drv`store, drv`view, drv.table, drv.qptr.Values, drv.Ppas()
    ensures drv.Tied(drv.store) && wq in old(drv.view).strs && fresh(drv.Ppas() - old(drv.Ppas()))
    ensures reply == IoctlReply(old(drv.view), wq, ioc, alloc)
    ensures IoctlDisciplined(old(drv.view), wq, ioc, alloc) ==>
              drv.Valid() && drv.view == IoctlStep(drv.localMac, old(drv.view), wq, ioc, alloc)
    ensures !IoctlDisciplined(old(drv.view), wq, ioc, alloc) ==> forall w :: !Represents(drv.store, w)
  {
    hide Represents, D.Driver.Tied, StreamOk, Wf, Step, IoctlStep, IoctlDisciplined, Disciplined;
    hide NewPpaStep, SetPpaStep;
    drv.StreamFacts(wq);
    IoctlCases(drv.localMac, drv.view, wq, ioc, alloc);
    match ioc {
      case IocNewPpa(p) => reply := drv.NewPpa(wq, p, alloc);
      case IocSetPpa(p) => reply := drv.SetPpa(wq, p);
      case IocGetPpa => reply := drv.GetPpa(wq);
      case IocRaw =>
        drv.ChangeFlag(wq, Raw, true);
        reply := Ack(0);
      case IocOther => reply := Nak(EINVAL);
    }
  }

  /** The acknowledgement always goes back in the request's own blocks. */
  method TunIoctl(drv: D.Driver, wq: Qid, mp: Msg, alloc: bool, k: Kernel) returns (k': Kernel)
    requires drv.Valid() && wq in drv.qptr && mp.body.Ioctl?
    modifies drv`store, drv`view, drv.table, drv.qptr.Values, drv.Ppas()
    ensures drv.Tied(drv.store) && wq in old(drv.view).strs && fresh(drv.Ppas() - old(drv.Ppas()))
    ensures Balanced(k, k', mp.ids) && k'.pending == k.pending && k'.passed == k.passed
    ensures var reply := IoctlReply(old(drv.view), wq, mp.body.ioc, alloc);
            k'.replies == k.replies + [Iocack(reply)] && k'.puts == k.puts + IoctlPuts(wq, mp.body.ioc, reply)
    ensures IoctlDisciplined(old(drv.view), wq, mp.body.ioc, alloc) ==>
              drv.Valid() && drv.view == IoctlStep(drv.localMac, old(drv.view), wq, mp.body.ioc, alloc)
    ensures !IoctlDisciplined(old(drv.view), wq, mp.body.ioc, alloc) ==> forall w :: !Represents(drv.store, w)
  {
    hide Represents, IoctlDisciplined, IoctlStep, IoctlReply, D.Driver.Tied, D.Driver.Valid;
    var reply := IoctlAct(drv, wq, mp.body.ioc, alloc);
    k' := k;
    if mp.body.ioc.IocNewPpa? && reply.Ack? {
      var (k1, b) := k.Alloc(1);
      k' := k1.PutNext(wq, SetOpts, b);
    }
    ghost var k2 := k';
    k' := k'.QReply(Iocack(reply), mp.ids);
    BalancedThen(k, k2, k', mp.ids);
  }

  // ---------------------------------------------------------------- the put procedure

  /** Throws away everything that waits for the service procedure. */
  method FlushQueue(k: Kernel) returns (k': Kernel)
    ensures Balanced(k, k', []) && k'.pending == [] && k'.puts == k.puts && k'.replies == k.replies
    ensures k'.passed == k.passed
  {
    k' := k;
    while k'.pending != []
      invariant Balanced(k, k', []) && k'.puts == k.puts && k'.replies == k.replies && k'.passed == k.passed
      decreases |k'.pending|
    {
      k' := k'.(pending := k'.pending[1..]).FreeMsg(k'.pending[0].ids);
    }
  }

  method PutFlush(ids: seq<nat>, writeSide: bool, readSide: bool, k: Kernel) returns (k': Kernel)
    ensures Balanced(k, k', ids) && k'.puts == k.puts && k'.passed == k.passed
    ensures k'.pending == if writeSide then [] else k.pending
    ensures k'.replies == k.replies + if readSide then [FlushBack] else []
  {
    k' := k;
    if writeSide {
      k' := FlushQueue(k');
    }
    ghost var k1 := k';
    if readSide {
      k' := k'.QReply(FlushBack, ids);
    } else {
      k' := k'.FreeMsg(ids);
    }
    BalancedThen(k, k1, k', ids);
  }

  method Wput(drv: D.Driver, mode: Mode, wq: Qid, mp: Msg, hdr: bool, r: Room, o: Outcomes,
      k: Kernel) returns (k': Kernel)
    requires drv.Valid() && wq in drv.qptr && MsgOk(mode, mp)
    modifies drv`store, drv`view, drv.table, drv.qptr.Values, drv.Ppas()
    ensures drv.Tied(drv.store) && wq in old(drv.view).strs && fresh(drv.Ppas() - old(drv.Ppas()))
    ensures Entered(k, k', mp.ids)
    ensures PutEffect(mode, old(drv.view), wq, mp, hdr, r, o, k, k')
    ensures !mp.body.Ioctl? ==> drv.Valid() && drv.view == old(drv.view)
    ensures mp.body.Ioctl? && IoctlDisciplined(old(drv.view), wq, mp.body.ioc, r.alloc) ==>
              drv.Valid() && drv.view == IoctlStep(drv.localMac, old(drv.view), wq, mp.body.ioc, r.alloc)
    ensures mp.body.Ioctl? && !IoctlDisciplined(old(drv.view), wq, mp.body.ioc, r.alloc) ==>
              forall w :: !Represents(drv.store, w)
  {
    hide Represents, IoctlDisciplined, IoctlStep, IoctlReply, FramePuts;
    hide StreamOk, D.Driver.Tied, Balanced, UnitEffect;
    drv.StreamFacts(wq);
    BalancedPutLast(k, mp);
    BalancedFree(k, mp.ids);
    match mp.body {
      case Data(_) =>
        k' := TunFrame(drv, mode, wq, mp, false, o, k);
      case Proto(req, _, _) =>
        if req.UnitdataReq? {
          k' := TunUnitdataReq(drv, mode, wq, mp, hdr, r, o, k);
        } else {
          k' := k.(pending := k.pending + [mp]);
        }
      case Ioctl(_) =>
        k' := TunIoctl(drv, wq, mp, r.alloc, k);
      case Flush(writeSide, readSide) =>
        k' := PutFlush(mp.ids, writeSide, readSide, k);
      case OtherMsg =>
        k' := k.FreeMsg(mp.ids);
    }
  }

  /** What one message put on the write side brings about besides the state change. */
  ghost predicate PutEffect(mode: Mode, v: View, q: Qid, mp: Msg, hdr: bool, r: Room, o: Outcomes, k: Kernel,
      k': Kernel)
    requires MsgOk(mode, mp) && q in v.strs
  {
    match mp.body
    case Data(f) => FrameEffect(mode, v, q, f, o, k, k')
    case Proto(req, _, cont) =>
      if !req.UnitdataReq? then k' == k.(pending := k.pending + [mp])
      else UnitEffect(mode, v, q, req.dest, cont, hdr, r, o, k, k')
    case Ioctl(ioc) =>
      var reply := IoctlReply(v, q, ioc, r.alloc);
      && k'.pending == k.pending && k'.replies == k.replies + [Iocack(reply)]
      && k'.puts == k.puts + IoctlPuts(q, ioc, reply)
    case Flush(writeSide, readSide) =>
      && k'.pending == (if writeSide then [] else k.pending)
      && k'.puts == k.puts && k'.replies == k.replies + if readSide then [FlushBack] else []
    case OtherMsg => k'.pending == k.pending && k'.puts == k.puts && k'.replies == k.replies
  }

  // ---------------------------------------------------------------- the service procedure

  lemma DlpiKeepsStreams(mode: Mode, mac: Mac, v: View, q: Qid, req: DlReq, short: bool)
    requires q in v.strs
    ensures q in DlpiStep(mode, mac, v, q, req, short).strs
  {}

  function ServedOne(mode: Mode, mac: Mac, v: View, q: Qid, b: Body): (w: View)
    requires q in v.strs
    ensures q in w.strs
  {
    if b.Proto? then
      DlpiKeepsStreams(mode, mac, v, q, b.req, b.short);
      DlpiStep(mode, mac, v, q, b.req, b.short)
    else v
  }

  /** The state once the first i messages have been served. */
  function ServedView(mode: Mode, mac: Mac, v: View, q: Qid, ms: seq<Msg>, i: nat): (w: View)
    requires q in v.strs && i <= |ms|
    ensures q in w.strs
  {
    if i == 0 then v else ServedOne(mode, mac, ServedView(mode, mac, v, q, ms, i - 1), q, ms[i - 1].body)
  }

  ghost predicate ServeOk(mode: Mode, mac: Mac, v: View, q: Qid, ms: seq<Msg>, i: nat)
    requires q in v.strs && i < |ms|
  {
    var b := ms[i].body;
    MsgOk(mode, ms[i]) && (b.Proto? ==> DlpiDisciplined(mode, ServedView(mode, mac, v, q, ms, i), q, b.req, b.short))
  }

  function ServedPuts(mode: Mode, mac: Mac, v: View, q: Qid, ms: seq<Msg>, os: nat -> Outcomes, i: nat): seq<Put>
    requires q in v.strs && i <= |ms|
    requires forall j :: 0 <= j < |ms| ==> MsgOk(mode, ms[j])
  {
    if i == 0 then []
    else
      ServedPuts(mode, mac, v, q, ms, os, i - 1) +
      match ms[i - 1].body
      case Data(f) =>
        assert MsgOk(mode, ms[i - 1]);
        FramePuts(mode, ServedView(mode, mac, v, q, ms, i - 1), q, f, os(i - 1))
      case _ => []
  }

  function ServedReplies(mode: Mode, mac: Mac, v: View, q: Qid, ms: seq<Msg>, rs: nat -> Room, i: nat): seq<Answer>
    requires q in v.strs && i <= |ms|
  {
    if i == 0 then []
    else
      ServedReplies(mode, mac, v, q, ms, rs, i - 1) +
      match ms[i - 1].body
      case Proto(_, _, _) => DlpiAnswers(mode, ServedView(mode, mac, v, q, ms, i - 1), q, ms[i - 1].body, rs(i - 1))
      case _ => []
  }

  function ServedVerdict(mode: Mode, v: View, q: Qid, b: Body): Verdict
    requires q in v.strs
  {
    if b.Proto? then DlpiVerdict(mode, v, q, b.req, b.short) else Sound
  }

  /** Handles one message taken from the queue; nothing is ever put back. */
  method Serve(drv: D.Driver, mode: Mode, wq: Qid, mp: Msg, r: Room, o: Outcomes, k: Kernel)
    returns (k': Kernel, verdict: Verdict)
    requires drv.Valid() && wq in drv.qptr && MsgOk(mode, mp)
    modifies drv`store, drv`view, drv.qptr.Values, drv.Ppas()
    ensures wq in old(drv.view).strs && verdict == ServedVerdict(mode, old(drv.view), wq, mp.body)
    ensures verdict.Sound? ==> drv.Valid() && drv.view == ServedOne(mode, drv.localMac, old(drv.view), wq, mp.body)
    ensures verdict.Broken? ==> forall w :: !Represents(drv.store, w)
    ensures verdict.Fault? ==> drv.Valid() && drv.view == old(drv.view)
    ensures !verdict.Fault? ==>
      && Balanced(k, k', mp.ids) && k'.pending == k.pending && k'.passed <= k.passed + multiset(mp.ids)
      && k'.puts == k.puts + (if mp.body.Data? then FramePuts(mode, old(drv.view), wq, mp.body.frame, o) else [])
      && k'.replies == k.replies + if mp.body.Proto? then DlpiAnswers(mode, old(drv.view), wq, mp.body, r) else []
  {
    hide DlpiStep, DlpiVerdict, FramePuts, DlpiAnswers, Represents, D.Driver.Tied;
    drv.StreamFacts(wq);
    verdict := Sound;
    match mp.body {
      case Data(_) => k' := TunFrame(drv, mode, wq, mp, true, o, k);
      case Proto(_, _, _) => k', verdict := TunDlpi(drv, mode, wq, mp, r, k);
      case _ => k' := k.FreeMsg(mp.ids);
    }
  }

  /** The first i messages ms have been served on the way from k to b, and w is the state by then. */
  ghost predicate Served(mode: Mode, mac: Mac, v: View, q: Qid, ms: seq<Msg>, rs: nat -> Room,
      os: nat -> Outcomes, k: Kernel, b: Kernel, w: View, i: nat)
    requires q in v.strs
  {
    && i <= |ms| && b.pending == ms[i..] && Balanced(k, b, [])
    && b.passed + QueueIds(b.pending) <= k.passed + QueueIds(ms)
    && (forall j :: 0 <= j < |ms| ==> MsgOk(mode, ms[j]))
    && w == ServedView(mode, mac, v, q, ms, i)
    && b.puts == k.puts + ServedPuts(mode, mac, v, q, ms, os, i)
    && b.replies == k.replies + ServedReplies(mode, mac, v, q, ms, rs, i)
  }

  lemma ServedBalance(k: Kernel, b: Kernel, b1: Kernel, ms: seq<Msg>, i: nat)
    requires i < |ms| && b.pending == ms[i..] && Balanced(k, b, [])
    requires b.passed + QueueIds(b.pending) <= k.passed + QueueIds(ms)
    requires Balanced(b.(pending := ms[i + 1..]), b1, ms[i].ids) && b1.pending == ms[i + 1..]
    requires b1.passed <= b.passed + multiset(ms[i].ids)
    ensures Balanced(k, b1, [])
    ensures b1.passed + QueueIds(b1.pending) <= k.passed + QueueIds(ms)
  {
    RangeJoin(k.next, b.next, b1.next);
    assert b.pending[0] == ms[i] && b.pending[1..] == ms[i + 1..];
    assert QueueIds(b.pending) == multiset(ms[i].ids) + QueueIds(ms[i + 1..]);
    var c := b.(pending := ms[i + 1..]);
    assert c.Ledger() + multiset(ms[i].ids) == b.Ledger();
    assert c.next == b.next && c.gone == b.gone;
  }

  lemma ServedStart(mode: Mode, mac: Mac, v: View, q: Qid, rs: nat -> Room, os: nat -> Outcomes, k: Kernel)
    requires q in v.strs
    requires forall i :: 0 <= i < |k.pending| ==> MsgOk(mode, k.pending[i])
    ensures Served(mode, mac, v, q, k.pending, rs, os, k, k, v, 0)
  {
    hide MsgOk;
  }

  lemma ServedNext(mode: Mode, mac: Mac, v: View, q: Qid, ms: seq<Msg>, rs: nat -> Room, os: nat -> Outcomes,
      k: Kernel, b: Kernel, w: View, i: nat)
    requires q in v.strs && Served(mode, mac, v, q, ms, rs, os, k, b, w, i) && b.pending != []
    ensures q in w.strs && b.pending[0] == ms[i] && b.pending[1..] == ms[i + 1..] && |b.pending| == |ms| - i
    ensures w == ServedView(mode, mac, v, q, ms, i)
    ensures MsgOk(mode, ms[i])
    ensures ServedVerdict(mode, w, q, ms[i].body).Sound? <==> ServeOk(mode, mac, v, q, ms, i)
  {}

  lemma ServedLast(mode: Mode, mac: Mac, v: View, q: Qid, ms: seq<Msg>, rs: nat -> Room, os: nat -> Outcomes,
      k: Kernel, b: Kernel, w: View)
    requires q in v.strs && Served(mode, mac, v, q, ms, rs, os, k, b, w, |ms|) && k.pending == ms
    ensures Emptied(k, b)
  {}

  /** One message more: b1 is what handling message i made of the rest of the queue. */
  lemma ServedStep(mode: Mode, mac: Mac, v: View, q: Qid, ms: seq<Msg>, rs: nat -> Room, os: nat -> Outcomes,
      k: Kernel, b: Kernel, w: View, i: nat, b1: Kernel)
    requires q in v.strs && q in w.strs && i < |ms| && MsgOk(mode, ms[i])
    requires Served(mode, mac, v, q, ms, rs, os, k, b, w, i)
    requires Balanced(b.(pending := ms[i + 1..]), b1, ms[i].ids) && b1.pending == ms[i + 1..]
    requires b1.passed <= b.passed + multiset(ms[i].ids)
    requires b1.puts == b.puts + if ms[i].body.Data? then FramePuts(mode, w, q, ms[i].body.frame, os(i)) else []
    requires b1.replies == b.replies + if ms[i].body.Proto? then DlpiAnswers(mode, w, q, ms[i].body, rs(i)) else []
    ensures Served(mode, mac, v, q, ms, rs, os, k, b1, ServedOne(mode, mac, w, q, ms[i].body), i + 1)
    ensures Balanced(k, b1, [])
  {
    hide FramePuts, DlpiAnswers, DlpiStep, ServedPuts, ServedReplies, Balanced, MsgOk, ServedOne, QueueIds;
    ServedBalance(k, b, b1, ms, i);
    ServedPutsNext(mode, mac, v, q, ms, os, i);
    ServedRepliesNext(mode, mac, v, q, ms, rs, i);
  }

  lemma ServedPutsNext(mode: Mode, mac: Mac, v: View, q: Qid, ms: seq<Msg>, os: nat -> Outcomes, i: nat)
    requires q in v.strs && i < |ms| && forall j :: 0 <= j < |ms| ==> MsgOk(mode, ms[j])
    ensures ms[i].body.Data? ==> Readable(mode, ms[i].body.frame)
    ensures ServedPuts(mode, mac, v, q, ms, os, i + 1) == ServedPuts(mode, mac, v, q, ms, os, i)
      + if ms[i].body.Data? then FramePuts(mode, ServedView(mode, mac, v, q, ms, i), q, ms[i].body.frame, os(i)) else []
  {
    assert MsgOk(mode, ms[i]);
  }

  lemma ServedRepliesNext(mode: Mode, mac: Mac, v: View, q: Qid, ms: seq<Msg>, rs: nat -> Room, i: nat)
    requires q in v.strs && i < |ms|
    ensures ServedReplies(mode, mac, v, q, ms, rs, i + 1) == ServedReplies(mode, mac, v, q, ms, rs, i)
      + if ms[i].body.Proto? then DlpiAnswers(mode, ServedView(mode, mac, v, q, ms, i), q, ms[i].body, rs(i)) else []
  {}

  /**
    Drains the queue: every waiting message is handled once, in order, and none remains; n counts them. A
    request that leaves no sound lists, or follows a null pointer, ends what can be said: n are handled
    before it, and verdict tells which it was.
   */
  method Wsrv(drv: D.Driver, mode: Mode, wq: Qid, rs: nat -> Room, os: nat -> Outcomes, k: Kernel)
    returns (k': Kernel, n: nat, verdict: Verdict)
    requires drv.Valid() && wq in drv.qptr && wq in drv.view.strs
    requires forall i :: 0 <= i < |k.pending| ==> MsgOk(mode, k.pending[i])
    modifies drv`store, drv`view, drv.qptr.Values, drv.Ppas()
    ensures wq in old(drv.view).strs && n <= |k.pending|
    ensures forall i :: 0 <= i < n ==> ServeOk(mode, drv.localMac, old(drv.view), wq, k.pending, i)
    ensures verdict.Sound? ==>
      && n == |k.pending| && drv.Valid() && Emptied(k, k')
      && Served(mode, drv.localMac, old(drv.view), wq, k.pending, rs, os, k, k', drv.view, n)
    ensures !verdict.Sound? ==> n < |k.pending|
    ensures !verdict.Sound? ==>
      var w := ServedView(mode, drv.localMac, old(drv.view), wq, k.pending, n);
      verdict == ServedVerdict(mode, w, wq, k.pending[n].body)
    ensures verdict.Broken? ==> (forall w :: !Represents(drv.store, w)) && Balanced(k, k', [])
    ensures verdict.Fault? ==>
      drv.Valid() && drv.view == ServedView(mode, drv.localMac, old(drv.view), wq, k.pending, n)
  {
    hide Served, ServedOne, ServeOk, MsgOk, Balanced, DlpiVerdict, DlpiAnswers, FramePuts, ServedVerdict, Emptied;
    hide Represents, D.Driver.Tied, D.Driver.Valid;
    ghost var v, ms, mac := drv.view, k.pending, drv.localMac;
    ServedStart(mode, mac, v, wq, rs, os, k);
    k', n, verdict := k, 0, Sound;
    while k'.pending != []
      invariant drv.Valid() && wq in drv.qptr && n <= |ms| && k'.pending == ms[n..]
      invariant Served(mode, mac, v, wq, ms, rs, os, k, k', drv.view, n)
      invariant forall i :: 0 <= i < n ==> ServeOk(mode, mac, v, wq, ms, i)
      decreases |k'.pending|
    {
      ServedNext(mode, mac, v, wq, ms, rs, os, k, k', drv.view, n);
      ghost var k1, w := k', drv.view;
      var mp := k'.pending[0];
      k', verdict := Serve(drv, mode, wq, mp, rs(n), os(n), k'.(pending := k'.pending[1..]));
      if !verdict.Fault? {
        ServedStep(mode, mac, v, wq, ms, rs, os, k, k1, w, n, k');
      }
      if !verdict.Sound? {
        return;
      }
      n := n + 1;
    }
    verdict := Sound;
    assert n == |ms|;
    ServedLast(mode, mac, v, wq, ms, rs, os, k, k', drv.view);
  }

  function Requests(ms: seq<Msg>, i: nat): nat
    requires i <= |ms|
  {
    if i == 0 then 0 else Requests(ms, i - 1) + Bit(ms[i - 1].body.Proto?)
  }

  predicate HasRoom(r: Room) { r.reuse || r.alloc }

  /** Each request is answered at most once, and exactly once when memory is found. */
  lemma {:induction false} ServedReplyCount(mode: Mode, mac: Mac, v: View, q: Qid, ms: seq<Msg>,
      rs: nat -> Room, i: nat)
    requires q in v.strs && i <= |ms|
    ensures |ServedReplies(mode, mac, v, q, ms, rs, i)| <= Requests(ms, i)
    ensures (forall j :: 0 <= j < i ==> HasRoom(rs(j))) ==>
              |ServedReplies(mode, mac, v, q, ms, rs, i)| == Requests(ms, i)
  {
    hide ServedView, ServedOne, DlpiStep, DlpiReply;
    if i > 0 {
      ServedReplyCount(mode, mac, v, q, ms, rs, i - 1);
    }
  }
}
