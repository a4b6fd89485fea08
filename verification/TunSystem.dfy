/**
  The parts together: the linked structures follow the value-level steps, what the procedures do is a
  run, and what holds of every run holds of routing.
 */
module TunSystem {
  import opened Basics
  import opened TunSpec
  import opened EtherFrame
  import opened TunFrames
  import opened TunRuns
  import opened TunProtocol
  import opened TunStore
  import opened TunMessages
  import opened TunService
  import opened TunRouting
  import D = TunDriver

  // ---------------------------------------------------------------- the driver follows its specification

  lemma KnownQueue(drv: D.Driver, q: Qid)
    requires drv.Valid() && q in drv.view.strs
    ensures q in drv.qptr
  {}

  /** Reads the definitions back by operation, for proofs in which they are hidden. */
  lemma StepCases(mac: Mac, v: View, op: Op)
    requires Live(v, op)
    ensures Disciplined(v, op) == match op
      case NewPpa(q, p, alloc) => NewPpaClean(v, q, p, alloc)
      case SetPpa(q, p) => SetPpaReply(v, p).Nak? || v.strs[q].ppa.None?
      case Attach(q, short, p) => AttachReply(v, q, short, p).ErrAck? || v.strs[q].ppa.None?
      case _ => true
    ensures Step(mac, v, op) == match op
      case Open(q, clone, devMinor) => OpenStep(v, q, clone, devMinor)
      case Close(q) => CloseStep(v, q)
      case NewPpa(q, p, alloc) => NewPpaStep(v, q, p, alloc, mac)
      case SetPpa(q, p) => SetPpaStep(v, q, p)
      case SetRaw(q) => SetFlag(v, q, Raw)
      case Attach(q, short, p) => AttachStep(v, q, short, p)
      case Detach(q, short) => DetachStep(v, q, short)
      case Bind(q, short, sap, xidtest) => BindStep(v, q, short, sap, xidtest)
      case Unbind(q, short) => UnbindStep(v, q, short)
      case Promisc(q, on, short, level) => PromiscStep(v, q, on, short, level)
      case SetMac(q, m) => SetMacStep(v, q, m)
  {}

  /**
    Any operation on the linked structures does what the value-level step says, if the client keeps the
    discipline; and if it does not, the pointers no longer spell out any well-formed state.
   */
  method Perform(drv: D.Driver, op: Op)
    requires drv.Valid() && Live(drv.view, op)
    modifies drv, drv.table, drv.qptr.Values, drv.Ppas()
    ensures drv.Tied(drv.store)
    ensures fresh(drv.qptr.Values - old(drv.qptr.Values)) && fresh(drv.Ppas() - old(drv.Ppas()))
    ensures Disciplined(old(drv.view), op) ==> drv.Valid() && drv.view == Step(drv.localMac, old(drv.view), op)
    ensures !Disciplined(old(drv.view), op) ==> forall w :: !Represents(drv.store, w)
  {
    hide Represents, D.Driver.Tied, StreamOk, Wf, Step, Disciplined, OpenStep, CloseStep, NewPpaStep, SetPpaStep;
    hide AttachStep, DetachStep, BindStep, UnbindStep, PromiscStep, NewPpaClean;
    StepCases(drv.localMac, drv.view, op);
    if !op.Open? {
      KnownQueue(drv, op.q);
      drv.StreamFacts(op.q);
      OwnPpaListed(drv, op.q);
    }
    match op {
      case Open(q, clone, devMinor) => var _ := drv.Open(q, clone, devMinor);
      case Close(q) => var _ := drv.Close(q);
      case NewPpa(q, p, alloc) => var _ := drv.NewPpa(q, p, alloc);
      case SetPpa(q, p) => var _ := drv.SetPpa(q, p);
      case SetRaw(q) => drv.ChangeFlag(q, Raw, true);
      case Attach(q, short, p) => var _ := drv.AttachReq(q, short, p);
      case Detach(q, short) => var _ := drv.DetachReq(q, short);
      case Bind(q, short, sap, xidtest) => var _ := drv.BindReq(q, short, sap, xidtest);
      case Unbind(q, short) => var _ := drv.UnbindReq(q, short);
      case Promisc(q, on, short, level) => var _ := drv.PromiscReq(q, on, short, level);
      case SetMac(q, m) => var _ := drv.SetPhysAddr(q, m);
    }
  }

  /** Every run of disciplined operations is carried out on the linked structures, and ends where the run ends. */
  method PerformAll(mac: Mac, ops: seq<Op>, ghost vs: seq<View>) returns (drv: D.Driver)
    requires IsRun(mac, vs, ops)
    ensures drv.Valid() && drv.view == vs[|ops|] && drv.localMac == mac
    ensures fresh(drv) && fresh(drv.table) && fresh(drv.qptr.Values) && fresh(drv.Ppas())
  {
    hide D.Driver.Valid, Step;
    drv := new D.Driver(mac);
    for i := 0 to |ops|
      invariant drv.Valid() && drv.view == vs[i] && drv.localMac == mac
      invariant fresh(drv) && fresh(drv.table) && fresh(drv.qptr.Values) && fresh(drv.Ppas())
    {
      assert StepAt(mac, vs, ops, i);
      Perform(drv, ops[i]);
    }
  }

  /** Selecting a unit twice leaves pointers that spell no state. */
  method LinkTwiceExample(mac: Mac) returns (drv: D.Driver)
    ensures drv.Tied(drv.store) && forall w :: !Represents(drv.store, w)
  {
    hide Represents, Step, IsRun, D.Driver.Valid, D.Driver.Tied, Live, Disciplined;
    ghost var vs, ops := SelectedRun(mac);
    SelectedAgain(mac, vs[|ops|]);
    drv := PerformAll(mac, [Op.Open(1, false, 0), Op.Open(2, false, 1), Op.NewPpa(1, 0, true), Op.SetPpa(2, 0)], vs);
    Perform(drv, Op.SetPpa(2, 0));
  }

  lemma SelectedAgain(mac: Mac, v: View)
    requires 2 in v.strs && v.strs[2].ppa.Some? && 0 in v.table
    ensures Live(v, Op.SetPpa(2, 0)) && !Disciplined(v, Op.SetPpa(2, 0))
  {}

  /** Every PPA that protocol streams are on names the queue of an open stream that is on it too. */
  ghost predicate ControlsReachable(v: View) {
    forall p :: p in v.table && v.table[p].members != [] ==>
      v.table[p].rq in v.strs && v.strs[v.table[p].rq].ppa == Some(p)
  }

  /** At any point of a run, isolation of all streams is exactly that. */
  lemma RunIsolationIff(mac: Mac, vs: seq<View>, ops: seq<Op>, i: nat, mode: Mode)
    requires IsRun(mac, vs, ops) && i <= |ops|
    ensures (forall q :: q in vs[i].strs ==> Isolated(mode, vs[i], q)) <==> ControlsReachable(vs[i])
  {
    var v := vs[i];
    RunWf(mac, vs, ops, i);
    forall q | q in v.strs ensures Isolated(mode, v, q) <==> OwnControl(v, q) {
      IsolationIff(mode, v, q);
    }
    hide Isolated;
    OwnControlsIff(v);
  }

  lemma OwnControlsIff(v: View)
    requires Wf(v)
    ensures (forall q :: q in v.strs ==> OwnControl(v, q)) <==> ControlsReachable(v)
  {
    forall q | q in v.strs ensures v.strs[q].ppa.Some? ==> v.strs[q].ppa.value in v.table {
      assert StreamOk(v, q);
    }
    forall p | p in v.table ensures forall q :: q in v.table[p].members <==> IsMember(v, q, p) {
      assert PpaOk(v, p);
    }
    if forall q :: q in v.strs ==> OwnControl(v, q) {
      forall p | p in v.table && v.table[p].members != []
        ensures v.table[p].rq in v.strs && v.strs[v.table[p].rq].ppa == Some(p)
      {
        var q := v.table[p].members[0];
        assert q in v.table[p].members && IsMember(v, q, p) && OwnControl(v, q);
      }
    }
    if ControlsReachable(v) {
      forall q | q in v.strs ensures OwnControl(v, q) {
        if PpaOf(v, q).Some? && !IsControl(v, q) {
          assert IsMember(v, q, v.strs[q].ppa.value);
        }
      }
    }
  }

  /** In every run without a leak no frame reaches any queue but those of open streams of its own PPA. */
  lemma RunIsolation(mac: Mac, vs: seq<View>, ops: seq<Op>, i: nat, mode: Mode, q: Qid)
    requires IsRun(mac, vs, ops) && i <= |ops| && LeakCount(vs, ops, i) == 0 && q in vs[i].strs
    ensures Isolated(mode, vs[i], q)
  {
    RunOwnership(mac, vs, ops, i);
    RunIsolationIff(mac, vs, ops, i, mode);
  }

  /** After the address of a PPA is set, the streams on that PPA are told the new one, and all others the old. */
  lemma SetMacTells(v: View, q: Qid, mac: Mac, x: Qid)
    requires Wf(v) && q in v.strs && v.strs[q].ppa.Some? && x in v.strs
    ensures var w := SetMacStep(v, q, mac);
      && w.strs == v.strs && w.order == v.order
      && DlpiReply(Tap, w, x, PhysAddrReq, false) ==
           (if v.strs[x].ppa == v.strs[q].ppa then PhysAddrAck(mac) else DlpiReply(Tap, v, x, PhysAddrReq, false))
      && (PpaOf(w, x).Some? ==> PpaOf(v, x).Some? && PpaOf(w, x).value.members == PpaOf(v, x).value.members
                                && PpaOf(w, x).value.rq == PpaOf(v, x).value.rq)
  {
    assert StreamOk(v, q) && StreamOk(v, x);
  }

  // ---------------------------------------------------------------- procedures are runs

  lemma Extend(mac: Mac, vs: seq<View>, ops: seq<Op>, op: Op)
    requires IsRun(mac, vs, ops) && Live(vs[|ops|], op) && Disciplined(vs[|ops|], op)
    ensures IsRun(mac, vs + [Step(mac, vs[|ops|], op)], ops + [op])
  {
    var vs', ops' := vs + [Step(mac, vs[|ops|], op)], ops + [op];
    forall i | 0 <= i < |ops'| ensures StepAt(mac, vs', ops', i) {
      if i < |ops| { assert StepAt(mac, vs, ops, i); }
    }
  }

  /** What the service procedure does to the driver is a run of its operations. */
  lemma {:induction false} ServedIsRun(mode: Mode, mac: Mac, vs: seq<View>, ops: seq<Op>, q: Qid, ms: seq<Msg>,
      i: nat)
    returns (vs': seq<View>, ops': seq<Op>)
    requires IsRun(mac, vs, ops) && q in vs[|ops|].strs && i <= |ms|
    requires forall j :: 0 <= j < i ==> ServeOk(mode, mac, vs[|ops|], q, ms, j)
    ensures IsRun(mac, vs', ops') && ops <= ops'
    ensures vs'[|ops'|] == ServedView(mode, mac, vs[|ops|], q, ms, i)
  {
    if i == 0 {
      return vs, ops;
    }
    vs', ops' := ServedIsRun(mode, mac, vs, ops, q, ms, i - 1);
    assert ServeOk(mode, mac, vs[|ops|], q, ms, i - 1);
    var b := ms[i - 1].body;
    if b.Proto? && ReqOp(mode, q, b.req, b.short).Some? {
      var op := ReqOp(mode, q, b.req, b.short).value;
      Extend(mac, vs', ops', op);
      vs', ops' := vs' + [Step(mac, vs'[|ops'|], op)], ops' + [op];
    }
  }

  /** An ioctl carried out on behalf of a disciplined client is one more operation of a run. */
  lemma IoctlIsRun(mac: Mac, vs: seq<View>, ops: seq<Op>, q: Qid, ioc: Ioc, alloc: bool)
    returns (vs': seq<View>, ops': seq<Op>)
    requires IsRun(mac, vs, ops) && q in vs[|ops|].strs && IoctlDisciplined(vs[|ops|], q, ioc, alloc)
    ensures IsRun(mac, vs', ops') && ops <= ops'
    ensures vs'[|ops'|] == IoctlStep(mac, vs[|ops|], q, ioc, alloc)
  {
    vs', ops' := vs, ops;
    if IoctlOp(q, ioc, alloc).Some? {
      var op := IoctlOp(q, ioc, alloc).value;
      Extend(mac, vs, ops, op);
      vs', ops' := vs + [Step(mac, vs[|ops|], op)], ops + [op];
    }
  }

  // ---------------------------------------------------------------- sap, not state

  lemma PlayOne(mac: Mac, vs: seq<View>, ops: seq<Op>, op: Op, w: View) returns (vs': seq<View>, ops': seq<Op>)
    requires IsRun(mac, vs, ops) && Live(vs[|ops|], op) && Disciplined(vs[|ops|], op) && w == Step(mac, vs[|ops|], op)
    ensures IsRun(mac, vs', ops') && ops' == ops + [op] && vs'[|ops'|] == w
  {
    Extend(mac, vs, ops, op);
    vs', ops' := vs + [w], ops + [op];
  }

  const IDLE_STRM := Strm(0, None, {}, Unattached, 0)
  const CONTROL_STRM := Strm(0, Some(0), {Control}, Unattached, 0)

  /** A control stream with PPA 0 and a stream that has selected it. */
  lemma SelectedRun(mac: Mac) returns (vs: seq<View>, ops: seq<Op>)
    ensures IsRun(mac, vs, ops) && |vs| == |ops| + 1
    ensures ops == [Op.Open(1, false, 0), Op.Open(2, false, 1), Op.NewPpa(1, 0, true), Op.SetPpa(2, 0)]
    ensures vs[|ops|] == View([2, 1], map[1 := CONTROL_STRM, 2 := Strm(1, Some(0), {}, Unattached, 0)],
                              map[0 := PpaRec(1, [2], mac)])
  {
    var second := IDLE_STRM.(minor := 1);
    var v2 := View([2, 1], map[1 := IDLE_STRM, 2 := second], map[]);
    var v3 := View([2, 1], map[1 := CONTROL_STRM, 2 := second], map[0 := PpaRec(1, [], mac)]);
    assert NewPpaSlot(v2, 0) == Ack(0) && {} + {Control} == {Control};
    assert NewPpaStep(v2, 1, 0, true, mac) == v3;
    assert SetPpaReply(v3, 0) == Ack(0) && [2] + [] == [2];
    hide NewPpaSlot, NewPpaStep;
    vs, ops := [EMPTY_VIEW], [];
    vs, ops := PlayOne(mac, vs, ops, Op.Open(1, false, 0), View([1], map[1 := IDLE_STRM], map[]));
    vs, ops := PlayOne(mac, vs, ops, Op.Open(2, false, 1), v2);
    vs, ops := PlayOne(mac, vs, ops, Op.NewPpa(1, 0, true), v3);
    vs, ops := PlayOne(mac, vs, ops, Op.SetPpa(2, 0),
      View([2, 1], map[1 := CONTROL_STRM, 2 := Strm(1, Some(0), {}, Unattached, 0)], map[0 := PpaRec(1, [2], mac)]));
  }

  /** A control stream with PPA 0 and an IP stream bound to it. */
  lemma BoundRun(mac: Mac) returns (vs: seq<View>, ops: seq<Op>)
    ensures IsRun(mac, vs, ops)
    ensures vs[|ops|] == View([2, 1], map[1 := CONTROL_STRM, 2 := Strm(1, Some(0), {}, Idle, ETHERTYPE_IP)],
                              map[0 := PpaRec(1, [2], mac)])
  {
    var second := IDLE_STRM.(minor := 1);
    var v2 := View([2, 1], map[1 := IDLE_STRM, 2 := second], map[]);
    var v3 := View([2, 1], map[1 := CONTROL_STRM, 2 := second], map[0 := PpaRec(1, [], mac)]);
    var v4 := View([2, 1], map[1 := CONTROL_STRM, 2 := Strm(1, Some(0), {}, Unbound, 0)],
                   map[0 := PpaRec(1, [2], mac)]);
    assert NewPpaSlot(v2, 0) == Ack(0) && {} + {Control} == {Control};
    assert NewPpaStep(v2, 1, 0, true, mac) == v3;
    assert AttachReply(v3, 2, false, 0) == OkAck(CAttach) && [2] + [] == [2];
    assert Link(v3, 2, 0, Unbound) == v4;
    hide NewPpaSlot, NewPpaStep, Link;
    vs, ops := [EMPTY_VIEW], [];
    vs, ops := PlayOne(mac, vs, ops, Op.Open(1, false, 0), View([1], map[1 := IDLE_STRM], map[]));
    vs, ops := PlayOne(mac, vs, ops, Op.Open(2, false, 1), v2);
    vs, ops := PlayOne(mac, vs, ops, Op.NewPpa(1, 0, true), v3);
    vs, ops := PlayOne(mac, vs, ops, Op.Attach(2, false, 0), v4);
    vs, ops := PlayOne(mac, vs, ops, Op.Bind(2, false, ETHERTYPE_IP, false),
      v4.(strs := map[1 := CONTROL_STRM, 2 := Strm(1, Some(0), {}, Idle, ETHERTYPE_IP)]));
  }

  lemma EvictExample(mac: Mac)
    ensures var v := View([2, 1], map[1 := CONTROL_STRM, 2 := Strm(1, Some(0), {}, Idle, ETHERTYPE_IP)],
                          map[0 := PpaRec(1, [2], mac)]);
      CloseStep(v, 1) == View([2], map[2 := Strm(1, None, {}, Unattached, ETHERTYPE_IP)], map[])
  {}

  /** The PPA gone with its control stream, a new control stream, and the old IP stream moved to its PPA. */
  lemma ReboundRun(mac: Mac) returns (vs: seq<View>, ops: seq<Op>)
    ensures IsRun(mac, vs, ops)
    ensures vs[|ops|] == View([3, 2], map[2 := Strm(1, Some(0), {}, Unattached, ETHERTYPE_IP), 3 := CONTROL_STRM],
                              map[0 := PpaRec(3, [2], mac)])
  {
    var off := Strm(1, None, {}, Unattached, ETHERTYPE_IP);
    var v1 := View([3, 2], map[2 := off, 3 := IDLE_STRM], map[]);
    var v2 := View([3, 2], map[2 := off, 3 := CONTROL_STRM], map[0 := PpaRec(3, [], mac)]);
    assert NewPpaSlot(v1, 0) == Ack(0) && {} + {Control} == {Control};
    assert NewPpaStep(v1, 3, 0, true, mac) == v2;
    vs, ops := BoundRun(mac);
    EvictExample(mac);
    hide NewPpaSlot, NewPpaStep, CloseStep;
    vs, ops := PlayOne(mac, vs, ops, Op.Close(1), View([2], map[2 := off], map[]));
    vs, ops := PlayOne(mac, vs, ops, Op.Open(3, false, 0), v1);
    vs, ops := PlayOne(mac, vs, ops, Op.NewPpa(3, 0, true), v2);
    vs, ops := PlayOne(mac, vs, ops, Op.SetPpa(2, 0),
      View([3, 2], map[2 := off.(ppa := Some(0)), 3 := CONTROL_STRM], map[0 := PpaRec(3, [2], mac)]));
  }

  /**
    Routing looks at sap, not at the DLPI state. A stream bound to IP and thrown off by its control's
    close keeps its sap; moved to another PPA by TUNSETPPA it gets frames while still DL_UNATTACHED.
   */
  lemma StaleSapExample(mac: Mac, f: Frame, o: Outcomes) returns (vs: seq<View>, ops: seq<Op>)
    requires |f| > 0 && IpType(f) == ETHERTYPE_IP && AllSucceed(o, 2)
    ensures IsRun(mac, vs, ops)
    ensures var v := vs[|ops|];
      && IsControl(v, 3) && 2 in v.strs && v.strs[2].state == Unattached
      && Count(FramePuts(Tun, v, 3, f, o), 2) == 1
  {
    vs, ops := ReboundRun(mac);
    RunWf(mac, vs, ops, |ops|);
    hide IsRun, Wf, FramePuts;
    TunExactCopies(vs[|ops|], 3, f, o, 2);
  }

  // ---------------------------------------------------------------- frames that go astray

  lemma TwoPpaRun(mac: Mac) returns (vs: seq<View>, ops: seq<Op>)
    ensures IsRun(mac, vs, ops)
    ensures vs[|ops|] == View([2, 1],
      map[1 := CONTROL_STRM.(ppa := Some(1)), 2 := Strm(1, Some(0), {}, Idle, ETHERTYPE_IP)],
      map[0 := PpaRec(1, [2], mac), 1 := PpaRec(1, [], mac)])
  {
    vs, ops := BoundRun(mac);
    var v := vs[|ops|];
    var w := View([2, 1], map[1 := CONTROL_STRM.(ppa := Some(1)), 2 := v.strs[2]],
                  map[0 := PpaRec(1, [2], mac), 1 := PpaRec(1, [], mac)]);
    assert NewPpaSlot(v, 1) == Ack(1) && {Control} + {Control} == {Control};
    assert NewPpaStep(v, 1, 1, true, mac) == w;
    vs, ops := PlayOne(mac, vs, ops, Op.NewPpa(1, 1, true), w);
  }

  /**
    A control stream asks for a second PPA. The first PPA still names its queue, so a frame sent on the
    first reaches a stream of the second.
   */
  lemma StrayFrameExample(mac: Mac, f: Frame, o: Outcomes) returns (vs: seq<View>, ops: seq<Op>)
    requires |f| > 0 && o.can(Ctl)
    ensures IsRun(mac, vs, ops)
    ensures var v := vs[|ops|];
      && 1 in v.strs && 2 in v.strs && v.strs[2].ppa == Some(0) && v.strs[1].ppa == Some(1)
      && Count(FramePuts(Tun, v, 2, f, o), 1) >= 1
      && !Isolated(Tun, v, 2)
  {
    vs, ops := TwoPpaRun(mac);
    RunWf(mac, vs, ops, |ops|);
    IsolationIff(Tun, vs[|ops|], 2);
    ProtocolFrameCount(Tun, vs[|ops|], 2, f, o, 1);
  }

  /** ... and once that stream has closed, the frame is put on a queue that is no longer open. */
  lemma ClosedQueueExample(mac: Mac, f: Frame, o: Outcomes) returns (vs: seq<View>, ops: seq<Op>)
    requires |f| > 0 && o.can(Ctl)
    ensures IsRun(mac, vs, ops)
    ensures var v := vs[|ops|];
      && 1 !in v.strs && 2 in v.strs && v.strs[2].ppa == Some(0)
      && Count(FramePuts(Tun, v, 2, f, o), 1) >= 1
      && !Isolated(Tun, v, 2)
  {
    vs, ops := TwoPpaRun(mac);
    var v := vs[|ops|];
    RunWf(mac, vs, ops, |ops|);
    CloseControlExact(v, 1);
    vs, ops := PlayOne(mac, vs, ops, Op.Close(1), CloseStep(v, 1));
    RunWf(mac, vs, ops, |ops|);
    IsolationIff(Tun, vs[|ops|], 2);
    ProtocolFrameCount(Tun, vs[|ops|], 2, f, o, 1);
  }

  /** The queue of stream 1 in charge of a PPA that it is not on, and stream 2 attached to that PPA. */
  lemma LeakedRun(mac: Mac) returns (vs: seq<View>, ops: seq<Op>)
    ensures IsRun(mac, vs, ops) && |vs| == |ops| + 1
    ensures ops == [Op.Open(1, false, 0), Op.NewPpa(1, 0, false), Op.Open(2, false, 1), Op.Attach(2, false, 0)]
    ensures vs[|ops|] == View([2, 1], map[1 := IDLE_STRM, 2 := Strm(1, Some(0), {}, Unbound, 0)],
                              map[0 := PpaRec(1, [2], mac)])
  {
    var second := IDLE_STRM.(minor := 1);
    var v1 := View([1], map[1 := IDLE_STRM], map[]);
    var v3 := View([2, 1], map[1 := IDLE_STRM, 2 := second], map[0 := PpaRec(1, [], mac)]);
    var v4 := View([2, 1], map[1 := IDLE_STRM, 2 := Strm(1, Some(0), {}, Unbound, 0)],
                   map[0 := PpaRec(1, [2], mac)]);
    assert NewPpaSlot(v1, 0) == Ack(0);
    assert AttachReply(v3, 2, false, 0) == OkAck(CAttach) && [2] + [] == [2];
    assert Link(v3, 2, 0, Unbound) == v4;
    hide NewPpaSlot, Link;
    vs, ops := [EMPTY_VIEW], [];
    vs, ops := PlayOne(mac, vs, ops, Op.Open(1, false, 0), v1);
    vs, ops := PlayOne(mac, vs, ops, Op.NewPpa(1, 0, false), v1.(table := map[0 := PpaRec(1, [], mac)]));
    vs, ops := PlayOne(mac, vs, ops, Op.Open(2, false, 1), v3);
    vs, ops := PlayOne(mac, vs, ops, Op.Attach(2, false, 0), v4);
  }

  /**
    A failed allocation leaves a PPA that names the queue of a stream which is not on it; what streams
    attached to that PPA send goes there.
   */
  lemma LeakStrayExample(mac: Mac) returns (vs: seq<View>, ops: seq<Op>)
    ensures IsRun(mac, vs, ops)
    ensures ops == [Op.Open(1, false, 0), Op.NewPpa(1, 0, false), Op.Open(2, false, 1), Op.Attach(2, false, 0)]
    ensures 2 in vs[|ops|].strs && !Isolated(Tun, vs[|ops|], 2)
  {
    hide IsRun, Wf, Isolated;
    vs, ops := LeakedRun(mac);
    RunWf(mac, vs, ops, |ops|);
    IsolationIff(Tun, vs[|ops|], 2);
  }
}
