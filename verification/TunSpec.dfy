/**
  The Solaris TUN/TAP driver as a state machine over values: which streams are open, which PPAs
  exist, who controls them and who is attached to them. Every operation is one atomic step.
 */
module TunSpec {
  import opened Basics

  const TUNMAXPPA: nat := 4096
  const ETHERTYPE_MAX: nat := 0xffff

  /** A stream is known by its read queue. */
  type Qid = nat

  /** A station address: six octets. */
  type Mac = m: seq<byte> | |m| == 6 witness [0, 0, 0, 0, 0, 0]

  datatype DlState = Unattached | Unbound | Idle

  datatype Flag = Control | Raw | AllPhy | AllSap | AllMul

  datatype Strm = Strm(minor: nat, ppa: Option<nat>, flags: set<Flag>, state: DlState, sap: nat)

  /** rq is the queue that frames for the control stream go to; members are the protocol streams. */
  datatype PpaRec = PpaRec(rq: Qid, members: seq<Qid>, mac: Mac)

  /** order is the list of open streams; table is the sparse PPA table. */
  datatype View = View(order: seq<Qid>, strs: map<Qid, Strm>, table: map<nat, PpaRec>)

  const EMPTY_VIEW := View([], map[], map[])

  datatype Errno = EINVAL | EEXIST | ENOMEM | ENODEV | ENOSR

  datatype IocReply = Ack(ret: int) | Nak(err: Errno)

  datatype DlCode = CInfo | CAttach | CDetach | CBind | CUnbind | CPromiscOn | CPromiscOff | CPhysAddr | CSetPhysAddr
                  | CEnabMulti | CDisabMulti | CUnitdata | COther(code: nat)

  datatype DlErr = BadPrim | OutState | BadPpa | SysErr | NoAuto | BadSap | NotSupported | BadData | Unsupported

  datatype DlReply = OkAck(prim: DlCode)
                   | ErrAck(prim: DlCode, err: DlErr)
                   | BindAck(sap: nat, mac: Mac)
                   | InfoAck(state: DlState, infoSap: nat, infoMac: Option<Mac>)
                   | PhysAddrAck(mac: Mac)

  datatype Level = LPhys | LSap | LMulti | LOther

  // ---------------------------------------------------------------- well-formedness

  ghost predicate IsMember(v: View, q: Qid, p: nat) {
    q in v.strs && v.strs[q].ppa == Some(p) && Control !in v.strs[q].flags
  }

  ghost predicate StreamOk(v: View, q: Qid)
    requires q in v.strs
  {
    var s := v.strs[q];
    && (s.ppa.Some? ==> s.ppa.value in v.table)
    && (s.state != Unattached ==> s.ppa.Some?)
    && (Control in s.flags ==> s.ppa.Some? && s.state == Unattached && s.ppa.value in v.table
                               && v.table[s.ppa.value].rq == q)
  }

  ghost predicate PpaOk(v: View, p: nat)
    requires p in v.table
  {
    && p < TUNMAXPPA
    && NoDup(v.table[p].members)
    && (forall q :: q in v.table[p].members <==> IsMember(v, q, p))
  }

  ghost predicate OrderOk(v: View) {
    && NoDup(v.order)
    && (forall q :: q in v.order <==> q in v.strs)
  }

  ghost predicate Wf(v: View) {
    && OrderOk(v)
    && (forall q {:trigger StreamOk(v, q)} :: q in v.strs ==> StreamOk(v, q))
    && (forall p {:trigger PpaOk(v, p)} :: p in v.table ==> PpaOk(v, p))
  }

  // ---------------------------------------------------------------- open and close

  function MinorAt(v: View, k: nat): nat
    requires k < |v.order|
  {
    if v.order[k] in v.strs then v.strs[v.order[k]].minor else 0
  }

  /** Where a clone open stops scanning: the first position below the minor found there. */
  function CloneSlot(v: View, k: nat): (r: nat)
    requires k <= |v.order|
    ensures k <= r <= |v.order|
    ensures forall j :: k <= j < r ==> MinorAt(v, j) <= j
    ensures r < |v.order| ==> r < MinorAt(v, r)
    decreases |v.order| - k
  {
    if k == |v.order| || k < MinorAt(v, k) then k else CloneSlot(v, k + 1)
  }

  /** First open of queue q: a clone open takes the slot's own number, any other goes to the front. */
  function OpenStep(v: View, q: Qid, clone: bool, devMinor: nat): View {
    if q in v.strs then v
    else
      var k := if clone then CloneSlot(v, 0) else 0;
      var minor := if clone then k else devMinor;
      v.(order := v.order[..k] + [q] + v.order[k..],
         strs := v.strs[q := Strm(minor, None, {}, Unattached, 0)])
  }

  function Detached(s: Strm): Strm { s.(ppa := None, state := Unattached) }

  /** Closing a control stream frees its PPA and throws every protocol stream off it. */
  function FreePpa(v: View, p: nat): View
    requires p in v.table
  {
    v.(table := v.table - {p},
       strs := map x | x in v.strs :: if x in v.table[p].members then Detached(v.strs[x]) else v.strs[x])
  }

  function Unlink(v: View, q: Qid, p: nat): View
    requires p in v.table
  {
    v.(table := v.table[p := v.table[p].(members := Remove(v.table[p].members, q))])
  }

  function LeavePpa(v: View, q: Qid): View
    requires q in v.strs
  {
    match v.strs[q].ppa
    case None => v
    case Some(p) =>
      if p !in v.table then v
      else if Control in v.strs[q].flags then FreePpa(v, p)
      else Unlink(v, q, p)
  }

  function CloseStep(v: View, q: Qid): View
    requires q in v.strs
  {
    var w := LeavePpa(v, q);
    w.(order := Remove(w.order, q), strs := w.strs - {q})
  }

  /** The protocol streams that closing q throws off their PPA. */
  function DetachedBy(v: View, q: Qid): seq<Qid>
    requires q in v.strs
  {
    match v.strs[q].ppa
    case Some(p) => if Control in v.strs[q].flags && p in v.table then v.table[p].members else []
    case None => []
  }

  // ---------------------------------------------------------------- ioctls

  function LeastFree(v: View, i: nat): (r: Option<nat>)
    requires i <= TUNMAXPPA
    ensures r.None? ==> forall j :: i <= j < TUNMAXPPA ==> j in v.table
    ensures r.Some? ==> i <= r.value < TUNMAXPPA && r.value !in v.table
    ensures r.Some? ==> forall j :: i <= j < r.value ==> j in v.table
    decreases TUNMAXPPA - i
  {
    if i == TUNMAXPPA then None else if i !in v.table then Some(i) else LeastFree(v, i + 1)
  }

  /** Which slot TUNNEWPPA takes, or why it refuses. */
  function NewPpaSlot(v: View, p: int): (r: IocReply)
    ensures r.Ack? ==> 0 <= r.ret < TUNMAXPPA && r.ret !in v.table
  {
    if p < -1 || p >= TUNMAXPPA then Nak(EINVAL)
    else if p != -1 && p in v.table then Nak(EEXIST)
    else if p != -1 then Ack(p)
    else match LeastFree(v, 0)
      case None => Nak(ENOMEM)
      case Some(i) => Ack(i)
  }

  /** alloc is the answer of the allocb that follows the table update. */
  function NewPpaReply(v: View, p: int, alloc: bool): IocReply {
    var r := NewPpaSlot(v, p);
    if r.Ack? && !alloc then Nak(ENOMEM) else r
  }

  function NewPpaStep(v: View, q: Qid, p: int, alloc: bool, mac: Mac): View
    requires q in v.strs
  {
    var r := NewPpaSlot(v, p);
    if r.Nak? then v
    else
      var w := v.(table := v.table[r.ret := PpaRec(q, [], mac)]);
      if !alloc then w
      else w.(strs := w.strs[q := w.strs[q].(ppa := Some(r.ret), flags := w.strs[q].flags + {Control})])
  }

  function SetPpaReply(v: View, p: int): IocReply {
    if p < 0 || p >= TUNMAXPPA then Nak(EINVAL)
    else if p !in v.table then Nak(ENODEV)
    else Ack(p)
  }

  /** Puts q at the front of p's protocol list. */
  function Link(v: View, q: Qid, p: nat, state: DlState): View
    requires q in v.strs && p in v.table
  {
    v.(table := v.table[p := v.table[p].(members := [q] + v.table[p].members)],
       strs := v.strs[q := v.strs[q].(ppa := Some(p), state := state)])
  }

  function SetPpaStep(v: View, q: Qid, p: int): View
    requires q in v.strs
  {
    if SetPpaReply(v, p).Nak? then v else Link(v, q, p, v.strs[q].state)
  }

  function GetPpaReply(v: View, q: Qid): IocReply
    requires q in v.strs
  {
    match v.strs[q].ppa case None => Nak(ENODEV) case Some(p) => Ack(p)
  }

  function SetFlag(v: View, q: Qid, f: Flag): View
    requires q in v.strs
  {
    v.(strs := v.strs[q := v.strs[q].(flags := v.strs[q].flags + {f})])
  }

  function ClearFlag(v: View, q: Qid, f: Flag): View
    requires q in v.strs
  {
    v.(strs := v.strs[q := v.strs[q].(flags := v.strs[q].flags - {f})])
  }

  // ---------------------------------------------------------------- DLPI requests

  function AttachReply(v: View, q: Qid, short: bool, p: int): DlReply
    requires q in v.strs
  {
    if short then ErrAck(CAttach, BadPrim)
    else if v.strs[q].state != Unattached then ErrAck(CAttach, OutState)
    else if p < 0 || p >= TUNMAXPPA || p !in v.table then ErrAck(CAttach, BadPpa)
    else OkAck(CAttach)
  }

  function AttachStep(v: View, q: Qid, short: bool, p: int): View
    requires q in v.strs
  {
    if AttachReply(v, q, short, p).ErrAck? then v else Link(v, q, p, Unbound)
  }

  function DetachReply(v: View, q: Qid, short: bool): DlReply
    requires q in v.strs
  {
    if short then ErrAck(CDetach, BadPrim)
    else if v.strs[q].state != Unbound then ErrAck(CDetach, OutState)
    else OkAck(CDetach)
  }

  function DetachStep(v: View, q: Qid, short: bool): View
    requires q in v.strs
  {
    if DetachReply(v, q, short).ErrAck? || v.strs[q].ppa.None? || v.strs[q].ppa.value !in v.table then v
    else
      var w := Unlink(v, q, v.strs[q].ppa.value);
      w.(strs := w.strs[q := Detached(w.strs[q])])
  }

  function BindReply(v: View, q: Qid, short: bool, sap: nat, xidtest: bool): DlReply
    requires q in v.strs
  {
    if short then ErrAck(CBind, BadPrim)
    else if v.strs[q].state != Unbound then ErrAck(CBind, OutState)
    else if v.strs[q].ppa.None? || v.strs[q].ppa.value !in v.table then ErrAck(CBind, SysErr)
    else if xidtest then ErrAck(CBind, NoAuto)
    else if sap > ETHERTYPE_MAX then ErrAck(CBind, BadSap)
    else BindAck(sap, v.table[v.strs[q].ppa.value].mac)
  }

  function BindStep(v: View, q: Qid, short: bool, sap: nat, xidtest: bool): View
    requires q in v.strs
  {
    if BindReply(v, q, short, sap, xidtest).ErrAck? then v
    else v.(strs := v.strs[q := v.strs[q].(sap := sap, state := Idle)])
  }

  function UnbindReply(v: View, q: Qid, short: bool): DlReply
    requires q in v.strs
  {
    if short then ErrAck(CUnbind, BadPrim)
    else if v.strs[q].state != Idle then ErrAck(CUnbind, OutState)
    else OkAck(CUnbind)
  }

  function UnbindStep(v: View, q: Qid, short: bool): View
    requires q in v.strs
  {
    if UnbindReply(v, q, short).ErrAck? then v
    else v.(strs := v.strs[q := v.strs[q].(sap := 0, state := Unbound)])
  }

  function LevelFlag(l: Level): Option<Flag> {
    match l
    case LPhys => Some(AllPhy)
    case LSap => Some(AllSap)
    case LMulti => Some(AllMul)
    case LOther => None
  }

  function PromiscReply(code: DlCode, short: bool, l: Level): DlReply {
    if short then ErrAck(code, BadPrim)
    else if LevelFlag(l).None? then ErrAck(code, NotSupported)
    else OkAck(code)
  }

  function PromiscStep(v: View, q: Qid, on: bool, short: bool, l: Level): View
    requires q in v.strs
  {
    if short || LevelFlag(l).None? then v
    else if on then SetFlag(v, q, LevelFlag(l).value)
    else ClearFlag(v, q, LevelFlag(l).value)
  }

  /** The station address of q's own PPA; nothing checks that there is one. */
  function SetMacStep(v: View, q: Qid, mac: Mac): View
    requires q in v.strs && v.strs[q].ppa.Some?
  {
    var p := v.strs[q].ppa.value;
    if p !in v.table then v else v.(table := v.table[p := v.table[p].(mac := mac)])
  }

  // ---------------------------------------------------------------- what each step keeps

  lemma WfOpen(v: View, q: Qid, clone: bool, devMinor: nat)
    requires Wf(v)
    ensures Wf(OpenStep(v, q, clone, devMinor))
  {
    if q !in v.strs {
      var k := if clone then CloneSlot(v, 0) else 0;
      var w := OpenStep(v, q, clone, devMinor);
      InsertNew(v.order, k, q);
      assert OrderOk(w);
      forall x | x in w.strs ensures StreamOk(w, x) {
        assert x != q ==> StreamOk(v, x);
      }
      forall p | p in w.table ensures PpaOk(w, p) {
        assert PpaOk(v, p);
        forall x ensures IsMember(w, x, p) <==> IsMember(v, x, p) {}
      }
    }
  }

  lemma WfClose(v: View, q: Qid)
    requires Wf(v) && q in v.strs
    ensures Wf(CloseStep(v, q))
  {
    var w := CloseStep(v, q);
    RemoveRest(v.order, q);
    assert StreamOk(v, q);
    forall x | x in w.strs ensures StreamOk(w, x) {
      CloseKeepsStream(v, q, x);
    }
    forall p | p in w.table ensures PpaOk(w, p) {
      ClosePpa(v, q, p);
    }
  }

  lemma CloseKeepsStream(v: View, q: Qid, x: Qid)
    requires Wf(v) && q in v.strs && x in CloseStep(v, q).strs
    ensures StreamOk(CloseStep(v, q), x)
  {
    assert StreamOk(v, q) && StreamOk(v, x);
    if v.strs[q].ppa.Some? && Control in v.strs[q].flags {
      var p := v.strs[q].ppa.value;
      assert PpaOk(v, p);
      assert x in v.table[p].members <==> IsMember(v, x, p);
    }
  }

  lemma ClosePpa(v: View, q: Qid, p: nat)
    requires Wf(v) && q in v.strs && p in CloseStep(v, q).table
    ensures PpaOk(CloseStep(v, q), p)
  {
    var w := CloseStep(v, q);
    assert StreamOk(v, q) && PpaOk(v, p);
    RemoveRest(v.table[p].members, q);
    forall x ensures x in w.table[p].members <==> IsMember(w, x, p) {
      assert x in v.table[p].members <==> IsMember(v, x, p);
      if v.strs[q].ppa.Some? {
        assert PpaOk(v, v.strs[q].ppa.value);
      }
    }
  }

  lemma WfNewPpa(v: View, q: Qid, p: int, alloc: bool, mac: Mac)
    requires Wf(v) && q in v.strs
    requires v.strs[q].ppa.None? || Control in v.strs[q].flags
    ensures Wf(NewPpaStep(v, q, p, alloc, mac))
  {
    var w := NewPpaStep(v, q, p, alloc, mac);
    if NewPpaSlot(v, p).Ack? {
      var id := NewPpaSlot(v, p).ret;
      assert StreamOk(v, q);
      forall x | x in w.strs ensures StreamOk(w, x) {
        assert StreamOk(v, x);
      }
      forall i | i in w.table ensures PpaOk(w, i) {
        if i != id { assert PpaOk(v, i); }
        forall x ensures x in w.table[i].members <==> IsMember(w, x, i) {
          if x in v.strs { assert StreamOk(v, x); }
        }
      }
    }
  }

  lemma WfLink(v: View, q: Qid, p: nat, state: DlState)
    requires Wf(v) && q in v.strs && p in v.table && v.strs[q].ppa.None?
    ensures Wf(Link(v, q, p, state))
  {
    var w := Link(v, q, p, state);
    assert StreamOk(v, q);
    forall x | x in w.strs ensures StreamOk(w, x) {
      assert StreamOk(v, x);
    }
    forall i | i in w.table ensures PpaOk(w, i) {
      assert PpaOk(v, i);
      assert q in v.table[i].members <==> IsMember(v, q, i);
      forall x ensures x in w.table[i].members <==> IsMember(w, x, i) {
        assert x in v.table[i].members <==> IsMember(v, x, i);
      }
    }
  }

  lemma WfDetach(v: View, q: Qid, short: bool)
    requires Wf(v) && q in v.strs
    ensures Wf(DetachStep(v, q, short))
  {
    assert StreamOk(v, q);
    if DetachReply(v, q, short).OkAck? {
      var w := DetachStep(v, q, short);
      var p := v.strs[q].ppa.value;
      assert StreamOk(v, q) && PpaOk(v, p);
      RemoveRest(v.table[p].members, q);
      forall x | x in w.strs ensures StreamOk(w, x) {
        assert StreamOk(v, x);
      }
      forall i | i in w.table ensures PpaOk(w, i) {
        assert PpaOk(v, i);
        forall x ensures x in w.table[i].members <==> IsMember(w, x, i) {
          assert x in v.table[i].members <==> IsMember(v, x, i);
        }
      }
    }
  }

  lemma WfSetMac(v: View, q: Qid, mac: Mac)
    requires Wf(v) && q in v.strs && v.strs[q].ppa.Some?
    ensures Wf(SetMacStep(v, q, mac))
  {
    var w := SetMacStep(v, q, mac);
    forall x | x in w.strs ensures StreamOk(w, x) {
      assert StreamOk(v, x);
    }
    forall i | i in w.table ensures PpaOk(w, i) {
      assert PpaOk(v, i);
      forall x ensures IsMember(w, x, i) <==> IsMember(v, x, i) {}
    }
  }

  /** Changing only flags other than Control, the sap, or the state of an attached stream. */
  lemma WfRestyle(v: View, q: Qid, s: Strm)
    requires Wf(v) && q in v.strs
    requires s.ppa == v.strs[q].ppa && (Control in s.flags <==> Control in v.strs[q].flags)
    requires s.state == v.strs[q].state || (s.ppa.Some? && Control !in s.flags)
    ensures Wf(v.(strs := v.strs[q := s]))
  {
    var w := v.(strs := v.strs[q := s]);
    forall x | x in w.strs ensures StreamOk(w, x) {
      assert StreamOk(v, x);
    }
    forall i | i in w.table ensures PpaOk(w, i) {
      assert PpaOk(v, i);
      forall x ensures IsMember(w, x, i) <==> IsMember(v, x, i) {}
    }
  }
}
