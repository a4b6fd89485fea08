/**
  Messages, the blocks they are made of, and an account of every block that comes in to the write side
  of a stream, is made on the way, and goes out.
 */
module TunMessages {
  import opened Basics
  import opened TunSpec
  import opened EtherFrame
  import opened TunFrames
  import opened TunRuns

  /** DLPI requests as the driver tells them apart. */
  datatype DlReq =
    | InfoReq
    | AttachReq(ppa: int)
    | DetachReq
    | BindReq(sap: nat, xidtest: bool)
    | UnbindReq
    | PromiscReq(on: bool, level: Level)
    | PhysAddrReq
    | SetPhysAddrReq(mac: Mac)
    | MultiReq(enable: bool)
    | UnitdataReq(dest: Mac)
    | OtherReq(code: nat) // none of the above

  datatype Ioc = IocNewPpa(p: int) | IocSetPpa(p: int) | IocGetPpa | IocRaw | IocOther

  /** short: the first block is smaller than the request it names. cont: the data chained behind. */
  datatype Body =
    | Data(frame: Frame)
    | Proto(req: DlReq, short: bool, cont: Option<Frame>)
    | Ioctl(ioc: Ioc)
    | Flush(writeSide: bool, readSide: bool)
    | OtherMsg

  /** ids name the message's blocks; the first is the one that carries a request. */
  datatype Msg = Msg(ids: seq<nat>, body: Body)

  datatype Answer = Dl(reply: DlReply) | Iocack(ack: IocReply) | FlushBack | StreamError(err: Errno)

  /** tunchmsg: can the request be reused; is there memory for another; is there any for an error. */
  datatype Room = Room(reuse: bool, alloc: bool, last: bool)

  // ---------------------------------------------------------------- accounting

  function Range(a: nat, b: nat): seq<nat>
    requires a <= b
  {
    seq(b - a, i requires 0 <= i => a + i)
  }

  lemma RangeJoin(a: nat, b: nat, c: nat)
    requires a <= b <= c
    ensures multiset(Range(a, c)) == multiset(Range(a, b)) + multiset(Range(b, c))
  {
    assert Range(a, c) == Range(a, b) + Range(b, c);
  }

  lemma RangeOnce(a: nat, b: nat, x: nat)
    requires a <= b
    ensures multiset(Range(a, b))[x] == if a <= x < b then 1 else 0
    decreases b - a
  {
    if a < b {
      RangeOnce(a, b - 1, x);
      assert Range(a, b) == Range(a, b - 1) + [b - 1];
    }
  }

  ghost function QueueIds(s: seq<Msg>): multiset<nat> {
    if s == [] then multiset{} else multiset(s[0].ids) + QueueIds(s[1..])
  }

  lemma QueueIdsSplit(a: seq<Msg>, b: seq<Msg>)
    requires a != []
    ensures QueueIds(a + b) == multiset(a[0].ids) + QueueIds(a[1..] + b)
  {
    assert (a + b)[0] == a[0] && (a + b)[1..] == a[1..] + b;
  }

  lemma {:induction false} QueueIdsAdd(a: seq<Msg>, b: seq<Msg>)
    ensures QueueIds(a + b) == QueueIds(a) + QueueIds(b)
  {
    if a == [] {
      assert a + b == b;
    } else {
      QueueIdsSplit(a, b);
      QueueIdsAdd(a[1..], b);
    }
  }

  lemma QueueIdsOne(m: Msg)
    ensures QueueIds([m]) == multiset(m.ids)
  {
    assert [m][1..] == [];
  }

  /**
    What STREAMS has seen of one stream's write side: the messages waiting for the service procedure,
    what has been put on the queues above, what has been replied, the next unused block name, the blocks
    that have been put, replied with or freed, and those that have passed the router, each time counted.
   */
  datatype Kernel = Kernel(
    pending: seq<Msg>,
    puts: seq<Put>,
    replies: seq<Answer>,
    next: nat,
    gone: multiset<nat>,
    passed: multiset<nat>)
  {

    function PutNext(q: Qid, what: Up, ids: seq<nat>): Kernel {
      this.(puts := puts + [Put(q, what)], gone := gone + multiset(ids))
    }

    function FreeMsg(ids: seq<nat>): Kernel {
      this.(gone := gone + multiset(ids))
    }

    function QReply(a: Answer, ids: seq<nat>): Kernel {
      this.(replies := replies + [a], gone := gone + multiset(ids))
    }

    function Pass(ids: seq<nat>): Kernel {
      this.(passed := passed + multiset(ids))
    }

    /** n blocks that nobody has seen before. */
    function Alloc(n: nat): (Kernel, seq<nat>) {
      (this.(next := next + n), Range(next, next + n))
    }

    ghost function Ledger(): multiset<nat> {
      gone + QueueIds(pending)
    }
  }

  /** From a to b the ledger has grown by exactly the blocks ids and every block made in between. */
  ghost predicate Balanced(a: Kernel, b: Kernel, ids: seq<nat>) {
    && a.next <= b.next && a.gone <= b.gone
    && b.Ledger() == a.Ledger() + multiset(ids) + multiset(Range(a.next, b.next))
  }

  lemma BalancedThen(a: Kernel, b: Kernel, c: Kernel, ids: seq<nat>)
    requires Balanced(a, b, []) && Balanced(b, c, ids)
    ensures Balanced(a, c, ids)
  {
    hide Range, QueueIds;
    RangeJoin(a.next, b.next, c.next);
  }

  lemma BalancedFree(a: Kernel, ids: seq<nat>)
    ensures Balanced(a, a.FreeMsg(ids), ids)
  {}

  lemma BalancedPutBack(a: Kernel, m: Msg)
    ensures Balanced(a, a.(pending := [m] + a.pending), m.ids)
  {
    QueueIdsOne(m);
    QueueIdsAdd([m], a.pending);
  }

  lemma BalancedPutLast(a: Kernel, m: Msg)
    ensures Balanced(a, a.(pending := a.pending + [m]), m.ids)
  {
    QueueIdsOne(m);
    QueueIdsAdd(a.pending, [m]);
  }

  predicate MsgOk(mode: Mode, m: Msg) {
    && |m.ids| > 0
    && (m.body.Data? ==> Readable(mode, m.body.frame))
    && (m.body.Proto? && m.body.cont.Some? ==> |m.ids| > 1 && (mode.Tun? ==> Readable(mode, m.body.cont.value)))
  }

  /** Where every block in existence is accounted for once, it still is afterwards: gone or waiting, never both. */
  lemma EachBlockOnce(a: Kernel, b: Kernel, ids: seq<nat>, x: nat)
    requires Balanced(a, b, ids)
    requires a.Ledger()[x] + multiset(ids)[x] == if x < a.next then 1 else 0
    ensures b.gone[x] + QueueIds(b.pending)[x] == if x < b.next then 1 else 0
  {
    RangeOnce(a.next, b.next, x);
    assert b.Ledger()[x] == a.Ledger()[x] + multiset(ids)[x] + multiset(Range(a.next, b.next))[x];
    assert b.Ledger()[x] == b.gone[x] + QueueIds(b.pending)[x];
  }

  // ---------------------------------------------------------------- any mixture of puts and services

  /** A message of blocks ids has been put: of the blocks, only those and new ones pass the router, once each. */
  ghost predicate Entered(a: Kernel, b: Kernel, ids: seq<nat>) {
    && Balanced(a, b, ids)
    && b.passed <= a.passed + multiset(ids) + multiset(Range(a.next, b.next))
  }

  /** The queue has been served: nothing waits, and what waited has passed the router once more at most. */
  ghost predicate Emptied(a: Kernel, b: Kernel) {
    Balanced(a, b, []) && b.pending == [] && b.passed <= a.passed + QueueIds(a.pending)
  }

  /** A message of so many blocks arrives, or the queue is served. */
  datatype Turn = Arrival(blocks: nat) | Service

  ghost predicate TurnOk(a: Kernel, b: Kernel, t: Turn) {
    match t
    case Arrival(n) => Entered(a.Alloc(n).0, b, a.Alloc(n).1)
    case Service => Emptied(a, b)
  }

  const NO_TRAFFIC := Kernel([], [], [], 0, multiset{}, multiset{})

  /** Where block x is, and how often it has passed the router. */
  ghost predicate BlockOk(k: Kernel, x: nat) {
    && k.gone[x] + QueueIds(k.pending)[x] == (if x < k.next then 1 else 0)
    && k.passed[x] + QueueIds(k.pending)[x] <= 2
    && (x >= k.next ==> k.passed[x] == 0)
  }

  lemma ArrivalKeeps(a: Kernel, b: Kernel, n: nat, x: nat)
    requires BlockOk(a, x) && TurnOk(a, b, Arrival(n))
    ensures BlockOk(b, x)
  {
    var (k1, ids) := a.Alloc(n);
    RangeOnce(a.next, k1.next, x);
    RangeOnce(k1.next, b.next, x);
    assert k1.Ledger()[x] == a.gone[x] + QueueIds(a.pending)[x];
    EachBlockOnce(k1, b, ids, x);
    assert b.passed[x] <= a.passed[x] + multiset(ids)[x] + multiset(Range(k1.next, b.next))[x];
    assert a.gone[x] <= b.gone[x];
  }

  lemma ServiceKeeps(a: Kernel, b: Kernel, x: nat)
    requires BlockOk(a, x) && TurnOk(a, b, Service)
    ensures BlockOk(b, x)
  {
    RangeOnce(a.next, b.next, x);
    assert a.Ledger()[x] == a.gone[x] + QueueIds(a.pending)[x];
    EachBlockOnce(a, b, [], x);
    assert b.passed[x] <= a.passed[x] + QueueIds(a.pending)[x];
  }

  /**
    In any sequence of messages put and queues served, every block is gone or waiting exactly once, and
    none passes the router more than twice.
   */
  lemma {:induction false} TrafficConserves(ks: seq<Kernel>, ts: seq<Turn>, i: nat, x: nat)
    requires |ks| == |ts| + 1 && ks[0] == NO_TRAFFIC && i <= |ts|
    requires forall j :: 0 <= j < |ts| ==> TurnOk(ks[j], ks[j + 1], ts[j])
    ensures ks[i].gone[x] + QueueIds(ks[i].pending)[x] == if x < ks[i].next then 1 else 0
    ensures ks[i].passed[x] <= 2
    ensures BlockOk(ks[i], x)
  {
    if i > 0 {
      TrafficConserves(ks, ts, i - 1, x);
      assert TurnOk(ks[i - 1], ks[i], ts[i - 1]);
      match ts[i - 1]
      case Arrival(n) => ArrivalKeeps(ks[i - 1], ks[i], n, x);
      case Service => ServiceKeeps(ks[i - 1], ks[i], x);
    }
  }

  // ---------------------------------------------------------------- the replies, as a function

  /** What a request leaves: sound lists, pointers that spell no state, or a write through a null pointer. */
  datatype Verdict = Sound | Broken | Fault

  function Answers(a: DlReply, r: Room, tell: bool): seq<Answer> {
    if r.reuse || r.alloc then [Dl(a)]
    else if tell && r.last then [StreamError(ENOSR)]
    else []
  }

  /** The reply to a request that is not unitdata, and whether a failure to build it is reported. */
  function DlpiReply(mode: Mode, v: View, q: Qid, req: DlReq, short: bool): DlReply
    requires q in v.strs
  {
    var mac := match PpaOf(v, q) case Some(p) => Some(p.mac) case None => None;
    match req
    case InfoReq => if short then ErrAck(CInfo, BadPrim) else InfoAck(v.strs[q].state, v.strs[q].sap, mac)
    case AttachReq(p) => AttachReply(v, q, short, p)
    case DetachReq => DetachReply(v, q, short)
    case BindReq(sap, xid) => BindReply(v, q, short, sap, xid)
    case UnbindReq => UnbindReply(v, q, short)
    case PromiscReq(on, l) => PromiscReply(if on then CPromiscOn else CPromiscOff, short, l)
    case PhysAddrReq =>
      if short then ErrAck(CPhysAddr, BadPrim)
      else if mac.None? then ErrAck(CPhysAddr, SysErr) else PhysAddrAck(mac.value)
    case SetPhysAddrReq(_) => if mode.Tap? then OkAck(CSetPhysAddr) else ErrAck(CSetPhysAddr, Unsupported)
    case MultiReq(enable) =>
      var code := if enable then CEnabMulti else CDisabMulti;
      if mode.Tap? then OkAck(code) else ErrAck(code, Unsupported)
    case UnitdataReq(dest) => ErrAck(CUnitdata, Unsupported)
    case OtherReq(code) => ErrAck(COther(code), Unsupported)
  }

  /** The state change behind a request. */
  function ReqOp(mode: Mode, q: Qid, req: DlReq, short: bool): Option<Op> {
    match req
    case SetPhysAddrReq(m) => if mode.Tap? then Some(SetMac(q, m)) else None
    case AttachReq(p) => Some(Attach(q, short, p))
    case DetachReq => Some(Detach(q, short))
    case BindReq(sap, xid) => Some(Bind(q, short, sap, xid))
    case UnbindReq => Some(Unbind(q, short))
    case PromiscReq(on, l) => Some(Promisc(q, on, short, l))
    case _ => None
  }

  function DlpiStep(mode: Mode, mac: Mac, v: View, q: Qid, req: DlReq, short: bool): View
    requires q in v.strs
  {
    match ReqOp(mode, q, req, short)
    case Some(op) => if Live(v, op) then Step(mac, v, op) else v
    case None => v
  }

  predicate DlpiDisciplined(mode: Mode, v: View, q: Qid, req: DlReq, short: bool)
    requires q in v.strs
  {
    match ReqOp(mode, q, req, short)
    case Some(op) => Live(v, op) && Disciplined(v, op)
    case None => true
  }

  function DlpiVerdict(mode: Mode, v: View, q: Qid, req: DlReq, short: bool): Verdict
    requires q in v.strs
  {
    if mode.Tap? && req.SetPhysAddrReq? && v.strs[q].ppa.None? then Fault
    else if DlpiDisciplined(mode, v, q, req, short) then Sound
    else Broken
  }

  function DlpiAnswers(mode: Mode, v: View, q: Qid, b: Body, r: Room): seq<Answer>
    requires q in v.strs && b.Proto?
  {
    var reply := DlpiReply(mode, v, q, b.req, b.short);
    Answers(reply, r, !reply.PhysAddrAck?)
  }

  function IoctlReply(v: View, q: Qid, ioc: Ioc, alloc: bool): IocReply
    requires q in v.strs
  {
    match ioc
    case IocNewPpa(p) => NewPpaReply(v, p, alloc)
    case IocSetPpa(p) => SetPpaReply(v, p)
    case IocGetPpa => GetPpaReply(v, q)
    case IocRaw => Ack(0)
    case IocOther => Nak(EINVAL)
  }

  function IoctlOp(q: Qid, ioc: Ioc, alloc: bool): Option<Op> {
    match ioc
    case IocNewPpa(p) => Some(Op.NewPpa(q, p, alloc))
    case IocSetPpa(p) => Some(Op.SetPpa(q, p))
    case IocRaw => Some(SetRaw(q))
    case _ => None
  }

  function IoctlStep(mac: Mac, v: View, q: Qid, ioc: Ioc, alloc: bool): View
    requires q in v.strs
  {
    match IoctlOp(q, ioc, alloc) case Some(op) => Step(mac, v, op) case None => v
  }

  predicate IoctlDisciplined(v: View, q: Qid, ioc: Ioc, alloc: bool)
    requires q in v.strs
  {
    match IoctlOp(q, ioc, alloc) case Some(op) => Disciplined(v, op) case None => true
  }

  /** A new control stream is first told to raise its high water mark. */
  function IoctlPuts(q: Qid, ioc: Ioc, reply: IocReply): seq<Put> {
    if ioc.IocNewPpa? && reply.Ack? then [Put(q, SetOpts)] else []
  }

  // ---------------------------------------------------------------- replies

  /** Reuses the request's block for the answer, or frees the request and finds another block. */
  function SendReply(ids: seq<nat>, a: DlReply, r: Room, tell: bool, k: Kernel): (k': Kernel)
    ensures Balanced(k, k', ids) && k'.pending == k.pending && k'.puts == k.puts && k'.passed == k.passed
    ensures k'.replies == k.replies + Answers(a, r, tell)
  {
    if r.reuse then k.QReply(Dl(a), ids)
    else
      var k1 := k.FreeMsg(ids);
      var (k2, b) := k1.Alloc(1);
      if r.alloc then k2.QReply(Dl(a), b)
      else if tell && r.last then k2.QReply(StreamError(ENOSR), b)
      else k1
  }
}
