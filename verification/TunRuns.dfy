/**
  Whole runs of the driver: any sequence of opens, closes, ioctls and DLPI requests, in which the
  three attaching steps are issued only by streams that are on no list.
 */
module TunRuns {
  import opened Basics
  import opened TunSpec
  import TunStore

  datatype Op =
    | Open(q: Qid, clone: bool, devMinor: nat)
    | Close(q: Qid)
    | NewPpa(q: Qid, p: int, alloc: bool)
    | SetPpa(q: Qid, p: int)
    | SetRaw(q: Qid)
    | Attach(q: Qid, short: bool, p: int)
    | Detach(q: Qid, short: bool)
    | Bind(q: Qid, short: bool, sap: nat, xidtest: bool)
    | Unbind(q: Qid, short: bool)
    | Promisc(q: Qid, on: bool, short: bool, level: Level)
    | SetMac(q: Qid, mac: Mac)

  /** Only an open may name a queue that is not open; and only a stream with a PPA can set its address. */
  predicate Live(v: View, op: Op) {
    op.Open? || (op.q in v.strs && (op.SetMac? ==> v.strs[op.q].ppa.Some?))
  }

  function Step(mac: Mac, v: View, op: Op): View
    requires Live(v, op)
  {
    match op
    case Open(q, clone, devMinor) => OpenStep(v, q, clone, devMinor)
    case Close(q) => CloseStep(v, q)
    case NewPpa(q, p, alloc) => NewPpaStep(v, q, p, alloc, mac)
    case SetPpa(q, p) => SetPpaStep(v, q, p)
    case SetRaw(q) => SetFlag(v, q, Raw)
    case Attach(q, short, p) => AttachStep(v, q, short, p)
    case Detach(q, short) => DetachStep(v, q, short)
    case Bind(q, short, sap, xidtest) => BindStep(v, q, short, sap, xidtest)
    case Unbind(q, short) => UnbindStep(v, q, short)
    case Promisc(q, on, short, level) => PromiscStep(v, q, on, short, level)
    case SetMac(q, m) => SetMacStep(v, q, m)
  }

  /** The client discipline: no stream is linked or put in control while it sits on a list. */
  predicate Disciplined(v: View, op: Op)
    requires Live(v, op)
  {
    match op
    case NewPpa(q, p, alloc) => TunStore.NewPpaClean(v, q, p, alloc)
    case SetPpa(q, p) => SetPpaReply(v, p).Nak? || v.strs[q].ppa.None?
    case Attach(q, short, p) => AttachReply(v, q, short, p).ErrAck? || v.strs[q].ppa.None?
    case _ => true
  }

  ghost predicate Follows(mac: Mac, v: View, op: Op, w: View) {
    Live(v, op) && Disciplined(v, op) && w == Step(mac, v, op)
  }

  ghost predicate StepAt(mac: Mac, vs: seq<View>, ops: seq<Op>, i: nat)
    requires i < |ops| && |vs| == |ops| + 1
  {
    Follows(mac, vs[i], ops[i], vs[i + 1])
  }

  ghost predicate IsRun(mac: Mac, vs: seq<View>, ops: seq<Op>) {
    && |vs| == |ops| + 1
    && vs[0] == EMPTY_VIEW
    && forall i :: 0 <= i < |ops| ==> StepAt(mac, vs, ops, i)
  }

  // ---------------------------------------------------------------- every reachable state is well formed

  lemma StepWf(mac: Mac, v: View, op: Op)
    requires Wf(v) && Live(v, op) && Disciplined(v, op)
    ensures Wf(Step(mac, v, op))
  {
    match op
    case Open(q, clone, devMinor) => WfOpen(v, q, clone, devMinor);
    case Close(q) => WfClose(v, q);
    case NewPpa(q, p, alloc) =>
      if alloc {
        if NewPpaSlot(v, p).Ack? { WfNewPpa(v, q, p, alloc, mac); }
      } else {
        TunStore.WfOrphan(v, q, p, mac);
      }
    case SetPpa(q, p) => if SetPpaReply(v, p).Ack? { WfLink(v, q, p, v.strs[q].state); }
    case SetRaw(q) => WfRestyle(v, q, v.strs[q].(flags := v.strs[q].flags + {Raw}));
    case Attach(q, short, p) => if AttachReply(v, q, short, p).OkAck? { WfLink(v, q, p, Unbound); }
    case Detach(q, short) => WfDetach(v, q, short);
    case Bind(q, short, sap, xidtest) =>
      assert StreamOk(v, q);
      if BindReply(v, q, short, sap, xidtest).BindAck? { WfRestyle(v, q, v.strs[q].(sap := sap, state := Idle)); }
    case Unbind(q, short) =>
      assert StreamOk(v, q);
      if UnbindReply(v, q, short).OkAck? { WfRestyle(v, q, v.strs[q].(sap := 0, state := Unbound)); }
    case Promisc(q, on, short, level) =>
      if !short && LevelFlag(level).Some? {
        var f := LevelFlag(level).value;
        WfRestyle(v, q, v.strs[q].(flags := if on then v.strs[q].flags + {f} else v.strs[q].flags - {f}));
      }
    case SetMac(q, m) => WfSetMac(v, q, m);
  }

  lemma {:induction false} RunWf(mac: Mac, vs: seq<View>, ops: seq<Op>, i: nat)
    requires IsRun(mac, vs, ops) && i <= |ops|
    ensures Wf(vs[i])
  {
    if i > 0 {
      RunWf(mac, vs, ops, i - 1);
      assert StepAt(mac, vs, ops, i - 1);
      StepWf(mac, vs[i - 1], ops[i - 1]);
    }
  }

  /** In every reachable state, the lists of two PPAs share no stream. */
  lemma RunListsDisjoint(mac: Mac, vs: seq<View>, ops: seq<Op>, i: nat, p1: nat, p2: nat, q: Qid)
    requires IsRun(mac, vs, ops) && i <= |ops|
    requires p1 in vs[i].table && p2 in vs[i].table
    requires q in vs[i].table[p1].members && q in vs[i].table[p2].members
    ensures p1 == p2
  {
    RunWf(mac, vs, ops, i);
    assert PpaOk(vs[i], p1) && PpaOk(vs[i], p2);
    assert IsMember(vs[i], q, p1) && IsMember(vs[i], q, p2);
  }

  // ---------------------------------------------------------------- control ownership

  ghost function Controls(v: View): set<Qid> {
    set q | q in v.strs && Control in v.strs[q].flags
  }

  /** Every PPA has exactly one live control stream, and its rq is that stream's queue. */
  ghost predicate Owned(v: View) {
    forall p :: p in v.table ==>
      && v.table[p].rq in Controls(v)
      && forall q :: q in Controls(v) ==> (v.strs[q].ppa == Some(p) <==> q == v.table[p].rq)
  }

  /** TUNNEWPPA adds a PPA without adding a control stream. */
  predicate Leaks(v: View, op: Op) {
    op.NewPpa? && op.q in v.strs && NewPpaSlot(v, op.p).Ack? && (!op.alloc || Control in v.strs[op.q].flags)
  }

  function LeakCount(vs: seq<View>, ops: seq<Op>, i: nat): nat
    requires i <= |ops| && |vs| == |ops| + 1
  {
    if i == 0 then 0 else LeakCount(vs, ops, i - 1) + if Leaks(vs[i - 1], ops[i - 1]) then 1 else 0
  }

  lemma StepControls(mac: Mac, v: View, op: Op)
    requires Wf(v) && Live(v, op) && Disciplined(v, op)
    ensures var w := Step(mac, v, op);
            |w.table| + |Controls(v)| == |v.table| + |Controls(w)| + Bit(Leaks(v, op))
  {
    if op.Close? {
      CloseControls(v, op.q);
    } else if op.NewPpa? {
      NewPpaControls(mac, v, op.q, op.p, op.alloc);
    } else {
      OtherControls(mac, v, op);
      SameSize(Step(mac, v, op).table, v.table);
    }
  }

  lemma SameSize(a: map<nat, PpaRec>, b: map<nat, PpaRec>)
    requires a.Keys == b.Keys
    ensures |a| == |b|
  {
    assert |a| == |a.Keys| && |b| == |b.Keys|;
  }

  lemma CloseControls(v: View, q: Qid)
    requires Wf(v) && q in v.strs
    ensures |CloseStep(v, q).table| + |Controls(v)| == |v.table| + |Controls(CloseStep(v, q))|
  {
    var w := CloseStep(v, q);
    assert StreamOk(v, q);
    CloseFlags(v, q);
    if Control in v.strs[q].flags {
      assert Controls(w) == Controls(v) - {q};
      assert w.table == v.table - {v.strs[q].ppa.value};
      assert |w.table.Keys| == |v.table.Keys - {v.strs[q].ppa.value}|;
    } else {
      assert Controls(w) == Controls(v);
      assert w.table.Keys == v.table.Keys;
      SameSize(w.table, v.table);
    }
  }

  lemma CloseFlags(v: View, q: Qid)
    requires Wf(v) && q in v.strs
    ensures forall x :: x in CloseStep(v, q).strs <==> x in v.strs && x != q
    ensures forall x :: x in CloseStep(v, q).strs ==> CloseStep(v, q).strs[x].flags == v.strs[x].flags
  {}

  lemma NewPpaControls(mac: Mac, v: View, q: Qid, p: int, alloc: bool)
    requires Wf(v) && q in v.strs
    ensures var w := NewPpaStep(v, q, p, alloc, mac);
            |w.table| + |Controls(v)| == |v.table| + |Controls(w)| + Bit(Leaks(v, NewPpa(q, p, alloc)))
  {
    var w := NewPpaStep(v, q, p, alloc, mac);
    var slot := NewPpaSlot(v, p);
    if slot.Ack? {
      SlotAdded(v.table, slot.ret, PpaRec(q, [], mac));
      ControlAdded(v, w, q, alloc);
    }
  }

  lemma SlotAdded(t: map<nat, PpaRec>, id: nat, r: PpaRec)
    requires id !in t
    ensures |t[id := r]| == |t| + 1
  {
    var u := t[id := r];
    assert u.Keys == t.Keys + {id};
    assert |u| == |u.Keys| && |t| == |t.Keys|;
  }

  lemma ControlAdded(v: View, w: View, q: Qid, alloc: bool)
    requires q in v.strs && w.strs.Keys == v.strs.Keys
    requires forall x :: x in v.strs ==>
               (Control in w.strs[x].flags <==> Control in v.strs[x].flags || (alloc && x == q))
    ensures |Controls(w)| == |Controls(v)| + Bit(alloc && Control !in v.strs[q].flags)
  {
    if alloc && Control !in v.strs[q].flags {
      assert Controls(w) == Controls(v) + {q};
    } else {
      assert Controls(w) == Controls(v);
    }
  }

  lemma OtherControls(mac: Mac, v: View, op: Op)
    requires Wf(v) && Live(v, op) && !op.Close? && !op.NewPpa?
    ensures Step(mac, v, op).table.Keys == v.table.Keys
    ensures Controls(Step(mac, v, op)) == Controls(v)
  {
    OtherFlags(mac, v, op);
    var w := Step(mac, v, op);
    forall q ensures q in Controls(w) <==> q in Controls(v) {}
  }

  lemma OtherFlags(mac: Mac, v: View, op: Op)
    requires Live(v, op) && !op.Close? && !op.NewPpa?
    ensures var w := Step(mac, v, op);
            && w.table.Keys == v.table.Keys
            && (forall q :: q in v.strs ==> q in w.strs && (Control in w.strs[q].flags <==> Control in v.strs[q].flags))
            && (forall q :: q in w.strs && q !in v.strs ==> Control !in w.strs[q].flags)
  {
    hide OpenStep;
    if op.Open? {
      OpenFlags(v, op);
    }
  }

  lemma OpenFlags(v: View, op: Op)
    requires op.Open?
    ensures var w := OpenStep(v, op.q, op.clone, op.devMinor);
            && w.table == v.table
            && (forall q :: q in v.strs ==> q in w.strs && w.strs[q] == v.strs[q])
            && (forall q :: q in w.strs && q !in v.strs ==> w.strs[q].flags == {})
  {}

  /** In every run the slots in use outnumber the control streams by exactly the leaks so far. */
  lemma {:induction false} RunSlots(mac: Mac, vs: seq<View>, ops: seq<Op>, i: nat)
    requires IsRun(mac, vs, ops) && i <= |ops|
    ensures |vs[i].table| == |Controls(vs[i])| + LeakCount(vs, ops, i)
  {
    if i == 0 {
      assert Controls(vs[0]) == {};
    } else {
      RunSlots(mac, vs, ops, i - 1);
      RunWf(mac, vs, ops, i - 1);
      assert StepAt(mac, vs, ops, i - 1);
      StepControls(mac, vs[i - 1], ops[i - 1]);
    }
  }

  ghost function Held(v: View, cs: set<Qid>): set<nat>
    requires forall q :: q in cs ==> q in v.strs && v.strs[q].ppa.Some?
  {
    set q | q in cs :: v.strs[q].ppa.value
  }

  /** Different control streams hold different PPAs. */
  lemma {:induction false} HeldSize(v: View, cs: set<Qid>)
    requires Wf(v) && cs <= Controls(v)
    ensures forall q :: q in cs ==> q in v.strs && v.strs[q].ppa.Some?
    ensures |Held(v, cs)| == |cs| && Held(v, cs) <= v.table.Keys
    decreases cs
  {
    forall q | q in cs ensures q in v.strs && v.strs[q].ppa.Some? && v.strs[q].ppa.value in v.table {
      assert StreamOk(v, q);
    }
    if cs != {} {
      var c :| c in cs;
      HeldSize(v, cs - {c});
      var p := v.strs[c].ppa.value;
      assert Held(v, cs) == Held(v, cs - {c}) + {p};
      forall d | d in cs - {c} ensures v.strs[d].ppa.value != p {
        assert StreamOk(v, c) && StreamOk(v, d);
      }
    }
  }

  lemma SubsetFull<T>(a: set<T>, b: set<T>)
    requires a <= b
    ensures |a| <= |b| && (|a| == |b| <==> a == b)
  {
    assert b == a + (b - a);
    assert |b| == |a| + |b - a|;
  }

  /** Ownership is exactly the statement that slots and control streams are equally many. */
  lemma OwnedIff(v: View)
    requires Wf(v)
    ensures Owned(v) <==> |v.table| == |Controls(v)|
  {
    var cs := Controls(v);
    HeldSize(v, cs);
    var held := Held(v, cs);
    SubsetFull(held, v.table.Keys);
    assert |v.table| == |v.table.Keys|;
    forall q | q in cs ensures v.strs[q].ppa.value in v.table && v.table[v.strs[q].ppa.value].rq == q {
      assert StreamOk(v, q);
    }
    if Owned(v) {
      forall p | p in v.table ensures p in held {
        assert v.strs[v.table[p].rq].ppa == Some(p);
      }
      assert held == v.table.Keys;
    }
    if held == v.table.Keys {
      forall p | p in v.table
        ensures v.table[p].rq in cs && forall q :: q in cs ==> (v.strs[q].ppa == Some(p) <==> q == v.table[p].rq)
      {
        assert p in held;
        var q :| q in cs && v.strs[q].ppa.value == p;
      }
    }
  }

  /** Ownership holds at a point of a run if and only if no TUNNEWPPA has leaked a PPA before it. */
  lemma RunOwnership(mac: Mac, vs: seq<View>, ops: seq<Op>, i: nat)
    requires IsRun(mac, vs, ops) && i <= |ops|
    ensures Owned(vs[i]) <==> LeakCount(vs, ops, i) == 0
  {
    RunWf(mac, vs, ops, i);
    RunSlots(mac, vs, ops, i);
    OwnedIff(vs[i]);
  }

  /** A leak happens: one open, and one TUNNEWPPA whose last allocation fails. */
  lemma LeakExample(mac: Mac) returns (vs: seq<View>, ops: seq<Op>)
    ensures IsRun(mac, vs, ops) && |ops| == 2 && !Owned(vs[2])
    ensures vs[2].table.Keys == {5} && Controls(vs[2]) == {}
  {
    var v1 := Step(mac, EMPTY_VIEW, Open(7, true, 0));
    var v2 := Step(mac, v1, NewPpa(7, 5, false));
    vs, ops := [EMPTY_VIEW, v1, v2], [Open(7, true, 0), NewPpa(7, 5, false)];
    assert Follows(mac, vs[0], ops[0], vs[1]);
    assert Follows(mac, vs[1], ops[1], vs[2]);
    assert v2.table[5].rq !in Controls(v2);
  }
}
