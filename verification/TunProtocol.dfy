/**
  What the driver's clients can rely on: the DLPI state machine of each stream, the exact effect of
  a close, and the minors that clone opens hand out.
 */
module TunProtocol {
  import opened Basics
  import opened TunSpec
  import opened TunRuns

  // ---------------------------------------------------------------- DLPI states

  /** The provider's side of the state table: which request moves a stream from where to where. */
  datatype Arc = Stay | ByAttach | ByBind | ByUnbind | ByDetach | ByEviction

  predicate Moves(a: Arc, s: DlState, t: DlState) {
    match a
    case Stay => s == t
    case ByAttach => s == Unattached && t == Unbound
    case ByBind => s == Unbound && t == Idle
    case ByUnbind => s == Idle && t == Unbound
    case ByDetach => s == Unbound && t == Unattached
    case ByEviction => t == Unattached
  }

  /** Which arc a step takes for stream q, from the reply it gives and not from the new state. */
  function ArcOf(v: View, op: Op, q: Qid): Arc
    requires q in v.strs && Live(v, op)
  {
    match op
    case Attach(x, short, p) => if x == q && AttachReply(v, x, short, p).OkAck? then ByAttach else Stay
    case Bind(x, short, sap, xid) => if x == q && BindReply(v, x, short, sap, xid).BindAck? then ByBind else Stay
    case Unbind(x, short) => if x == q && UnbindReply(v, x, short).OkAck? then ByUnbind else Stay
    case Detach(x, short) => if x == q && DetachReply(v, x, short).OkAck? then ByDetach else Stay
    case Close(x) => if q in DetachedBy(v, x) then ByEviction else Stay
    case _ => Stay
  }

  lemma StepArc(mac: Mac, v: View, op: Op, q: Qid)
    requires Wf(v) && Live(v, op) && q in v.strs && q in Step(mac, v, op).strs
    ensures Moves(ArcOf(v, op, q), v.strs[q].state, Step(mac, v, op).strs[q].state)
  {
    if !op.Open? {
      assert StreamOk(v, op.q);
    }
    if op.Close? {
      CloseState(v, op.q, q);
    }
  }

  lemma CloseState(v: View, x: Qid, q: Qid)
    requires Wf(v) && x in v.strs && q in CloseStep(v, x).strs
    ensures CloseStep(v, x).strs[q] == if q in DetachedBy(v, x) then Detached(v.strs[q]) else v.strs[q]
  {
    assert StreamOk(v, x);
  }

  /** Along every run each stream moves only by the arcs that its own acknowledged requests name. */
  lemma RunArcs(mac: Mac, vs: seq<View>, ops: seq<Op>, i: nat, q: Qid)
    requires IsRun(mac, vs, ops) && i < |ops|
    requires q in vs[i].strs && q in vs[i + 1].strs
    ensures Live(vs[i], ops[i])
    ensures Moves(ArcOf(vs[i], ops[i], q), vs[i].strs[q].state, vs[i + 1].strs[q].state)
  {
    RunWf(mac, vs, ops, i);
    assert StepAt(mac, vs, ops, i);
    StepArc(mac, vs[i], ops[i], q);
  }

  /** A stream opens unattached. */
  lemma RunBorn(mac: Mac, vs: seq<View>, ops: seq<Op>, i: nat, q: Qid)
    requires IsRun(mac, vs, ops) && i < |ops|
    requires q !in vs[i].strs && q in vs[i + 1].strs
    ensures ops[i].Open? && ops[i].q == q
    ensures vs[i + 1].strs[q].state == Unattached && vs[i + 1].strs[q].ppa == None && vs[i + 1].strs[q].flags == {}
  {
    assert StepAt(mac, vs, ops, i);
    var v, op := vs[i], ops[i];
    if op.Close? {
      RunWf(mac, vs, ops, i);
      CloseFlags(v, op.q);
    }
  }

  /** In every reachable state an unbound or idle stream is attached, so bind never reports DL_SYSERR. */
  lemma RunNoSysErr(mac: Mac, vs: seq<View>, ops: seq<Op>, i: nat, q: Qid, short: bool, sap: nat, xidtest: bool)
    requires IsRun(mac, vs, ops) && i <= |ops| && q in vs[i].strs
    ensures vs[i].strs[q].state != Unattached ==> vs[i].strs[q].ppa.Some?
    ensures BindReply(vs[i], q, short, sap, xidtest) != ErrAck(CBind, SysErr)
  {
    RunWf(mac, vs, ops, i);
    assert StreamOk(vs[i], q);
  }

  /** Was the request turned down? */
  predicate Refused(v: View, op: Op)
    requires Live(v, op)
  {
    match op
    case NewPpa(q, p, alloc) => NewPpaReply(v, p, alloc).Nak?
    case SetPpa(q, p) => SetPpaReply(v, p).Nak?
    case Attach(q, short, p) => AttachReply(v, q, short, p).ErrAck?
    case Detach(q, short) => DetachReply(v, q, short).ErrAck?
    case Bind(q, short, sap, xid) => BindReply(v, q, short, sap, xid).ErrAck?
    case Unbind(q, short) => UnbindReply(v, q, short).ErrAck?
    case Promisc(q, on, short, level) => PromiscReply(if on then CPromiscOn else CPromiscOff, short, level).ErrAck?
    case _ => false
  }

  /** A refused request changes nothing, except the TUNNEWPPA that had already taken its slot. */
  lemma RefusedIff(mac: Mac, v: View, op: Op)
    requires Wf(v) && Live(v, op) && Refused(v, op)
    ensures Step(mac, v, op) == v <==> !(op.NewPpa? && NewPpaSlot(v, op.p).Ack?)
  {
    if op.NewPpa? && NewPpaSlot(v, op.p).Ack? {
      assert NewPpaSlot(v, op.p).ret in Step(mac, v, op).table;
    }
  }

  /** Attach, bind, unbind and detach bring a stream and its PPA's list back where they were. */
  lemma RoundTrip(mac: Mac, v: View, q: Qid, p: nat, sap: nat)
    requires Wf(v) && q in v.strs && p in v.table && sap <= ETHERTYPE_MAX
    requires v.strs[q].ppa.None?
    ensures var a := Step(mac, v, Attach(q, false, p));
            var b := Step(mac, a, Bind(q, false, sap, false));
            var c := Step(mac, b, Unbind(q, false));
            var d := Step(mac, c, Detach(q, false));
            && b.strs[q].state == Idle && b.strs[q].sap == sap && b.table[p].members == [q] + v.table[p].members
            && d == v.(strs := v.strs[q := v.strs[q].(sap := 0)])
  {
    assert PpaOk(v, p) && StreamOk(v, q);
    var a := Step(mac, v, Attach(q, false, p));
    assert a.strs[q] == v.strs[q].(ppa := Some(p), state := Unbound);
    var b := Step(mac, a, Bind(q, false, sap, false));
    assert b.strs[q] == v.strs[q].(ppa := Some(p), state := Idle, sap := sap);
    var c := Step(mac, b, Unbind(q, false));
    var d := Step(mac, c, Detach(q, false));
    assert c.table[p].members == [q] + v.table[p].members;
    assert Remove(c.table[p].members, q) == v.table[p].members;
    assert d.table == v.table;
    assert d.strs == v.strs[q := v.strs[q].(sap := 0)];
  }

  // ---------------------------------------------------------------- what a close does

  /** Closing a control stream: who is detached, and that everything else stays. */
  lemma CloseControlExact(v: View, q: Qid)
    requires Wf(v) && q in v.strs && Control in v.strs[q].flags
    ensures v.strs[q].ppa.Some?
    ensures var p := v.strs[q].ppa.value;
            var w := CloseStep(v, q);
            && w.table == v.table - {p}
            && w.order == Remove(v.order, q)
            && w.strs.Keys == v.strs.Keys - {q}
            && (forall x :: x in w.strs ==>
                  w.strs[x] == if v.strs[x].ppa != Some(p) then v.strs[x]
                               else v.strs[x].(ppa := None, state := Unattached))
            && (forall x :: x in w.strs ==> w.strs[x].ppa != Some(p))
  {
    assert StreamOk(v, q);
    var p := v.strs[q].ppa.value;
    assert PpaOk(v, p);
    forall x | x in CloseStep(v, q).strs
      ensures x in v.table[p].members <==> v.strs[x].ppa == Some(p)
    {
      assert StreamOk(v, x);
      assert x in v.table[p].members <==> IsMember(v, x, p);
    }
  }

  /** Closing any other stream: it leaves its own list, and nothing else moves. */
  lemma CloseOtherExact(v: View, q: Qid)
    requires Wf(v) && q in v.strs && Control !in v.strs[q].flags
    ensures var w := CloseStep(v, q);
            && w.strs == v.strs - {q}
            && w.order == Remove(v.order, q)
            && w.table.Keys == v.table.Keys
            && (forall p :: p in w.table ==> w.table[p] == v.table[p].(members := Remove(v.table[p].members, q)))
  {
    assert StreamOk(v, q);
    var w := CloseStep(v, q);
    forall p | p in w.table ensures w.table[p] == v.table[p].(members := Remove(v.table[p].members, q)) {
      assert PpaOk(v, p);
      if v.strs[q].ppa != Some(p) {
        assert q in v.table[p].members <==> IsMember(v, q, p);
        RemoveAbsent(v.table[p].members, q);
      }
    }
  }

  // ---------------------------------------------------------------- minors

  ghost predicate MinorsSorted(v: View) {
    forall i, j :: 0 <= i < j < |v.order| ==> MinorAt(v, i) < MinorAt(v, j)
  }

  predicate MinorUsed(v: View, m: nat) {
    exists q :: q in v.strs && v.strs[q].minor == m
  }

  lemma {:induction false} SortedAbove(v: View, i: nat)
    requires MinorsSorted(v) && i < |v.order|
    ensures MinorAt(v, i) >= i
  {
    if i > 0 { SortedAbove(v, i - 1); }
  }

  /** On a sorted list the clone scan finds the least minor that no stream holds. */
  lemma CloneLeast(v: View)
    requires Wf(v) && MinorsSorted(v)
    ensures !MinorUsed(v, CloneSlot(v, 0))
    ensures forall m :: 0 <= m < CloneSlot(v, 0) ==> MinorUsed(v, m)
  {
    var k := CloneSlot(v, 0);
    forall m: nat | m < k ensures MinorUsed(v, m) {
      SortedAbove(v, m);
      assert v.order[m] in v.order && v.strs[v.order[m]].minor == m;
    }
    forall q | q in v.strs ensures v.strs[q].minor != k {
      assert q in v.order;
      var i :| 0 <= i < |v.order| && v.order[i] == q;
      SortedAbove(v, i);
      if i > k { assert MinorAt(v, k) < MinorAt(v, i); }
    }
  }

  lemma CloneSorted(v: View, q: Qid)
    requires Wf(v) && MinorsSorted(v) && q !in v.strs
    ensures MinorsSorted(OpenStep(v, q, true, 0))
  {
    var k := CloneSlot(v, 0);
    var w := OpenStep(v, q, true, 0);
    forall i | 0 <= i < |w.order|
      ensures MinorAt(w, i) == if i < k then MinorAt(v, i) else if i == k then k else MinorAt(v, i - 1)
    {
      OpenMinor(v, q, k, k, i);
    }
    forall i, j | 0 <= i < j < |w.order| ensures MinorAt(w, i) < MinorAt(w, j) {
      assert MinorAt(w, i) == if i < k then MinorAt(v, i) else if i == k then k else MinorAt(v, i - 1);
      assert MinorAt(w, j) == if j < k then MinorAt(v, j) else if j == k then k else MinorAt(v, j - 1);
      if i <= k < j {
        assert k < MinorAt(v, k) <= MinorAt(v, j - 1) by {
          if j - 1 > k { assert MinorAt(v, k) < MinorAt(v, j - 1); }
        }
        assert i < k ==> MinorAt(v, i) <= i;
      }
    }
  }

  lemma OpenMinor(v: View, q: Qid, k: nat, minor: nat, i: nat)
    requires Wf(v) && q !in v.strs && k <= |v.order| && i <= |v.order|
    ensures var w := v.(order := v.order[..k] + [q] + v.order[k..],
                        strs := v.strs[q := Strm(minor, None, {}, Unattached, 0)]);
            MinorAt(w, i) == if i < k then MinorAt(v, i) else if i == k then minor else MinorAt(v, i - 1)
  {
    if i < k { assert v.order[i] in v.order; }
    if i > k { assert v.order[i - 1] in v.order; }
  }

  /** A first open that is not a clone open keeps the list sorted only below every minor in use. */
  lemma PlainOpenSortedIff(v: View, q: Qid, minor: nat)
    requires Wf(v) && MinorsSorted(v) && q !in v.strs
    ensures MinorsSorted(OpenStep(v, q, false, minor)) <==> (v.order == [] || minor < MinorAt(v, 0))
  {
    var w := OpenStep(v, q, false, minor);
    forall i | 0 <= i < |w.order| ensures MinorAt(w, i) == if i == 0 then minor else MinorAt(v, i - 1) {
      OpenMinor(v, q, 0, minor, i);
    }
    if v.order != [] && minor < MinorAt(v, 0) {
      forall i | 0 < i < |v.order| ensures minor < MinorAt(v, i) {
        assert MinorAt(v, 0) < MinorAt(v, i);
      }
    }
    if v.order != [] && MinorsSorted(w) {
      assert MinorAt(w, 0) < MinorAt(w, 1);
    }
  }

  /** Steps other than an open keep the relative order of the survivors and their minors. */
  lemma OtherSorted(mac: Mac, v: View, op: Op)
    requires Wf(v) && MinorsSorted(v) && Live(v, op) && !op.Open?
    ensures MinorsSorted(Step(mac, v, op))
  {
    var w := Step(mac, v, op);
    if op.Close? {
      CloseMinors(v, op.q);
    } else {
      SameMinors(mac, v, op);
    }
  }

  lemma SameMinors(mac: Mac, v: View, op: Op)
    requires Wf(v) && Live(v, op) && !op.Open? && !op.Close?
    ensures Step(mac, v, op).order == v.order
    ensures forall i :: 0 <= i < |v.order| ==> MinorAt(Step(mac, v, op), i) == MinorAt(v, i)
  {}

  lemma CloseOrder(v: View, q: Qid)
    requires Wf(v) && q in v.strs
    ensures q in v.order && NoDup(v.order) && CloseStep(v, q).order == Remove(v.order, q)
    ensures forall x :: x in v.order ==> x in v.strs
    ensures CloseStep(v, q).strs.Keys == v.strs.Keys - {q}
  {}

  /** Positions in a list, as they were before entry k was taken out. */
  function Before(i: nat, k: nat): nat { if i < k then i else i + 1 }

  lemma CloseMinorAt(v: View, q: Qid, k: nat, i: nat)
    requires Wf(v) && q in v.strs && k < |v.order| && v.order[k] == q && i < |v.order| - 1
    ensures |CloseStep(v, q).order| == |v.order| - 1
    ensures MinorAt(CloseStep(v, q), i) == MinorAt(v, Before(i, k))
  {
    hide Wf, CloseStep, StreamOk;
    CloseOrder(v, q);
    RemoveAt(v.order, k);
    var x := v.order[Before(i, k)];
    assert x in v.order && x != q;
    CloseState(v, q, x);
  }

  lemma CloseMinors(v: View, q: Qid)
    requires Wf(v) && MinorsSorted(v) && q in v.strs
    ensures MinorsSorted(CloseStep(v, q))
  {
    hide Wf, CloseStep, StreamOk, MinorAt;
    CloseOrder(v, q);
    var k :| 0 <= k < |v.order| && v.order[k] == q;
    forall i, j | 0 <= i < j < |CloseStep(v, q).order|
      ensures MinorAt(CloseStep(v, q), i) < MinorAt(CloseStep(v, q), j)
    {
      RemoveAt(v.order, k);
      CloseMinorAt(v, q, k, i);
      CloseMinorAt(v, q, k, j);
    }
  }

  /** An open that takes its minor from the device does not disturb a sorted list. */
  predicate FitsBelow(v: View, op: Op) {
    op.Open? && op.q !in v.strs && !op.clone ==> v.order == [] || op.devMinor < MinorAt(v, 0)
  }

  lemma StepSortedIff(mac: Mac, v: View, op: Op)
    requires Wf(v) && MinorsSorted(v) && Live(v, op)
    ensures MinorsSorted(Step(mac, v, op)) <==> FitsBelow(v, op)
  {
    if !op.Open? {
      OtherSorted(mac, v, op);
    } else if op.q !in v.strs {
      if op.clone {
        CloneSorted(v, op.q);
        assert OpenStep(v, op.q, true, op.devMinor) == OpenStep(v, op.q, true, 0);
      } else {
        PlainOpenSortedIff(v, op.q, op.devMinor);
      }
    }
  }

  ghost predicate SortedUpTo(vs: seq<View>, n: nat)
    requires n < |vs|
  {
    forall i :: 0 <= i <= n ==> MinorsSorted(vs[i])
  }

  ghost predicate FitsUpTo(vs: seq<View>, ops: seq<Op>, n: nat)
    requires n <= |ops| && |vs| == |ops| + 1
  {
    forall i :: 0 <= i < n ==> FitsBelow(vs[i], ops[i])
  }

  /**
    The open list is sorted by minor all along a run exactly if every first open that is not a clone open
    finds it empty or takes a minor below all others.
   */
  lemma {:induction false} RunSortedIff(mac: Mac, vs: seq<View>, ops: seq<Op>, n: nat)
    requires IsRun(mac, vs, ops) && n <= |ops|
    ensures SortedUpTo(vs, n) <==> FitsUpTo(vs, ops, n)
  {
    if n > 0 {
      RunSortedIff(mac, vs, ops, n - 1);
      assert StepAt(mac, vs, ops, n - 1);
      if SortedUpTo(vs, n - 1) {
        RunWf(mac, vs, ops, n - 1);
        StepSortedIff(mac, vs[n - 1], ops[n - 1]);
      }
      assert SortedUpTo(vs, n) <==> SortedUpTo(vs, n - 1) && MinorsSorted(vs[n]);
      assert FitsUpTo(vs, ops, n) <==> FitsUpTo(vs, ops, n - 1) && FitsBelow(vs[n - 1], ops[n - 1]);
    }
  }

  /** ... and then every clone open hands out the least minor not in use. */
  lemma RunLeastMinor(mac: Mac, vs: seq<View>, ops: seq<Op>, i: nat)
    requires IsRun(mac, vs, ops) && i < |ops| && FitsUpTo(vs, ops, i)
    requires ops[i].Open? && ops[i].clone && ops[i].q !in vs[i].strs
    ensures ops[i].q in vs[i + 1].strs
    ensures var m := vs[i + 1].strs[ops[i].q].minor;
            !MinorUsed(vs[i], m) && forall k :: 0 <= k < m ==> MinorUsed(vs[i], k)
  {
    RunSortedIff(mac, vs, ops, i);
    RunWf(mac, vs, ops, i);
    assert StepAt(mac, vs, ops, i);
    CloneLeast(vs[i]);
  }

  /** Two plain opens out of order make a later clone open repeat a minor. */
  lemma DuplicateMinorExample(mac: Mac) returns (vs: seq<View>, ops: seq<Op>)
    ensures IsRun(mac, vs, ops) && |ops| == 3 && ops[2] == Open(3, true, 0) && !FitsBelow(vs[1], ops[1])
    ensures var v := vs[3]; v.strs.Keys == {1, 2, 3} && v.strs[1].minor == v.strs[3].minor == 0
  {
    var v1 := OpenStep(EMPTY_VIEW, 1, false, 0);
    var v2 := OpenStep(v1, 2, false, 5);
    assert CloneSlot(v2, 0) == 0;
    vs := [EMPTY_VIEW, v1, v2, OpenStep(v2, 3, true, 0)];
    ops := [Open(1, false, 0), Open(2, false, 5), Open(3, true, 0)];
    forall i | 0 <= i < 3 ensures StepAt(mac, vs, ops, i) {
      assert Follows(mac, vs[i], ops[i], vs[i + 1]);
    }
  }
}
