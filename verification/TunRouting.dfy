/** Routing one frame along the linked lists, and turning unitdata requests into frames. */
module TunRouting {
  import opened Basics
  import opened TunSpec
  import opened EtherFrame
  import opened TunFrames
  import opened TunRuns
  import opened TunStore
  import opened TunMessages
  import D = TunDriver

  // ---------------------------------------------------------------- frames

  /** From a to b the puts ps have been made, and nothing else has happened but balanced block traffic. */
  ghost predicate Routed(a: Kernel, b: Kernel, ps: seq<Put>) {
    && Balanced(a, b, []) && b.pending == a.pending && b.replies == a.replies && b.passed == a.passed
    && b.puts == a.puts + ps
  }

  lemma RoutedNone(a: Kernel)
    ensures Routed(a, a, [])
  {}

  lemma RoutedThen(a: Kernel, b: Kernel, c: Kernel, ps: seq<Put>, qs: seq<Put>)
    requires Routed(a, b, ps) && Routed(b, c, qs)
    ensures Routed(a, c, ps + qs)
  {
    BalancedThen(a, b, c, []);
    assert a.puts + ps + qs == a.puts + (ps + qs);
  }

  /** Fresh blocks put at once or freed at once. */
  lemma FreshBlocks(k: Kernel, n: nat, q: Qid, what: Up)
    ensures var (k1, ids) := k.Alloc(n);
      && Routed(k, k1.PutNext(q, what, ids), [Put(q, what)])
      && Routed(k, k1.FreeMsg(ids), [])
  {}

  /** Fresh blocks put behind one more fresh block. */
  lemma FreshHeaded(k: Kernel, n: nat, q: Qid, what: Up)
    ensures var (k1, ids) := k.Alloc(n); var (k2, hdr) := k1.Alloc(1);
      Routed(k, k2.PutNext(q, what, hdr + ids), [Put(q, what)])
  {
    hide Range, QueueIds;
    RangeJoin(k.next, k.next + n, k.next + n + 1);
    var ids, hdr := Range(k.next, k.next + n), Range(k.next + n, k.next + n + 1);
    assert multiset(hdr + ids) == multiset(Range(k.next, k.next + n + 1));
  }

  /** One copy for one stream; blocks made on the way are delivered or freed. */
  function SendCopy(mode: Mode, flags: set<Flag>, rq: Qid, mp: Msg, site: Site, o: Outcomes, k: Kernel): (k': Kernel)
    requires mp.body.Data? && Readable(mode, mp.body.frame)
    ensures Routed(k, k', if Passes(mode, flags, site, o) then [Put(rq, Wrap(mode, flags, mp.body.frame))] else [])
  {
    hide Routed, Wrap;
    RoutedNone(k);
    FreshBlocks(k, |mp.ids|, rq, Wrap(mode, flags, mp.body.frame));
    FreshHeaded(k, |mp.ids|, rq, Wrap(mode, flags, mp.body.frame));
    if !o.can(site) || !o.dup(site) then k
    else
      var (k1, ids) := k.Alloc(|mp.ids|);
      var what := Wrap(mode, flags, mp.body.frame);
      if !NeedsBlock(mode, flags) then k1.PutNext(rq, what, ids)
      else if !o.hdr(site) then k1.FreeMsg(ids)
      else
        var (k2, hdr) := k1.Alloc(1);
        k2.PutNext(rq, what, hdr + ids)
  }

  /** tmp is the i-th stream of the list ms of PPA p. */
  ghost predicate At(drv: D.Driver, p: nat, ms: seq<Qid>, tmp: D.Stream?, i: nat)
    reads drv, drv.table, drv.qptr.Values, drv.Ppas()
  {
    && drv.Valid()
    && p in drv.view.table && drv.view.table[p].members == ms
    && p in drv.store.slots && PChain(drv.store, p, ms)
    && i <= |ms| && D.PtrIn(drv.qptr, tmp) == PtrAt(ms, i)
  }

  lemma Member(drv: D.Driver, p: nat, ms: seq<Qid>, tmp: D.Stream, i: nat)
    requires At(drv, p, ms, tmp, i)
    ensures i < |ms| && tmp.rq == ms[i] && ms[i] in drv.view.strs
    ensures drv.view.strs[ms[i]].flags == tmp.flags && drv.view.strs[ms[i]].sap == tmp.sap
    ensures At(drv, p, ms, tmp.pNext, i + 1)
  {
    drv.NextMember(p, ms, i, tmp);
    drv.StreamFacts(ms[i]);
  }

  lemma First(drv: D.Driver, ppa: D.Ppa)
    requires drv.Valid() && ppa.id < drv.table.Length && drv.table[ppa.id] == ppa
    ensures ppa.id in drv.view.table && At(drv, ppa.id, drv.view.table[ppa.id].members, ppa.pStr, 0)
  {
    drv.FirstMember(ppa);
  }

  /** Copies for the sniffers, walking the PPA's list. */
  method SendToSniffers(drv: D.Driver, mode: Mode, p: nat, head: D.Stream?, mp: Msg, o: Outcomes, k: Kernel,
      ghost v: View, ghost ms: seq<Qid>)
    returns (k': Kernel)
    requires At(drv, p, ms, head, 0) && drv.view == v
    requires mp.body.Data? && Readable(mode, mp.body.frame)
    ensures At(drv, p, ms, head, 0) && drv.view == v
    ensures Routed(k, k', SniffPuts(mode, v, ms, mp.body.frame, o))
  {
    var tmp := head;
    k' := k;
    ghost var i, f := 0, mp.body.frame;
    RoutedNone(k);
    while tmp != null
      invariant At(drv, p, ms, head, 0) && At(drv, p, ms, tmp, i) && drv.view == v
      invariant Routed(k, k', SniffPuts(mode, v, ms[..i], f, o))
      decreases |ms| - i
    {
      hide At, Routed, SniffPuts, Passes, Wrap;
      Member(drv, p, ms, tmp, i);
      SniffSnoc(mode, v, ms, i, f, o);
      ghost var k1 := k';
      RoutedNone(k1);
      if Sniffer(tmp.flags) {
        k' := SendCopy(mode, tmp.flags, tmp.rq, mp, Sniff(tmp.rq), o, k');
      }
      RoutedThen(k, k1, k', SniffPuts(mode, v, ms[..i], f, o), SniffPut(mode, v, ms[i], f, o));
      tmp := tmp.pNext;
      i := i + 1;
    }
    assert ms[..i] == ms;
  }

  /** Copies for the protocol streams that want the frame. */
  method SendToProtocols(drv: D.Driver, mode: Mode, p: nat, head: D.Stream?, mac: Mac, mp: Msg, o: Outcomes,
      k: Kernel, ghost v: View, ghost ms: seq<Qid>)
    returns (k': Kernel)
    requires At(drv, p, ms, head, 0) && drv.view == v
    requires mp.body.Data? && Readable(mode, mp.body.frame)
    ensures At(drv, p, ms, head, 0) && drv.view == v
    ensures Routed(k, k', ProtoPuts(mode, v, ms, mac, mp.body.frame, o))
  {
    var tmp := head;
    k' := k;
    ghost var i, f := 0, mp.body.frame;
    RoutedNone(k);
    while tmp != null
      invariant At(drv, p, ms, head, 0) && At(drv, p, ms, tmp, i) && drv.view == v
      invariant Routed(k, k', ProtoPuts(mode, v, ms[..i], mac, f, o))
      decreases |ms| - i
    {
      hide At, Routed, ProtoPuts, Passes, Wrap;
      Member(drv, p, ms, tmp, i);
      ProtoSnoc(mode, v, ms, i, mac, f, o);
      ghost var k1 := k';
      RoutedNone(k1);
      var wanted := if mode.Tap? then Eligible(mp.body.frame, tmp.sap, mac) else tmp.sap == IpType(mp.body.frame);
      if wanted {
        k' := SendCopy(mode, tmp.flags, tmp.rq, mp, Site.Proto(tmp.rq), o, k');
      }
      RoutedThen(k, k1, k', ProtoPuts(mode, v, ms[..i], mac, f, o), ProtoPut(mode, v, ms[i], mac, f, o));
      tmp := tmp.pNext;
      i := i + 1;
    }
    assert ms[..i] == ms;
  }

  /** The way up to the control stream. */
  function SendToControl(rq: Qid, mp: Msg, drop: bool, o: Outcomes, k: Kernel): (k': Kernel)
    requires mp.body.Data?
    ensures Balanced(k, k', mp.ids) && k'.replies == k.replies && k'.passed == k.passed
    ensures k'.puts == k.puts + if o.can(Ctl) then [Put(rq, Plain(mp.body.frame))] else []
    ensures k'.pending == if !o.can(Ctl) && !drop then [mp] + k.pending else k.pending
  {
    if o.can(Ctl) then
      k.PutNext(rq, Plain(mp.body.frame), mp.ids)
    else if !drop then
      BalancedPutBack(k, mp);
      k.(pending := [mp] + k.pending)
    else
      k.FreeMsg(mp.ids)
  }

  /** Routes one frame. drop says what becomes of a frame the control stream has no room for. */
  method TunFrame(drv: D.Driver, mode: Mode, wq: Qid, mp: Msg, drop: bool, o: Outcomes,
      k: Kernel) returns (k': Kernel)
    requires drv.Valid() && wq in drv.qptr && mp.body.Data? && Readable(mode, mp.body.frame)
    ensures drv.Valid() && drv.view == old(drv.view)
    ensures Balanced(k, k', mp.ids) && k'.replies == k.replies && k'.passed == k.passed + multiset(mp.ids)
    ensures k'.puts == k.puts + FramePuts(mode, drv.view, wq, mp.body.frame, o)
    ensures k'.pending == if Requeued(drv.view, wq, drop, o) then [mp] + k.pending else k.pending
  {
    drv.StreamFacts(wq);
    var str := drv.qptr[wq];
    var ppa := str.ppa;
    k' := k.Pass(mp.ids);
    if ppa == null {
      return k'.FreeMsg(mp.ids);
    }
    First(drv, ppa);
    ghost var v := drv.view;
    assert PpaOf(v, wq) == Some(v.table[ppa.id]) && IsControl(v, wq) == (Control in str.flags);
    k' := RouteAttached(drv, mode, Control in str.flags, ppa.id, ppa.rq, ppa.mac, ppa.pStr, mp, drop, o, k', v);
    assert FramePuts(mode, v, wq, mp.body.frame, o)
        == RoutedPuts(mode, v, Control in str.flags, ppa.id, mp.body.frame, o);
  }

  ghost function RoutedPuts(mode: Mode, v: View, control: bool, p: nat, f: Frame, o: Outcomes): seq<Put>
    requires p in v.table && Readable(mode, f)
  {
    SniffPuts(mode, v, v.table[p].members, f, o) +
    if control then ProtoPuts(mode, v, v.table[p].members, v.table[p].mac, f, o)
    else if o.can(Ctl) then [Put(v.table[p].rq, Plain(f))] else []
  }

  method RouteAttached(drv: D.Driver, mode: Mode, control: bool, p: nat, rq: Qid, mac: Mac, head: D.Stream?,
      mp: Msg, drop: bool, o: Outcomes, k: Kernel, ghost v: View)
    returns (k': Kernel)
    requires p in v.table && At(drv, p, v.table[p].members, head, 0) && drv.view == v
    requires rq == v.table[p].rq && mac == v.table[p].mac
    requires mp.body.Data? && Readable(mode, mp.body.frame)
    ensures drv.Valid() && drv.view == v
    ensures Balanced(k, k', mp.ids) && k'.replies == k.replies && k'.passed == k.passed
    ensures k'.puts == k.puts + RoutedPuts(mode, v, control, p, mp.body.frame, o)
    ensures k'.pending == if !control && !o.can(Ctl) && !drop then [mp] + k.pending else k.pending
  {
    ghost var ms, f := v.table[p].members, mp.body.frame;
    k' := SendToSniffers(drv, mode, p, head, mp, o, k, v, ms);
    ghost var k1 := k';
    if !control {
      k' := SendToControl(rq, mp, drop, o, k');
    } else {
      k' := SendToProtocols(drv, mode, p, head, mac, mp, o, k', v, ms);
      RoutedThen(k, k1, k', SniffPuts(mode, v, ms, f, o), ProtoPuts(mode, v, ms, mac, f, o));
      k1 := k';
      k' := k'.FreeMsg(mp.ids);
      BalancedFree(k1, mp.ids);
    }
    BalancedThen(k, k1, k', mp.ids);
  }

  // ---------------------------------------------------------------- unitdata requests

  /** A frame routed for the first time: copies go up, and it is put back at most once. */
  ghost predicate FrameEffect(mode: Mode, v: View, q: Qid, f: Frame, o: Outcomes, k: Kernel, k': Kernel)
    requires Readable(mode, f)
  {
    && k'.replies == k.replies
    && k'.puts == k.puts + FramePuts(mode, v, q, f, o)
    && if PpaOf(v, q).Some? && !IsControl(v, q) && !o.can(Ctl)
       then |k'.pending| > 0 && k'.pending[0].body == Data(f) && k'.pending[1..] == k.pending
       else k'.pending == k.pending
  }

  /** What is routed and what is answered, by the state, the PPA, the data and the memory for a header. */
  ghost predicate UnitEffect(mode: Mode, v: View, q: Qid, dest: Mac, cont: Option<Frame>, hdr: bool, r: Room,
      o: Outcomes, k: Kernel, k': Kernel)
    requires q in v.strs
  {
    var s := v.strs[q];
    var open := s.state == Idle && s.ppa.Some?;
    && (!open ==>
          && k'.replies == k.replies + Answers(ErrAck(CUnitdata, OutState), r, true)
          && k'.puts == k.puts && k'.pending == k.pending)
    && (open && cont.None? ==>
          && k'.replies == k.replies + Answers(ErrAck(CUnitdata, BadData), r, true)
          && k'.puts == k.puts && k'.pending == k.pending)
    && (open && cont.Some? && mode == Tap && !hdr ==>
          k'.replies == k.replies && k'.puts == k.puts && k'.pending == k.pending)
    && (open && cont.Some? && mode == Tun ==>
          Readable(Tun, cont.value) && FrameEffect(Tun, v, q, cont.value, o, k, k'))
    && (open && cont.Some? && mode == Tap && hdr ==>
          && s.ppa.value in v.table
          && var f := Encap(s.sap, dest, v.table[s.ppa.value].mac, cont.value);
             Readable(Tap, f) && FrameEffect(Tap, v, q, f, o, k, k'))
  }

  method TunUnitdataReq(drv: D.Driver, mode: Mode, wq: Qid, mp: Msg, hdr: bool, r: Room, o: Outcomes, k: Kernel)
    returns (k': Kernel)
    requires drv.Valid() && wq in drv.qptr && MsgOk(mode, mp) && mp.body.Proto? && mp.body.req.UnitdataReq?
    ensures drv.Valid() && drv.view == old(drv.view) && wq in drv.view.strs
    ensures Entered(k, k', mp.ids)
    ensures UnitEffect(mode, drv.view, wq, mp.body.req.dest, mp.body.cont, hdr, r, o, k, k')
  {
    drv.StreamFacts(wq);
    ghost var v := drv.view;
    var str := drv.qptr[wq];
    var ppa := str.ppa;
    if str.state != Idle || ppa == null {
      return SendReply(mp.ids, ErrAck(CUnitdata, OutState), r, true, k);
    }
    if mp.body.cont.None? {
      return SendReply(mp.ids, ErrAck(CUnitdata, BadData), r, true, k);
    }
    assert PpaOf(v, wq).Some? && PpaOf(v, wq).value.mac == ppa.mac;
    var k1, fp := UnitMessage(mode, mp, str.sap, ppa.mac, hdr, k);
    if fp.None? {
      return k1;
    }
    hide FramePuts, Represents, D.Driver.Tied, StreamOk, Wf, Exchanged, Range;
    k' := TunFrame(drv, mode, wq, fp.value, false, o, k1);
    ExchangeThen(k, k1, k', mp.ids, fp.value.ids);
    RangeJoin(k.next, k1.next, k'.next);
  }

  /** Strips the request off its data; in the TAP build, puts a header block in front. */
  method UnitMessage(mode: Mode, mp: Msg, sap: nat, mac: Mac, hdr: bool, k: Kernel) returns (k': Kernel,
      fp: Option<Msg>)
    requires MsgOk(mode, mp) && mp.body.Proto? && mp.body.req.UnitdataReq? && mp.body.cont.Some?
    ensures k'.puts == k.puts && k'.replies == k.replies && k'.pending == k.pending && k'.passed == k.passed
    ensures fp.None? <==> mode.Tap? && !hdr
    ensures fp.None? ==> Balanced(k, k', mp.ids)
    ensures fp.Some? ==>
      var f := if mode.Tap? then Encap(sap, mp.body.req.dest, mac, mp.body.cont.value) else mp.body.cont.value;
      && Readable(mode, f) && fp.value.body == Data(f)
      && Exchanged(k, k', mp.ids, fp.value.ids)
  {
    var payload, ids := mp.body.cont.value, mp.ids[1..];
    assert mp.ids == mp.ids[..1] + ids;
    if mode.Tun? {
      return k.FreeMsg(mp.ids[..1]), Some(Msg(ids, Data(payload)));
    }
    if !hdr {
      return k.FreeMsg(mp.ids), None;
    }
    var (k1, b) := k.Alloc(1);
    k' := k1.FreeMsg(mp.ids[..1]);
    fp := Some(Msg(b + ids, Data(Encap(sap, mp.body.req.dest, mac, payload))));
  }

  /** Blocks ids have been taken in and blocks passed handed out again. */
  ghost predicate Exchanged(a: Kernel, b: Kernel, ids: seq<nat>, passed: seq<nat>) {
    && a.next <= b.next && a.gone <= b.gone && multiset(passed) <= multiset(ids) + multiset(Range(a.next, b.next))
    && b.Ledger() + multiset(passed) == a.Ledger() + multiset(ids) + multiset(Range(a.next, b.next))
  }

  lemma ExchangeThen(a: Kernel, b: Kernel, c: Kernel, ids: seq<nat>, passed: seq<nat>)
    requires Exchanged(a, b, ids, passed) && Balanced(b, c, passed)
    ensures Balanced(a, c, ids) && multiset(passed) <= multiset(ids) + multiset(Range(a.next, b.next))
  {
    RangeJoin(a.next, b.next, c.next);
  }
}
