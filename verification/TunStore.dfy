/**
  The driver's memory as a store of pointers. Represents says which stores spell out which abstract
  states; the lemmas say that each pointer surgery performs the abstract step, and exactly when.
 */
module TunStore {
  import opened Basics
  import opened TunSpec

  /** A stream pointer: null, an open stream, or the address of a stream already freed. */
  datatype Ptr = Null | To(q: Qid) | Dangling

  datatype Cell = Cell(sNext: Ptr, pNext: Ptr, s: Strm)

  datatype Slot = Slot(rq: Qid, pStr: Ptr, mac: Mac)

  datatype Store = Store(head: Ptr, cells: map<Qid, Cell>, slots: map<nat, Slot>)

  const EMPTY_STORE := Store(Null, map[], map[])

  function PtrAt(s: seq<Qid>, k: nat): Ptr {
    if k < |s| then To(s[k]) else Null
  }

  ghost predicate SLink(m: Store, os: seq<Qid>, k: nat)
    requires k < |os|
  {
    os[k] in m.cells && m.cells[os[k]].sNext == PtrAt(os, k + 1)
  }

  ghost predicate PLink(m: Store, ms: seq<Qid>, k: nat)
    requires k < |ms|
  {
    ms[k] in m.cells && m.cells[ms[k]].pNext == PtrAt(ms, k + 1)
  }

  /** Following sNext from the head visits exactly os and ends in null. */
  ghost predicate SChain(m: Store, os: seq<Qid>) {
    && m.head == PtrAt(os, 0)
    && forall k :: 0 <= k < |os| ==> SLink(m, os, k)
  }

  /** Following pNext from p's list head visits exactly ms and ends in null. */
  ghost predicate PChain(m: Store, p: nat, ms: seq<Qid>)
    requires p in m.slots
  {
    && m.slots[p].pStr == PtrAt(ms, 0)
    && forall k :: 0 <= k < |ms| ==> PLink(m, ms, k)
  }

  ghost predicate SlotFits(m: Store, v: View, p: nat)
    requires p in m.slots && p in v.table
  {
    m.slots[p].rq == v.table[p].rq && m.slots[p].mac == v.table[p].mac && PChain(m, p, v.table[p].members)
  }

  /** The pointers of m spell out the lists and records of v. */
  ghost predicate Spells(m: Store, v: View) {
    && m.cells.Keys == v.strs.Keys
    && m.slots.Keys == v.table.Keys
    && (forall q :: q in m.cells ==> m.cells[q].s == v.strs[q])
    && SChain(m, v.order)
    && (forall p {:trigger SlotFits(m, v, p)} :: p in m.slots ==> SlotFits(m, v, p))
  }

  ghost predicate Represents(m: Store, v: View) {
    Wf(v) && Spells(m, v)
  }

  // ---------------------------------------------------------------- writes to the store

  function SetSNext(m: Store, prev: Option<Qid>, to: Ptr): Store
    requires prev.Some? ==> prev.value in m.cells
  {
    match prev
    case None => m.(head := to)
    case Some(q) => m.(cells := m.cells[q := m.cells[q].(sNext := to)])
  }

  function SetPNext(m: Store, p: nat, prev: Option<Qid>, to: Ptr): Store
    requires if prev.Some? then prev.value in m.cells else p in m.slots
  {
    match prev
    case None => m.(slots := m.slots[p := m.slots[p].(pStr := to)])
    case Some(q) => m.(cells := m.cells[q := m.cells[q].(pNext := to)])
  }

  function SetInfo(m: Store, q: Qid, s: Strm): Store
    requires q in m.cells
  {
    m.(cells := m.cells[q := m.cells[q].(s := s)])
  }

  function SetSlotMac(m: Store, p: nat, mac: Mac): Store
    requires p in m.slots
  {
    m.(slots := m.slots[p := m.slots[p].(mac := mac)])
  }

  lemma SetInfoTwice(m: Store, q: Qid, s: Strm, t: Strm)
    requires q in m.cells
    ensures SetInfo(SetInfo(m, q, s), q, t) == SetInfo(m, q, t)
  {
    assert SetInfo(SetInfo(m, q, s), q, t).cells == SetInfo(m, q, t).cells;
  }

  function AddStream(m: Store, q: Qid, prev: Option<Qid>, next: Ptr, minor: nat): Store
    requires prev.Some? ==> prev.value in m.cells
    requires q !in m.cells
  {
    SetSNext(m.(cells := m.cells[q := Cell(next, Null, Strm(minor, None, {}, Unattached, 0))]), prev, To(q))
  }

  /** The writes that put q in front of the list of p, and give it that PPA and a new state. */
  function LinkFront(m: Store, q: Qid, p: nat, state: DlState): Store
    requires q in m.cells && p in m.slots
  {
    var c := m.cells[q].(pNext := m.slots[p].pStr, s := m.cells[q].s.(ppa := Some(p), state := state));
    m.(cells := m.cells[q := c], slots := m.slots[p := m.slots[p].(pStr := To(q))])
  }

  function UnlinkP(m: Store, q: Qid, p: nat, prev: Option<Qid>): Store
    requires q in m.cells && p in m.slots && (prev.Some? ==> prev.value in m.cells)
  {
    SetPNext(m, p, prev, m.cells[q].pNext)
  }

  function DetachAll(m: Store, ms: seq<Qid>): Store {
    m.(cells := map x | x in m.cells :: if x in ms then m.cells[x].(s := Detached(m.cells[x].s)) else m.cells[x])
  }

  lemma DetachNone(m: Store)
    ensures DetachAll(m, []) == m
  {
    assert DetachAll(m, []).cells == m.cells;
  }

  lemma DetachMore(m: Store, ms: seq<Qid>, i: nat)
    requires i < |ms| && NoDup(ms) && ms[i] in m.cells
    ensures var n := DetachAll(m, ms[..i]);
            SetInfo(n, ms[i], Detached(n.cells[ms[i]].s)) == DetachAll(m, ms[..i + 1])
  {
    var n := DetachAll(m, ms[..i]);
    assert ms[..i + 1] == ms[..i] + [ms[i]];
    assert SetInfo(n, ms[i], Detached(n.cells[ms[i]].s)).cells == DetachAll(m, ms[..i + 1]).cells;
  }

  function FreeSlot(m: Store, p: nat): Store {
    m.(slots := m.slots - {p})
  }

  function NewSlot(m: Store, p: nat, rq: Qid, mac: Mac): Store {
    m.(slots := m.slots[p := Slot(rq, Null, mac)])
  }

  function Deaden(x: Ptr, q: Qid): Ptr { if x == To(q) then Dangling else x }

  /** Freeing stream q leaves whatever pointed to it dangling. */
  function FreeStream(m: Store, q: Qid): Store {
    Store(Deaden(m.head, q),
          map x | x in m.cells && x != q ::
            Cell(Deaden(m.cells[x].sNext, q), Deaden(m.cells[x].pNext, q), m.cells[x].s),
          map p | p in m.slots :: m.slots[p].(pStr := Deaden(m.slots[p].pStr, q)))
  }

  function PrevIn(s: seq<Qid>, k: nat): Option<Qid>
    requires k < |s|
  {
    if k == 0 then None else Some(s[k - 1])
  }

  /** A chain survives any write that leaves its head and its own links alone. */
  lemma SKeep(m: Store, n: Store, os: seq<Qid>)
    requires SChain(m, os) && n.head == m.head
    requires forall q :: q in os && q in m.cells ==> q in n.cells && n.cells[q].sNext == m.cells[q].sNext
    ensures SChain(n, os)
  {
    forall k | 0 <= k < |os| ensures SLink(n, os, k) {
      assert SLink(m, os, k) && os[k] in os;
    }
  }

  lemma PKeep(m: Store, n: Store, p: nat, ms: seq<Qid>)
    requires p in m.slots && PChain(m, p, ms) && p in n.slots && n.slots[p].pStr == m.slots[p].pStr
    requires forall q :: q in ms && q in m.cells ==> q in n.cells && n.cells[q].pNext == m.cells[q].pNext
    ensures PChain(n, p, ms)
  {
    forall k | 0 <= k < |ms| ensures PLink(n, ms, k) {
      assert PLink(m, ms, k) && ms[k] in ms;
    }
  }

  // ---------------------------------------------------------------- the store follows the steps

  lemma AddSChain(m: Store, os: seq<Qid>, q: Qid, k: nat, minor: nat)
    requires SChain(m, os) && NoDup(os) && q !in m.cells && q !in os && k <= |os|
    ensures k > 0 ==> os[k - 1] in m.cells
    ensures SChain(AddStream(m, q, if k == 0 then None else Some(os[k - 1]), PtrAt(os, k), minor),
                   os[..k] + [q] + os[k..])
  {
    assert k > 0 ==> SLink(m, os, k - 1);
    var prev := if k == 0 then None else Some(os[k - 1]);
    var n := AddStream(m, q, prev, PtrAt(os, k), minor);
    var ns := os[..k] + [q] + os[k..];
    forall j | 0 <= j < |ns| ensures SLink(n, ns, j) {
      if j < k {
        assert SLink(m, os, j) && ns[j] == os[j] && os[j] in os;
      } else if j > k {
        assert SLink(m, os, j - 1) && ns[j] == os[j - 1] && os[j - 1] in os;
      }
    }
  }

  lemma AddSpells(m: Store, v: View, q: Qid, k: nat, minor: nat, prev: Option<Qid>)
    requires Spells(m, v) && q !in m.cells && NoDup(v.order) && q !in v.order && k <= |v.order|
    requires prev == if k == 0 then None else Some(v.order[k - 1])
    ensures prev.Some? ==> prev.value in m.cells
    ensures Spells(AddStream(m, q, prev, PtrAt(v.order, k), minor),
                   v.(order := v.order[..k] + [q] + v.order[k..],
                      strs := v.strs[q := Strm(minor, None, {}, Unattached, 0)]))
  {
    AddSChain(m, v.order, q, k, minor);
    var n := AddStream(m, q, prev, PtrAt(v.order, k), minor);
    var w := v.(order := v.order[..k] + [q] + v.order[k..], strs := v.strs[q := Strm(minor, None, {}, Unattached, 0)]);
    forall p | p in n.slots ensures SlotFits(n, w, p) {
      assert SlotFits(m, v, p);
      PKeep(m, n, p, v.table[p].members);
    }
  }

  lemma AddRefines(m: Store, v: View, q: Qid, clone: bool, devMinor: nat, k: nat, prev: Option<Qid>)
    requires Represents(m, v) && q !in v.strs
    requires k == if clone then CloneSlot(v, 0) else 0
    requires prev == if k == 0 then None else Some(v.order[k - 1])
    ensures prev.Some? ==> prev.value in m.cells
    ensures Represents(AddStream(m, q, prev, PtrAt(v.order, k), if clone then k else devMinor),
                       OpenStep(v, q, clone, devMinor))
  {
    WfOpen(v, q, clone, devMinor);
    AddSpells(m, v, q, k, if clone then k else devMinor, prev);
  }

  lemma LinkRefines(m: Store, v: View, q: Qid, p: nat, state: DlState)
    requires Represents(m, v) && q in v.strs && p in v.table && v.strs[q].ppa.None?
    ensures Represents(LinkFront(m, q, p, state), Link(v, q, p, state))
  {
    var n, w := LinkFront(m, q, p, state), Link(v, q, p, state);
    WfLink(v, q, p, state);
    SKeep(m, n, v.order);
    forall i | i in n.slots ensures SlotFits(n, w, i) {
      assert SlotFits(m, v, i) && PpaOk(v, i);
      assert q in v.table[i].members <==> IsMember(v, q, i);
      var ms, os := w.table[i].members, v.table[i].members;
      forall k | 0 <= k < |ms| ensures PLink(n, ms, k) {
        if i != p {
          assert PLink(m, os, k) && ms[k] in os;
        } else if k > 0 {
          assert ms[k] == os[k - 1] && ms[k] in os && PLink(m, os, k - 1);
        }
      }
    }
  }

  /** Position of a member in its PPA's list. */
  lemma MemberPos(v: View, q: Qid) returns (p: nat, k: nat)
    requires Wf(v) && q in v.strs && v.strs[q].ppa.Some? && Control !in v.strs[q].flags
    ensures v.strs[q].ppa == Some(p) && p in v.table
    ensures k < |v.table[p].members| && v.table[p].members[k] == q
  {
    p := v.strs[q].ppa.value;
    assert StreamOk(v, q) && PpaOk(v, p) && IsMember(v, q, p);
    k :| 0 <= k < |v.table[p].members| && v.table[p].members[k] == q;
  }

  /** The list surgery of close and detach, before the stream's own fields are reset. */
  lemma UnlinkChain(m: Store, v: View, p: nat, k: nat, i: nat)
    requires Represents(m, v) && p in v.table && k < |v.table[p].members| && i in v.table
    ensures var q := v.table[p].members[k];
            var prev := PrevIn(v.table[p].members, k);
            && q in m.cells && (prev.Some? ==> prev.value in m.cells)
            && SlotFits(UnlinkP(m, q, p, prev), Unlink(v, q, p), i)
  {
    var ms := v.table[p].members;
    assert SlotFits(m, v, p) && SlotFits(m, v, i) && PpaOk(v, p) && PpaOk(v, i);
    assert PLink(m, ms, k);
    assert k > 0 ==> PLink(m, ms, k - 1) && ms[k - 1] in ms;
    assert k > 0 ==> IsMember(v, ms[k - 1], p);
    if i == p {
      UnlinkOwn(m, p, ms, k);
    } else {
      UnlinkOther(m, p, ms, k, i, v.table[i].members);
    }
  }

  /** The list itself closes over the gap. */
  lemma UnlinkOwn(m: Store, p: nat, ms: seq<Qid>, k: nat)
    requires p in m.slots && PChain(m, p, ms) && NoDup(ms) && k < |ms|
    ensures ms[k] in m.cells && (k > 0 ==> ms[k - 1] in m.cells)
    ensures PChain(UnlinkP(m, ms[k], p, PrevIn(ms, k)), p, Remove(ms, ms[k]))
  {
    assert PLink(m, ms, k);
    assert k > 0 ==> PLink(m, ms, k - 1);
    RemoveAt(ms, k);
    var n, ns := UnlinkP(m, ms[k], p, PrevIn(ms, k)), Remove(ms, ms[k]);
    forall j | 0 <= j < |ns| ensures PLink(n, ns, j) {
      var j' := if j < k then j else j + 1;
      assert ns[j] == ms[j'] && PLink(m, ms, j');
    }
  }

  /** A list that shares no stream with it stays as it is. */
  lemma UnlinkOther(m: Store, p: nat, ms: seq<Qid>, k: nat, i: nat, ns: seq<Qid>)
    requires p in m.slots && k < |ms| && ms[k] in m.cells && (k > 0 ==> ms[k - 1] in m.cells)
    requires i in m.slots && i != p && PChain(m, i, ns) && (k > 0 ==> ms[k - 1] !in ns)
    ensures PChain(UnlinkP(m, ms[k], p, PrevIn(ms, k)), i, ns)
  {
    var n := UnlinkP(m, ms[k], p, PrevIn(ms, k));
    forall j | 0 <= j < |ns| ensures PLink(n, ns, j) {
      assert ns[j] in ns && PLink(m, ns, j);
    }
  }

  lemma UnlinkSpells(m: Store, v: View, p: nat, k: nat)
    requires Represents(m, v) && p in v.table && k < |v.table[p].members|
    ensures var q := v.table[p].members[k];
            var prev := PrevIn(v.table[p].members, k);
            && q in m.cells && (prev.Some? ==> prev.value in m.cells)
            && Spells(UnlinkP(m, q, p, prev), Unlink(v, q, p))
  {
    UnlinkChain(m, v, p, k, p);
    var q := v.table[p].members[k];
    var n := UnlinkP(m, q, p, PrevIn(v.table[p].members, k));
    SKeep(m, n, v.order);
    forall i | i in n.slots ensures SlotFits(n, Unlink(v, q, p), i) {
      UnlinkChain(m, v, p, k, i);
    }
  }

  lemma InfoSpells(m: Store, v: View, q: Qid, s: Strm)
    requires Spells(m, v) && q in v.strs
    ensures Spells(SetInfo(m, q, s), v.(strs := v.strs[q := s]))
  {
    var n, w := SetInfo(m, q, s), v.(strs := v.strs[q := s]);
    SKeep(m, n, v.order);
    forall i | i in n.slots ensures SlotFits(n, w, i) {
      assert SlotFits(m, v, i);
      PKeep(m, n, i, v.table[i].members);
    }
  }

  lemma DetachRefines(m: Store, v: View, q: Qid, k: nat)
    requires Represents(m, v) && q in v.strs && v.strs[q].state == Unbound && v.strs[q].ppa.Some?
    requires var p := v.strs[q].ppa.value; p in v.table && k < |v.table[p].members| && v.table[p].members[k] == q
    ensures var p := v.strs[q].ppa.value;
            var prev := PrevIn(v.table[p].members, k);
            && (prev.Some? ==> prev.value in m.cells)
            && var n := UnlinkP(m, q, p, prev);
               Represents(SetInfo(n, q, Detached(n.cells[q].s)), DetachStep(v, q, false))
  {
    hide Wf;
    var p := v.strs[q].ppa.value;
    WfDetach(v, q, false);
    UnlinkSpells(m, v, p, k);
    var n := UnlinkP(m, q, p, PrevIn(v.table[p].members, k));
    InfoSpells(n, Unlink(v, q, p), q, Detached(n.cells[q].s));
  }

  lemma InfoRefines(m: Store, v: View, q: Qid, s: Strm)
    requires Represents(m, v) && q in v.strs && Wf(v.(strs := v.strs[q := s]))
    ensures Represents(SetInfo(m, q, s), v.(strs := v.strs[q := s]))
  {
    hide Wf;
    InfoSpells(m, v, q, s);
  }

  lemma SetMacRefines(m: Store, v: View, q: Qid, mac: Mac)
    requires Represents(m, v) && q in v.strs && v.strs[q].ppa.Some?
    ensures var p := v.strs[q].ppa.value;
            p in m.slots && p in v.table && Represents(SetSlotMac(m, p, mac), SetMacStep(v, q, mac))
  {
    WfSetMac(v, q, mac);
    assert StreamOk(v, q);
    var n, w := SetSlotMac(m, v.strs[q].ppa.value, mac), SetMacStep(v, q, mac);
    SKeep(m, n, v.order);
    forall i | i in n.slots ensures SlotFits(n, w, i) {
      assert SlotFits(m, v, i);
      PKeep(m, n, i, v.table[i].members);
    }
  }

  /** A fresh slot, with the caller's stream turned into its control stream when alloc succeeds. */
  function ClaimSlot(m: Store, q: Qid, id: nat, mac: Mac, alloc: bool): Store
    requires q in m.cells
  {
    var n := NewSlot(m, id, q, mac);
    var s := n.cells[q].s;
    if alloc then SetInfo(n, q, s.(ppa := Some(id), flags := s.flags + {Control})) else n
  }

  /** When TUNNEWPPA leaves sound lists: it stops early, or the stream is on no protocol list. */
  predicate NewPpaClean(v: View, q: Qid, p: int, alloc: bool)
    requires q in v.strs
  {
    NewPpaReply(v, p, alloc).Nak? || v.strs[q].ppa.None? || Control in v.strs[q].flags
  }

  lemma ClaimByParts(m: Store, q: Qid, id: nat, mac: Mac)
    requires q in m.cells
    ensures var n := NewSlot(m, id, q, mac);
            var s := n.cells[q].s;
            ClaimSlot(m, q, id, mac, true) == SetInfo(n, q, s.(ppa := Some(id), flags := s.flags + {Control}))
  {}

  lemma LinkByParts(m: Store, q: Qid, p: nat, state: DlState)
    requires q in m.cells && p in m.slots
    ensures var a := SetPNext(m, p, Some(q), m.slots[p].pStr);
            var b := SetPNext(a, p, None, To(q));
            var c := SetInfo(b, q, b.cells[q].s.(ppa := Some(p)));
            LinkFront(m, q, p, state) == SetInfo(c, q, c.cells[q].s.(state := state))
  {
    var a := SetPNext(m, p, Some(q), m.slots[p].pStr);
    var b := SetPNext(a, p, None, To(q));
    var c := SetInfo(b, q, b.cells[q].s.(ppa := Some(p)));
    assert LinkFront(m, q, p, state).cells == SetInfo(c, q, c.cells[q].s.(state := state)).cells;
  }

  lemma NewPpaRefines(m: Store, v: View, q: Qid, p: int, alloc: bool, mac: Mac)
    requires Represents(m, v) && q in v.strs && NewPpaSlot(v, p).Ack?
    requires alloc ==> v.strs[q].ppa.None? || Control in v.strs[q].flags
    ensures Represents(ClaimSlot(m, q, NewPpaSlot(v, p).ret, mac, alloc), NewPpaStep(v, q, p, alloc, mac))
  {
    var id := NewPpaSlot(v, p).ret;
    var n, w := ClaimSlot(m, q, id, mac, alloc), NewPpaStep(v, q, p, alloc, mac);
    if alloc { WfNewPpa(v, q, p, alloc, mac); } else { WfOrphan(v, q, p, mac); }
    SKeep(m, n, v.order);
    forall i | i in n.slots ensures SlotFits(n, w, i) {
      if i != id {
        assert SlotFits(m, v, i);
        PKeep(m, n, i, v.table[i].members);
      }
    }
  }

  /** The failed allocation leaves a PPA nobody controls, which is still a well formed state. */
  lemma WfOrphan(v: View, q: Qid, p: int, mac: Mac)
    requires Wf(v) && q in v.strs
    ensures Wf(NewPpaStep(v, q, p, false, mac))
  {
    var w := NewPpaStep(v, q, p, false, mac);
    if NewPpaSlot(v, p).Ack? {
      var id := NewPpaSlot(v, p).ret;
      forall x | x in w.strs ensures StreamOk(w, x) {
        assert StreamOk(v, x);
      }
      forall i | i in w.table ensures PpaOk(w, i) {
        if i != id { assert PpaOk(v, i); }
        forall x ensures x in w.table[i].members <==> IsMember(w, x, i) {
          if x in v.strs { assert StreamOk(v, x); }
        }
      }
    }
  }

  // ---------------------------------------------------------------- close

  lemma DropSChain(m: Store, os: seq<Qid>, k: nat)
    requires SChain(m, os) && NoDup(os) && k < |os|
    ensures os[k] in m.cells && (k > 0 ==> os[k - 1] in m.cells)
    ensures SChain(SetSNext(m, PrevIn(os, k), m.cells[os[k]].sNext), Remove(os, os[k]))
  {
    assert SLink(m, os, k) && (k > 0 ==> SLink(m, os, k - 1));
    RemoveAt(os, k);
    var n := SetSNext(m, PrevIn(os, k), m.cells[os[k]].sNext);
    var ns := Remove(os, os[k]);
    forall j | 0 <= j < |ns| ensures SLink(n, ns, j) {
      var j' := if j < k then j else j + 1;
      assert ns[j] == os[j'] && SLink(m, os, j');
    }
  }

  lemma DropSpells(m: Store, w: View, k: nat)
    requires Spells(m, w) && NoDup(w.order) && k < |w.order|
    ensures w.order[k] in m.cells && (k > 0 ==> w.order[k - 1] in m.cells)
    ensures Spells(SetSNext(m, PrevIn(w.order, k), m.cells[w.order[k]].sNext), w.(order := Remove(w.order, w.order[k])))
  {
    DropSChain(m, w.order, k);
    var n, u := SetSNext(m, PrevIn(w.order, k), m.cells[w.order[k]].sNext), w.(order := Remove(w.order, w.order[k]));
    forall p | p in n.slots ensures SlotFits(n, u, p) {
      assert SlotFits(m, w, p);
      PKeep(m, n, p, w.table[p].members);
    }
  }

  lemma FreeSpells(m: Store, w: View, q: Qid)
    requires Spells(m, w) && q !in w.order
    requires forall p :: p in w.table ==> q !in w.table[p].members
    ensures Spells(FreeStream(m, q), w.(strs := w.strs - {q}))
  {
    var n, u := FreeStream(m, q), w.(strs := w.strs - {q});
    forall j | 0 <= j < |w.order| ensures SLink(n, w.order, j) {
      assert SLink(m, w.order, j) && w.order[j] in w.order;
      assert j + 1 < |w.order| ==> w.order[j + 1] in w.order;
    }
    assert |w.order| > 0 ==> w.order[0] in w.order;
    forall p | p in n.slots ensures SlotFits(n, u, p) {
      var ms := w.table[p].members;
      assert SlotFits(m, w, p);
      assert |ms| > 0 ==> ms[0] in ms;
      forall j | 0 <= j < |ms| ensures PLink(n, ms, j) {
        assert PLink(m, ms, j) && ms[j] in ms;
        assert j + 1 < |ms| ==> ms[j + 1] in ms;
      }
    }
  }

  /** k is q's position on its PPA's list, if it is on one. */
  ghost predicate LeaveAt(v: View, q: Qid, k: nat)
    requires q in v.strs
  {
    var s := v.strs[q];
    s.ppa.Some? && Control !in s.flags && s.ppa.value in v.table ==>
      k < |v.table[s.ppa.value].members| && v.table[s.ppa.value].members[k] == q
  }

  /** What close does to the PPA lists, for a stream at position k of its PPA's list. */
  function LeaveStore(m: Store, v: View, q: Qid, k: nat): Store
    requires Represents(m, v) && q in v.strs && LeaveAt(v, q, k)
  {
    match v.strs[q].ppa
    case None => m
    case Some(p) =>
      if p !in v.table then m
      else if Control in v.strs[q].flags then FreeSlot(DetachAll(m, v.table[p].members), p)
      else
        UnlinkChain(m, v, p, k, p);
        UnlinkP(m, q, p, PrevIn(v.table[p].members, k))
  }

  lemma EvictSpells(m: Store, v: View, p: nat)
    requires Spells(m, v) && p in v.table
    ensures Spells(FreeSlot(DetachAll(m, v.table[p].members), p), FreePpa(v, p))
  {
    var n := FreeSlot(DetachAll(m, v.table[p].members), p);
    SKeep(m, n, v.order);
    forall i | i in n.slots ensures SlotFits(n, FreePpa(v, p), i) {
      assert SlotFits(m, v, i);
      PKeep(m, n, i, v.table[i].members);
    }
  }

  lemma LeaveSpells(m: Store, v: View, q: Qid, k: nat)
    requires Represents(m, v) && q in v.strs && LeaveAt(v, q, k)
    ensures Spells(LeaveStore(m, v, q, k), LeavePpa(v, q))
  {
    hide Spells, SChain;
    assert StreamOk(v, q);
    if v.strs[q].ppa.Some? {
      if Control in v.strs[q].flags {
        EvictSpells(m, v, v.strs[q].ppa.value);
      } else {
        UnlinkSpells(m, v, v.strs[q].ppa.value, k);
      }
    }
  }

  lemma LeaveChain(m: Store, v: View, q: Qid, k: nat)
    requires Represents(m, v) && q in v.strs && LeaveAt(v, q, k)
    ensures SChain(LeaveStore(m, v, q, k), v.order)
  {
    LeaveSpells(m, v, q, k);
  }

  /** The whole of close: off the PPA lists, off the open list, and freed. */
  function CloseStore(m: Store, v: View, q: Qid, k: nat, j: nat): Store
    requires Represents(m, v) && q in v.strs && LeaveAt(v, q, k)
    requires j < |v.order| && v.order[j] == q
  {
    LeaveSpells(m, v, q, k);
    var n := LeaveStore(m, v, q, k);
    DropSpells(n, LeavePpa(v, q), j);
    FreeStream(SetSNext(n, PrevIn(v.order, j), n.cells[q].sNext), q)
  }

  lemma CloseRefines(m: Store, v: View, q: Qid, k: nat, j: nat)
    requires Represents(m, v) && q in v.strs && LeaveAt(v, q, k)
    requires j < |v.order| && v.order[j] == q
    ensures Represents(CloseStore(m, v, q, k, j), CloseStep(v, q))
  {
    hide Spells, SChain, Wf, LeaveStore, StreamOk, LeavePpa;
    WfClose(v, q);
    LeaveSpells(m, v, q, k);
    LeaveLists(v, q);
    var n, w := LeaveStore(m, v, q, k), LeavePpa(v, q);
    DropSpells(n, w, j);
    FreeSpells(SetSNext(n, PrevIn(v.order, j), n.cells[q].sNext), w.(order := Remove(w.order, q)), q);
  }

  /** Once a stream has left its PPA it is on no list but that of open streams. */
  lemma LeaveLists(v: View, q: Qid)
    requires Wf(v) && q in v.strs
    ensures LeavePpa(v, q).order == v.order && LeavePpa(v, q).strs.Keys == v.strs.Keys
    ensures NoDup(v.order) && q in v.order && q !in Remove(v.order, q)
    ensures forall p :: p in LeavePpa(v, q).table ==> q !in LeavePpa(v, q).table[p].members
  {
    var w := LeavePpa(v, q);
    RemoveRest(v.order, q);
    forall p | p in w.table ensures q !in w.table[p].members {
      assert PpaOk(v, p) && StreamOk(v, q);
      RemoveRest(v.table[p].members, q);
      assert q in v.table[p].members <==> IsMember(v, q, p);
    }
  }

  // ---------------------------------------------------------------- when linking goes wrong

  /** Two states spelled by the same pointers list the same streams from the same head. */
  lemma {:induction false} ChainPrefix(m: Store, n: Store, p: nat, ms: seq<Qid>, ns: seq<Qid>, k: nat, d: nat)
    requires p in m.slots && PChain(m, p, ms) && k < |ms|
    requires forall j :: 0 <= j < k ==>
               ms[j] in m.cells && ms[j] in n.cells && n.cells[ms[j]].pNext == m.cells[ms[j]].pNext
    requires forall j :: 0 <= j < |ns| ==> PLink(n, ns, j)
    requires d < |ns| && ns[d] == ms[0]
    ensures d + k < |ns| && ns[d + k] == ms[k]
  {
    if k > 0 {
      ChainPrefix(m, n, p, ms, ns, k - 1, d);
      assert PLink(m, ms, k - 1) && PLink(n, ns, d + k - 1);
    }
  }

  lemma ListedBefore(m: Store, v: View, p: nat, k: nat)
    requires Represents(m, v) && p in v.table && k < |v.table[p].members|
    ensures forall j :: 0 <= j < k ==>
              v.table[p].members[j] in m.cells && v.table[p].members[j] != v.table[p].members[k]
  {
    assert SlotFits(m, v, p) && PpaOk(v, p);
    forall j | 0 <= j < k ensures v.table[p].members[j] in m.cells {
      assert PLink(m, v.table[p].members, j);
    }
  }

  /** A write that spares the links up to position k leaves the stream there on the same list. */
  lemma StillListed(m: Store, v: View, n: Store, w: View, p: nat, k: nat)
    requires Represents(m, v) && Represents(n, w)
    requires p in v.table && k < |v.table[p].members|
    requires p in n.slots && n.slots[p].pStr == m.slots[p].pStr
    requires forall j :: 0 <= j < k ==> var x := v.table[p].members[j];
      x in m.cells && x in n.cells && n.cells[x].pNext == m.cells[x].pNext
    ensures IsMember(w, v.table[p].members[k], p)
  {
    assert SlotFits(m, v, p) && SlotFits(n, w, p) && PpaOk(w, p);
    ChainPrefix(m, n, p, v.table[p].members, w.table[p].members, k, 0);
  }

  /** Linking a listed stream in front of its own list makes the list come back to it. */
  lemma ComesBack(m: Store, v: View, n: Store, w: View, p: nat, k: nat)
    requires Represents(m, v) && p in v.table && k < |v.table[p].members|
    requires var q := v.table[p].members[k];
      q in m.cells && p in m.slots && exists st :: n == LinkFront(m, q, p, st)
    requires p in w.table && SlotFits(n, w, p)
    ensures k + 1 < |w.table[p].members| && w.table[p].members[k + 1] == w.table[p].members[0]
  {
    var ms, ns := v.table[p].members, w.table[p].members;
    assert SlotFits(m, v, p) && PLink(n, ns, 0);
    ListedBefore(m, v, p, k);
    ChainPrefix(m, n, p, ms, ns, k, 1);
  }

  /** A stream already on a list, or in control, cannot be put on one more: no state fits the result. */
  lemma LinkTwice(m: Store, v: View, q: Qid, p: nat, state: DlState, w: View)
    requires Represents(m, v) && q in v.strs && p in v.table && v.strs[q].ppa.Some?
    ensures !Represents(LinkFront(m, q, p, state), w)
  {
    var n := LinkFront(m, q, p, state);
    if Represents(n, w) {
      assert SlotFits(n, w, p) && PpaOk(w, p);
      assert w.table[p].members[0] == q && IsMember(w, q, p);
      var a, k := MemberPos(v, q);
      ListedBefore(m, v, a, k);
      if a != p {
        StillListed(m, v, n, w, a, k);
      } else {
        ComesBack(m, v, n, w, p, k);
      }
    }
  }

  /** A protocol stream that takes control of a new PPA stays on its old list: no state fits that. */
  lemma ClaimWhileListed(m: Store, v: View, q: Qid, id: nat, mac: Mac, w: View)
    requires Represents(m, v) && q in v.strs && id !in v.table
    requires v.strs[q].ppa.Some? && Control !in v.strs[q].flags
    ensures !Represents(ClaimSlot(m, q, id, mac, true), w)
  {
    var n := ClaimSlot(m, q, id, mac, true);
    if Represents(n, w) {
      var a, k := MemberPos(v, q);
      ListedBefore(m, v, a, k);
      StillListed(m, v, n, w, a, k);
    }
  }

  /** TUNSETPPA and DL_ATTACH_REQ leave sound lists exactly when the stream had no PPA. */
  lemma LinkSoundIff(m: Store, v: View, q: Qid, p: nat, state: DlState)
    requires Represents(m, v) && q in v.strs && p in v.table
    ensures (exists w :: Represents(LinkFront(m, q, p, state), w)) <==> v.strs[q].ppa.None?
  {
    if v.strs[q].ppa.None? {
      LinkRefines(m, v, q, p, state);
    } else {
      forall w ensures !Represents(LinkFront(m, q, p, state), w) {
        LinkTwice(m, v, q, p, state, w);
      }
    }
  }

  /** TUNNEWPPA leaves sound lists exactly when it stops early or the stream is on no protocol list. */
  lemma NewPpaSoundIff(m: Store, v: View, q: Qid, p: int, alloc: bool, mac: Mac)
    requires Represents(m, v) && q in v.strs && NewPpaSlot(v, p).Ack?
    ensures (exists w :: Represents(ClaimSlot(m, q, NewPpaSlot(v, p).ret, mac, alloc), w))
       <==> (!alloc || v.strs[q].ppa.None? || Control in v.strs[q].flags)
  {
    if !alloc || v.strs[q].ppa.None? || Control in v.strs[q].flags {
      NewPpaRefines(m, v, q, p, alloc, mac);
    } else {
      forall w ensures !Represents(ClaimSlot(m, q, NewPpaSlot(v, p).ret, mac, alloc), w) {
        ClaimWhileListed(m, v, q, NewPpaSlot(v, p).ret, mac, w);
      }
    }
  }
}
