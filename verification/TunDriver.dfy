/**
  The driver's linked structures: the PPA table, the list of open streams and one list of protocol
  streams per PPA, all edited through pointers, and proved to follow the value-level machine.
 */
module TunDriver {
  import opened Basics
  import opened TunSpec
  import opened TunStore

  class Stream {
    var sNext: Stream?
    var pNext: Stream?
    const rq: Qid
    const minor: nat
    var ppa: Ppa?
    var flags: set<Flag>
    var state: DlState
    var sap: nat

    constructor (rq: Qid, minor: nat, next: Stream?)
      ensures this.rq == rq && this.minor == minor
      ensures sNext == next && pNext == null
      ensures ppa == null && flags == {} && state == Unattached && sap == 0
    {
      this.rq := rq;
      this.minor := minor;
      sNext, pNext, ppa := next, null, null;
      flags, state, sap := {}, Unattached, 0;
    }
  }

  class Ppa {
    const id: nat
    var rq: Qid
    var pStr: Stream?
    var mac: Mac

    constructor (id: nat, mac: Mac)
      ensures this.id == id && this.mac == mac && pStr == null
    {
      this.id := id;
      this.mac := mac;
      pStr := null;
      rq := 0;
    }
  }

  /** How a stream pointer reads once memory is the set of streams that open queues own. */
  ghost function PtrIn(qp: map<Qid, Stream>, s: Stream?): Ptr {
    if s == null then Null
    else if s.rq in qp && qp[s.rq] == s then To(s.rq)
    else Dangling
  }

  lemma PtrDrop(qp: map<Qid, Stream>, q: Qid, s: Stream?)
    ensures PtrIn(qp - {q}, s) == Deaden(PtrIn(qp, s), q)
  {}

  lemma PtrAdd(qp: map<Qid, Stream>, q: Qid, str: Stream, s: Stream?)
    requires q !in qp && str.rq == q && s != str
    ensures PtrIn(qp[q := str], s) == PtrIn(qp, s)
  {}

  class Driver {
    const table: array<Ppa?>
    const localMac: Mac
    var tunStr: Stream?
    /** q_ptr of every open queue. */
    var qptr: map<Qid, Stream>
    /** What the pointers are, and the abstract state they spell out. */
    ghost var store: Store
    ghost var view: View

    /** The PPAs on the table. */
    ghost function Ppas(): set<Ppa>
      reads table
    {
      set i | 0 <= i < table.Length && table[i] != null :: table[i]
    }

    ghost predicate CellTied(m: Store, q: Qid)
      requires q in qptr && q in m.cells
      reads this`qptr, table, qptr[q]
    {
      var s, c := qptr[q], m.cells[q];
      && s.rq == q
      && c.sNext == PtrIn(qptr, s.sNext)
      && c.pNext == PtrIn(qptr, s.pNext)
      && c.s.minor == s.minor && c.s.flags == s.flags && c.s.state == s.state && c.s.sap == s.sap
      && c.s.ppa == (if s.ppa == null then None else Some(s.ppa.id))
      && (s.ppa != null && s.ppa.id in m.slots && s.ppa.id < table.Length ==> table[s.ppa.id] == s.ppa)
    }

    ghost predicate SlotTied(m: Store, i: nat)
      requires i < table.Length
      reads this`qptr, table, table[i]
    {
      && (table[i] == null <==> i !in m.slots)
      && (table[i] != null ==>
            table[i].id == i && m.slots[i] == Slot(table[i].rq, PtrIn(qptr, table[i].pStr), table[i].mac))
    }

    /** m is a faithful copy of the driver's memory. */
    ghost predicate Tied(m: Store)
      reads this`qptr, this`tunStr, table, qptr.Values, Ppas()
    {
      && table.Length == TUNMAXPPA
      && m.head == PtrIn(qptr, tunStr)
      && m.cells.Keys == qptr.Keys
      && (forall q {:trigger CellTied(m, q)} :: q in qptr ==> CellTied(m, q))
      && (forall i :: i in m.slots ==> i < TUNMAXPPA)
      && (forall i :: 0 <= i < TUNMAXPPA ==> SlotTied(m, i))
    }

    ghost predicate Valid()
      reads this, table, qptr.Values, Ppas()
    {
      Tied(store) && Represents(store, view)
    }

    constructor (mac: Mac)
      ensures Valid() && view == EMPTY_VIEW && localMac == mac
      ensures fresh(table) && qptr == map[] && Ppas() == {}
    {
      table := new Ppa?[TUNMAXPPA](_ => null);
      localMac := mac;
      tunStr := null;
      qptr := map[];
      store := EMPTY_STORE;
      view := EMPTY_VIEW;
    }

    /** The store now spells out w. */
    ghost method Adopt(w: View)
      requires Tied(store) && Represents(store, w)
      modifies this`view
      ensures Valid() && view == w
    {
      hide Represents;
      view := w;
    }

    // -------------------------------------------------------------- single writes

    method WriteOpenHead(to: Stream?)
      requires Tied(store)
      modifies this`tunStr, this`store
      ensures Tied(store)
      ensures store == SetSNext(old(store), None, PtrIn(qptr, to))
    {
      tunStr := to;
      store := SetSNext(store, None, PtrIn(qptr, to));
      forall q | q in qptr ensures CellTied(store, q) {
        assert old(CellTied(store, q));
      }
      forall i | 0 <= i < TUNMAXPPA ensures SlotTied(store, i) {
        assert old(SlotTied(store, i));
      }
    }

    method WriteSNext(prev: Stream, to: Stream?)
      requires Tied(store) && PtrIn(qptr, prev).To?
      modifies this`store, prev`sNext
      ensures Tied(store)
      ensures store == SetSNext(old(store), Some(prev.rq), PtrIn(qptr, to))
    {
      prev.sNext := to;
      store := SetSNext(store, Some(prev.rq), PtrIn(qptr, to));
      forall q | q in qptr ensures CellTied(store, q) {
        assert old(CellTied(store, q));
      }
      forall i | 0 <= i < TUNMAXPPA ensures SlotTied(store, i) {
        assert old(SlotTied(store, i));
      }
    }

    method WriteListHead(ppa: Ppa, to: Stream?)
      requires Tied(store) && ppa.id < table.Length && table[ppa.id] == ppa && ppa.id in store.slots
      modifies this`store, ppa`pStr
      ensures Tied(store)
      ensures store == SetPNext(old(store), ppa.id, None, PtrIn(qptr, to))
    {
      assert SlotTied(store, ppa.id);
      ppa.pStr := to;
      store := SetPNext(store, ppa.id, None, PtrIn(qptr, to));
      forall q | q in qptr ensures CellTied(store, q) {
        assert old(CellTied(store, q));
      }
      forall i | 0 <= i < TUNMAXPPA ensures SlotTied(store, i) {
        assert old(SlotTied(store, i));
      }
    }

    method WritePNext(ppa: Ppa, prev: Stream, to: Stream?)
      requires Tied(store) && PtrIn(qptr, prev).To?
      modifies this`store, prev`pNext
      ensures Tied(store)
      ensures store == SetPNext(old(store), ppa.id, Some(prev.rq), PtrIn(qptr, to))
    {
      prev.pNext := to;
      store := SetPNext(store, ppa.id, Some(prev.rq), PtrIn(qptr, to));
      forall q | q in qptr ensures CellTied(store, q) {
        assert old(CellTied(store, q));
      }
      forall i | 0 <= i < TUNMAXPPA ensures SlotTied(store, i) {
        assert old(SlotTied(store, i));
      }
    }

    method WritePpa(str: Stream, ppa: Ppa?)
      requires Tied(store) && PtrIn(qptr, str).To?
      requires ppa != null ==> ppa.id < table.Length && table[ppa.id] == ppa
      modifies this`store, str`ppa
      ensures Tied(store)
      ensures var id := if ppa == null then None else Some(ppa.id);
              store == SetInfo(old(store), str.rq, old(store).cells[str.rq].s.(ppa := id))
    {
      assert CellTied(store, str.rq);
      str.ppa := ppa;
      store := SetInfo(store, str.rq, store.cells[str.rq].s.(ppa := if ppa == null then None else Some(ppa.id)));
      forall q | q in qptr ensures CellTied(store, q) {
        assert old(CellTied(store, q));
      }
      forall i | 0 <= i < TUNMAXPPA ensures SlotTied(store, i) {
        assert old(SlotTied(store, i));
      }
    }

    method WriteFlags(str: Stream, flags: set<Flag>)
      requires Tied(store) && PtrIn(qptr, str).To?
      modifies this`store, str`flags
      ensures Tied(store)
      ensures store == SetInfo(old(store), str.rq, old(store).cells[str.rq].s.(flags := flags))
    {
      assert CellTied(store, str.rq);
      str.flags := flags;
      store := SetInfo(store, str.rq, store.cells[str.rq].s.(flags := flags));
      forall q | q in qptr ensures CellTied(store, q) {
        assert old(CellTied(store, q));
      }
      forall i | 0 <= i < TUNMAXPPA ensures SlotTied(store, i) {
        assert old(SlotTied(store, i));
      }
    }

    method WriteState(str: Stream, state: DlState)
      requires Tied(store) && PtrIn(qptr, str).To?
      modifies this`store, str`state
      ensures Tied(store)
      ensures store == SetInfo(old(store), str.rq, old(store).cells[str.rq].s.(state := state))
    {
      assert CellTied(store, str.rq);
      str.state := state;
      store := SetInfo(store, str.rq, store.cells[str.rq].s.(state := state));
      forall q | q in qptr ensures CellTied(store, q) {
        assert old(CellTied(store, q));
      }
      forall i | 0 <= i < TUNMAXPPA ensures SlotTied(store, i) {
        assert old(SlotTied(store, i));
      }
    }

    method WriteSap(str: Stream, sap: nat)
      requires Tied(store) && PtrIn(qptr, str).To?
      modifies this`store, str`sap
      ensures Tied(store)
      ensures store == SetInfo(old(store), str.rq, old(store).cells[str.rq].s.(sap := sap))
    {
      assert CellTied(store, str.rq);
      str.sap := sap;
      store := SetInfo(store, str.rq, store.cells[str.rq].s.(sap := sap));
      forall q | q in qptr ensures CellTied(store, q) {
        assert old(CellTied(store, q));
      }
      forall i | 0 <= i < TUNMAXPPA ensures SlotTied(store, i) {
        assert old(SlotTied(store, i));
      }
    }

    method WriteMac(ppa: Ppa, mac: Mac)
      requires Tied(store) && ppa.id < table.Length && table[ppa.id] == ppa && ppa.id in store.slots
      modifies this`store, ppa`mac
      ensures Tied(store)
      ensures store == SetSlotMac(old(store), ppa.id, mac)
    {
      assert SlotTied(store, ppa.id);
      ppa.mac := mac;
      store := SetSlotMac(store, ppa.id, mac);
      forall q | q in qptr ensures CellTied(store, q) {
        assert old(CellTied(store, q));
      }
      forall i | 0 <= i < TUNMAXPPA ensures SlotTied(store, i) {
        assert old(SlotTied(store, i));
      }
    }

    method NewStream(q: Qid, minor: nat, next: Stream?) returns (str: Stream)
      requires Tied(store) && q !in qptr
      modifies this`store, this`qptr
      ensures Tied(store) && fresh(str) && str.rq == q && qptr == old(qptr)[q := str]
      ensures var c := Cell(old(PtrIn(qptr, next)), Null, Strm(minor, None, {}, Unattached, 0));
              store == old(store).(cells := old(store).cells[q := c])
    {
      ghost var p := PtrIn(qptr, next);
      str := new Stream(q, minor, next);
      qptr := qptr[q := str];
      store := store.(cells := store.cells[q := Cell(p, Null, Strm(minor, None, {}, Unattached, 0))]);
      forall x | x in qptr ensures CellTied(store, x) {
        if x != q {
          assert old(CellTied(store, x));
          PtrAdd(old(qptr), q, str, qptr[x].sNext);
          PtrAdd(old(qptr), q, str, qptr[x].pNext);
        }
      }
      forall i | 0 <= i < TUNMAXPPA ensures SlotTied(store, i) {
        assert old(SlotTied(store, i));
      }
    }

    method DropStream(q: Qid)
      requires Tied(store) && q in qptr
      modifies this`store, this`qptr
      ensures Tied(store) && qptr == old(qptr) - {q}
      ensures store == FreeStream(old(store), q)
    {
      assert CellTied(store, q);
      qptr := qptr - {q};
      store := FreeStream(store, q);
      forall x | x in qptr ensures CellTied(store, x) {
        assert old(CellTied(store, x));
        PtrDrop(old(qptr), q, qptr[x].sNext);
        PtrDrop(old(qptr), q, qptr[x].pNext);
      }
      forall i | 0 <= i < TUNMAXPPA ensures SlotTied(store, i) {
        assert old(SlotTied(store, i));
      }
    }

    method NewTableSlot(id: nat, rq: Qid) returns (ppa: Ppa)
      requires Tied(store) && id < table.Length && table[id] == null
      requires forall q :: q in store.cells ==> store.cells[q].s.ppa != Some(id)
      modifies this`store, table
      ensures Tied(store) && fresh(ppa) && ppa.id == id && table[..] == old(table[..])[id := ppa]
      ensures store == NewSlot(old(store), id, rq, localMac)
    {
      ppa := new Ppa(id, localMac);
      table[id] := ppa;
      ppa.rq := rq;
      store := NewSlot(store, id, rq, localMac);
      forall x | x in qptr ensures CellTied(store, x) {
        assert old(CellTied(store, x));
      }
      forall i | 0 <= i < TUNMAXPPA ensures SlotTied(store, i) {
        assert old(SlotTied(store, i));
      }
    }

    method ClearTableSlot(id: nat)
      requires Tied(store) && id < table.Length
      modifies this`store, table
      ensures Tied(store) && table[..] == old(table[..])[id := null]
      ensures store == FreeSlot(old(store), id)
    {
      table[id] := null;
      store := FreeSlot(store, id);
      forall x | x in qptr ensures CellTied(store, x) {
        assert old(CellTied(store, x));
      }
      forall i | 0 <= i < TUNMAXPPA ensures SlotTied(store, i) {
        assert old(SlotTied(store, i));
      }
    }

    // -------------------------------------------------------------- walks

    lemma NextOpen(os: seq<Qid>, k: nat, s: Stream)
      requires Tied(store) && SChain(store, os) && k < |os| && PtrIn(qptr, s) == To(os[k])
      ensures os[k] in qptr && qptr[os[k]] == s && s.rq == os[k]
      ensures PtrIn(qptr, s.sNext) == PtrAt(os, k + 1)
    {
      assert SLink(store, os, k) && CellTied(store, os[k]);
    }

    lemma NextMember(p: nat, ms: seq<Qid>, k: nat, s: Stream)
      requires Tied(store) && p in store.slots && PChain(store, p, ms) && k < |ms| && PtrIn(qptr, s) == To(ms[k])
      ensures ms[k] in qptr && qptr[ms[k]] == s && s.rq == ms[k]
      ensures PtrIn(qptr, s.pNext) == PtrAt(ms, k + 1)
    {
      assert PLink(store, ms, k) && CellTied(store, ms[k]);
    }

    lemma FirstMember(ppa: Ppa)
      requires Valid() && ppa.id < table.Length && table[ppa.id] == ppa
      ensures ppa.id in view.table && ppa.id in store.slots
      ensures PChain(store, ppa.id, view.table[ppa.id].members)
      ensures NoDup(view.table[ppa.id].members)
      ensures PtrIn(qptr, ppa.pStr) == PtrAt(view.table[ppa.id].members, 0)
    {
      assert SlotTied(store, ppa.id);
      assert SlotFits(store, view, ppa.id) && PpaOk(view, ppa.id);
    }

    /** Where a clone open stops: the stream before, the stream there, and the minor it takes. */
    method ScanMinors() returns (prev: Stream?, next: Stream?, minor: nat)
      requires Valid()
      ensures minor == CloneSlot(view, 0)
      ensures PtrIn(qptr, next) == PtrAt(view.order, minor)
      ensures PtrIn(qptr, prev) == if minor == 0 then Null else To(view.order[minor - 1])
    {
      prev, next, minor := null, tunStr, 0;
      while next != null
        invariant Valid() && minor <= |view.order|
        invariant PtrIn(qptr, next) == PtrAt(view.order, minor)
        invariant PtrIn(qptr, prev) == if minor == 0 then Null else To(view.order[minor - 1])
        invariant CloneSlot(view, 0) == CloneSlot(view, minor)
        decreases |view.order| - minor
      {
        NextOpen(view.order, minor, next);
        assert CellTied(store, next.rq);
        if minor < next.minor {
          break;
        }
        prev, next := next, next.sNext;
        minor := minor + 1;
      }
    }

    /** Finds str on its PPA's list; the search never runs off the end. */
    method FindInPpa(ppa: Ppa, str: Stream) returns (prev: Stream?, ghost k: nat)
      requires Valid() && PtrIn(qptr, str).To?
      requires str.ppa == ppa && Control !in str.flags
      ensures if prev == null then ppa.pStr == str else prev.pNext == str
      ensures var p := ppa.id;
        && view.strs[str.rq].ppa == Some(p) && p in view.table
        && k < |view.table[p].members| && view.table[p].members[k] == str.rq
        && PtrIn(qptr, prev) == (if k == 0 then Null else To(view.table[p].members[k - 1]))
    {
      assert CellTied(store, str.rq);
      ghost var p, pos := MemberPos(view, str.rq);
      ghost var ms := view.table[p].members;
      FirstMember(ppa);
      var tmp := ppa.pStr;
      prev, k := null, 0;
      while tmp != str
        invariant Valid() && PtrIn(qptr, str) == To(str.rq) && PChain(store, p, ms)
        invariant if prev == null then ppa.pStr == tmp else prev.pNext == tmp
        invariant k <= pos && PtrIn(qptr, tmp) == PtrAt(ms, k)
        invariant PtrIn(qptr, prev) == if k == 0 then Null else To(ms[k - 1])
        decreases pos - k
      {
        NextMember(p, ms, k, tmp);
        assert k != pos;
        prev, tmp := tmp, tmp.pNext;
        k := k + 1;
      }
    }

    method FindInOpen(str: Stream) returns (prev: Stream?, ghost k: nat)
      requires Tied(store) && SChain(store, view.order) && NoDup(view.order)
      requires PtrIn(qptr, str).To? && str.rq in view.order
      ensures if prev == null then tunStr == str else prev.sNext == str
      ensures k < |view.order| && view.order[k] == str.rq
      ensures PtrIn(qptr, prev) == if k == 0 then Null else To(view.order[k - 1])
    {
      ghost var pos :| 0 <= pos < |view.order| && view.order[pos] == str.rq;
      var tmp := tunStr;
      prev, k := null, 0;
      while tmp != str
        invariant Tied(store) && SChain(store, view.order) && PtrIn(qptr, str) == To(str.rq)
        invariant if prev == null then tunStr == tmp else prev.sNext == tmp
        invariant k <= pos && PtrIn(qptr, tmp) == PtrAt(view.order, k)
        invariant PtrIn(qptr, prev) == if k == 0 then Null else To(view.order[k - 1])
        decreases pos - k
      {
        NextOpen(view.order, k, tmp);
        assert k != pos;
        prev, tmp := tmp, tmp.sNext;
        k := k + 1;
      }
    }

    /** Walks a doomed PPA's list, throwing each protocol stream off it. */
    method DetachMembers(ppa: Ppa, ghost ms: seq<Qid>) returns (flushed: seq<Qid>)
      requires Tied(store) && ppa.id in store.slots && PChain(store, ppa.id, ms) && NoDup(ms)
      requires PtrIn(qptr, ppa.pStr) == PtrAt(ms, 0)
      modifies this`store, qptr.Values
      ensures Tied(store) && store == DetachAll(old(store), ms)
      ensures flushed == ms
    {
      ghost var m := store;
      var tmp := ppa.pStr;
      flushed := [];
      DetachNone(m);
      while tmp != null
        invariant flushed <= ms
        invariant Tied(store) && store == DetachAll(m, flushed) && PChain(store, ppa.id, ms)
        invariant PtrIn(qptr, tmp) == PtrAt(ms, |flushed|)
        decreases |ms| - |flushed|
      {
        ghost var i := |flushed|;
        assert flushed == ms[..i];
        tmp, flushed := DetachHere(tmp, m, ppa.id, ms, i, flushed);
      }
    }

    method DetachHere(tmp: Stream, ghost m: Store, ghost p: nat, ghost ms: seq<Qid>, ghost i: nat, flushed: seq<Qid>)
      returns (next: Stream?, more: seq<Qid>)
      requires Tied(store) && p in store.slots && PChain(store, p, ms) && NoDup(ms)
      requires i < |ms| && PtrIn(qptr, tmp) == To(ms[i]) && flushed == ms[..i] && store == DetachAll(m, flushed)
      modifies this`store, tmp`ppa, tmp`state
      ensures Tied(store) && p in store.slots && PChain(store, p, ms)
      ensures store == DetachAll(m, more) && more == ms[..i + 1]
      ensures PtrIn(qptr, next) == PtrAt(ms, i + 1)
    {
      NextMember(p, ms, i, tmp);
      more := flushed + [tmp.rq];
      next := tmp.pNext;
      ghost var n := store;
      DetachOne(tmp);
      DetachMore(m, ms, i);
      PKeep(n, store, p, ms);
    }

    /** Sends one stream back to unattached and makes it forget its PPA. */
    method DetachOne(str: Stream)
      requires Tied(store) && PtrIn(qptr, str).To? && str.rq in store.cells
      modifies this`store, str`ppa, str`state
      ensures Tied(store)
      ensures store == SetInfo(old(store), str.rq, Detached(old(store).cells[str.rq].s))
    {
      ghost var m, s := store, store.cells[str.rq].s;
      WriteState(str, Unattached);
      WritePpa(str, null);
      SetInfoTwice(m, str.rq, s.(state := Unattached), Detached(s));
    }

    // -------------------------------------------------------------- open and close

    method Open(q: Qid, clone: bool, devMinor: nat) returns (minor: nat)
      requires Valid()
      modifies this, qptr.Values
      ensures Valid()
      ensures q in qptr && qptr == old(qptr)[q := qptr[q]]
      ensures if q in old(qptr) then qptr[q] == old(qptr[q]) else fresh(qptr[q])
      ensures view == OpenStep(old(view), q, clone, devMinor)
      ensures minor == if clone then CloneSlot(old(view), 0) else devMinor
    {
      var prev: Stream?, next: Stream? := null, tunStr;
      minor := devMinor;
      if clone {
        prev, next, minor := ScanMinors();
      }
      if q !in qptr {
        AddOpen(q, prev, next, minor, if clone then minor else 0, clone, devMinor);
      }
    }

    method AddOpen(q: Qid, prev: Stream?, next: Stream?, minor: nat, ghost k: nat, ghost clone: bool,
        ghost devMinor: nat)
      requires Valid() && q !in qptr
      requires k == (if clone then CloneSlot(view, 0) else 0) && minor == (if clone then k else devMinor)
      requires PtrIn(qptr, next) == PtrAt(view.order, k)
      requires if k == 0 then prev == null else PtrIn(qptr, prev) == To(view.order[k - 1])
      modifies this, qptr.Values
      ensures Valid()
      ensures q in qptr && fresh(qptr[q]) && qptr == old(qptr)[q := qptr[q]]
      ensures view == OpenStep(old(view), q, clone, devMinor)
    {
      hide Represents, Tied, Wf, CloneSlot, OpenStep, NoDup;
      OpenFacts();
      ghost var p := if k == 0 then None else Some(view.order[k - 1]);
      ghost var m, w := store, OpenStep(view, q, clone, devMinor);
      AddRefines(m, view, q, clone, devMinor, k, p);
      var str := NewStream(q, minor, next);
      if prev == null {
        WriteOpenHead(str);
      } else {
        WriteSNext(prev, str);
      }
      Adopt(w);
    }

    /** Returns the queues whose pending data messages are flushed on the way. */
    method Close(q: Qid) returns (flushed: seq<Qid>)
      requires Valid() && q in qptr
      modifies this, table, qptr.Values, qptr[q].ppa
      ensures Valid() && qptr == old(qptr) - {q} && Ppas() <= old(Ppas())
      ensures view == CloseStep(old(view), q)
      ensures flushed == DetachedBy(old(view), q)
    {
      hide Represents, Tied, Wf, Spells, NoDup, LeaveAt, CloseStep, LeaveStore, StreamOk;
      ghost var v, m := view, store;
      StreamFacts(q);
      OrderFacts(q);
      var str := qptr[q];
      ghost var k, j := 0, 0;
      flushed, k := LeaveLists(str);
      LeaveChain(m, v, q, k);
      j := UnlinkOpen(str);
      DropStream(q);
      CloseRefines(m, v, q, k, j);
      Adopt(CloseStep(v, q));
    }

    /** The PPA half of a close. */
    method LeaveLists(str: Stream) returns (flushed: seq<Qid>, ghost k: nat)
      requires Valid() && PtrIn(qptr, str).To?
      modifies this`store, table, qptr.Values, str.ppa
      ensures Tied(store) && Ppas() <= old(Ppas())
      ensures str.rq in view.strs && flushed == DetachedBy(view, str.rq)
      ensures LeaveAt(view, str.rq, k) && Represents(old(store), view)
      ensures store == LeaveStore(old(store), view, str.rq, k)
    {
      hide Tied, Represents, CellTied, StreamOk, UnlinkP, FreeSlot, DetachAll, PrevIn, Wf;
      StreamFacts(str.rq);
      flushed, k := [], 0;
      var ppa := str.ppa;
      if ppa != null {
        if Control in str.flags {
          flushed := FreeControlled(ppa, str);
        } else {
          k := UnlinkFromPpa(ppa, str);
        }
      }
    }

    lemma ControlsPpa(ppa: Ppa, str: Stream)
      requires Valid() && PtrIn(qptr, str).To? && str.ppa == ppa && Control in str.flags
      ensures str.rq in view.strs && view.strs[str.rq].ppa == Some(ppa.id) && Control in view.strs[str.rq].flags
      ensures ppa.id < table.Length && table[ppa.id] == ppa && ppa.id in view.table && ppa.id in store.slots
      ensures PChain(store, ppa.id, view.table[ppa.id].members) && NoDup(view.table[ppa.id].members)
      ensures PtrIn(qptr, ppa.pStr) == PtrAt(view.table[ppa.id].members, 0)
    {
      assert CellTied(store, str.rq) && StreamOk(view, str.rq);
      assert SlotTied(store, ppa.id);
      FirstMember(ppa);
    }

    method FreeControlled(ppa: Ppa, str: Stream) returns (flushed: seq<Qid>)
      requires Valid() && PtrIn(qptr, str).To? && str.ppa == ppa && Control in str.flags
      modifies this`store, table, qptr.Values
      ensures Tied(store) && str.rq in view.strs && Ppas() <= old(Ppas())
      ensures view.strs[str.rq].ppa == Some(ppa.id) && ppa.id in view.table && Control in view.strs[str.rq].flags
      ensures flushed == view.table[ppa.id].members
      ensures store == FreeSlot(DetachAll(old(store), flushed), ppa.id)
    {
      hide Tied, Represents, StreamOk, Wf;
      ControlsPpa(ppa, str);
      flushed := DetachMembers(ppa, view.table[ppa.id].members);
      ClearTableSlot(ppa.id);
    }

    /** The open-list half of a close. */
    method UnlinkOpen(str: Stream) returns (ghost j: nat)
      requires Tied(store) && SChain(store, view.order) && NoDup(view.order)
      requires PtrIn(qptr, str).To? && str.rq in view.order
      modifies this`store, this`tunStr, qptr.Values
      ensures Tied(store)
      ensures j < |view.order| && view.order[j] == str.rq && str.rq in old(store).cells
      ensures j > 0 ==> view.order[j - 1] in old(store).cells
      ensures store == SetSNext(old(store), PrevIn(view.order, j), old(store).cells[str.rq].sNext)
    {
      var prev: Stream?;
      prev, j := FindInOpen(str);
      assert CellTied(store, str.rq);
      if prev == null {
        WriteOpenHead(str.sNext);
      } else {
        WriteSNext(prev, str.sNext);
      }
    }

    method UnlinkFromPpa(ppa: Ppa, str: Stream) returns (ghost k: nat)
      requires Valid() && PtrIn(qptr, str).To? && str.ppa == ppa && Control !in str.flags
      modifies this`store, ppa, qptr.Values
      ensures Tied(store)
      ensures var p := ppa.id;
        && view.strs[str.rq].ppa == Some(p) && p in view.table
        && k < |view.table[p].members| && view.table[p].members[k] == str.rq
        && str.rq in old(store).cells && p in old(store).slots
        && (k > 0 ==> view.table[p].members[k - 1] in old(store).cells)
        && store == UnlinkP(old(store), str.rq, p, PrevIn(view.table[p].members, k))
    {
      var prev: Stream?;
      prev, k := FindInPpa(ppa, str);
      assert CellTied(store, str.rq);
      FirstMember(ppa);
      if prev == null {
        WriteListHead(ppa, str.pNext);
      } else {
        WritePNext(ppa, prev, str.pNext);
      }
    }

    // -------------------------------------------------------------- ioctls

    /** Takes slot id, or the least free slot when id is -1; null when there is none. */
    method AllocPpa(id: int, rq: Qid) returns (ppa: Ppa?)
      requires Valid() && -1 <= id < TUNMAXPPA && (id == -1 || table[id] == null)
      modifies this`store, table
      ensures Tied(store) && fresh(Ppas() - old(Ppas()))
      ensures ppa == null <==> NewPpaSlot(view, id).Nak?
      ensures ppa == null ==> store == old(store) && table[..] == old(table[..])
      ensures ppa != null ==> fresh(ppa) && ppa.id < table.Length && table[..] == old(table[..])[ppa.id := ppa]
      ensures ppa != null ==> ppa.id == NewPpaSlot(view, id).ret && ppa.id < table.Length && table[ppa.id] == ppa
      ensures ppa != null ==> store == NewSlot(old(store), ppa.id, rq, localMac)
      ensures ppa == null ==> NewPpaSlot(view, id) == Nak(ENOMEM)
    {
      var slot := id;
      if id == -1 {
        slot := FindFree();
        if slot == -1 {
          return null;
        }
      } else {
        assert SlotTied(store, id);
      }
      assert slot !in view.table;
      forall q | q in store.cells ensures store.cells[q].s.ppa != Some(slot) {
        assert StreamOk(view, q);
      }
      hide Tied, Represents;
      ppa := NewTableSlot(slot, rq);
    }

    method FindFree() returns (slot: int)
      requires Valid()
      ensures -1 <= slot < TUNMAXPPA && (slot != -1 ==> table[slot] == null && slot !in view.table)
      ensures LeastFree(view, 0) == if slot == -1 then None else Some(slot)
    {
      slot := 0;
      while slot < TUNMAXPPA
        invariant 0 <= slot <= TUNMAXPPA && Valid()
        invariant LeastFree(view, 0) == LeastFree(view, slot)
      {
        assert SlotTied(store, slot);
        if table[slot] == null {
          return;
        }
        slot := slot + 1;
      }
      slot := -1;
    }

    /** TUNNEWPPA. The new state is well formed exactly when the stream was on no protocol list. */
    method NewPpa(q: Qid, p: int, alloc: bool) returns (reply: IocReply)
      requires Valid() && q in qptr
      modifies this`store, this`view, table, qptr[q]
      ensures Tied(store) && q in old(view).strs && fresh(Ppas() - old(Ppas()))
      ensures reply == NewPpaReply(old(view), p, alloc)
      ensures NewPpaClean(old(view), q, p, alloc) ==> Valid() && view == NewPpaStep(old(view), q, p, alloc, localMac)
      ensures !NewPpaClean(old(view), q, p, alloc) ==> forall w :: !Represents(store, w)
    {
      hide Tied, Represents, Wf, StreamOk;
      ghost var v, m := view, store;
      StreamFacts(q);
      if p < -1 || p >= TUNMAXPPA {
        return Nak(EINVAL);
      }
      if p != -1 {
        TableFacts(p);
      }
      if p != -1 && table[p] != null {
        return Nak(EEXIST);
      }
      var str := qptr[q];
      var ppa := AllocPpa(p, str.rq);
      if ppa == null {
        return Nak(ENOMEM);
      }
      if !alloc {
        NewPpaRefines(m, v, q, p, alloc, localMac);
        Adopt(NewPpaStep(v, q, p, alloc, localMac));
        return Nak(ENOMEM);
      }
      TakeControl(str, ppa);
      ClaimByParts(m, q, ppa.id, localMac);
      if NewPpaClean(v, q, p, alloc) {
        NewPpaRefines(m, v, q, p, alloc, localMac);
        Adopt(NewPpaStep(v, q, p, alloc, localMac));
      } else {
        forall w ensures !Represents(store, w) {
          ClaimWhileListed(m, v, q, ppa.id, localMac, w);
        }
      }
      reply := Ack(ppa.id);
    }

    /** Makes a stream the control stream of a PPA. */
    method TakeControl(str: Stream, ppa: Ppa)
      requires Tied(store) && PtrIn(qptr, str).To? && str.rq in store.cells
      requires ppa.id < table.Length && table[ppa.id] == ppa && str.flags == store.cells[str.rq].s.flags
      modifies this`store, str`ppa, str`flags
      ensures Tied(store)
      ensures var s := old(store).cells[str.rq].s;
              store == SetInfo(old(store), str.rq, s.(ppa := Some(ppa.id), flags := s.flags + {Control}))
    {
      ghost var m, s := store, store.cells[str.rq].s;
      WritePpa(str, ppa);
      WriteFlags(str, str.flags + {Control});
      SetInfoTwice(m, str.rq, s.(ppa := Some(ppa.id)), s.(ppa := Some(ppa.id), flags := s.flags + {Control}));
    }

    /** Puts a stream in front of a PPA's list and gives it that PPA and a new state. */
    method LinkStream(str: Stream, ppa: Ppa, state: DlState)
      requires Tied(store) && PtrIn(qptr, str) == To(str.rq) && str.rq in store.cells
      requires ppa.id < table.Length && table[ppa.id] == ppa && ppa.id in store.slots
      requires PtrIn(qptr, ppa.pStr) == store.slots[ppa.id].pStr
      modifies this`store, str, ppa
      ensures Tied(store)
      ensures store == LinkFront(old(store), str.rq, ppa.id, state)
    {
      hide Tied;
      ghost var m, s := store, store.cells[str.rq].s;
      WritePNext(ppa, str, ppa.pStr);
      WriteListHead(ppa, str);
      WritePpa(str, ppa);
      WriteState(str, state);
      LinkByParts(m, str.rq, ppa.id, state);
    }

    lemma StreamFacts(q: Qid)
      requires Valid() && q in qptr
      ensures q in view.strs && q in store.cells && store.cells[q].s == view.strs[q]
      ensures PtrIn(qptr, qptr[q]) == To(q) && qptr[q].rq == q
      ensures view.strs[q] == Strm(qptr[q].minor, if qptr[q].ppa == null then None else Some(qptr[q].ppa.id),
                                   qptr[q].flags, qptr[q].state, qptr[q].sap)
      ensures StreamOk(view, q)
      ensures qptr[q].ppa != null ==> qptr[q].ppa.id < table.Length && table[qptr[q].ppa.id] == qptr[q].ppa
      ensures qptr[q].ppa != null ==> qptr[q].ppa.mac == view.table[qptr[q].ppa.id].mac
      ensures qptr[q].ppa != null ==> qptr[q].ppa.rq == view.table[qptr[q].ppa.id].rq
    {
      assert CellTied(store, q);
      if qptr[q].ppa != null {
        assert SlotTied(store, qptr[q].ppa.id) && SlotFits(store, view, qptr[q].ppa.id);
      }
    }

    lemma OpenFacts()
      requires Valid()
      ensures store.cells.Keys == view.strs.Keys == qptr.Keys
    {}

    lemma OrderFacts(q: Qid)
      requires Valid() && q in qptr
      ensures view.strs.Keys == qptr.Keys && NoDup(view.order) && q in view.order
    {}

    lemma TableFacts(i: nat)
      requires Valid() && i < TUNMAXPPA
      ensures i < table.Length
      ensures table[i] != null <==> i in view.table
      ensures table[i] != null ==>
                i in store.slots && table[i].id == i && PtrIn(qptr, table[i].pStr) == store.slots[i].pStr
    {
      assert SlotTied(store, i);
    }

    /** TUNSETPPA. */
    method SetPpa(q: Qid, p: int) returns (reply: IocReply)
      requires Valid() && q in qptr
      modifies this`store, this`view, qptr[q], if 0 <= p < table.Length then table[p] else null
      ensures Tied(store) && q in old(view).strs
      ensures reply == SetPpaReply(old(view), p)
      ensures (reply.Nak? || old(view).strs[q].ppa.None?) ==> Valid() && view == SetPpaStep(old(view), q, p)
      ensures !(reply.Nak? || old(view).strs[q].ppa.None?) ==> forall w :: !Represents(store, w)
    {
      StreamFacts(q);
      if p < 0 || p >= TUNMAXPPA {
        return Nak(EINVAL);
      }
      TableFacts(p);
      var ppa := table[p];
      if ppa == null {
        return Nak(ENODEV);
      }
      var str := qptr[q];
      LinkInto(str, ppa, str.state);
      reply := Ack(p);
    }

    /** The common part of TUNSETPPA and DL_ATTACH_REQ. */
    method LinkInto(str: Stream, ppa: Ppa, state: DlState)
      requires Valid() && PtrIn(qptr, str) == To(str.rq) && str.rq in view.strs && str.rq in store.cells
      requires ppa.id < table.Length && table[ppa.id] == ppa && ppa.id in store.slots && ppa.id in view.table
      requires PtrIn(qptr, ppa.pStr) == store.slots[ppa.id].pStr
      modifies this`store, this`view, str, ppa
      ensures Tied(store)
      ensures old(view).strs[str.rq].ppa.None? ==> Valid() && view == Link(old(view), str.rq, ppa.id, state)
      ensures old(view).strs[str.rq].ppa.Some? ==> forall w :: !Represents(store, w)
    {
      ghost var v, m := view, store;
      hide Tied, Represents;
      LinkStream(str, ppa, state);
      if v.strs[str.rq].ppa.None? {
        LinkRefines(m, v, str.rq, ppa.id, state);
        Adopt(Link(v, str.rq, ppa.id, state));
      } else {
        forall w ensures !Represents(store, w) {
          LinkTwice(m, v, str.rq, ppa.id, state, w);
        }
      }
    }

    /** TUNGETPPA. */
    method GetPpa(q: Qid) returns (reply: IocReply)
      requires Valid() && q in qptr
      ensures q in view.strs && reply == GetPpaReply(view, q)
    {
      StreamFacts(q);
      var ppa := qptr[q].ppa;
      if ppa == null {
        return Nak(ENODEV);
      }
      reply := Ack(ppa.id);
    }

    /** Raises or clears one flag, which may be any but Control. */
    method ChangeFlag(q: Qid, f: Flag, on: bool)
      requires Valid() && q in qptr && f != Control
      modifies this`store, this`view, qptr[q]
      ensures Valid() && q in old(view).strs
      ensures view == if on then SetFlag(old(view), q, f) else ClearFlag(old(view), q, f)
    {
      hide Tied, Represents;
      StreamFacts(q);
      var str := qptr[q];
      ghost var v, m, s := view, store, view.strs[q];
      ghost var flags := if on then s.flags + {f} else s.flags - {f};
      WriteFlags(str, if on then str.flags + {f} else str.flags - {f});
      Restyle(v, m, q, s.(flags := flags));
    }

    /** Adopts the change of one stream's own record. */
    ghost method Restyle(v: View, m: Store, q: Qid, s: Strm)
      requires Represents(m, v) && q in v.strs && q in m.cells && Tied(store) && store == SetInfo(m, q, s)
      requires s.ppa == v.strs[q].ppa && (Control in s.flags <==> Control in v.strs[q].flags)
      requires s.state == v.strs[q].state || (s.ppa.Some? && Control !in s.flags)
      modifies this`view
      ensures Valid() && view == v.(strs := v.strs[q := s])
    {
      WfRestyle(v, q, s);
      InfoRefines(m, v, q, s);
      hide Tied, Represents;
      Adopt(v.(strs := v.strs[q := s]));
    }

    // -------------------------------------------------------------- DLPI requests

    method AttachReq(q: Qid, short: bool, p: int) returns (reply: DlReply)
      requires Valid() && q in qptr
      modifies this`store, this`view, qptr[q], if 0 <= p < table.Length then table[p] else null
      ensures Tied(store) && q in old(view).strs
      ensures reply == AttachReply(old(view), q, short, p)
      ensures (reply.ErrAck? || old(view).strs[q].ppa.None?) ==> Valid() && view == AttachStep(old(view), q, short, p)
      ensures !(reply.ErrAck? || old(view).strs[q].ppa.None?) ==> forall w :: !Represents(store, w)
    {
      StreamFacts(q);
      if short {
        return ErrAck(CAttach, BadPrim);
      }
      var str := qptr[q];
      if str.state != Unattached {
        return ErrAck(CAttach, OutState);
      }
      if p < 0 || p >= TUNMAXPPA {
        return ErrAck(CAttach, BadPpa);
      }
      TableFacts(p);
      var ppa := table[p];
      if ppa == null {
        return ErrAck(CAttach, BadPpa);
      }
      LinkInto(str, ppa, Unbound);
      reply := OkAck(CAttach);
    }

    method DetachReq(q: Qid, short: bool) returns (reply: DlReply)
      requires Valid() && q in qptr
      modifies this`store, this`view, qptr.Values, qptr[q].ppa
      ensures Valid() && q in old(view).strs
      ensures reply == DetachReply(old(view), q, short)
      ensures view == DetachStep(old(view), q, short)
    {
      hide Tied, Represents;
      StreamFacts(q);
      if short {
        return ErrAck(CDetach, BadPrim);
      }
      var str := qptr[q];
      if str.state != Unbound {
        return ErrAck(CDetach, OutState);
      }
      ghost var v, m := view, store;
      ghost var k := UnlinkFromPpa(str.ppa, str);
      DetachRefines(m, v, q, k);
      DetachOne(str);
      Adopt(DetachStep(v, q, short));
      reply := OkAck(CDetach);
    }

    method BindReq(q: Qid, short: bool, sap: nat, xidtest: bool) returns (reply: DlReply)
      requires Valid() && q in qptr
      modifies this`store, this`view, qptr[q]
      ensures Valid() && q in old(view).strs
      ensures reply == BindReply(old(view), q, short, sap, xidtest)
      ensures view == BindStep(old(view), q, short, sap, xidtest)
    {
      StreamFacts(q);
      if short {
        return ErrAck(CBind, BadPrim);
      }
      var str := qptr[q];
      if str.state != Unbound {
        return ErrAck(CBind, OutState);
      }
      var ppa := str.ppa;
      if ppa == null {
        return ErrAck(CBind, SysErr);
      }
      if xidtest {
        return ErrAck(CBind, NoAuto);
      }
      if sap > ETHERTYPE_MAX {
        return ErrAck(CBind, BadSap);
      }
      SetBinding(q, sap, Idle);
      reply := BindAck(sap, ppa.mac);
    }

    /** Gives an attached protocol stream a new sap and state. */
    method SetBinding(q: Qid, sap: nat, state: DlState)
      requires Valid() && q in qptr && qptr[q].state != Unattached
      modifies this`store, this`view, qptr[q]
      ensures Valid() && q in old(view).strs
      ensures view == old(view).(strs := old(view).strs[q := old(view).strs[q].(sap := sap, state := state)])
    {
      hide Tied, Represents;
      StreamFacts(q);
      var str := qptr[q];
      ghost var v, m, s := view, store, view.strs[q];
      WriteSap(str, sap);
      WriteState(str, state);
      SetInfoTwice(m, q, s.(sap := sap), s.(sap := sap, state := state));
      Restyle(v, m, q, s.(sap := sap, state := state));
    }

    method UnbindReq(q: Qid, short: bool) returns (reply: DlReply)
      requires Valid() && q in qptr
      modifies this`store, this`view, qptr[q]
      ensures Valid() && q in old(view).strs
      ensures reply == UnbindReply(old(view), q, short)
      ensures view == UnbindStep(old(view), q, short)
    {
      StreamFacts(q);
      if short {
        return ErrAck(CUnbind, BadPrim);
      }
      if qptr[q].state != Idle {
        return ErrAck(CUnbind, OutState);
      }
      SetBinding(q, 0, Unbound);
      reply := OkAck(CUnbind);
    }

    /** DL_SET_PHYS_ADDR_REQ of the TAP build. Without a PPA the write goes through a null pointer: no reply. */
    method SetPhysAddr(q: Qid, mac: Mac) returns (reply: Option<DlReply>)
      requires Valid() && q in qptr
      modifies this`store, this`view, qptr[q].ppa
      ensures Valid() && q in old(view).strs
      ensures reply == if old(view).strs[q].ppa.Some? then Some(OkAck(CSetPhysAddr)) else None
      ensures view == if old(view).strs[q].ppa.Some? then SetMacStep(old(view), q, mac) else old(view)
    {
      hide Tied, Represents;
      StreamFacts(q);
      if qptr[q].ppa == null {
        return None;
      }
      ghost var v, m := view, store;
      SetMacRefines(m, v, q, mac);
      WriteMac(qptr[q].ppa, mac);
      Adopt(SetMacStep(v, q, mac));
      reply := Some(OkAck(CSetPhysAddr));
    }

    method PromiscReq(q: Qid, on: bool, short: bool, level: Level) returns (reply: DlReply)
      requires Valid() && q in qptr
      modifies this`store, this`view, qptr[q]
      ensures Valid() && q in old(view).strs
      ensures reply == PromiscReply(if on then CPromiscOn else CPromiscOff, short, level)
      ensures view == PromiscStep(old(view), q, on, short, level)
    {
      StreamFacts(q);
      var code := if on then CPromiscOn else CPromiscOff;
      if short {
        return ErrAck(code, BadPrim);
      }
      match level {
        case LPhys => ChangeFlag(q, AllPhy, on);
        case LSap => ChangeFlag(q, AllSap, on);
        case LMulti => ChangeFlag(q, AllMul, on);
        case LOther => return ErrAck(code, NotSupported);
      }
      reply := OkAck(code);
    }
  }
}
