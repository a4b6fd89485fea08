/**
  Reading packets on Solaris: the data file delivers bytes, not packets, so the device keeps what it
  has not handed out yet in a window of a fixed buffer, and moves that window before it reads on.
 */
module SolarisTun {
  import opened Basics
  import opened Packets

  const BUFFER_LEN: nat := 65536

  /** What one read of the data file brings. */
  datatype Incoming = Got(bytes: Bytes) | Broken(code: nat)

  /** The data file: plan says what the kernel answers; fed is all it has handed out. */
  class DataFile {
    const plan: nat -> Incoming
    var calls: nat
    ghost var fed: Bytes

    constructor (plan: nat -> Incoming)
      ensures this.plan == plan && calls == 0 && fed == []
    {
      this.plan := plan;
      calls, fed := 0, [];
    }

    /** Reads behind position at of buff. */
    method Read(buff: array<byte>, at: nat) returns (n: nat, err: Option<nat>)
      requires at <= buff.Length
      modifies this, buff
      ensures calls == old(calls) + 1
      ensures var got := Arrived(plan(old(calls)), buff.Length - at);
              fed == old(fed) + got && n == |got| && buff[..at + n] == old(buff[..at]) + got
      ensures err.Some? <==> plan(old(calls)).Broken?
      ensures err.Some? ==> err.value == plan(old(calls)).code && buff[..] == old(buff[..])
    {
      ghost var was := buff[..at];
      var answer := plan(calls);
      calls := calls + 1;
      match answer {
        case Broken(code) =>
          return 0, Some(code);
        case Got(bytes) =>
          n := if |bytes| < buff.Length - at then |bytes| else buff.Length - at;
          err := None;
          forall i | 0 <= i < n {
            buff[at + i] := bytes[i];
          }
          fed := fed + bytes[..n];
          assert buff[..at + n] == was + bytes[..n];
      }
    }
  }

  /** The bytes that a read with so much room brings. */
  function Arrived(a: Incoming, room: nat): (r: Bytes)
    ensures |r| <= room
  {
    match a
    case Got(bytes) => if |bytes| < room then bytes else bytes[..room]
    case Broken(_) => []
  }

  datatype Result = Packet(bytes: Bytes) | ShortBuffer | ShortPacket | Unreadable(fault: Fault) | ReadError(code: nat)

  /** What comes of window w for a caller with room for so many bytes. */
  function Take(tl: LenFn, w: Bytes, room: nat): (r: (Result, Bytes))
    ensures r.0.Packet? ==> r.0.bytes + r.1 == w
    ensures !r.0.Packet? ==> r.1 == w
  {
    match tl(w)
    case Short => (ShortPacket, w)
    case Bad(f) => (Unreadable(f), w)
    case Total(n) => if room < n || |w| < n then (ShortBuffer, w) else (Packet(w[..n]), w[n..])
  }

  /** What a window gives a caller, and why it gives nothing, condition by condition. */
  ghost predicate TakenAs(tl: LenFn, w: Bytes, room: nat, r: Result) {
    && (r == ShortPacket <==> tl(w) == Short)
    && (r.Unreadable? <==> tl(w).Bad?)
    && (r.Unreadable? ==> r.fault == tl(w).fault)
    && (r == ShortBuffer <==> tl(w).Total? && room < tl(w).n)
    && (r.Packet? <==> tl(w).Total? && room >= tl(w).n)
    && (r.Packet? ==> |r.bytes| == tl(w).n && r.bytes <= w)
  }

  lemma TakeReads(tl: LenFn, w: Bytes, room: nat)
    requires Contract(tl)
    ensures TakenAs(tl, w, room, Take(tl, w, room).0)
  {
    assert Sized(tl, w);
  }

  lemma TakeFacts(tl: LenFn, done: seq<Bytes>, w: Bytes, room: nat)
    requires Contract(tl)
    ensures tl(w).Total? ==> var n := tl(w).n;
      && 1 <= n <= |w| && tl(w[..n]) == Total(n)
      && Flatten(done + [w[..n]]) + w[n..] == Flatten(done) + w
    ensures Take(tl, w, room) == match tl(w)
      case Short => (ShortPacket, w)
      case Bad(f) => (Unreadable(f), w)
      case Total(n) => if room < n then (ShortBuffer, w) else (Packet(w[..n]), w[n..])
  {
    assert Sized(tl, w);
    if tl(w).Total? {
      var n := tl(w).n;
      FlattenAdd(done, w[..n]);
      hide Flatten;
      Assoc(Flatten(done), w[..n], w[n..]);
      assert w[..n] + w[n..] == w;
    }
  }

  /** The old window read through its old bounds after its bytes have moved to the front. */
  function Shifted(w: Bytes, lo: nat): (r: Bytes)
    ensures |r| == |w|
  {
    seq(|w|, i requires 0 <= i < |w| => if lo + i < |w| then w[lo + i] else w[i])
  }

  /** The window overlaps its target and its bytes do not repeat with that distance. */
  ghost predicate Damaged(w: Bytes, lo: nat) {
    0 < lo < |w| && w[lo..] != w[..|w| - lo]
  }

  lemma ShiftedIff(w: Bytes, lo: nat)
    ensures Shifted(w, lo) != w <==> Damaged(w, lo)
  {
    if lo < |w| && Shifted(w, lo) == w {
      forall i | 0 <= i < |w| - lo ensures w[lo..][i] == w[..|w| - lo][i] {
        assert Shifted(w, lo)[i] == w[i];
      }
    }
    if lo < |w| && w[lo..] == w[..|w| - lo] {
      forall i | 0 <= i < |w| ensures Shifted(w, lo)[i] == w[i] {
        assert lo + i < |w| ==> w[lo..][i] == w[..|w| - lo][i];
      }
    }
  }

  class TunDevice {
    const tl: LenFn
    const file: DataFile
    const buff: array<byte>
    /** unread is buff[lo..hi]. */
    var lo: nat
    var hi: nat
    /** Every packet handed out so far. */
    ghost var delivered: seq<Bytes>

    ghost predicate Shape()
      reads this
    {
      Contract(tl) && buff.Length == BUFFER_LEN && lo <= hi <= BUFFER_LEN
    }

    ghost function Window(): Bytes
      requires Shape()
      reads this, buff
    {
      buff[lo..hi]
    }

    /** Nothing the file has handed out is lost, and what has been handed on are packets. */
    ghost predicate Valid()
      reads this, buff, file
    {
      && Shape()
      && Flatten(delivered) + Window() == file.fed
      && forall i :: 0 <= i < |delivered| ==> tl(delivered[i]) == Total(|delivered[i]|)
    }

    constructor (tl: LenFn, file: DataFile)
      requires Contract(tl) && file.fed == []
      ensures Valid() && this.tl == tl && this.file == file && fresh(buff) && delivered == [] && Window() == []
    {
      this.tl, this.file := tl, file;
      buff := new byte[BUFFER_LEN](_ => 0);
      lo, hi, delivered := 0, 0, [];
    }

    /** The next call has to read, and the file will not let it. */
    ghost predicate Breaks()
      requires Shape()
      reads this, buff, file
    {
      tl(Window()).Short? && file.plan(file.calls).Broken?
    }

    /** What the next call reads. */
    ghost function Reads(): (r: Bytes)
      requires Shape()
      ensures |Window()| + |r| <= BUFFER_LEN
      reads this, buff, file
    {
      if tl(Window()).Short? then Arrived(file.plan(file.calls), BUFFER_LEN - |Window()|) else []
    }

    method ReadPacket(b: array<byte>) returns (r: Result)
      requires Valid() && b != buff
      modifies this, buff, b, file
      ensures Shape()
      ensures r.Packet? ==> |r.bytes| <= b.Length && b[..|r.bytes|] == r.bytes
      ensures r.Packet? ==> delivered == old(delivered) + [r.bytes]
      ensures !r.Packet? ==> b[..] == old(b[..]) && delivered == old(delivered)
      ensures file.fed == old(file.fed) + old(Reads())
      ensures file.calls == old(file.calls) + Bit(tl(old(Window())).Short?)
      ensures r.ReadError? <==> old(Breaks())
      ensures r.ReadError? ==> Window() == Shifted(old(Window()), old(lo)) && lo == old(lo)
      ensures !r.ReadError? ==> (r, Window()) == Take(tl, old(Window()) + old(Reads()), b.Length)
      ensures !r.ReadError? ==> TakenAs(tl, old(Window()) + old(Reads()), b.Length, r)
      ensures r.ReadError? ==> file.plan(old(file.calls)) == Broken(r.code)
      ensures !r.ReadError? ==>
                lo == (if tl(old(Window())).Short? then 0 else old(lo)) + if r.Packet? then |r.bytes| else 0
      ensures Valid() <==> !(r.ReadError? && Damaged(old(Window()), old(lo)))
    {
      ghost var w := Window();
      assert w + [] == w && file.fed + [] == file.fed;
      if tl(buff[lo..hi]).Short? {
        var err := ReadMore();
        if err.Some? {
          return ReadError(err.value);
        }
      }
      hide Valid, Damaged;
      TakeReads(tl, Window(), b.Length);
      r := HandOut(b);
    }

    /** Moves the window to the front of the buffer and reads on behind it. */
    method ReadMore() returns (err: Option<nat>)
      requires Valid() && tl(Window()).Short?
      modifies this`lo, this`hi, buff, file
      ensures Shape() && file.fed == old(file.fed) + old(Reads()) && file.calls == old(file.calls) + 1
      ensures err.Some? ==> file.plan(old(file.calls)) == Broken(err.value)
      ensures err.Some? <==> old(Breaks())
      ensures err.None? ==> Valid() && lo == 0 && Window() == old(Window()) + old(Reads())
      ensures err.Some? ==> lo == old(lo) && Window() == Shifted(old(Window()), old(lo))
      ensures err.Some? ==> (Valid() <==> !Damaged(old(Window()), old(lo)))
    {
      ghost var w, fed, done, got := Window(), file.fed, Flatten(delivered), Reads();
      hide Contract, Flatten, Shifted;
      var cn := MoveDown();
      var n;
      n, err := file.Read(buff, cn);
      if err.Some? {
        ShiftedIff(w, lo);
        assert (done + Window())[|done|..] == Window() && (done + w)[|done|..] == w;
        return;
      }
      lo, hi := 0, cn + n;
      assert Window() == w + got;
      Assoc(done, w, got);
    }

    /** Moves the bytes of the window to the front; its bounds still name their old place. */
    method MoveDown() returns (cn: nat)
      requires Shape()
      modifies buff
      ensures cn == hi - lo && buff[..cn] == old(Window()) && Window() == Shifted(old(Window()), lo)
    {
      cn := hi - lo;
      ghost var w := Window();
      forall i | 0 <= i < cn {
        buff[i] := buff[lo + i];
      }
      assert buff[..cn] == w && Window() == Shifted(w, lo);
    }

    /** Hands out the packet at the front of the window, if it is complete and there is room for it. */
    method HandOut(b: array<byte>) returns (r: Result)
      requires Valid() && b != buff
      modifies this`lo, this`delivered, b
      ensures Valid() && lo == old(lo) + if r.Packet? then |r.bytes| else 0
      ensures (r, Window()) == Take(tl, old(Window()), b.Length)
      ensures r.Packet? ==> |r.bytes| <= b.Length && b[..|r.bytes|] == r.bytes
      ensures r.Packet? ==> delivered == old(delivered) + [r.bytes]
      ensures !r.Packet? ==> b[..] == old(b[..]) && delivered == old(delivered)
    {
      hide Contract, Flatten, Take;
      ghost var w := Window();
      TakeFacts(tl, delivered, w, b.Length);
      match tl(buff[lo..hi]) {
        case Short => return ShortPacket;
        case Bad(f) => return Unreadable(f);
        case Total(n) =>
          if b.Length < n {
            return ShortBuffer;
          }
          var p := Deliver(b, n);
          r := Packet(p);
      }
    }

    method Deliver(b: array<byte>, n: nat) returns (p: Bytes)
      requires Shape() && b != buff && n <= hi - lo && n <= b.Length
      modifies this`lo, this`delivered, b
      ensures Shape() && lo == old(lo) + n && b[..n] == old(Window())[..n] && Window() == old(Window())[n..]
      ensures p == old(Window())[..n] && delivered == old(delivered) + [p]
    {
      ghost var w, all := Window(), buff[..];
      assert w == all[lo..hi];
      Slices(all, lo, hi, n);
      p := buff[lo..lo + n];
      CopyOut(buff, lo, b, n);
      assert buff[..] == all;
      lo := lo + n;
      delivered := delivered + [w[..n]];
    }
  }

  /** Fills b from position lo of buff. */
  method CopyOut(buff: array<byte>, lo: nat, b: array<byte>, n: nat)
    requires lo + n <= buff.Length && n <= b.Length && b != buff
    modifies b
    ensures b[..n] == buff[lo..lo + n]
  {
    forall i | 0 <= i < n {
      b[i] := buff[lo + i];
    }
  }

  /** What has been handed out is the stream cut into packets, as far as it has been read. */
  lemma RefinesSplit(dev: TunDevice)
    requires dev.Valid()
    ensures var c, rest := Split(dev.tl, dev.file.fed), Split(dev.tl, dev.Window());
            c.packets == dev.delivered + rest.packets && c.tail == rest.tail && c.fault == rest.fault
  {
    SplitFlatten(dev.tl, dev.delivered, dev.Window());
  }

  // ---------------------------------------------------------------- packets too long for the buffer

  /** What a call reads when the file offers so many of the bytes it still has. */
  function Chunk(tl: LenFn, w: Bytes, more: Bytes, size: nat): (got: Bytes)
    requires |w| <= BUFFER_LEN
    ensures |w| + |got| <= BUFFER_LEN && got <= more
  {
    if tl(w).Short? then Arrived(Got(more[..Min(size, |more|)]), BUFFER_LEN - |w|) else []
  }

  /** The packets that calls bring out of window w, with more still in the file: (bytes offered, caller's room). */
  function HandedOut(tl: LenFn, w: Bytes, more: Bytes, calls: seq<(nat, nat)>): seq<Bytes>
    requires |w| <= BUFFER_LEN
    decreases |calls|
  {
    if calls == [] then []
    else
      var (size, room) := calls[0];
      var got := Chunk(tl, w, more, size);
      var (r, w') := Take(tl, w + got, room);
      HandedBy(r) + HandedOut(tl, w', more[|got|..], calls[1..])
  }

  lemma {:induction false} NothingComesOut(tl: LenFn, w: Bytes, more: Bytes, calls: seq<(nat, nat)>)
    requires Contract(tl) && |w| <= BUFFER_LEN
    requires !tl(w + more).Total? || tl(w + more).n > BUFFER_LEN
    ensures HandedOut(tl, w, more, calls) == []
    decreases |calls|
  {
    if calls != [] {
      var (size, room) := calls[0];
      var got := Chunk(tl, w, more, size);
      var w', more' := w + got, more[|got|..];
      assert w' + more' == w + more;
      assert Stable(tl, w', more') && Sized(tl, w');
      NothingComesOut(tl, w', more', calls[1..]);
    }
  }

  /** Whatever the chunks and the caller's room, the packet at the front never comes out: exactly if it does not fit. */
  lemma BlockedIff(tl: LenFn, w: Bytes, more: Bytes)
    requires Contract(tl) && |w| <= BUFFER_LEN && tl(w + more).Total?
    ensures (forall calls :: HandedOut(tl, w, more, calls) == []) <==> tl(w + more).n > 65536
  {
    var s := w + more;
    if tl(s).n > BUFFER_LEN {
      forall calls ensures HandedOut(tl, w, more, calls) == [] {
        NothingComesOut(tl, w, more, calls);
      }
    } else {
      HeadComesOut(tl, w, more);
    }
  }

  lemma HeadComesOut(tl: LenFn, w: Bytes, more: Bytes)
    requires Contract(tl) && |w| <= BUFFER_LEN && tl(w + more).Total? && tl(w + more).n <= BUFFER_LEN
    ensures tl(w + more).n <= |w + more|
    ensures HandedOut(tl, w, more, [(BUFFER_LEN, BUFFER_LEN)]) == [(w + more)[..tl(w + more).n]]
  {
    var s, n := w + more, tl(w + more).n;
    var got := Chunk(tl, w, more, BUFFER_LEN);
    var w' := w + got;
    assert Sized(tl, s) && Stable(tl, w, more);
    assert w' == s[..|w'|];
    if tl(w).Short? {
      assert |w'| == Min(|s|, BUFFER_LEN);
      assert w' == s[..n] + w'[n..];
      assert Stable(tl, s[..n], w'[n..]);
    } else {
      assert Sized(tl, w);
    }
    assert tl(w') == Total(n) && w'[..n] == s[..n];
    assert HandedOut(tl, w'[n..], more[|got|..], []) == [];
  }

  /** The longest packet of version 6 fits neither this buffer nor that of copying, and is never handed out. */
  lemma BlockedExample(calls: seq<(nat, nat)>)
    ensures IpLen(JUMBO) == Total(|JUMBO|) && HandedOut(IpLen, [], JUMBO, calls) == []
  {
    IpLenContract();
    JumboIsPacket();
    assert [] + JUMBO == JUMBO;
    NothingComesOut(IpLen, [], JUMBO, calls);
  }

  lemma OneCall(tl: LenFn, w: Bytes, got: Bytes, more: Bytes, room: nat, calls: seq<(nat, nat)>, r: Result, w1: Bytes)
    requires |w| <= BUFFER_LEN && |w1| <= BUFFER_LEN
    requires if tl(w).Short? then |w| + |got| <= BUFFER_LEN else got == []
    requires (r, w1) == Take(tl, w + got, room)
    ensures HandedOut(tl, w, got + more, [(|got|, room)] + calls) == HandedBy(r) + HandedOut(tl, w1, more, calls)
  {
    hide Take, Chunk, HandedBy;
    var all := [(|got|, room)] + calls;
    assert all[0] == (|got|, room) && all[1..] == calls;
    JustThat(tl, w, got, more);
    assert (got + more)[|got|..] == more;
  }

  lemma JustThat(tl: LenFn, w: Bytes, got: Bytes, more: Bytes)
    requires |w| <= BUFFER_LEN
    requires if tl(w).Short? then |w| + |got| <= BUFFER_LEN else got == []
    ensures Chunk(tl, w, got + more, |got|) == got
  {
    assert (got + more)[..|got|] == got;
  }

  function HandedBy(r: Result): seq<Bytes> {
    if r.Packet? then [r.bytes] else []
  }

  /**
    Calls ReadPacket for each room in turn, until a read fails. What it hands out is HandedOut, for the
    chunks in which the file has brought its bytes.
   */
  method ReadAll(dev: TunDevice, rooms: seq<nat>)
    returns (failed: bool, ghost calls: seq<(nat, nat)>, ghost more: Bytes)
    requires dev.Valid()
    modifies dev, dev.buff, dev.file
    ensures dev.Shape() && (!failed ==> dev.Valid())
    ensures |calls| <= |rooms| && (failed <==> |calls| < |rooms|)
    ensures forall i :: 0 <= i < |calls| ==> calls[i].1 == rooms[i]
    ensures dev.file.fed == old(dev.file.fed) + more
    ensures dev.delivered == old(dev.delivered) + HandedOut(dev.tl, old(dev.Window()), more, calls)
    decreases |rooms|
  {
    hide HandedOut, Take, Contract, Flatten, Shifted, Damaged;
    ghost var tl, w, got, done, fed := dev.tl, dev.Window(), dev.Reads(), dev.delivered, dev.file.fed;
    calls, more := [], [];
    NoCalls(tl, w);
    assert fed + [] == fed && done + [] == done;
    if rooms == [] {
      return false, calls, more;
    }
    var b := new byte[rooms[0]];
    var r := dev.ReadPacket(b);
    if r.ReadError? {
      return true, calls, more;
    }
    ghost var w1 := dev.Window();
    failed, calls, more := ReadAll(dev, rooms[1..]);
    OneCall(tl, w, got, more, rooms[0], calls, r, w1);
    Assoc(fed, got, more);
    Assoc(done, HandedBy(r), HandedOut(tl, w1, more, calls));
    calls, more := [(|got|, rooms[0])] + calls, got + more;
  }

  lemma NoCalls(tl: LenFn, w: Bytes)
    requires |w| <= BUFFER_LEN
    ensures HandedOut(tl, w, [], []) == []
  {}

  // ---------------------------------------------------------------- a damaged window

  /** A packet of 20 bytes and 30 bytes of the next, which has 40. */
  const ONE_AND_MORE: Bytes :=
    seq(50, i =>
      if i == 0 || i == 20 then 0x45 else if i == 3 then 20 else if i == 23 then 40 else if i > 23 then i else 0)

  lemma OneAndMoreFacts()
    ensures IpLen([]) == Short && |ONE_AND_MORE| == 50 && IpLen(ONE_AND_MORE) == Total(20)
    ensures IpLen(ONE_AND_MORE[20..]) == Short && Damaged(ONE_AND_MORE[20..], 20)
  {
    var w := ONE_AND_MORE[20..];
    assert w[20..][0] == 40 && w[..10][0] == 0x45;
  }

  method OneHandedOut() returns (dev: TunDevice, b: array<byte>)
    ensures fresh(b) && fresh(dev) && fresh(dev.buff) && fresh(dev.file) && b != dev.buff
    ensures dev.Valid() && dev.tl == IpLen
    ensures dev.file.fed == ONE_AND_MORE && dev.delivered == [ONE_AND_MORE[..20]]
    ensures dev.Window() == ONE_AND_MORE[20..] && dev.lo == 20 && dev.file.plan(dev.file.calls).Broken?
  {
    hide IpLen, Contract, Damaged, Flatten, Shifted, Stable, Sized;
    IpLenContract();
    OneAndMoreFacts();
    var file := new DataFile(i => if i == 0 then Got(ONE_AND_MORE) else Broken(5));
    dev := new TunDevice(IpLen, file);
    b := new byte[100];
    assert dev.Reads() == ONE_AND_MORE && [] + ONE_AND_MORE == ONE_AND_MORE;
    var r := dev.ReadPacket(b);
    assert [] + [ONE_AND_MORE[..20]] == [ONE_AND_MORE[..20]];
  }

  /** The first call hands out a packet; the second has to read, fails, and leaves another window than was read. */
  method DamageExample() returns (dev: TunDevice)
    ensures dev.Shape() && dev.file.fed == ONE_AND_MORE && dev.delivered == [ONE_AND_MORE[..20]]
    ensures dev.Window() != ONE_AND_MORE[20..] && !dev.Valid()
  {
    hide IpLen, Contract, Damaged, Flatten, Shifted;
    OneAndMoreFacts();
    var b;
    dev, b := OneHandedOut();
    var _ := dev.ReadPacket(b);
    ShiftedIff(ONE_AND_MORE[20..], 20);
  }
}
