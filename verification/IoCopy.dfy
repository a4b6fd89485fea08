/**
  Copying a stream of bytes, read in arbitrary chunks, to a device that takes one packet per write.
  The loop keeps one buffer: what the device turned down for being too short is read on behind.
 */
module IoCopy {
  import opened Basics
  import opened Packets

  const MAX_UINT16: nat := 65535

  datatype Error = EOF | ErrShortBuffer | InvalidWrite | PacketFault(fault: Fault) | Other(code: nat)

  /** Eof is a nil error. In Stalled the loop goes on reading into no room at all, for ever. */
  datatype Outcome = Eof | Failed(err: Error) | Stalled

  // ---------------------------------------------------------------- the two ends

  /**
    A reader of data. Every read with room makes progress, in whatever chunks plan wants; end is
    reported with the last bytes or after them, and repeated. atNoRoom tells whether it is also
    reported for an empty buffer.
   */
  class Source {
    const data: Bytes
    const end: Error
    const plan: nat -> (nat, bool)
    const atNoRoom: bool
    var pos: nat
    var calls: nat

    constructor (data: Bytes, end: Error, plan: nat -> (nat, bool), atNoRoom: bool)
      ensures this.data == data && this.end == end && this.plan == plan && this.atNoRoom == atNoRoom && pos == 0
    {
      this.data, this.end, this.plan, this.atNoRoom := data, end, plan, atNoRoom;
      pos, calls := 0, 0;
    }

    /** Reads behind position at of buff. */
    method Read(buff: array<byte>, at: nat) returns (nr: nat, er: Option<Error>)
      requires at <= buff.Length && pos <= |data|
      modifies this`pos, this`calls, buff
      ensures old(pos) <= pos <= |data| && nr == pos - old(pos) && at + nr <= buff.Length
      ensures buff[..at + nr] == old(buff[..at]) + data[old(pos)..pos]
      ensures nr > 0 <==> at < buff.Length && old(pos) < |data|
      ensures er.Some? ==> er.value == end && pos == |data|
      ensures nr == 0 ==> (er.Some? <==> (if at < buff.Length then pos == |data| else pos == |data| && atNoRoom))
    {
      var (size, early) := plan(calls);
      calls := calls + 1;
      var room := if buff.Length - at < |data| - pos then buff.Length - at else |data| - pos;
      nr := if room == 0 then 0 else 1 + size % room;
      ghost var was := buff[..at];
      forall i | 0 <= i < nr {
        buff[at + i] := data[pos + i];
      }
      assert buff[..at] == was && buff[at..at + nr] == data[pos..pos + nr];
      assert buff[..at + nr] == was + buff[at..at + nr];
      pos := pos + nr;
      var told := if nr > 0 then early else at < buff.Length || atNoRoom;
      er := if pos == |data| && told then Some(end) else None;
    }
  }

  /** What a writer answers to the n-th write, of these bytes: how many it took, and why no more. */
  type Reply = (nat, Bytes) -> (int, Option<Error>)

  /** A writer, free to answer anything; what it has been offered is recorded. */
  class Sink {
    const reply: Reply
    var offered: seq<Bytes>

    constructor (reply: Reply)
      ensures this.reply == reply && offered == []
    {
      this.reply, offered := reply, [];
    }

    /** What it has taken, write by write. */
    function Took(): seq<Bytes>
      reads this
    {
      Taken(reply, offered)
    }

    method Write(b: Bytes) returns (nw: int, ew: Option<Error>)
      modifies this
      ensures (nw, ew) == reply(|old(offered)|, b) && offered == old(offered) + [b]
    {
      var r := reply(|offered|, b);
      nw, ew := r.0, r.1;
      offered := offered + [b];
    }
  }

  /** The front parts taken of the buffers bs; an impossible count counts as none. */
  function Taken(reply: Reply, bs: seq<Bytes>): seq<Bytes> {
    if bs == [] then []
    else
      var b := bs[|bs| - 1];
      After(Taken(reply, bs[..|bs| - 1]), b, Checked(reply(|bs| - 1, b), |b|).0)
  }

  /** A write turned down as too short took something all the same. */
  predicate TookShort(reply: Reply, i: nat, b: Bytes) {
    var (nw, ew) := Checked(reply(i, b), |b|);
    ew == Some(ErrShortBuffer) && nw > 0
  }

  /** How many bytes were taken by such writes; the loop offers them again. */
  function Resent(reply: Reply, bs: seq<Bytes>): nat {
    if bs == [] then 0
    else
      var b := bs[|bs| - 1];
      Resent(reply, bs[..|bs| - 1]) + if TookShort(reply, |bs| - 1, b) then Checked(reply(|bs| - 1, b), |b|).0 else 0
  }

  lemma LogNext(reply: Reply, bs: seq<Bytes>, b: Bytes)
    ensures var nw := Checked(reply(|bs|, b), |b|).0;
      && Taken(reply, bs + [b]) == After(Taken(reply, bs), b, nw)
      && Resent(reply, bs + [b]) == Resent(reply, bs) + if TookShort(reply, |bs|, b) then nw else 0
  {
    assert (bs + [b])[..|bs|] == bs;
  }

  lemma {:induction false} ResentIff(reply: Reply, bs: seq<Bytes>)
    ensures Resent(reply, bs) == 0 <==> forall i :: 0 <= i < |bs| ==> !TookShort(reply, i, bs[i])
  {
    if bs != [] {
      var l := bs[..|bs| - 1];
      ResentIff(reply, l);
      assert forall i :: 0 <= i < |l| ==> l[i] == bs[i];
    }
  }

  /** The answer of a write as the loop goes on with it. */
  function Checked(r: (int, Option<Error>), len: nat): (c: (nat, Option<Error>))
    ensures c.0 <= len
  {
    if r.0 < 0 || len < r.0 then (0, if r.1.None? then Some(InvalidWrite) else r.1) else r
  }

  function After(done: seq<Bytes>, b: Bytes, nw: nat): seq<Bytes>
    requires nw <= |b|
  {
    if nw > 0 then done + [b[..nw]] else done
  }

  /** A write without error takes something; otherwise the loop would offer the same for ever. */
  ghost predicate Progress(reply: Reply) {
    forall i: nat, b: Bytes :: |b| > 0 ==> Progresses(reply, i, b)
  }

  ghost predicate Progresses(reply: Reply, i: nat, b: Bytes) {
    reply(i, b).1.None? ==> reply(i, b).0 != 0
  }

  /** What a packet device answers: exactly the head packet, or why not. */
  function PacketReply(tl: LenFn, b: Bytes): (int, Option<Error>) {
    match CheckPacketLen(tl, b)
    case TooShort => (0, Some(ErrShortBuffer))
    case NoPacket(f) => (0, Some(PacketFault(f)))
    case Framed(_, n) => (n, None)
  }

  ghost predicate TunLike(tl: LenFn, reply: Reply) {
    forall i: nat, b: Bytes :: 0 < |b| <= MAX_UINT16 ==> reply(i, b) == PacketReply(tl, b)
  }

  // ---------------------------------------------------------------- what copying comes to

  function EndOutcome(end: Error): Outcome {
    if end == EOF then Eof else Failed(end)
  }

  /** One job of copying: how lengths are told, all the bytes, how they end. */
  datatype Job = Job(tl: LenFn, data: Bytes, end: Error, atNoRoom: bool)

  /** The packets delivered and the outcome for bytes s, as a function of the bytes alone. */
  ghost function Copied(j: Job, s: Bytes): (seq<Bytes>, Outcome)
    requires Contract(j.tl)
    decreases |s|
  {
    assert Sized(j.tl, s);
    if Wide(j.tl, s, MAX_UINT16) && !(|s| == MAX_UINT16 && j.atNoRoom) then ([], Stalled)
    else match j.tl(s)
      case Short => ([], EndOutcome(j.end))
      case Bad(f) => ([], Failed(PacketFault(f)))
      case Total(n) =>
        var rest := Copied(j, s[n..]);
        ([s[..n]] + rest.0, rest.1)
  }

  ghost predicate Applies(j: Job, reply: Reply) {
    Contract(j.tl) && TunLike(j.tl, reply)
  }

  /** done has been delivered and s is still to go. */
  ghost predicate Halfway(j: Job, done: seq<Bytes>, s: Bytes)
    requires Contract(j.tl)
  {
    Copied(j, j.data) == (done + Copied(j, s).0, Copied(j, s).1)
  }

  /** Every byte that has been read is with the writer or still at hand, but for those the writer got twice. */
  ghost predicate Accounted(j: Job, reply: Reply, bs: seq<Bytes>, rest: Bytes) {
    var done, again := Taken(reply, bs), Resent(reply, bs);
    && |Flatten(done)| + |rest| == |j.data| + again
    && (again == 0 ==> Flatten(done) + rest == j.data)
    && forall i :: 0 <= i < |bs| ==> 0 < |bs[i]| <= MAX_UINT16
  }

  /** After the writes bs, b is in the buffer and more has not been read. */
  ghost predicate Middle(j: Job, reply: Reply, bs: seq<Bytes>, b: Bytes, more: Bytes) {
    && |b| <= MAX_UINT16
    && Accounted(j, reply, bs, b + more)
    && (Applies(j, reply) ==> Halfway(j, Taken(reply, bs), b + more))
  }

  /** After the writes bs, left is given up and more has not been read; nothing happens any more. */
  ghost predicate Final(j: Job, reply: Reply, bs: seq<Bytes>, left: Bytes, more: Bytes, out: Outcome) {
    && |left| <= MAX_UINT16
    && Accounted(j, reply, bs, left + more)
    && (Applies(j, reply) ==> Copied(j, j.data) == (Taken(reply, bs), out))
  }

  /** Exactly then are the bytes conserved: no write turned down as too short has taken any. */
  lemma ConservedIff(j: Job, reply: Reply, bs: seq<Bytes>, left: Bytes, more: Bytes, out: Outcome)
    requires Final(j, reply, bs, left, more, out)
    ensures Flatten(Taken(reply, bs)) + left + more == j.data <==>
              forall i :: 0 <= i < |bs| ==> !TookShort(reply, i, bs[i])
  {
    ResentIff(reply, bs);
    Assoc(Flatten(Taken(reply, bs)), left, more);
  }

  /** What the buffer holds decides what becomes of everything behind it. */
  lemma HeadDecides(j: Job, b: Bytes, more: Bytes)
    requires Contract(j.tl) && |b| <= MAX_UINT16
    ensures j.tl(b).Bad? ==> Copied(j, b + more) == ([], Failed(PacketFault(j.tl(b).fault)))
    ensures j.tl(b).Total? ==> 1 <= j.tl(b).n <= |b|
    ensures j.tl(b).Total? ==> var rest := Copied(j, b[j.tl(b).n..] + more);
              Copied(j, b + more) == ([b[..j.tl(b).n]] + rest.0, rest.1)
  {
    var tl, s := j.tl, b + more;
    assert Sized(tl, b) && Stable(tl, b, more);
    if |s| >= MAX_UINT16 {
      assert s[..MAX_UINT16] == b + s[|b|..MAX_UINT16];
      assert Stable(tl, b, s[|b|..MAX_UINT16]);
    }
    if tl(b).Total? {
      var n := tl(b).n;
      assert s[..n] == b[..n] && s[n..] == b[n..] + more;
    }
  }

  /** One packet taken from the front of the buffer. */
  lemma Delivered(j: Job, done: seq<Bytes>, b: Bytes, more: Bytes)
    requires Contract(j.tl) && |b| <= MAX_UINT16 && j.tl(b).Total? && Halfway(j, done, b + more)
    ensures 1 <= j.tl(b).n <= |b|
    ensures Halfway(j, done + [b[..j.tl(b).n]], b[j.tl(b).n..] + more)
  {
    HeadDecides(j, b, more);
    var n := j.tl(b).n;
    var ps := Copied(j, b[n..] + more).0;
    assert done + ([b[..n]] + ps) == done + [b[..n]] + ps;
  }

  /** The last write failed with this error, its own or that of an impossible count. */
  predicate WriteFailed(reply: Reply, bs: seq<Bytes>, e: Error) {
    && bs != [] && e != ErrShortBuffer
    && var (nw, ew) := reply(|bs| - 1, bs[|bs| - 1]);
       ew == Some(e) || (ew == None && e == InvalidWrite && (nw < 0 || nw > |bs[|bs| - 1]|))
  }

  /** One more write: what it takes, and what then is left to offer. */
  lemma WriteAccount(j: Job, reply: Reply, bs: seq<Bytes>, b: Bytes, more: Bytes)
    requires 0 < |b| <= MAX_UINT16 && Accounted(j, reply, bs, b + more)
    ensures var (nw, ew) := Checked(reply(|bs|, b), |b|);
      Accounted(j, reply, bs + [b], (if ew == Some(ErrShortBuffer) then b else b[nw..]) + more)
  {
    hide Flatten, Taken, Resent;
    LogNext(reply, bs, b);
    var nw, done := Checked(reply(|bs|, b), |b|).0, Taken(reply, bs);
    if nw > 0 { FlattenAdd(done, b[..nw]); }
    Assoc(Flatten(done), b[..nw], b[nw..] + more);
    assert b[..nw] + (b[nw..] + more) == b + more;
  }

  /** What a packet device does with the front of the buffer is what copying comes to. */
  lemma WriteMeaning(j: Job, done: seq<Bytes>, b: Bytes, more: Bytes)
    requires Contract(j.tl) && 0 < |b| <= MAX_UINT16 && Halfway(j, done, b + more)
    ensures var h := CheckPacketLen(j.tl, b);
      && (h.TooShort? ==> j.tl(b) == Short)
      && (h.NoPacket? ==> Copied(j, j.data) == (done, Failed(PacketFault(h.fault))))
      && (h.Framed? ==> 1 <= h.n <= |b| && Halfway(j, After(done, b, h.n), b[h.n..] + more))
  {
    hide Contract, Copied;
    HeadDecides(j, b, more);
    if j.tl(b).Total? { Delivered(j, done, b, more); }
    assert done + [] == done;
  }

  lemma WriteStep(j: Job, reply: Reply, bs: seq<Bytes>, b: Bytes, more: Bytes)
    requires Progress(reply) && 0 < |b| && Middle(j, reply, bs, b, more)
    ensures var (nw, ew) := Checked(reply(|bs|, b), |b|);
      match ew
      case None => nw > 0 && Middle(j, reply, bs + [b], b[nw..], more)
      case Some(e) =>
        if e == ErrShortBuffer then Middle(j, reply, bs + [b], b, more) && (Applies(j, reply) ==> j.tl(b) == Short)
        else Final(j, reply, bs + [b], b[nw..], more, Failed(e))
  {
    hide Contract, Copied, Halfway, Flatten, CheckPacketLen, Accounted, Taken, Resent;
    assert Progresses(reply, |bs|, b);
    WriteAccount(j, reply, bs, b, more);
    LogNext(reply, bs, b);
    if Applies(j, reply) {
      WriteMeaning(j, Taken(reply, bs), b, more);
    }
  }

  /** The end of the data, or no end at all: the buffer is full of the start of one packet. */
  lemma ReadStep(j: Job, reply: Reply, bs: seq<Bytes>, b: Bytes, more: Bytes, er: Option<Error>)
    requires Middle(j, reply, bs, b, more) && (Applies(j, reply) ==> j.tl(b) == Short)
    requires er.Some? ==> er.value == j.end && more == [] && (|b| == MAX_UINT16 ==> j.atNoRoom)
    requires er.None? ==> |b| == MAX_UINT16 && !(more == [] && j.atNoRoom)
    ensures Final(j, reply, bs, b, more, match er case Some(e) => EndOutcome(e) case None => Stalled)
  {
    hide Accounted, Taken, Resent;
    if Applies(j, reply) {
      if |b| == MAX_UINT16 {
        assert (b + more)[..MAX_UINT16] == b;
      }
      if more == [] {
        assert b + more == b;
      }
      assert Taken(reply, bs) + [] == Taken(reply, bs);
    }
  }

  // ---------------------------------------------------------------- the loop

  /**
    Writes the first n bytes of buff until they are gone, turned down as too short, or refused; the
    first offset bytes of buff are kept for the next round.
   */
  method Drain(dst: Sink, buff: array<byte>, n: nat, ghost j: Job, ghost more: Bytes)
    returns (offset: nat, taken: nat, stop: Option<Error>, ghost left: Bytes)
    requires 0 < n <= buff.Length == MAX_UINT16 && Progress(dst.reply)
    requires Middle(j, dst.reply, dst.offered, buff[..n], more)
    modifies dst, buff
    ensures |dst.offered| > |old(dst.offered)|
    ensures taken == |Flatten(dst.Took())| - old(|Flatten(dst.Took())|)
    ensures offset <= n && stop != Some(ErrShortBuffer)
    ensures stop.None? ==> left == buff[..offset] && Middle(j, dst.reply, dst.offered, left, more)
    ensures stop.None? && Applies(j, dst.reply) ==> j.tl(left) == Short
    ensures stop.Some? ==> Final(j, dst.reply, dst.offered, left, more, Failed(stop.value))
    ensures stop.Some? ==> WriteFailed(dst.reply, dst.offered, stop.value)
  {
    hide Middle, Final, Progress, Taken, Resent, Flatten, Contract, TunLike;
    var nr := n;
    taken := 0;
    while true
      invariant 0 < nr <= n && |dst.offered| >= |old(dst.offered)|
      invariant Middle(j, dst.reply, dst.offered, buff[..nr], more)
      invariant taken == |Flatten(dst.Took())| - old(|Flatten(dst.Took())|)
      decreases nr
    {
      ghost var b, bs := buff[..nr], dst.offered;
      WriteStep(j, dst.reply, bs, b, more);
      LogNext(dst.reply, bs, b);
      var nw, ew := dst.Write(buff[..nr]);
      if nw < 0 || nr < nw {
        nw := 0;
        if ew.None? {
          ew := Some(InvalidWrite);
        }
      }
      taken := taken + nw;
      if nw > 0 {
        FlattenAdd(Taken(dst.reply, bs), b[..nw]);
      }
      if ew.Some? {
        if ew.value == ErrShortBuffer {
          return nr, taken, None, b;
        }
        return 0, taken, ew, b[nw..];
      }
      if nr == nw {
        EmptyIsShort(j);
        assert b[nw..] == [] && buff[..0] == [];
        return 0, taken, None, [];
      }
      forall k | 0 <= k < nr - nw {
        buff[k] := buff[nw + k];
      }
      nr := nr - nw;
      assert buff[..nr] == b[nw..];
    }
  }

  lemma EmptyIsShort(j: Job)
    ensures Contract(j.tl) ==> j.tl([]) == Short
  {}

  /**
    Copies until the source ends, the writer fails, or nothing fits. What has been taken and what is left
    are all bytes read unless a write turned down as too short has taken some; and for a writer that takes
    packets, what is taken and how it ends depend on the bytes alone.
   */
  method Copy(dst: Sink, src: Source, ghost tl: LenFn) returns (written: nat, out: Outcome, ghost left: Bytes)
    requires src.pos == 0 && dst.offered == [] && Progress(dst.reply)
    modifies dst, src
    ensures src.pos <= |src.data| && written == |Flatten(dst.Took())|
    ensures src.data != [] ==> dst.offered != []
    ensures out == Eof ==> src.pos == |src.data| && src.end == EOF
    ensures out.Failed? ==>
      || (src.pos == |src.data| && src.end != EOF && out.err == src.end)
      || WriteFailed(dst.reply, dst.offered, out.err)
    ensures out == Stalled ==> |left| == 65535
    ensures Final(Job(tl, src.data, src.end, src.atNoRoom), dst.reply, dst.offered, left, src.data[src.pos..], out)
  {
    hide Middle, Final, Progress, Applies, Flatten, Taken, Resent;
    var buff := new byte[MAX_UINT16](_ => 0);
    var offset: nat := 0;
    ghost var j := Job(tl, src.data, src.end, src.atNoRoom);
    written, left := 0, [];
    Start(j, dst.reply);
    while true
      invariant src.pos <= |src.data| && offset <= MAX_UINT16 && left == buff[..offset]
      invariant written == |Flatten(dst.Took())|
      invariant src.pos > 0 || offset > 0 ==> dst.offered != []
      invariant Middle(j, dst.reply, dst.offered, left, src.data[src.pos..])
      invariant Applies(j, dst.reply) ==> j.tl(left) == Short
      decreases |src.data| - src.pos
    {
      ghost var at := src.pos;
      var nr, er := src.Read(buff, offset);
      if nr > 0 {
        Refill(j, dst.reply, dst.offered, left, at, src.pos);
        nr := nr + offset;
        var taken, stop;
        offset, taken, stop, left := Drain(dst, buff, nr, j, src.data[src.pos..]);
        written := written + taken;
        if stop.Some? {
          return written, Failed(stop.value), left;
        }
        if offset > 0 {
          continue;
        }
      }
      if nr == 0 && er.None? {
        ReadStep(j, dst.reply, dst.offered, left, src.data[src.pos..], er);
        return written, Stalled, left;
      }
      if er.Some? {
        ReadStep(j, dst.reply, dst.offered, left, src.data[src.pos..], er);
        return written, EndOutcome(er.value), left;
      }
    }
  }

  lemma Start(j: Job, reply: Reply)
    ensures Middle(j, reply, [], [], j.data[0..]) && Taken(reply, []) == [] && Flatten([]) == []
    ensures Applies(j, reply) ==> j.tl([]) == Short
  {
    assert [] + ([] + j.data[0..]) == [] + j.data[0..] == j.data[0..] == j.data;
    if Applies(j, reply) {
      assert [] + Copied(j, j.data).0 == Copied(j, j.data).0;
    }
  }

  lemma Refill(j: Job, reply: Reply, bs: seq<Bytes>, b: Bytes, from: nat, to: nat)
    requires from <= to <= |j.data| && |b| + to - from <= MAX_UINT16 && Middle(j, reply, bs, b, j.data[from..])
    ensures Middle(j, reply, bs, b + j.data[from..to], j.data[to..])
  {
    assert b + j.data[from..to] + j.data[to..] == b + j.data[from..];
  }

  /** A writer that takes one byte of every write and calls it too short is sent bytes over and over. */
  method ResendExample() returns (dst: Sink, src: Source, ghost left: Bytes)
    ensures src.pos <= |src.data|
    ensures Flatten(dst.Took()) + left + src.data[src.pos..] != src.data
  {
    dst := new Sink((i, b) => (1, Some(ErrShortBuffer)));
    src := new Source([1, 2], EOF, i => (0, false), false);
    var written, out;
    written, out, left := Copy(dst, src, IpLen);
    ghost var j := Job(IpLen, src.data, EOF, false);
    ConservedIff(j, dst.reply, dst.offered, left, src.data[src.pos..], out);
    assert TookShort(dst.reply, 0, dst.offered[0]);
  }

  /**
    Two copies of the same bytes to packet devices, read in any chunks: the same packets are taken in
    the same order, with the same outcome and the same bytes left over from what both have read.
   */
  lemma ChunksDoNotMatter(j: Job, r1: Reply, r2: Reply, bs1: seq<Bytes>, bs2: seq<Bytes>,
      left1: Bytes, left2: Bytes, more1: Bytes, more2: Bytes, out1: Outcome, out2: Outcome)
    requires Applies(j, r1) && Applies(j, r2)
    requires Final(j, r1, bs1, left1, more1, out1) && Final(j, r2, bs2, left2, more2, out2)
    ensures Taken(r1, bs1) == Taken(r2, bs2) && out1 == out2 && left1 + more1 == left2 + more2
  {
    var n := |Flatten(Taken(r1, bs1))|;
    NothingResent(j, r1, bs1, left1 + more1);
    NothingResent(j, r2, bs2, left2 + more2);
    assert left1 + more1 == j.data[n..] && left2 + more2 == j.data[n..];
  }

  /** A packet device takes nothing of what it calls too short. */
  lemma NothingResent(j: Job, reply: Reply, bs: seq<Bytes>, rest: Bytes)
    requires Applies(j, reply) && Accounted(j, reply, bs, rest)
    ensures Resent(reply, bs) == 0 && Flatten(Taken(reply, bs)) + rest == j.data
  {
    forall i | 0 <= i < |bs| ensures !TookShort(reply, i, bs[i]) {
      assert reply(i, bs[i]) == PacketReply(j.tl, bs[i]);
    }
    ResentIff(reply, bs);
  }

  /** Some packet, or what is left of one, is longer than the buffer. */
  ghost predicate Oversized(j: Job, c: Cut) {
    || (exists i :: 0 <= i < |c.packets| && |c.packets[i]| > MAX_UINT16)
    || (Wide(j.tl, c.tail, MAX_UINT16) && !(|c.tail| == MAX_UINT16 && j.atNoRoom))
  }

  /**
    Copying delivers the packets of the stream, all of them, and loses only an incomplete tail; it
    stalls exactly when something is too long for the buffer, and even then delivers what comes before.
   */
  lemma {:induction false} CopiedIsSplit(j: Job, s: Bytes)
    requires Contract(j.tl)
    ensures Copied(j, s).0 <= Split(j.tl, s).packets
    ensures Copied(j, s).1 == Stalled <==> Oversized(j, Split(j.tl, s))
    ensures !Oversized(j, Split(j.tl, s)) ==>
      && Copied(j, s).0 == Split(j.tl, s).packets
      && Copied(j, s).1 == match Split(j.tl, s).fault
                           case None => EndOutcome(j.end)
                           case Some(f) => Failed(PacketFault(f))
    decreases |s|
  {
    var tl, c := j.tl, Split(j.tl, s);
    assert Sized(tl, s);
    if tl(s).Total? {
      var p, d := s[..tl(s).n], Split(tl, s[tl(s).n..]);
      CopiedIsSplit(j, s[|p|..]);
      assert c.packets == [p] + d.packets && c.tail == d.tail;
      WideHead(tl, s, p, MAX_UINT16);
      OversizedCons(j, p, d);
    }
  }

  /** How copying ends, for a stream that fits: well, with the source's error, or with the fault of the stream. */
  lemma CopyEnds(j: Job, s: Bytes)
    requires Contract(j.tl) && !Oversized(j, Split(j.tl, s))
    ensures Split(j.tl, s).fault == None && j.end == EOF ==> Copied(j, s).1 == Eof
    ensures Split(j.tl, s).fault == None && j.end != EOF ==> Copied(j, s).1 == Failed(j.end)
    ensures Split(j.tl, s).fault != None ==> Copied(j, s).1 == Failed(PacketFault(Split(j.tl, s).fault.value))
  {
    CopiedIsSplit(j, s);
  }

  lemma OversizedCons(j: Job, p: Bytes, d: Cut)
    ensures Oversized(j, d.(packets := [p] + d.packets)) <==> |p| > MAX_UINT16 || Oversized(j, d)
  {
    var ps := [p] + d.packets;
    assert ps[0] == p;
    if exists i :: 0 <= i < |d.packets| && |d.packets[i]| > MAX_UINT16 {
      var i :| 0 <= i < |d.packets| && |d.packets[i]| > MAX_UINT16;
      assert ps[i + 1] == d.packets[i];
    }
    if exists i :: 0 <= i < |ps| && |ps[i]| > MAX_UINT16 {
      var i :| 0 <= i < |ps| && |ps[i]| > MAX_UINT16;
      assert i > 0 ==> ps[i] == d.packets[i - 1];
    }
  }

  /** The largest version 6 packet is complete, valid, and never delivered. */
  lemma StallExample(end: Error, atNoRoom: bool)
    ensures Contract(IpLen) && Split(IpLen, JUMBO) == Cut([JUMBO], [], None)
    ensures Copied(Job(IpLen, JUMBO, end, atNoRoom), JUMBO) == ([], Stalled)
  {
    IpLenContract();
    JumboIsPacket();
    assert JUMBO == JUMBO[..65575] && JUMBO[65575..] == [];
    IpWideIff(JUMBO, MAX_UINT16);
  }
}
