/**
  The BSD and macOS tun devices: one record per packet, behind a four-byte address family tag.
 */
module RwBsd {
  import opened Basics
  import opened Packets
  import opened IoCopy

  const TAG_LEN: nat := 4
  const MAX_PACKET_LEN: nat := MAX_UINT16 + TAG_LEN
  const AF_INET: byte := 2

  datatype IoError =
    | Closed
    | File(code: nat)
    | ShortTag
    | ShortBuffer
    | ShortPacket
    | InvalidLength
    | Unreadable(fault: Fault)

  datatype WriteResult = Wrote(n: nat) | NotWritten(err: IoError)
  datatype ReadResult = Packet(bytes: Bytes) | NotRead(err: IoError)

  /** The tag the kernel expects in front of packet p. AF_INET6 differs between the systems. */
  function Tag(afInet6: byte, p: Bytes): Bytes
    requires |p| > 0
  {
    [0, 0, 0, if p[0] / 16 == 4 then AF_INET else afInet6]
  }

  function Record(afInet6: byte, p: Bytes): Bytes
    requires |p| > 0
  {
    Tag(afInet6, p) + p[..Min(|p|, MAX_UINT16)]
  }

  /** What a record means to a reader with so much room. */
  function Decode(tl: LenFn, record: Bytes, room: nat): ReadResult {
    var r := record[..Min(|record|, MAX_PACKET_LEN)];
    if |r| < TAG_LEN then NotRead(ShortTag)
    else
      var p := r[TAG_LEN..];
      if room < |p| then NotRead(ShortBuffer)
      else match tl(p)
        case Short => NotRead(ShortPacket)
        case Bad(f) => NotRead(Unreadable(f))
        case Total(n) => if n != |p| then NotRead(InvalidLength) else Packet(p)
  }

  /** A record byte by byte: three zeros, the address family of the packet's version, the packet. */
  ghost predicate Laid(afInet6: byte, b: Bytes, len: nat, kept: nat, record: Bytes)
    requires 0 < len <= |b|
  {
    && |record| == Min(kept, 4 + Min(len, 65535))
    && forall i :: 0 <= i < |record| ==>
         record[i] == if i < 3 then 0 else if i > 3 then b[i - 4] else if b[0] / 16 == 4 then 2 else afInet6
  }

  lemma RecordLaid(afInet6: byte, b: Bytes, len: nat, kept: nat)
    requires 0 < len <= |b|
    ensures var rec := Record(afInet6, b[..len]); Laid(afInet6, b, len, kept, rec[..Min(kept, |rec|)])
  {}

  /** What is handed out of a record, and why nothing is, condition by condition. */
  ghost predicate ReadAs(tl: LenFn, record: Bytes, room: nat, r: ReadResult) {
    var p := if |record| < 4 then [] else record[4..Min(|record|, 65539)];
    && (r == NotRead(ShortTag) <==> |record| < 4)
    && (r == NotRead(ShortBuffer) <==> |record| >= 4 && room < |p|)
    && (r == NotRead(ShortPacket) <==> |record| >= 4 && room >= |p| && tl(p) == Short)
    && (r.NotRead? && r.err.Unreadable? <==> |record| >= 4 && room >= |p| && tl(p).Bad?)
    && (r.NotRead? && r.err.Unreadable? ==> r.err.fault == tl(p).fault)
    && (r == NotRead(InvalidLength) <==> |record| >= 4 && room >= |p| && tl(p).Total? && tl(p).n != |p|)
    && (r.Packet? <==> |record| >= 4 && room >= |p| && tl(p) == Total(|p|))
    && (r.Packet? ==> r.bytes == p)
  }

  lemma DecodeReads(tl: LenFn, record: Bytes, room: nat)
    ensures ReadAs(tl, record, room, Decode(tl, record, room))
  {
    var r := record[..Min(|record|, MAX_PACKET_LEN)];
    assert |record| >= 4 ==> r[TAG_LEN..] == record[4..Min(|record|, 65539)];
  }

  /** The packet behind the interface: a queue of records to read, and the records written. */
  class TunFile {
    var incoming: seq<Bytes>
    var written: seq<Bytes>

    constructor (incoming: seq<Bytes>)
      ensures this.incoming == incoming && written == []
    {
      this.incoming, written := incoming, [];
    }

    /** One record per read, cut to the room there is. */
    method Read(buff: array<byte>, fail: Option<nat>) returns (n: nat, err: Option<nat>)
      requires incoming != []
      modifies this`incoming, buff
      ensures err == fail
      ensures err.Some? ==> n == 0 && incoming == old(incoming)
      ensures err.None? ==> incoming == old(incoming)[1..] && n == Min(|old(incoming)[0]|, buff.Length)
      ensures err.None? ==> buff[..n] == old(incoming)[0][..n]
    {
      err, n := fail, 0;
      if err.None? {
        var record := incoming[0];
        incoming := incoming[1..];
        n := Min(|record|, buff.Length);
        forall i | 0 <= i < n {
          buff[i] := record[i];
        }
      }
    }

    /** Takes the first kept bytes, all of them unless the file misbehaves. */
    method Write(b: Bytes, kept: nat, fail: Option<nat>) returns (n: nat, err: Option<nat>)
      modifies this`written
      ensures err == fail && n <= |b|
      ensures err.Some? ==> n == 0 && written == old(written)
      ensures err.None? ==> n == Min(kept, |b|) && written == old(written) + [b[..n]]
    {
      err, n := fail, 0;
      if err.None? {
        n := Min(kept, |b|);
        written := written + [b[..n]];
      }
    }
  }

  class TunDevice {
    const tl: LenFn
    const afInet6: byte
    const file: TunFile
    var closed: bool

    constructor (tl: LenFn, afInet6: byte, file: TunFile)
      ensures this.tl == tl && this.afInet6 == afInet6 && this.file == file && !closed
    {
      this.tl, this.afInet6, this.file, closed := tl, afInet6, file, false;
    }

    method Read(b: array<byte>, fail: Option<nat>) returns (r: ReadResult)
      requires file.incoming != []
      modifies file`incoming, b
      ensures closed ==> r == NotRead(Closed) && file.incoming == old(file.incoming)
      ensures !closed && fail.Some? ==> r == NotRead(File(fail.value)) && file.incoming == old(file.incoming)
      ensures !closed && fail.None? ==>
                r == Decode(tl, old(file.incoming)[0], b.Length) && file.incoming == old(file.incoming)[1..]
      ensures !closed && fail.None? ==> ReadAs(tl, old(file.incoming)[0], b.Length, r)
      ensures r.Packet? ==> |r.bytes| <= b.Length && b[..|r.bytes|] == r.bytes
      ensures r.NotRead? ==> b[..] == old(b[..])
    {
      if closed {
        return NotRead(Closed);
      }
      ghost var record := file.incoming[0];
      DecodeReads(tl, record, b.Length);
      var buff := new byte[MAX_PACKET_LEN](_ => 0);
      var n, err := file.Read(buff, fail);
      if err.Some? {
        return NotRead(File(err.value));
      }
      if n < TAG_LEN {
        return NotRead(ShortTag);
      }
      if n > buff.Length {
        return NotRead(InvalidLength);
      }
      var p := buff[TAG_LEN..n];
      assert p == record[..Min(|record|, MAX_PACKET_LEN)][TAG_LEN..];
      if b.Length < |p| {
        return NotRead(ShortBuffer);
      }
      match tl(p) {
        case Short => return NotRead(ShortPacket);
        case Bad(f) => return NotRead(Unreadable(f));
        case Total(total) =>
          if total != |p| {
            return NotRead(InvalidLength);
          }
      }
      forall i | 0 <= i < |p| {
        b[i] := p[i];
      }
      r := Packet(p);
    }

    /** Writes the head packet of b; kept and fail are the file's answer. */
    method Write(b: Bytes, kept: nat, fail: Option<nat>) returns (r: WriteResult)
      requires Contract(tl)
      modifies file`written
      ensures r == WriteReply(tl, closed, b, kept, fail)
      ensures closed ==> r == NotWritten(Closed)
      ensures !closed && tl(b) == Short ==> r == NotWritten(ShortBuffer)
      ensures !closed && tl(b).Bad? ==> r == NotWritten(Unreadable(tl(b).fault))
      ensures !closed && tl(b).Total? && fail.Some? ==> r == NotWritten(File(fail.value))
      ensures closed || !tl(b).Total? || fail.Some? ==> file.written == old(file.written)
      ensures tl(b).Total? ==> 1 <= tl(b).n <= |b|
      ensures !closed && tl(b).Total? && fail.None? ==>
                var rec := Record(afInet6, b[..tl(b).n]);
                file.written == old(file.written) + [rec[..Min(kept, |rec|)]]
      ensures !closed && tl(b).Total? && fail.None? ==>
                r == if kept < 4 then NotWritten(ShortTag) else Wrote(Min(tl(b).n, 65535))
      ensures !closed && tl(b).Total? && fail.None? ==> |file.written| == |old(file.written)| + 1
      ensures !closed && tl(b).Total? && fail.None? ==>
                Laid(afInet6, b, tl(b).n, kept, file.written[|old(file.written)|])
    {
      if closed {
        return NotWritten(Closed);
      }
      var buff := new byte[MAX_PACKET_LEN](_ => 0);
      assert Sized(tl, b);
      match CheckPacketLen(tl, b) {
        case TooShort => return NotWritten(ShortBuffer);
        case NoPacket(f) => return NotWritten(Unreadable(f));
        case Framed(version, lb) =>
          buff[3] := if version == 4 then AF_INET else afInet6;
          var cp := Min(lb, buff.Length - TAG_LEN);
          forall i | 0 <= i < cp {
            buff[TAG_LEN + i] := b[i];
          }
          ghost var all := buff[..];
          assert all[..TAG_LEN] == Tag(afInet6, b[..lb]);
          assert all[TAG_LEN..cp + TAG_LEN] == b[..lb][..cp];
          assert buff[..cp + TAG_LEN] == all[..TAG_LEN] + all[TAG_LEN..cp + TAG_LEN];
          assert buff[..cp + TAG_LEN] == Record(afInet6, b[..lb]);
          RecordLaid(afInet6, b, lb, kept);
          var n, err := file.Write(buff[..cp + TAG_LEN], kept, fail);
          if err.Some? {
            return NotWritten(File(err.value));
          }
          if n < TAG_LEN {
            return NotWritten(ShortTag);
          }
          r := Wrote(cp);
      }
    }
  }

  function WriteReply(tl: LenFn, closed: bool, b: Bytes, kept: nat, fail: Option<nat>): WriteResult {
    if closed then NotWritten(Closed)
    else match CheckPacketLen(tl, b)
      case TooShort => NotWritten(ShortBuffer)
      case NoPacket(f) => NotWritten(Unreadable(f))
      case Framed(_, n) =>
        if fail.Some? then NotWritten(File(fail.value))
        else if kept < TAG_LEN then NotWritten(ShortTag)
        else Wrote(Min(n, MAX_UINT16))
  }

  // ---------------------------------------------------------------- there and back

  /** A packet comes back from its record whole, exactly when it is no longer than the copy buffer. */
  lemma RecordRoundTripIff(tl: LenFn, afInet6: byte, p: Bytes, room: nat)
    requires Contract(tl) && tl(p) == Total(|p|) && room >= |p|
    ensures |p| > 0
    ensures Decode(tl, Record(afInet6, p), room) == Packet(p) <==> |p| <= MAX_UINT16
    ensures |p| > MAX_UINT16 ==> Decode(tl, Record(afInet6, p), room) == NotRead(ShortPacket)
  {
    assert Sized(tl, p);
    var r := Record(afInet6, p);
    assert r[..Min(|r|, MAX_PACKET_LEN)] == r && r[TAG_LEN..] == p[..Min(|p|, MAX_UINT16)];
    if |p| > MAX_UINT16 {
      PrefixShort(tl, p, MAX_UINT16);
    }
  }

  /** The answer of an open device, as a writer gives it. */
  function AsReply(r: WriteResult): (int, Option<Error>) {
    match r
    case Wrote(n) => (n, None)
    case NotWritten(ShortBuffer) => (0, Some(ErrShortBuffer))
    case NotWritten(Unreadable(f)) => (0, Some(PacketFault(f)))
    case NotWritten(_) => (0, Some(Other(0)))
  }

  /** The device's answers, as those of a writer: open, and with a file that takes whole records. */
  function DeviceReply(tl: LenFn): Reply {
    (i, b) => AsReply(WriteReply(tl, false, b, |b| + TAG_LEN, None))
  }

  /** To a caller with a buffer of at most 65535 bytes the device takes exactly the head packet. */
  lemma DeviceIsTunLike(tl: LenFn)
    requires Contract(tl)
    ensures TunLike(tl, DeviceReply(tl)) && Progress(DeviceReply(tl))
  {
    forall i: nat, b: Bytes | 0 < |b| <= MAX_UINT16 ensures DeviceReply(tl)(i, b) == PacketReply(tl, b) {
      assert Sized(tl, b);
    }
    forall i: nat, b: Bytes | |b| > 0 ensures Progresses(DeviceReply(tl), i, b) {
      assert Sized(tl, b);
    }
  }

  predicate NoneEmpty(ps: seq<Bytes>) { forall i :: 0 <= i < |ps| ==> |ps[i]| > 0 }

  function Records(afInet6: byte, ps: seq<Bytes>): seq<Bytes>
    requires NoneEmpty(ps)
  {
    seq(|ps|, i requires 0 <= i < |ps| => Record(afInet6, ps[i]))
  }

  lemma {:induction false} TakenNoneEmpty(reply: Reply, bs: seq<Bytes>)
    ensures NoneEmpty(Taken(reply, bs))
  {
    if bs != [] { TakenNoneEmpty(reply, bs[..|bs| - 1]); }
  }

  lemma NothingTaken(afInet6: byte, reply: Reply)
    ensures NoneEmpty(Taken(reply, [])) && Records(afInet6, Taken(reply, [])) == []
  {}

  /** Makes the writes bs; what the device leaves in its file are the records of what it has taken. */
  method WriteAll(dev: TunDevice, bs: seq<Bytes>)
    requires Contract(dev.tl) && !dev.closed
    requires forall i :: 0 <= i < |bs| ==> 0 < |bs[i]| <= MAX_UINT16
    modifies dev.file`written
    ensures NoneEmpty(Taken(DeviceReply(dev.tl), bs))
    ensures dev.file.written == old(dev.file.written) + Records(dev.afInet6, Taken(DeviceReply(dev.tl), bs))
  {
    hide Contract, DeviceReply, Taken, NoneEmpty, Record;
    ghost var reply, was := DeviceReply(dev.tl), dev.file.written;
    var i := 0;
    TakenNoneEmpty(reply, []);
    NothingTaken(dev.afInet6, reply);
    while i < |bs|
      invariant i <= |bs| && NoneEmpty(Taken(reply, bs[..i]))
      invariant dev.file.written == was + Records(dev.afInet6, Taken(reply, bs[..i]))
    {
      ghost var before := bs[..i];
      TakenNoneEmpty(reply, bs[..i + 1]);
      WriteTakes(dev.tl, dev.afInet6, before, bs[i]);
      assert bs[..i + 1] == before + [bs[i]];
      var _ := dev.Write(bs[i], |bs[i]| + TAG_LEN, None);
      i := i + 1;
    }
    assert bs[..i] == bs;
  }

  lemma RecordsNext(afInet6: byte, ps: seq<Bytes>, p: Bytes)
    requires NoneEmpty(ps) && |p| > 0
    ensures NoneEmpty(ps + [p]) && Records(afInet6, ps + [p]) == Records(afInet6, ps) + [Record(afInet6, p)]
  {}

  lemma DeviceTakes(tl: LenFn, n: nat, b: Bytes)
    requires Contract(tl) && 0 < |b| <= MAX_UINT16
    ensures tl(b).Total? ==> 1 <= tl(b).n <= |b|
    ensures Checked(DeviceReply(tl)(n, b), |b|).0 == if tl(b).Total? then tl(b).n else 0
  {
    assert Sized(tl, b);
  }

  /** One write more adds one record, of the head packet, or none. */
  lemma WriteTakes(tl: LenFn, afInet6: byte, bs: seq<Bytes>, b: Bytes)
    requires Contract(tl) && 0 < |b| <= MAX_UINT16
    ensures tl(b).Total? ==> 1 <= tl(b).n <= |b|
    ensures NoneEmpty(Taken(DeviceReply(tl), bs)) && NoneEmpty(Taken(DeviceReply(tl), bs + [b]))
    ensures Records(afInet6, Taken(DeviceReply(tl), bs + [b])) == Records(afInet6, Taken(DeviceReply(tl), bs))
      + if tl(b).Total? then
          var rec := Record(afInet6, b[..tl(b).n]); [rec[..Min(|b| + TAG_LEN, |rec|)]]
        else []
  {
    hide Contract, DeviceReply, Taken, Records, NoneEmpty, Checked;
    DeviceTakes(tl, |bs|, b);
    TakenNoneEmpty(DeviceReply(tl), bs);
    TakenNoneEmpty(DeviceReply(tl), bs + [b]);
    LogNext(DeviceReply(tl), bs, b);
    if tl(b).Total? {
      var p := b[..tl(b).n];
      RecordsNext(afInet6, Taken(DeviceReply(tl), bs), p);
      var rec := Record(afInet6, p);
      assert |rec| == |p| + TAG_LEN && rec[..Min(|b| + TAG_LEN, |rec|)] == rec;
    } else {
      var rs := Records(afInet6, Taken(DeviceReply(tl), bs));
      assert rs + [] == rs;
    }
  }

  /** What comes back from records of packets that fit. */
  lemma RecordsComeBack(tl: LenFn, afInet6: byte, ps: seq<Bytes>, i: nat)
    requires Contract(tl) && i < |ps|
    requires forall k :: 0 <= k < |ps| ==> tl(ps[k]) == Total(|ps[k]|) && |ps[k]| <= MAX_UINT16
    ensures NoneEmpty(ps) && Decode(tl, Records(afInet6, ps)[i], MAX_UINT16) == Packet(ps[i])
  {
    forall k | 0 <= k < |ps| ensures |ps[k]| > 0 {
      assert Sized(tl, ps[k]);
    }
    RecordRoundTripIff(tl, afInet6, ps[i], MAX_UINT16);
  }

  /**
    Copies a stream into the device. The records then in the file, read back one by one, are the stream's
    packets in order and nothing else: all of them, or, when copying stalls, those before the one that is
    too long.
   */
  method CopyThereAndBack(src: Source, dev: TunDevice) returns (out: Outcome)
    requires src.pos == 0 && Contract(dev.tl) && !dev.closed && dev.file.written == []
    modifies src, dev.file`written
    ensures out == Copied(Job(dev.tl, src.data, src.end, src.atNoRoom), src.data).1
    ensures |dev.file.written| == |Copied(Job(dev.tl, src.data, src.end, src.atNoRoom), src.data).0|
    ensures |dev.file.written| <= |Split(dev.tl, src.data).packets|
    ensures out != Stalled ==> |dev.file.written| == |Split(dev.tl, src.data).packets|
    ensures forall i :: 0 <= i < |dev.file.written| ==>
              Decode(dev.tl, dev.file.written[i], MAX_UINT16) == Packet(Split(dev.tl, src.data).packets[i])
  {
    hide Contract, Final, Copied, Split, DeviceReply, Decode, Oversized, Taken, TunLike, Progress, NoneEmpty;
    ghost var j := Job(dev.tl, src.data, src.end, src.atNoRoom);
    DeviceIsTunLike(dev.tl);
    var sink := new Sink(DeviceReply(dev.tl));
    var written;
    ghost var left;
    written, out, left := Copy(sink, src, dev.tl);
    CopyMeans(j, sink.reply, sink.offered, left, src.data[src.pos..], out);
    WriteAll(dev, sink.offered);
    ghost var took := Taken(sink.reply, sink.offered);
    CopiedIsSplit(j, j.data);
    TakenArePackets(j, sink.reply, sink.offered, took);
    forall i | 0 <= i < |dev.file.written|
      ensures Decode(dev.tl, dev.file.written[i], MAX_UINT16) == Packet(Split(dev.tl, src.data).packets[i])
    {
      RecordsComeBack(dev.tl, dev.afInet6, took, i);
    }
  }

  lemma CopyMeans(j: Job, reply: Reply, bs: seq<Bytes>, left: Bytes, more: Bytes, out: Outcome)
    requires Final(j, reply, bs, left, more, out) && Contract(j.tl) && TunLike(j.tl, reply)
    ensures Copied(j, j.data) == (Taken(reply, bs), out)
    ensures forall i :: 0 <= i < |bs| ==> 0 < |bs[i]| <= MAX_UINT16
  {}

  lemma {:induction false} TakenFit(reply: Reply, bs: seq<Bytes>)
    requires forall i :: 0 <= i < |bs| ==> |bs[i]| <= MAX_UINT16
    ensures forall i :: 0 <= i < |Taken(reply, bs)| ==> |Taken(reply, bs)[i]| <= MAX_UINT16
  {
    if bs != [] { TakenFit(reply, bs[..|bs| - 1]); }
  }

  lemma TakenArePackets(j: Job, reply: Reply, bs: seq<Bytes>, took: seq<Bytes>)
    requires Contract(j.tl) && took == Taken(reply, bs) && took <= Split(j.tl, j.data).packets
    requires forall i :: 0 <= i < |bs| ==> 0 < |bs[i]| <= MAX_UINT16
    ensures forall k :: 0 <= k < |took| ==> j.tl(took[k]) == Total(|took[k]|) && |took[k]| <= MAX_UINT16
  {
    SplitPieces(j.tl, j.data);
    TakenFit(reply, bs);
  }
}
