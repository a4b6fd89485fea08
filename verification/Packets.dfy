/**
  Cutting a byte stream into IP packets. The length of a packet is read from its own header by a
  function that is a parameter here, known only by its contract.
 */
module Packets {
  import opened Basics

  type Bytes = seq<byte>

  datatype Fault = BadVersion | BadHeader

  /** Too little is there yet; or the bytes are no packet; or the head packet's length. */
  datatype Len = Short | Bad(fault: Fault) | Total(n: nat)

  type LenFn = Bytes -> Len

  ghost predicate Sized(tl: LenFn, b: Bytes) {
    tl(b).Total? ==> 1 <= tl(b).n <= |b| && tl(b[..tl(b).n]) == tl(b)
  }

  ghost predicate Stable(tl: LenFn, b: Bytes, more: Bytes) {
    !tl(b).Short? ==> tl(b + more) == tl(b)
  }

  /**
    A length is positive and present; it is told from the head packet's own bytes; and once an answer
    other than Short has been given, more bytes do not change it.
   */
  ghost predicate Contract(tl: LenFn) {
    && tl([]) == Short
    && (forall b :: Sized(tl, b))
    && (forall b, more :: Stable(tl, b, more))
  }

  /** packets are complete; tail is what is left over, which is no packet if fault says so. */
  datatype Cut = Cut(packets: seq<Bytes>, tail: Bytes, fault: Option<Fault>)

  ghost function Split(tl: LenFn, s: Bytes): Cut
    requires Contract(tl)
    decreases |s|
  {
    assert Sized(tl, s);
    match tl(s)
    case Short => Cut([], s, None)
    case Bad(e) => Cut([], s, Some(e))
    case Total(n) =>
      var rest := Split(tl, s[n..]);
      rest.(packets := [s[..n]] + rest.packets)
  }

  function Flatten(ps: seq<Bytes>): Bytes {
    if ps == [] then [] else Flatten(ps[..|ps| - 1]) + ps[|ps| - 1]
  }

  lemma FlattenAdd(ps: seq<Bytes>, p: Bytes)
    ensures Flatten(ps + [p]) == Flatten(ps) + p
  {
    assert (ps + [p])[..|ps|] == ps;
  }

  lemma {:induction false} FlattenCons(p: Bytes, ps: seq<Bytes>)
    ensures Flatten([p] + ps) == p + Flatten(ps)
  {
    if ps == [] {
      FlattenAdd([], p);
      assert [p] + ps == [] + [p];
    } else {
      var l := ps[..|ps| - 1];
      FlattenCons(p, l);
      assert [p] + ps == ([p] + l) + [ps[|ps| - 1]];
      FlattenAdd([p] + l, ps[|ps| - 1]);
      assert p + Flatten(l) + ps[|ps| - 1] == p + (Flatten(l) + ps[|ps| - 1]);
    }
  }

  // ---------------------------------------------------------------- laws of the splitter

  /** What the cut of s is, once the head packet is known. */
  lemma SplitHead(tl: LenFn, s: Bytes)
    requires Contract(tl) && tl(s).Total?
    ensures var n := tl(s).n;
      && 1 <= n <= |s| && s == s[..n] + s[n..]
      && Split(tl, s) == Split(tl, s[n..]).(packets := [s[..n]] + Split(tl, s[n..]).packets)
  {
    assert Sized(tl, s);
  }

  /** Nothing is lost and nothing made up. */
  lemma {:induction false} SplitConserves(tl: LenFn, s: Bytes)
    requires Contract(tl)
    ensures Flatten(Split(tl, s).packets) + Split(tl, s).tail == s
    decreases |s|
  {
    if tl(s).Total? {
      var n := tl(s).n;
      SplitHead(tl, s);
      var r := Split(tl, s[n..]);
      SplitConserves(tl, s[n..]);
      FlattenCons(s[..n], r.packets);
      Assoc(s[..n], Flatten(r.packets), r.tail);
    }
  }

  /** Every piece is exactly one packet, and the tail is not yet one or never will be. */
  lemma {:induction false} SplitPieces(tl: LenFn, s: Bytes)
    requires Contract(tl)
    ensures forall i :: 0 <= i < |Split(tl, s).packets| ==>
              tl(Split(tl, s).packets[i]) == Total(|Split(tl, s).packets[i]|)
    ensures tl(Split(tl, s).tail) == match Split(tl, s).fault case None => Short case Some(e) => Bad(e)
    decreases |s|
  {
    assert Sized(tl, s);
    if tl(s).Total? {
      SplitPieces(tl, s[tl(s).n..]);
    }
  }

  /** Cutting what has arrived and then the rest is cutting everything at once, wherever the boundary lies. */
  lemma {:induction false} SplitAppend(tl: LenFn, a: Bytes, b: Bytes)
    requires Contract(tl)
    ensures var c := Split(tl, a);
            Split(tl, a + b) ==
              if c.fault.Some? then c.(tail := c.tail + b)
              else Split(tl, c.tail + b).(packets := c.packets + Split(tl, c.tail + b).packets)
    decreases |a|
  {
    assert Stable(tl, a, b);
    match tl(a)
    case Short => assert [] + Split(tl, a + b).packets == Split(tl, a + b).packets;
    case Bad(_) =>
    case Total(n) =>
      SplitHead(tl, a);
      SplitHead(tl, a + b);
      SplitAppend(tl, a[n..], b);
      Assoc(a[..n], a[n..], b);
      assert (a + b)[n..] == a[n..] + b && (a + b)[..n] == a[..n];
      hide Contract, Split;
      var c := Split(tl, a[n..]);
      Assoc([a[..n]], c.packets, Split(tl, c.tail + b).packets);
  }

  /** The answer for a packet alone is the answer for anything that starts with it. */
  lemma HeadOnly(tl: LenFn, p: Bytes, rest: Bytes)
    requires Contract(tl) && tl(p) == Total(|p|)
    ensures Split(tl, p + rest) == Split(tl, rest).(packets := [p] + Split(tl, rest).packets)
  {
    assert Stable(tl, p, rest);
    assert (p + rest)[..|p|] == p && (p + rest)[|p|..] == rest;
  }

  /** No proper prefix of a packet has a length. */
  lemma PrefixShort(tl: LenFn, p: Bytes, k: nat)
    requires Contract(tl) && tl(p) == Total(|p|) && k < |p|
    ensures tl(p[..k]) == Short
  {
    assert p[..k] + p[k..] == p;
    assert Stable(tl, p[..k], p[k..]) && Sized(tl, p[..k]);
  }

  /** The head packet of s, if any, does not show within the first cap bytes. */
  predicate Wide(tl: LenFn, s: Bytes, cap: nat) {
    |s| >= cap && tl(s[..cap]).Short?
  }

  lemma WideHead(tl: LenFn, s: Bytes, p: Bytes, cap: nat)
    requires Contract(tl) && p <= s && tl(p) == Total(|p|)
    ensures Wide(tl, s, cap) <==> |p| > cap
  {
    if |p| > cap {
      PrefixShort(tl, p, cap);
      assert s[..cap] == p[..cap];
    } else if |s| >= cap {
      assert s[..cap] == p + s[|p|..cap];
      assert Stable(tl, p, s[|p|..cap]);
    }
  }

  /** Packets glued in front of anything are cut off again just as they were. */
  lemma {:induction false} SplitFlatten(tl: LenFn, ps: seq<Bytes>, w: Bytes)
    requires Contract(tl)
    requires forall i :: 0 <= i < |ps| ==> tl(ps[i]) == Total(|ps[i]|)
    ensures Split(tl, Flatten(ps) + w) == Split(tl, w).(packets := ps + Split(tl, w).packets)
  {
    if ps == [] {
      assert Flatten(ps) + w == w;
    } else {
      var p, rest := ps[0], ps[1..];
      assert ps == [p] + rest;
      SplitFlatten(tl, rest, w);
      FlattenCons(p, rest);
      HeadOnly(tl, p, Flatten(rest) + w);
      hide Contract, Split, Flatten;
      Assoc(p, Flatten(rest), w);
      Assoc([p], rest, Split(tl, w).packets);
    }
  }

  // ---------------------------------------------------------------- the framing decision

  datatype Framing = Framed(version: nat, n: nat) | TooShort | NoPacket(fault: Fault)

  /** What stands at the front of b, before it is written out. */
  function CheckPacketLen(tl: LenFn, b: Bytes): Framing {
    match tl(b)
    case Total(n) => Framed(if |b| > 0 then b[0] / 16 else 0, n)
    case Short => TooShort
    case Bad(f) => NoPacket(f)
  }

  /** The head packet is framed alike in front of anything, and no proper prefix of it is. */
  lemma FramingOfHead(tl: LenFn, p: Bytes, rest: Bytes, k: nat)
    requires Contract(tl) && tl(p) == Total(|p|) && k < |p|
    ensures CheckPacketLen(tl, p + rest) == Framed(p[0] / 16, |p|)
    ensures CheckPacketLen(tl, p[..k]) == TooShort
  {
    assert Stable(tl, p, rest);
    PrefixShort(tl, p, k);
  }

  // ---------------------------------------------------------------- lengths as the standards define them

  const IP4HDR: nat := 20
  const IP6HDR: nat := 40

  /** Section 3.1 of RFC 791 and section 3 of RFC 8200. */
  function IpLen(b: Bytes): Len {
    if b == [] then Short
    else if b[0] / 16 == 4 then
      if |b| < IP4HDR then Short
      else
        var n := b[2] as int * 256 + b[3];
        if n < IP4HDR then Bad(BadHeader) else if |b| < n then Short else Total(n)
    else if b[0] / 16 == 6 then
      if |b| < IP6HDR then Short
      else
        var n := IP6HDR + b[4] as int * 256 + b[5];
        if |b| < n then Short else Total(n)
    else Bad(BadVersion)
  }

  lemma IpLenContract()
    ensures Contract(IpLen)
  {
    forall b ensures Sized(IpLen, b) {}
    forall b, more ensures Stable(IpLen, b, more) {
      assert b != [] ==> (b + more)[0] == b[0];
      assert |b| >= 4 ==> (b + more)[2] == b[2] && (b + more)[3] == b[3];
      assert |b| >= 6 ==> (b + more)[4] == b[4] && (b + more)[5] == b[5];
    }
  }

  /** What is told of any bytes, by version, length fields and number. */
  lemma IpLenIff(b: Bytes)
    ensures var four, six := b != [] && b[0] / 16 == 4, b != [] && b[0] / 16 == 6;
      && (IpLen(b) == Bad(BadVersion) <==> b != [] && !four && !six)
      && (IpLen(b) == Bad(BadHeader) <==> four && |b| >= 20 && b[2] as int * 256 + b[3] < 20)
      && (four && IpLen(b).Total? <==> four && |b| >= 20 && 20 <= b[2] as int * 256 + b[3] <= |b|)
      && (four && IpLen(b).Total? ==> IpLen(b).n == b[2] as int * 256 + b[3])
      && (six && IpLen(b).Total? <==> six && |b| >= 40 && 40 + b[4] as int * 256 + b[5] <= |b|)
      && (six && IpLen(b).Total? ==> IpLen(b).n == 40 + b[4] as int * 256 + b[5])
  {}

  /** A buffer of 65535 bytes or more is too small for a head packet of version 6 only, by its payload length. */
  lemma IpWideIff(s: Bytes, cap: nat)
    requires cap >= 65535
    ensures Wide(IpLen, s, cap) <==> |s| >= cap && s[0] / 16 == 6 && IP6HDR + s[4] as int * 256 + s[5] > cap
  {
    if |s| >= cap {
      var b := s[..cap];
      assert b[0] == s[0] && b[2] == s[2] && b[3] == s[3] && b[4] == s[4] && b[5] == s[5];
    }
  }

  /** The longest packet that version 6 allows. */
  const JUMBO: Bytes := seq(65575, i => if i == 0 then 0x60 else if i == 4 || i == 5 then 0xff else 0)

  lemma JumboIsPacket()
    ensures |JUMBO| == 65575 && IpLen(JUMBO) == Total(65575)
  {}
}
