/** The Ethernet header that the TAP build of the driver adds, reads and filters by. */
module EtherFrame {
  import opened Basics
  import opened TunSpec

  const HDRLEN: nat := 14
  const ETHERMTU: nat := 1500

  type Frame = seq<byte>

  /** Network byte order of a 16-bit value. */
  function Htons(n: nat): (r: seq<byte>)
    requires n < 0x10000
    ensures |r| == 2
  {
    [n / 256, n % 256]
  }

  function Header(dest: Mac, src: Mac, etherType: nat): Frame
    requires etherType < 0x10000
  {
    dest + src + Htons(etherType)
  }

  function Dest(f: Frame): Mac
    requires |f| >= HDRLEN
  {
    f[..6]
  }

  function Src(f: Frame): Mac
    requires |f| >= HDRLEN
  {
    f[6..12]
  }

  function EtherType(f: Frame): nat
    requires |f| >= HDRLEN
  {
    (f[12] as int) * 256 + f[13]
  }

  function Payload(f: Frame): Frame
    requires |f| >= HDRLEN
  {
    f[HDRLEN..]
  }

  /** The type field of an outgoing frame: the bound sap, or the length of an 802.3 frame. */
  function SendType(sap: nat, len: nat): (t: nat)
    ensures t < 0x10000
  {
    var t := sap % 0x10000;
    if t <= ETHERMTU || sap == 0 then len % 0x10000 else t
  }

  /** What a unitdata request turns into on the wire. */
  function Encap(sap: nat, dest: Mac, src: Mac, payload: Frame): Frame
  {
    Header(dest, src, SendType(sap, |payload|)) + payload
  }

  predicate Eligible(f: Frame, sap: nat, mine: Mac)
    requires |f| >= HDRLEN
  {
    var t := EtherType(f);
    if t <= ETHERMTU && sap == 0 then true
    else if t != sap then false
    else if Src(f) == mine then false
    else if Dest(f) == mine then true
    else if Dest(f) == BROADCAST then true
    else f[0] % 2 == 1
  }

  const BROADCAST: Mac := [0xff, 0xff, 0xff, 0xff, 0xff, 0xff]

  // ---------------------------------------------------------------- round trip

  lemma HeaderFields(dest: Mac, src: Mac, t: nat, payload: Frame)
    requires t < 0x10000
    ensures var f := Header(dest, src, t) + payload;
            |f| >= HDRLEN && Dest(f) == dest && Src(f) == src && EtherType(f) == t && Payload(f) == payload
  {
    var f := Header(dest, src, t) + payload;
    assert f[12] == t / 256 && f[13] == t % 256;
  }

  /** Every field of a request comes back out of the frame that carries it. */
  lemma EncapRoundTrip(sap: nat, dest: Mac, src: Mac, payload: Frame)
    requires sap <= ETHERTYPE_MAX
    ensures var f := Encap(sap, dest, src, payload);
            && |f| >= HDRLEN && Dest(f) == dest && Src(f) == src && Payload(f) == payload
            && (sap > ETHERMTU ==> EtherType(f) == sap)
            && (sap <= ETHERMTU && |payload| < 0x10000 ==> EtherType(f) == |payload|)
  {
    HeaderFields(dest, src, SendType(sap, |payload|), payload);
  }

  /** Which frames a stream receives, by the bytes of the frame: told with no more than the numbers of IEEE 802. */
  lemma EligibleIff(f: Frame, sap: nat, mine: Mac)
    requires |f| >= 14
    ensures Eligible(f, sap, mine) <==>
      var t := f[12] as int * 256 + f[13];
      || (t <= 1500 && sap == 0)
      || (t == sap && f[6..12] != mine
          && (f[..6] == mine || f[0] % 2 == 1 || f[..6] == [255, 255, 255, 255, 255, 255]))
  {}

  /** Which frames a stream with sap 0 receives: the 802.3 ones, told by their type field alone. */
  lemma EligibleSapZero(f: Frame, mine: Mac)
    requires |f| >= HDRLEN
    ensures Eligible(f, 0, mine) <==> EtherType(f) <= ETHERMTU
  {}

  /** A frame sent with a sap of at most ETHERMTU reaches sap-0 streams exactly if its length fits. */
  lemma LengthFrameIff(sap: nat, dest: Mac, src: Mac, payload: Frame, mine: Mac)
    requires sap <= ETHERMTU
    ensures var f := Encap(sap, dest, src, payload);
            |f| >= HDRLEN && (Eligible(f, 0, mine) <==> |payload| % 0x10000 <= ETHERMTU)
  {
    HeaderFields(dest, src, SendType(sap, |payload|), payload);
    EligibleSapZero(Encap(sap, dest, src, payload), mine);
  }

  /** A typed frame reaches a stream with that sap, by address; and never back to its own source. */
  lemma TypedFrameIff(sap: nat, dest: Mac, src: Mac, payload: Frame, sap': nat, mine: Mac)
    requires ETHERMTU < sap <= ETHERTYPE_MAX
    ensures var f := Encap(sap, dest, src, payload);
            && |f| >= HDRLEN
            && (Eligible(f, sap', mine) <==>
                  sap' == sap && src != mine && (dest == mine || dest == BROADCAST || dest[0] % 2 == 1))
  {
    HeaderFields(dest, src, SendType(sap, |payload|), payload);
  }
}
