/**
  From an interface name to a PPA and back: the client parses "tun" and a number, asks the driver for
  that PPA, and names the interface after the answer.
 */
module TunName {
  import opened Basics
  import opened TunSpec
  import D = TunDriver
  import TunStore

  const IFNAMSIZ: nat := 16
  const PREFIX: string := "tun"

  datatype NameError = TooLong | Invalid | BadNumber
  datatype Index = Index(ppa: int) | BadName(err: NameError)

  predicate Digit(c: char) { '0' <= c <= '9' }

  predicate AllDigits(s: string) { forall i :: 0 <= i < |s| ==> Digit(s[i]) }

  /** The number that a run of digits spells. */
  function Val(s: string): nat
    requires AllDigits(s)
  {
    if s == [] then 0 else 10 * Val(s[..|s| - 1]) + (s[|s| - 1] as int - '0' as int)
  }

  /** How %d prints a number. */
  function Dec(n: nat): (s: string)
    ensures |s| > 0 && AllDigits(s)
  {
    var d := [('0' as int + n % 10) as char];
    if n < 10 then d else Dec(n / 10) + d
  }

  function Pow10(k: nat): nat { if k == 0 then 1 else 10 * Pow10(k - 1) }

  // ---------------------------------------------------------------- parsing

  /** Where the digits at the end of s start. */
  function DigitsFrom(s: string): (k: nat)
    ensures k <= |s| && AllDigits(s[k..]) && (k > 0 ==> !Digit(s[k - 1]))
  {
    if s == [] || !Digit(s[|s| - 1]) then |s|
    else
      var k := DigitsFrom(s[..|s| - 1]);
      assert s[k..] == s[..|s| - 1][k..] + [s[|s| - 1]];
      k
  }

  /** The number behind an interface name; no name asks for any free PPA. */
  method GetTunIndex(name: string) returns (r: Index)
    ensures r == TunIndex(name)
  {
    if |name| == 0 {
      return Index(-1);
    }
    if |name| >= IFNAMSIZ {
      return BadName(TooLong);
    }
    if !(PREFIX <= name) {
      return BadName(Invalid);
    }
    var firstDigit := IndexDigit(name);
    if firstDigit == -1 {
      return BadName(Invalid);
    }
    if firstDigit == 0 {
      return BadName(Invalid);
    }
    var lastNonDigit := LastNonDigit(name);
    if lastNonDigit == |name| - 1 {
      return BadName(BadNumber);
    }
    r := Index(Val(name[lastNonDigit + 1..]));
  }

  method LastNonDigit(name: string) returns (last: int)
    ensures -1 <= last < |name| && last + 1 == DigitsFrom(name)
  {
    last := -1;
    var i := |name| - 1;
    assert name[..i + 1] == name;
    while i >= 0
      invariant -1 <= i < |name| && last == -1
      invariant DigitsFrom(name) == DigitsFrom(name[..i + 1])
    {
      assert name[..i + 1][..i] == name[..i];
      if !Digit(name[i]) {
        last := i;
        break;
      }
      i := i - 1;
    }
  }

  method IndexDigit(s: string) returns (k: int)
    ensures -1 <= k < |s|
    ensures k == -1 ==> forall i :: 0 <= i < |s| ==> !Digit(s[i])
    ensures k >= 0 ==> Digit(s[k]) && forall i :: 0 <= i < k ==> !Digit(s[i])
  {
    k := 0;
    while k < |s|
      invariant 0 <= k <= |s|
      invariant forall i :: 0 <= i < k ==> !Digit(s[i])
    {
      if Digit(s[k]) {
        return;
      }
      k := k + 1;
    }
    k := -1;
  }

  function TunIndex(name: string): Index {
    if name == [] then Index(-1)
    else if |name| >= IFNAMSIZ then BadName(TooLong)
    else if !(PREFIX <= name) || forall i :: 0 <= i < |name| ==> !Digit(name[i]) then BadName(Invalid)
    else if DigitsFrom(name) == |name| then BadName(BadNumber)
    else Index(Val(name[DigitsFrom(name)..]))
  }

  /** Exactly these names are accepted; what stands between the prefix and the last digits does not matter. */
  lemma AcceptedIff(name: string)
    requires name != []
    ensures TunIndex(name).Index? <==> |name| < IFNAMSIZ && PREFIX <= name && Digit(name[|name| - 1])
  {}

  /** Why a name is turned down. */
  lemma RefusedNameIff(name: string)
    ensures TunIndex("") == Index(-1)
    ensures TunIndex(name) == BadName(TooLong) <==> |name| >= 16
    ensures TunIndex(name) == BadName(Invalid) <==>
      name != "" && |name| < 16 && (!("tun" <= name) || forall i :: 0 <= i < |name| ==> !Digit(name[i]))
    ensures TunIndex(name) == BadName(BadNumber) <==>
      |name| < 16 && "tun" <= name && (exists i :: 0 <= i < |name| && Digit(name[i])) && !Digit(name[|name| - 1])
  {}

  // ---------------------------------------------------------------- numbers

  lemma {:induction false} ValDec(n: nat)
    ensures Val(Dec(n)) == n
  {
    var d := [('0' as int + n % 10) as char];
    if n < 10 {
      assert d[..0] == [];
    } else {
      ValDec(n / 10);
      assert (Dec(n / 10) + d)[..|Dec(n)| - 1] == Dec(n / 10);
    }
  }

  lemma {:induction false} ValBound(s: string)
    requires AllDigits(s)
    ensures Val(s) < Pow10(|s|)
  {
    if s != [] {
      ValBound(s[..|s| - 1]);
    }
  }

  predicate NoLeadingZero(s: string) { |s| > 0 && (|s| > 1 ==> s[0] != '0') }

  lemma {:induction false} DecVal(s: string)
    requires AllDigits(s) && NoLeadingZero(s)
    ensures Dec(Val(s)) == s
    ensures s[0] != '0' ==> Val(s) > 0
  {
    var l, c := s[..|s| - 1], s[|s| - 1];
    assert s == l + [c];
    if l == [] {
      assert Val(l) == 0;
    } else {
      DecVal(l);
      assert Val(s) / 10 == Val(l) && Val(s) % 10 == c as int - '0' as int;
    }
  }

  lemma {:induction false} DecNoLeadingZero(n: nat)
    ensures NoLeadingZero(Dec(n))
    ensures n > 0 ==> Dec(n)[0] != '0'
  {
    if n >= 10 {
      DecNoLeadingZero(n / 10);
    }
  }

  lemma {:induction false} DecLength(n: nat, k: nat)
    requires n < Pow10(k) && k > 0
    ensures |Dec(n)| <= k
  {
    if n >= 10 {
      DecLength(n / 10, k - 1);
    }
  }

  // ---------------------------------------------------------------- names and numbers

  function TunNameOf(n: nat): string { PREFIX + Dec(n) }

  lemma {:induction false} DigitsFromEnd(a: string, d: string)
    requires AllDigits(d) && (a == [] || !Digit(a[|a| - 1]))
    ensures DigitsFrom(a + d) == |a|
  {
    if d == [] {
      assert a + d == a;
    } else {
      DigitsFromEnd(a, d[..|d| - 1]);
      assert (a + d)[..|a + d| - 1] == a + d[..|d| - 1];
    }
  }

  /** Parsing a printed name gives the number back, for every PPA there can be. */
  lemma NameRoundTrip(n: nat)
    requires n < TUNMAXPPA
    ensures TunIndex(TunNameOf(n)) == Index(n)
  {
    var d := Dec(n);
    DecLength(n, 4);
    ValDec(n);
    DigitsFromEnd(PREFIX, d);
    var name := PREFIX + d;
    assert PREFIX <= name && Digit(name[3]) && name[3..] == d;
  }

  /** An accepted name is the one its number prints exactly if it is the prefix and a plain number. */
  lemma PrintedIff(name: string)
    requires name != [] && TunIndex(name).Index?
    ensures TunIndex(name).ppa >= 0
    ensures TunNameOf(TunIndex(name).ppa) == name <==> AllDigits(name[3..]) && NoLeadingZero(name[3..])
  {
    var k := DigitsFrom(name);
    var n := Val(name[k..]);
    if AllDigits(name[3..]) && NoLeadingZero(name[3..]) {
      assert name == PREFIX + name[3..] && !Digit(PREFIX[2]);
      DigitsFromEnd(PREFIX, name[3..]);
      DecVal(name[3..]);
    }
    if TunNameOf(n) == name {
      assert name[3..] == Dec(n);
      DecNoLeadingZero(n);
    }
  }

  /** Two names that are accepted and reported as a third. */
  lemma OtherNameExample()
    ensures TunIndex("tun007") == TunIndex("tunX7") == Index(7) && TunNameOf(7) == "tun7"
  {
    assert "tun007" == PREFIX + "007" && "tunX7" == "tunX" + "7";
    DigitsFromEnd(PREFIX, "007");
    DigitsFromEnd("tunX", "7");
    assert "tun007"[3..] == "007" && "tunX7"[4..] == "7" && Digit("tun007"[3]) && Digit("tunX7"[4]);
    assert "007"[..2] == "00" && "00"[..1] == "0" && "0"[..0] == "" && "7"[..0] == "";
    assert Val("7") == 7 && Val("0") == 0 && Val("00") == 0 && Val("007") == 7;
  }

  /** The number never outgrows a 64-bit int. */
  lemma IndexFits(name: string)
    requires TunIndex(name).Index?
    ensures -1 <= TunIndex(name).ppa < 0x8000_0000_0000_0000
  {
    if name != [] {
      var d := name[DigitsFrom(name)..];
      ValBound(d);
      PowMono(|d|, 15);
      assert Pow10(15) < 0x8000_0000_0000_0000 by { PowTen15(); }
    }
  }

  lemma {:induction false} PowMono(a: nat, b: nat)
    requires a <= b
    ensures Pow10(a) <= Pow10(b)
    decreases b - a
  {
    if a < b { PowMono(a, b - 1); }
  }

  lemma PowTen15()
    ensures Pow10(15) == 1_000_000_000_000_000
  {
    assert Pow10(5) == 100_000;
    assert Pow10(10) == 10_000_000_000;
  }

  // ---------------------------------------------------------------- asking the driver

  /** The driver reads the request as a 32-bit int. */
  function AsInt32(n: int): int {
    var m := n % 0x1_0000_0000;
    if m < 0x8000_0000 then m else m - 0x1_0000_0000
  }

  lemma AsInt32Iff(n: int, m: int)
    ensures AsInt32(n) == m <==> -0x8000_0000 <= m < 0x8000_0000 && (n - m) % 0x1_0000_0000 == 0
  {}

  datatype Opened = Opened(ppa: int) | Exists | Refused(err: Errno) | Mismatch

  /** The answer to asking for ppa, or for any with -1. */
  function NewPpaAnswer(v: View, ppa: int, alloc: bool): Opened {
    match NewPpaReply(v, AsInt32(ppa), alloc)
    case Nak(e) => if e == EEXIST then Exists else Refused(e)
    case Ack(sk) => if ppa > -1 && ppa != sk then Mismatch else Opened(sk)
  }

  method TunNewPPA(drv: D.Driver, q: Qid, ppa: int, alloc: bool) returns (r: Opened)
    requires drv.Valid() && q in drv.qptr
    modifies drv`store, drv`view, drv.table, drv.qptr[q]
    ensures drv.Tied(drv.store) && q in old(drv.view).strs
    ensures r == NewPpaAnswer(old(drv.view), ppa, alloc)
    ensures TunStore.NewPpaClean(old(drv.view), q, AsInt32(ppa), alloc) ==>
              drv.Valid() && drv.view == NewPpaStep(old(drv.view), q, AsInt32(ppa), alloc, drv.localMac)
  {
    var reply := drv.NewPpa(q, AsInt32(ppa), alloc);
    if reply.Nak? {
      return if reply.err == EEXIST then Exists else Refused(reply.err);
    }
    if ppa > -1 && ppa != reply.ret {
      return Mismatch;
    }
    r := Opened(reply.ret);
  }

  /** Opening under a name: the PPA is the one asked for and, for a plain name, the name too. */
  lemma OpenReportsName(v: View, name: string, alloc: bool)
    requires TunIndex(name).Index? && NewPpaAnswer(v, TunIndex(name).ppa, alloc).Opened?
    ensures var n := NewPpaAnswer(v, TunIndex(name).ppa, alloc).ppa;
      && 0 <= n < TUNMAXPPA && n !in v.table
      && (name == [] ==> forall j :: 0 <= j < n ==> j in v.table)
      && (name != [] ==> n == TunIndex(name).ppa)
      && (name != [] ==> (TunNameOf(n) == name <==> AllDigits(name[3..]) && NoLeadingZero(name[3..])))
  {
    if name != [] {
      PrintedIff(name);
    }
  }

  /** Why opening fails, for every accepted name; a number too wide for the driver is never taken for another. */
  lemma OpenFailsIff(v: View, name: string, alloc: bool)
    requires TunIndex(name).Index?
    ensures var ppa := TunIndex(name).ppa; var r := NewPpaAnswer(v, ppa, alloc);
      && (name == [] && alloc ==> (r.Opened? <==> exists i :: 0 <= i < TUNMAXPPA && i !in v.table))
      && (name == [] ==> r != Mismatch && r != Exists)
      && (0 <= ppa < TUNMAXPPA ==> (r == Exists <==> ppa in v.table))
      && (0 <= ppa < TUNMAXPPA && alloc ==> (r == Opened(ppa) <==> ppa !in v.table))
      && (ppa >= TUNMAXPPA ==> !r.Opened?)
      && (name == [] && !r.Opened? ==> r == Refused(ENOMEM))
      && (0 <= ppa < TUNMAXPPA && !r.Opened? && r != Exists ==> r == Refused(ENOMEM))
  {
    hide TunIndex, Digit, Val, Dec, DigitsFrom, NewPpaAnswer;
    IndexSign(name);
    AnswerToAny(v, alloc);
    if name != [] {
      AnswerToOne(v, TunIndex(name).ppa, alloc);
    }
  }

  lemma IndexSign(name: string)
    requires TunIndex(name).Index?
    ensures if name == [] then TunIndex(name).ppa == -1 else TunIndex(name).ppa >= 0
  {}

  lemma AnswerToAny(v: View, alloc: bool)
    ensures var r := NewPpaAnswer(v, -1, alloc);
      && r != Mismatch && r != Exists
      && (alloc ==> (r.Opened? <==> exists i :: 0 <= i < TUNMAXPPA && i !in v.table))
      && (!r.Opened? ==> r == Refused(ENOMEM))
  {
    assert AsInt32(-1) == -1;
    if i :| 0 <= i < TUNMAXPPA && i !in v.table {
      assert LeastFree(v, 0).Some?;
    }
  }

  lemma AnswerToOne(v: View, ppa: nat, alloc: bool)
    ensures var r := NewPpaAnswer(v, ppa, alloc);
      && (ppa < TUNMAXPPA ==> (r == Exists <==> ppa in v.table))
      && (ppa < TUNMAXPPA && alloc ==> (r == Opened(ppa) <==> ppa !in v.table))
      && (ppa >= TUNMAXPPA ==> !r.Opened?)
      && (ppa < TUNMAXPPA && !r.Opened? && r != Exists ==> r == Refused(ENOMEM))
  {
    assert ppa < TUNMAXPPA ==> AsInt32(ppa) == ppa;
  }

  /** A number too wide for the driver makes it take another PPA, and the client give up. */
  lemma WideNumberExample()
    ensures TunIndex("tun4294967301") == Index(0x1_0000_0005)
    ensures NewPpaAnswer(EMPTY_VIEW, 0x1_0000_0005, true) == Mismatch
    ensures NewPpaSlot(EMPTY_VIEW, AsInt32(0x1_0000_0005)) == Ack(5)
  {
    WideNumber();
    AsInt32Iff(0x1_0000_0005, 5);
    hide TunIndex, AsInt32;
  }

  lemma WideNumber()
    ensures TunIndex("tun4294967301") == Index(0x1_0000_0005)
  {
    hide Dec, Val, DigitsFrom;
    var name, d := "tun4294967301", "4294967301";
    DecWide();
    ValDec(0x1_0000_0005);
    DigitsFromEnd(PREFIX, d);
    assert name == PREFIX + d && name[3..] == d && Digit(name[3]);
  }

  lemma DecWide()
    ensures Dec(0x1_0000_0005) == "4294967301"
  {
    assert Dec(4294) == "4294";
    assert Dec(429496) == "429496";
    assert Dec(42949673) == "42949673";
  }
}
