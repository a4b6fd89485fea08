/** Small shared vocabulary: optional values, octets, and facts about lists without repetition. */
module Basics {

  datatype Option<+T> = None | Some(value: T)

  function Bit(b: bool): nat { if b then 1 else 0 }

  function Min(a: nat, b: nat): nat { if a < b then a else b }

  type byte = x: int | 0 <= x < 256

  ghost predicate NoDup<T>(s: seq<T>) {
    forall i, j :: 0 <= i < j < |s| ==> s[i] != s[j]
  }

  lemma Assoc<T>(a: seq<T>, b: seq<T>, c: seq<T>)
    ensures a + b + c == a + (b + c)
  {}

  lemma Slices<T>(s: seq<T>, lo: nat, hi: nat, n: nat)
    requires lo <= hi <= |s| && n <= hi - lo
    ensures s[lo..hi][..n] == s[lo..lo + n] && s[lo..hi][n..] == s[lo + n..hi]
  {}

  /** Drops the first occurrence of x, keeping the order of the rest. */
  function Remove<T(==)>(s: seq<T>, x: T): seq<T> {
    if s == [] then []
    else if s[0] == x then s[1..]
    else [s[0]] + Remove(s[1..], x)
  }

  /** Removing at a known position of a list without repetition. */
  lemma {:induction false} RemoveAt<T>(s: seq<T>, k: nat)
    requires NoDup(s) && k < |s|
    ensures Remove(s, s[k]) == s[..k] + s[k + 1..]
  {
    if k == 0 {
    } else {
      assert s[1..][k - 1] == s[k];
      RemoveAt(s[1..], k - 1);
      assert s[1..][..k - 1] == s[1..k] && s[1..][k..] == s[k + 1..];
      assert s[..k] + s[k + 1..] == [s[0]] + (s[1..k] + s[k + 1..]);
    }
  }

  /** What is left after a removal is everything else, still without repetition. */
  lemma RemoveRest<T>(s: seq<T>, x: T)
    requires NoDup(s)
    ensures NoDup(Remove(s, x))
    ensures forall y :: y in Remove(s, x) <==> y in s && y != x
    ensures x !in s ==> Remove(s, x) == s
  {
    if x in s {
      var k :| 0 <= k < |s| && s[k] == x;
      RemoveAt(s, k);
      hide Remove;
      CutOut(s, k);
    } else {
      RemoveAbsent(s, x);
    }
  }

  lemma CutOut<T>(s: seq<T>, k: nat)
    requires NoDup(s) && k < |s|
    ensures NoDup(s[..k] + s[k + 1..])
    ensures forall y :: y in s[..k] + s[k + 1..] <==> y in s && y != s[k]
  {
    var r := s[..k] + s[k + 1..];
    forall y | y in s && y != s[k] ensures y in r {
      var j :| 0 <= j < |s| && s[j] == y;
      assert r[if j < k then j else j - 1] == y;
    }
  }

  lemma {:induction false} RemoveAbsent<T>(s: seq<T>, x: T)
    requires x !in s
    ensures Remove(s, x) == s
  {
    if s != [] {
      RemoveAbsent(s[1..], x);
    }
  }

  /** Inserting a new element anywhere keeps a list without repetition. */
  lemma InsertNew<T>(s: seq<T>, k: nat, x: T)
    requires NoDup(s) && x !in s && k <= |s|
    ensures NoDup(s[..k] + [x] + s[k..])
    ensures forall y :: y in s[..k] + [x] + s[k..] <==> y in s || y == x
  {
    var r := s[..k] + [x] + s[k..];
    forall y ensures y in r <==> y in s || y == x {
      if y in s {
        var i :| 0 <= i < |s| && s[i] == y;
        assert r[if i < k then i else i + 1] == y;
      }
      assert r[k] == x;
    }
  }
}
