/** What several parts of the system have in common. */
module Basics {
  type Byte = x: int | 0 <= x < 256

  function Min(a: int, b: int): (m: int) { if a < b then a else b }

  function Max(a: int, b: int): (m: int) { if a > b then a else b }

  /** No element is listed twice. */
  predicate NoDups(s: seq<nat>) {
    forall i, j :: 0 <= i < j < |s| ==> s[i] != s[j]
  }

  /** The numbers below n. */
  function UpTo(n: nat): (s: set<nat>) { if n == 0 then {} else UpTo(n - 1) + {n - 1} }

  lemma {:induction false} UpToIs(n: nat)
    ensures |UpTo(n)| == n && forall e: nat :: e in UpTo(n) <==> e < n
  {
    if n > 0 {
      UpToIs(n - 1);
      assert n - 1 !in UpTo(n - 1);
    }
  }

  /** s without the first x. */
  function Remove(s: seq<nat>, x: nat): (r: seq<nat>)
    ensures forall y :: y in r ==> y in s
  {
    if s == [] then [] else if s[0] == x then s[1..] else [s[0]] + Remove(s[1..], x)
  }

  lemma {:induction false} RemoveKeeps(s: seq<nat>, x: nat)
    requires NoDups(s)
    ensures NoDups(Remove(s, x)) && forall y :: y in Remove(s, x) <==> y in s && y != x
  {
    if s != [] && s[0] != x {
      RemoveKeeps(s[1..], x);
      var r := Remove(s[1..], x);
      assert forall y :: y in s <==> y == s[0] || y in s[1..];
      assert forall y :: y in [s[0]] + r <==> y == s[0] || y in r;
      forall i, j | 0 <= i < j < |[s[0]] + r|
        ensures ([s[0]] + r)[i] != ([s[0]] + r)[j]
      {
        if i == 0 { assert r[j - 1] in r; }
      }
    } else if s != [] {
      assert forall y :: y in s <==> y == s[0] || y in s[1..];
    }
  }

  lemma SubsetCard(a: set<nat>, b: set<nat>)
    requires a <= b
    ensures |a| <= |b|
  {
    assert b == a + (b - a);
  }

  /** A rectangle, as GRECT. */
  datatype Rect = Rect(x: int, y: int, w: int, h: int)
}
