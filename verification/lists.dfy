/** Order-preserving operations on the id lists the channel manager keeps. */
module Lists {

  /** No value occurs twice. */
  predicate NoDup<T(==)>(s: seq<T>)
  {
    forall i, j :: 0 <= i < j < |s| ==> s[i] != s[j]
  }

  /** `s.findIndex(y => y === x)`: the first position holding `x`, or -1. */
  function IndexOf<T(==)>(s: seq<T>, x: T): (i: int)
    ensures -1 <= i < |s|
    ensures i == -1 <==> x !in s
    ensures 0 <= i ==> s[i] == x && x !in s[..i]
  {
    if s == [] then -1
    else if s[0] == x then 0
    else
      var k := IndexOf(s[1..], x);
      assert 0 <= k ==> s[..k + 1] == [s[0]] + s[1..][..k];
      if k == -1 then -1 else k + 1
  }

  /** `s.filter(y => y !== x)`: every occurrence of `x` removed, the rest in order. */
  function Without<T(==)>(s: seq<T>, x: T): (r: seq<T>)
    ensures forall y :: y in r ==> y in s && y != x
    ensures forall y :: y in s && y != x ==> y in r
    ensures |r| <= |s|
    ensures x !in s ==> r == s
  {
    if s == [] then []
    else if s[0] == x then Without(s[1..], x)
    else
      assert s == [s[0]] + s[1..];
      [s[0]] + Without(s[1..], x)
  }

  /** Removing `x` distributes over concatenation, so the order of the other
      values is kept. */
  lemma {:induction false} WithoutAppend<T>(s: seq<T>, t: seq<T>, x: T)
    ensures Without(s + t, x) == Without(s, x) + Without(t, x)
  {
    if s != [] {
      WithoutAppend(s[1..], t, x);
      assert (s + t)[1..] == s[1..] + t;
    } else {
      assert s + t == t;
    }
  }

  /** Removing one occurrence of `x` and then all of them is removing all of them. */
  lemma {:induction false} WithoutRemoveAt<T>(s: seq<T>, i: nat, x: T)
    requires i < |s| && s[i] == x
    ensures Without(s[..i] + s[i + 1..], x) == Without(s, x)
  {
    var tail := [x] + s[i + 1..];
    assert s == s[..i] + tail;
    assert tail[1..] == s[i + 1..];
    assert Without(tail, x) == Without(s[i + 1..], x);
    WithoutAppend(s[..i], s[i + 1..], x);
    WithoutAppend(s[..i], tail, x);
  }

  /** Removing `x` keeps the multiplicity of every other value. */
  lemma {:induction false} WithoutMultiset<T>(s: seq<T>, x: T)
    ensures multiset(Without(s, x)) == multiset(s)[x := 0]
  {
    if s != [] {
      WithoutMultiset(s[1..], x);
      assert s == [s[0]] + s[1..];
    }
  }

  lemma {:induction false} WithoutNoDup<T>(s: seq<T>, x: T)
    requires NoDup(s)
    ensures NoDup(Without(s, x))
  {
    var r := Without(s, x);
    WithoutMultiset(s, x);
    forall i, j | 0 <= i < j < |r| ensures r[i] != r[j] {
      if r[i] == r[j] {
        assert multiset(r[..j])[r[i]] >= 1 by { assert r[i] in r[..j]; }
        assert r == r[..j] + [r[j]] + r[j + 1..];
        assert multiset(r)[r[i]] >= 2;
        NoDupCount(s, r[i]);
        assert false;
      }
    }
  }

  /** Without duplicates every value occurs at most once. */
  lemma {:induction false} NoDupCount<T>(s: seq<T>, x: T)
    requires NoDup(s)
    ensures multiset(s)[x] <= 1
  {
    if s != [] {
      NoDupCount(s[1..], x);
      assert s == [s[0]] + s[1..];
      if s[0] == x {
        assert x !in s[1..];
      }
    }
  }

  /** The values of `s` in the opposite order. */
  function Reverse<T>(s: seq<T>): (r: seq<T>)
    ensures |r| == |s|
    ensures forall k :: 0 <= k < |s| ==> r[k] == s[|s| - 1 - k]
  {
    if s == [] then [] else [s[|s| - 1]] + Reverse(s[..|s| - 1])
  }

  function Min(a: nat, b: nat): nat
  {
    if a < b then a else b
  }
}
