/** Facts about sequences and sets shared by the grid, loader and metrics
    models: duplicate-free sequences, first-occurrence deduplication (the
    order in which a JavaScript `Set` or `Map` keeps its keys) and sizes. */
module SeqUtil {
  /** No element occurs twice. */
  predicate NoDup<T(==)>(s: seq<T>)
  {
    forall i, j :: 0 <= i < j < |s| ==> s[i] != s[j]
  }

  /** The elements of `s`, each once, in order of first occurrence. */
  function Dedupe<T(==, !new)>(s: seq<T>): (r: seq<T>)
    ensures NoDup(r)
    ensures forall x :: x in r <==> x in s
    ensures |r| <= |s|
    decreases |s|
  {
    if s == [] then []
    else
      var prev := Dedupe(s[..|s| - 1]);
      var x := s[|s| - 1];
      assert forall y :: y in s <==> y in s[..|s| - 1] || y == x;
      if x in prev then prev else prev + [x]
  }

  /** The position of the first occurrence of `x` in `s`. */
  function FirstIndexOf<T(==)>(s: seq<T>, x: T): (n: nat)
    requires x in s
    ensures n < |s| && s[n] == x
    ensures forall m :: 0 <= m < n ==> s[m] != x
    decreases |s|
  {
    if s[0] == x then 0
    else
      assert x in s[1..];
      1 + FirstIndexOf(s[1..], x)
  }

  /** Taking a prefix that still holds `x` keeps its first position. */
  lemma FirstIndexOfPrefix<T>(s: seq<T>, n: nat, x: T)
    requires n <= |s| && x in s[..n]
    ensures FirstIndexOf(s, x) == FirstIndexOf(s[..n], x)
  {
    var a, b := FirstIndexOf(s, x), FirstIndexOf(s[..n], x);
    assert s[..n][b] == s[b];
    assert a <= b;
    assert s[..n][a] == s[a];
  }

  /** Dedupe lists elements in order of their first occurrence. */
  lemma {:induction false} DedupeFollowsFirstOccurrence<T(!new)>(s: seq<T>, i: int, j: int)
    requires 0 <= i < j < |Dedupe(s)|
    ensures FirstIndexOf(s, Dedupe(s)[i]) < FirstIndexOf(s, Dedupe(s)[j])
    decreases |s|
  {
    var n := |s| - 1;
    var p := s[..n];
    var prev := Dedupe(p);
    var r := Dedupe(s);
    assert r[j] in s && r[i] in s;
    if s[n] in prev || j < |prev| {
      assert r[i] == prev[i] && r[j] == prev[j];
      DedupeFollowsFirstOccurrence(p, i, j);
      FirstIndexOfPrefix(s, n, r[i]);
      FirstIndexOfPrefix(s, n, r[j]);
    } else {
      assert r[j] == s[n] && r[i] == prev[i];
      assert r[i] in p;
      FirstIndexOfPrefix(s, n, r[i]);
      assert s[n] !in p;
      assert forall m :: 0 <= m < n ==> p[m] == s[m];
    }
  }

  /** A duplicate-free sequence has as many elements as its set. */
  lemma {:induction false} NoDupCard<T>(s: seq<T>)
    requires NoDup(s)
    ensures |set x | x in s| == |s|
    decreases |s|
  {
    if s != [] {
      var n := |s| - 1;
      var p := s[..n];
      assert NoDup(p) by {
        forall i, j | 0 <= i < j < |p| ensures p[i] != p[j] { assert p[i] == s[i] && p[j] == s[j]; }
      }
      NoDupCard(p);
      assert forall k :: 0 <= k < |p| ==> p[k] == s[k];
      assert (set x | x in s) == (set x | x in p) + {s[n]} by {
        assert s == p + [s[n]];
      }
    }
  }
}
