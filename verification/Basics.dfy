/** What several modules share: optional values, bytes, and sequences without repetition. */
module Basics {

  datatype Option<+T> = None | Some(value: T)

  type byte = b: int | 0 <= b < 256

  /** The parts one after the other. */
  function Joined<T>(parts: seq<seq<T>>): seq<T> {
    if parts == [] then [] else Joined(parts[..|parts| - 1]) + parts[|parts| - 1]
  }

  lemma JoinedAppend<T>(parts: seq<seq<T>>, p: seq<T>)
    ensures Joined(parts + [p]) == Joined(parts) + p
  {
    assert (parts + [p])[..|parts|] == parts;
  }

  predicate Differ<T(==)>(s: seq<T>, i: int, j: int)
    requires 0 <= i < j < |s|
  {
    s[i] != s[j]
  }

  /** Each element once. */
  predicate Distinct<T(==)>(s: seq<T>) {
    forall i, j :: 0 <= i < j < |s| ==> Differ(s, i, j)
  }

  /** The elements of a distinct sequence differ, wherever they stand. */
  predicate Apart<T(==)>(s: seq<T>) {
    forall i, j :: 0 <= i < j < |s| ==> s[i] != s[j]
  }

  lemma DistinctMeansApart<T>(s: seq<T>)
    ensures Distinct(s) <==> Apart(s)
  {
    if Distinct(s) {
      forall i, j | 0 <= i < j < |s| ensures s[i] != s[j] {
        assert Differ(s, i, j);
      }
    }
  }

  /** The sequence with the first occurrence of an element removed. */
  function Without<T(==)>(s: seq<T>, x: T): (r: seq<T>)
    ensures forall y :: y in r ==> y in s
  {
    if s == [] then [] else if s[0] == x then s[1..] else [s[0]] + Without(s[1..], x)
  }

  /** Removing the element at an index closes the gap. */
  lemma {:induction false} WithoutIsAGap<T>(s: seq<T>, k: nat)
    requires Apart(s) && k < |s|
    ensures Without(s, s[k]) == s[..k] + s[k + 1..]
  {
    if k > 0 {
      assert s[0] != s[k];
      WithoutIsAGap(s[1..], k - 1);
      assert s[1..][k - 1] == s[k];
      assert [s[0]] + (s[1..][..k - 1] + s[1..][k..]) == s[..k] + s[k + 1..];
    }
  }

  /** Nothing else is removed from a sequence that holds each element once. */
  lemma WithoutRemovesJustOne<T>(s: seq<T>, x: T)
    requires Distinct(s) && x in s
    ensures Distinct(Without(s, x)) && |Without(s, x)| == |s| - 1
    ensures forall y :: y in Without(s, x) <==> y in s && y != x
    ensures forall j :: 0 <= j < |Without(s, x)| ==> Without(s, x)[j] in s && Without(s, x)[j] != x
  {
    DistinctMeansApart(s);
    var k :| 0 <= k < |s| && s[k] == x;
    WithoutIsAGap(s, k);
    var w := s[..k] + s[k + 1..];
    DistinctMeansApart(w);
    forall y | y in s && y != x ensures y in w {
      var i :| 0 <= i < |s| && s[i] == y;
      assert y == w[if i < k then i else i - 1];
    }
  }

  lemma DistinctAppend<T>(s: seq<T>, x: T)
    requires Distinct(s) && x !in s
    ensures Distinct(s + [x])
  {
    DistinctMeansApart(s);
    DistinctMeansApart(s + [x]);
  }
}
