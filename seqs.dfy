/** Small facts about sequences used as lists of attribute names and codes. */
module Seqs {

  /** No element occurs twice. */
  predicate Distinct<T(==)>(s: seq<T>) {
    forall i, j :: 0 <= i < j < |s| ==> s[i] != s[j]
  }

  /** The set of elements of a list (Python's `set(s)`). */
  function Elems<T>(s: seq<T>): set<T> {
    set x | x in s
  }

  /** A list is repetition-free exactly when its first element is not
      repeated later and the rest is repetition-free. */
  lemma DistinctCons<T>(s: seq<T>)
    requires s != []
    ensures Distinct(s) <==> s[0] !in s[1..] && Distinct(s[1..])
  {
    if Distinct(s) {
      forall i, j | 0 <= i < j < |s[1..]| ensures s[1..][i] != s[1..][j] {
        assert s[1..][i] == s[i + 1] && s[1..][j] == s[j + 1];
      }
      forall k | 0 <= k < |s[1..]| ensures s[1..][k] != s[0] {
        assert s[1..][k] == s[k + 1];
      }
    }
    if s[0] !in s[1..] && Distinct(s[1..]) {
      forall i, j | 0 <= i < j < |s| ensures s[i] != s[j] {
        assert s[j] == s[1..][j - 1];
        if i > 0 { assert s[i] == s[1..][i - 1]; }
      }
    }
  }

  /** A list has at least as many entries as distinct elements, and exactly
      as many precisely when no element repeats. */
  lemma {:induction false} CardElems<T>(s: seq<T>)
    ensures |Elems(s)| <= |s|
    ensures Distinct(s) <==> |Elems(s)| == |s|
  {
    if s != [] {
      CardElems(s[1..]);
      DistinctCons(s);
      assert Elems(s) == {s[0]} + Elems(s[1..]);
      assert s[0] in s[1..] <==> s[0] in Elems(s[1..]);
    }
  }

  /** A repetition-free list whose only element is `x` is the list `[x]`. */
  lemma Singleton<T>(s: seq<T>, x: T)
    requires Distinct(s) && Elems(s) == {x}
    ensures s == [x]
  {
    CardElems(s);
    assert s[0] in Elems(s);
  }

  /** A list without elements is empty. */
  lemma NoElems<T>(s: seq<T>)
    ensures Elems(s) == {} ==> s == []
  {
    if s != [] {
      assert s[0] in Elems(s);
    }
  }
}
