/**
 * Newest-first ordering of query results. Both listings of the service sort
 * their records by creation time, descending; ties may come in any order.
 */
module Ordering {

  /** `s` is ordered by `key`, largest first. */
  ghost predicate SortedDesc<T>(s: seq<T>, key: T -> int) {
    forall i, j :: 0 <= i < j < |s| ==> key(s[i]) >= key(s[j])
  }

  /** Inserts `x` into a newest-first sequence, ahead of every element whose key is not larger. */
  function Insert<T>(x: T, s: seq<T>, key: T -> int): (r: seq<T>)
    requires SortedDesc(s, key)
    ensures SortedDesc(r, key)
    ensures multiset(r) == multiset(s) + multiset{x}
    ensures |r| == |s| + 1
    ensures r[0] == x || (|s| > 0 && r[0] == s[0])
  {
    if s == [] || key(x) >= key(s[0]) then [x] + s
    else
      var rest := Insert(x, s[1..], key);
      assert s == [s[0]] + s[1..];
      assert key(s[0]) >= key(rest[0]);
      [s[0]] + rest
  }

  /** Orders `s` newest first; elements with equal keys end up later-inserted first. */
  function SortDesc<T>(s: seq<T>, key: T -> int): (r: seq<T>)
    ensures SortedDesc(r, key)
    ensures multiset(r) == multiset(s)
    ensures |r| == |s|
  {
    if s == [] then []
    else
      assert s == s[..|s| - 1] + [s[|s| - 1]];
      Insert(s[|s| - 1], SortDesc(s[..|s| - 1], key), key)
  }

  /** Keys never decrease along `s` (records appended in time order). */
  ghost predicate Chronological<T>(s: seq<T>, key: T -> int) {
    forall i, j :: 0 <= i < j < |s| ==> key(s[i]) <= key(s[j])
  }

  /** Putting an element no newer than any other in front keeps a sequence in time order. */
  lemma PrependChronological<T>(x: T, s: seq<T>, key: T -> int)
    requires Chronological(s, key)
    requires forall t :: t in s ==> key(x) <= key(t)
    ensures Chronological([x] + s, key)
  {
    forall i, j | 0 <= i < j < |[x] + s| ensures key(([x] + s)[i]) <= key(([x] + s)[j]) {
      if i == 0 {
        assert ([x] + s)[j] == s[j - 1];
        assert s[j - 1] in s;
      }
    }
  }

  /** `s` read back to front. */
  function Reverse<T>(s: seq<T>): (r: seq<T>)
    ensures |r| == |s|
    ensures forall i :: 0 <= i < |s| ==> r[i] == s[|s| - 1 - i]
  {
    if s == [] then [] else [s[|s| - 1]] + Reverse(s[..|s| - 1])
  }

  /** A log written in time order lists newest first by simply reading it backwards. */
  lemma {:induction false} SortChronologicalIsReverse<T>(s: seq<T>, key: T -> int)
    requires Chronological(s, key)
    ensures SortDesc(s, key) == Reverse(s)
  {
    if s != [] {
      var init := s[..|s| - 1];
      assert Chronological(init, key);
      SortChronologicalIsReverse(init, key);
      var sorted := SortDesc(init, key);
      assert sorted == [] || key(s[|s| - 1]) >= key(sorted[0]);
    }
  }
}
