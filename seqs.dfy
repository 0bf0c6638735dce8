/** Generic sequence operations the catalog code relies on: the array methods
    `filter` and `findIndex`, and the facts about them the model needs. */
module Seqs {

  /** `s.filter(f)`: the elements of `s` that satisfy `f`, in their original order. */
  function Filter<T>(f: T -> bool, s: seq<T>): (r: seq<T>)
    ensures |r| <= |s|
    ensures forall i :: 0 <= i < |r| ==> r[i] in s && f(r[i])
    ensures forall i :: 0 <= i < |s| && f(s[i]) ==> s[i] in r
  {
    if s == [] then []
    else (if f(s[0]) then [s[0]] else []) + Filter(f, s[1..])
  }

  /** The filter keeps every occurrence of an element that satisfies `f`, and none of the others. */
  lemma {:induction false} FilterCounts<T>(f: T -> bool, s: seq<T>)
    ensures forall x :: multiset(Filter(f, s))[x] == if f(x) then multiset(s)[x] else 0
  {
    if s != [] {
      FilterCounts(f, s[1..]);
      assert s == [s[0]] + s[1..];
    }
  }

  /** `r` can be obtained from `s` by deleting elements: the order of what is kept is the order in `s`. */
  ghost predicate IsSubsequence<T>(r: seq<T>, s: seq<T>)
    decreases |s|
  {
    if r == [] then true
    else if s == [] then false
    else (r[0] == s[0] && IsSubsequence(r[1..], s[1..])) || IsSubsequence(r, s[1..])
  }

  /** Being a subsequence is transitive. */
  lemma {:induction false} SubsequenceTrans<T>(a: seq<T>, b: seq<T>, c: seq<T>)
    requires IsSubsequence(a, b) && IsSubsequence(b, c)
    ensures IsSubsequence(a, c)
    decreases |c|
  {
    if a != [] && b != [] && c != [] {
      if IsSubsequence(b, c[1..]) {
        SubsequenceTrans(a, b, c[1..]);
      } else if a[0] == b[0] && IsSubsequence(a[1..], b[1..]) {
        SubsequenceTrans(a[1..], b[1..], c[1..]);
      } else {
        SubsequenceTrans(a, b[1..], c[1..]);
      }
    }
  }

  /** Filtering keeps the order of the elements it keeps. */
  lemma {:induction false} FilterIsSubsequence<T>(f: T -> bool, s: seq<T>)
    ensures IsSubsequence(Filter(f, s), s)
  {
    if s != [] {
      FilterIsSubsequence(f, s[1..]);
      var r := Filter(f, s);
      if f(s[0]) {
        assert r == [s[0]] + Filter(f, s[1..]);
        assert r[1..] == Filter(f, s[1..]);
      } else {
        assert r == Filter(f, s[1..]);
      }
    }
  }

  /** Filtering distributes over concatenation: the filter is stable. */
  lemma {:induction false} FilterConcat<T>(f: T -> bool, a: seq<T>, b: seq<T>)
    ensures Filter(f, a + b) == Filter(f, a) + Filter(f, b)
  {
    if a == [] {
      assert a + b == b;
    } else {
      assert (a + b)[0] == a[0];
      assert (a + b)[1..] == a[1..] + b;
      FilterConcat(f, a[1..], b);
    }
  }

  /** A filter whose predicate holds everywhere is the identity. */
  lemma {:induction false} FilterAll<T>(f: T -> bool, s: seq<T>)
    requires forall i :: 0 <= i < |s| ==> f(s[i])
    ensures Filter(f, s) == s
  {
    if s != [] {
      FilterAll(f, s[1..]);
      assert [s[0]] + s[1..] == s;
    }
  }

  /** `s.findIndex(x => key(x) === k)`: the first position whose key is `k`, or -1. */
  function FindIndex<T>(s: seq<T>, key: T -> string, k: string): (r: int)
    ensures -1 <= r < |s|
    ensures r == -1 <==> forall i :: 0 <= i < |s| ==> key(s[i]) != k
    ensures 0 <= r ==> key(s[r]) == k && forall i :: 0 <= i < r ==> key(s[i]) != k
  {
    if s == [] then -1
    else if key(s[0]) == k then 0
    else
      var r := FindIndex(s[1..], key, k);
      if r == -1 then -1 else r + 1
  }

  /** No two positions of `s` carry the same key. */
  ghost predicate UniqueKeys<T>(s: seq<T>, key: T -> string)
  {
    forall i, j :: 0 <= i < j < |s| ==> key(s[i]) != key(s[j])
  }

  /** With unique keys, the element found by `FindIndex` is the only one with that key. */
  lemma UniqueFindIndex<T>(s: seq<T>, key: T -> string, k: string, j: int)
    requires UniqueKeys(s, key)
    requires 0 <= j < |s| && key(s[j]) == k
    ensures FindIndex(s, key, k) == j
  {
  }

  /** Putting an element with a new key in front keeps the keys unique. */
  lemma UniquePrepend<T>(x: T, s: seq<T>, key: T -> string)
    requires UniqueKeys(s, key)
    requires FindIndex(s, key, key(x)) == -1
    ensures UniqueKeys([x] + s, key)
  {
    var r := [x] + s;
    forall i, j | 0 <= i < j < |r| ensures key(r[i]) != key(r[j]) {
      if i > 0 {
        assert r[i] == s[i - 1] && r[j] == s[j - 1];
      } else {
        assert r[j] == s[j - 1];
      }
    }
  }

  /** Appending an element with a new key keeps the keys unique. */
  lemma UniqueAppend<T>(s: seq<T>, x: T, key: T -> string)
    requires UniqueKeys(s, key)
    requires FindIndex(s, key, key(x)) == -1
    ensures UniqueKeys(s + [x], key)
  {
  }

  /** Replacing an element by one with the same key keeps the keys unique. */
  lemma UniqueReplace<T>(s: seq<T>, i: int, x: T, key: T -> string)
    requires UniqueKeys(s, key)
    requires 0 <= i < |s| && key(s[i]) == key(x)
    ensures UniqueKeys(s[i := x], key)
  {
  }

  /** Filtering keeps the keys unique. */
  lemma {:induction false} UniqueFilter<T>(f: T -> bool, s: seq<T>, key: T -> string)
    requires UniqueKeys(s, key)
    ensures UniqueKeys(Filter(f, s), key)
  {
    if s != [] {
      var tail := s[1..];
      assert UniqueKeys(tail, key) by {
        forall i, j | 0 <= i < j < |tail| ensures key(tail[i]) != key(tail[j]) {
          assert tail[i] == s[i + 1] && tail[j] == s[j + 1];
        }
      }
      UniqueFilter(f, tail, key);
      var rest := Filter(f, tail);
      if f(s[0]) {
        forall k | 0 <= k < |rest| ensures key(rest[k]) != key(s[0]) {
          var j :| 0 <= j < |tail| && tail[j] == rest[k];
          assert s[j + 1] == rest[k];
        }
        UniquePrepend(s[0], rest, key);
      }
    }
  }
}
