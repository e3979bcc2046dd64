/** Byte order, and lists in ascending order of a key. */
module Ordering {
  import opened Framing

  /** Lexicographic order of Go strings. */
  predicate BytesLess(a: Bytes, b: Bytes) {
    if b == [] then false
    else if a == [] then true
    else a[0] < b[0] || (a[0] == b[0] && BytesLess(a[1..], b[1..]))
  }

  lemma {:induction false} BytesLessTotal(a: Bytes, b: Bytes)
    ensures a == b || BytesLess(a, b) || BytesLess(b, a)
    ensures !(BytesLess(a, b) && BytesLess(b, a))
    ensures a == b ==> !BytesLess(a, b)
  {
    if a != [] && b != [] {
      BytesLessTotal(a[1..], b[1..]);
      if a[0] == b[0] && a[1..] == b[1..] {
        assert a == [a[0]] + a[1..] && b == [b[0]] + b[1..];
      }
    }
  }

  lemma {:induction false} BytesLessTransitive(a: Bytes, b: Bytes, c: Bytes)
    requires BytesLess(a, b) && BytesLess(b, c)
    ensures BytesLess(a, c)
  {
    if a != [] && a[0] == b[0] && b[0] == c[0] {
      BytesLessTransitive(a[1..], b[1..], c[1..]);
    }
  }

  predicate Ascending<T>(s: seq<T>, key: T -> Bytes) {
    forall i, j :: 0 <= i < j < |s| ==> BytesLess(key(s[i]), key(s[j]))
  }

  predicate DistinctKeys<T>(s: seq<T>, key: T -> Bytes) {
    forall i, j :: 0 <= i < j < |s| ==> key(s[i]) != key(s[j])
  }

  /** Looking at neighbours is enough. */
  lemma {:induction false} NeighboursAscend<T>(s: seq<T>, key: T -> Bytes)
    requires forall i :: 0 < i < |s| ==> BytesLess(key(s[i - 1]), key(s[i]))
    ensures Ascending(s, key)
  {
    if s != [] {
      var n := |s| - 1;
      NeighboursAscend(s[..n], key);
      forall i | 0 <= i < n
        ensures BytesLess(key(s[i]), key(s[n]))
      {
        assert BytesLess(key(s[n - 1]), key(s[n]));
        if i < n - 1 {
          assert BytesLess(key(s[..n][i]), key(s[..n][n - 1]));
          BytesLessTransitive(key(s[i]), key(s[n - 1]), key(s[n]));
        }
      }
      forall i, j | 0 <= i < j < |s|
        ensures BytesLess(key(s[i]), key(s[j]))
      {
        if j < n { assert s[..n][i] == s[i] && s[..n][j] == s[j]; }
      }
    }
  }

  lemma AscendingIsDistinct<T>(s: seq<T>, key: T -> Bytes)
    requires Ascending(s, key)
    ensures DistinctKeys(s, key)
  {
    forall i, j | 0 <= i < j < |s|
      ensures key(s[i]) != key(s[j])
    {
      BytesLessTotal(key(s[i]), key(s[j]));
    }
  }

  lemma SameFirst<T>(a: seq<T>, b: seq<T>, key: T -> Bytes)
    requires Ascending(a, key) && Ascending(b, key) && a != [] && b != [] && a[0] in b && b[0] in a
    ensures a[0] == b[0]
  {
    var i :| 0 <= i < |b| && b[i] == a[0];
    var j :| 0 <= j < |a| && a[j] == b[0];
    BytesLessTotal(key(a[0]), key(b[0]));
  }

  lemma RestOf<T>(a: seq<T>)
    requires a != []
    ensures multiset(a[1..]) == multiset(a) - multiset{a[0]}
  {
    assert a == [a[0]] + a[1..];
  }

  /** A list in ascending order is determined by its elements, whatever sorted it. */
  lemma {:induction false} AscendingIsUnique<T>(a: seq<T>, b: seq<T>, key: T -> Bytes)
    requires Ascending(a, key) && Ascending(b, key) && multiset(a) == multiset(b)
    ensures a == b
    decreases |a|
  {
    assert |a| == |multiset(a)| && |b| == |multiset(b)|;
    if a != [] {
      assert a[0] in multiset(b) && b[0] in multiset(a);
      SameFirst(a, b, key);
      RestOf(a);
      RestOf(b);
      assert Ascending(a[1..], key) && Ascending(b[1..], key);
      AscendingIsUnique(a[1..], b[1..], key);
      assert a == [a[0]] + a[1..] && b == [b[0]] + b[1..];
    }
  }

  function Insert<T>(x: T, s: seq<T>, key: T -> Bytes): seq<T> {
    if s == [] || BytesLess(key(x), key(s[0])) then [x] + s else [s[0]] + Insert(x, s[1..], key)
  }

  /** sort.Slice by a key. */
  function Sorted<T>(s: seq<T>, key: T -> Bytes): seq<T> {
    if s == [] then [] else Insert(s[0], Sorted(s[1..], key), key)
  }

  lemma {:induction false} InsertPermutes<T>(x: T, s: seq<T>, key: T -> Bytes)
    ensures multiset(Insert(x, s, key)) == multiset{x} + multiset(s)
  {
    if s != [] && !BytesLess(key(x), key(s[0])) {
      InsertPermutes(x, s[1..], key);
      assert s == [s[0]] + s[1..];
    }
  }

  lemma {:induction false} SortPermutes<T>(s: seq<T>, key: T -> Bytes)
    ensures multiset(Sorted(s, key)) == multiset(s)
    ensures |Sorted(s, key)| == |s|
  {
    if s != [] {
      SortPermutes(s[1..], key);
      InsertPermutes(s[0], Sorted(s[1..], key), key);
      assert s == [s[0]] + s[1..];
    }
    assert |multiset(Sorted(s, key))| == |Sorted(s, key)| && |multiset(s)| == |s|;
  }

  lemma {:induction false} InsertAscends<T>(x: T, s: seq<T>, key: T -> Bytes)
    requires Ascending(s, key) && forall i :: 0 <= i < |s| ==> key(s[i]) != key(x)
    ensures Ascending(Insert(x, s, key), key)
  {
    if s != [] {
      BytesLessTotal(key(x), key(s[0]));
      if BytesLess(key(x), key(s[0])) {
        forall i | 0 < i < |s|
          ensures BytesLess(key(x), key(s[i]))
        {
          BytesLessTransitive(key(x), key(s[0]), key(s[i]));
        }
      } else {
        var rest := Insert(x, s[1..], key);
        InsertAscends(x, s[1..], key);
        InsertPermutes(x, s[1..], key);
        forall i | 0 <= i < |rest|
          ensures BytesLess(key(s[0]), key(rest[i]))
        {
          assert rest[i] in multiset(rest);
          assert rest[i] == x || rest[i] in s[1..];
        }
      }
    }
  }

  /** Sorting a list with distinct keys puts it in ascending order. */
  lemma {:induction false} SortAscends<T>(s: seq<T>, key: T -> Bytes)
    requires DistinctKeys(s, key)
    ensures Ascending(Sorted(s, key), key)
  {
    if s != [] {
      var rest := Sorted(s[1..], key);
      SortAscends(s[1..], key);
      SortPermutes(s[1..], key);
      forall i | 0 <= i < |rest|
        ensures key(rest[i]) != key(s[0])
      {
        assert rest[i] in multiset(s[1..]);
        assert rest[i] in s[1..];
        var j :| 0 <= j < |s[1..]| && s[1..][j] == rest[i];
        assert key(s[0]) != key(s[j + 1]);
      }
      InsertAscends(s[0], rest, key);
    }
  }

  /** Any two orders of the same elements with distinct keys sort to the same list. */
  lemma SortForgetsOrder<T>(a: seq<T>, b: seq<T>, key: T -> Bytes)
    requires DistinctKeys(a, key) && DistinctKeys(b, key) && multiset(a) == multiset(b)
    ensures Sorted(a, key) == Sorted(b, key)
  {
    SortAscends(a, key);
    SortAscends(b, key);
    SortPermutes(a, key);
    SortPermutes(b, key);
    AscendingIsUnique(Sorted(a, key), Sorted(b, key), key);
  }
}
