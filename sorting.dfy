/** The stable sort that `Array.prototype.sort` performs (stability is required of it
    since ECMAScript 2019), for a comparator of the form `(a, b) => key(a) - key(b)`:
    ascending by an integer key, ties kept in input order. */
module Sorting {
  import opened Seqs

  /** x placed in front of the first element whose key is not below its own. */
  function Insert<T>(x: T, s: seq<T>, key: T -> int): (r: seq<T>)
    ensures |r| == |s| + 1
  {
    if s == [] || key(x) <= key(s[0]) then [x] + s
    else [s[0]] + Insert(x, s[1..], key)
  }

  /** The specification of the sort: insertion of each element, back to front. */
  function SortBy<T>(s: seq<T>, key: T -> int): (r: seq<T>)
    ensures |r| == |s|
  {
    if s == [] then [] else Insert(s[0], SortBy(s[1..], key), key)
  }

  ghost predicate Sorted<T>(s: seq<T>, key: T -> int) {
    forall i, j :: 0 <= i < j < |s| ==> key(s[i]) <= key(s[j])
  }

  /** The elements whose key is k, in order: what stability must preserve. */
  function WithKey<T>(s: seq<T>, key: T -> int, k: int): seq<T> {
    Filter(s, KeyIs(key, k))
  }

  function KeyIs<T>(key: T -> int, k: int): T -> bool {
    x => key(x) == k
  }

  lemma {:induction false} InsertPermutes<T>(x: T, s: seq<T>, key: T -> int)
    ensures multiset(Insert(x, s, key)) == multiset(s) + multiset{x}
  {
    if s != [] && key(x) > key(s[0]) {
      InsertPermutes(x, s[1..], key);
      assert s == [s[0]] + s[1..];
    }
  }

  /** The sort only reorders: its result is a permutation of its input. */
  lemma {:induction false} SortByPermutes<T>(s: seq<T>, key: T -> int)
    ensures multiset(SortBy(s, key)) == multiset(s)
  {
    if s != [] {
      SortByPermutes(s[1..], key);
      InsertPermutes(s[0], SortBy(s[1..], key), key);
      assert s == [s[0]] + s[1..];
    }
  }

  /** The first element of an insertion is x itself or the first element of s. */
  lemma InsertHead<T>(x: T, s: seq<T>, key: T -> int)
    ensures Insert(x, s, key)[0] == x || (s != [] && Insert(x, s, key)[0] == s[0])
  {
  }

  lemma {:induction false} InsertSorted<T>(x: T, s: seq<T>, key: T -> int)
    requires Sorted(s, key)
    ensures Sorted(Insert(x, s, key), key)
  {
    if s != [] && key(x) > key(s[0]) {
      var t := s[1..];
      assert Sorted(t, key);
      InsertSorted(x, t, key);
      var tail := Insert(x, t, key);
      InsertHead(x, t, key);
      assert key(s[0]) <= key(tail[0]);
      var r := [s[0]] + tail;
      assert Insert(x, s, key) == r;
      forall i, j | 0 <= i < j < |r| ensures key(r[i]) <= key(r[j]) {
        if i == 0 {
          assert r[j] == tail[j - 1];
          if j > 1 {
            assert key(tail[0]) <= key(tail[j - 1]);
          }
        } else {
          assert r[i] == tail[i - 1] && r[j] == tail[j - 1];
        }
      }
    }
  }

  /** The result of the sort is ordered by the key. */
  lemma {:induction false} SortBySorted<T>(s: seq<T>, key: T -> int)
    ensures Sorted(SortBy(s, key), key)
  {
    if s != [] {
      SortBySorted(s[1..], key);
      InsertSorted(s[0], SortBy(s[1..], key), key);
    }
  }

  lemma {:induction false} InsertWithKey<T>(x: T, s: seq<T>, key: T -> int, k: int)
    ensures WithKey(Insert(x, s, key), key, k)
         == (if key(x) == k then [x] else []) + WithKey(s, key, k)
  {
    var p := KeyIs(key, k);
    if s == [] || key(x) <= key(s[0]) {
      FilterCons(x, s, p);
    } else {
      var t := s[1..];
      var tail := Insert(x, t, key);
      InsertWithKey(x, t, key, k);
      assert Insert(x, s, key) == [s[0]] + tail;
      FilterCons(s[0], tail, p);
      assert s == [s[0]] + t;
      FilterCons(s[0], t, p);
      var rest := Filter(t, p);
      if key(s[0]) == k {
        assert key(x) != k;
        assert Filter(tail, p) == rest;
      } else {
        assert Filter(Insert(x, s, key), p) == Filter(tail, p);
        assert Filter(s, p) == rest;
      }
    }
  }

  /** Stability: among elements with equal keys the input order is kept. */
  lemma {:induction false} SortByStable<T>(s: seq<T>, key: T -> int, k: int)
    ensures WithKey(SortBy(s, key), key, k) == WithKey(s, key, k)
  {
    if s != [] {
      SortByStable(s[1..], key, k);
      InsertWithKey(s[0], SortBy(s[1..], key), key, k);
      FilterCons(s[0], s[1..], KeyIs(key, k));
      assert s == [s[0]] + s[1..];
    }
  }

  /** A sequence already in order is left as it is. */
  lemma {:induction false} SortBySortedIsIdentity<T>(s: seq<T>, key: T -> int)
    requires Sorted(s, key)
    ensures SortBy(s, key) == s
  {
    if s != [] {
      assert Sorted(s[1..], key);
      SortBySortedIsIdentity(s[1..], key);
      assert s == [s[0]] + s[1..];
    }
  }

  /** Inserting x where the elements before position m have smaller keys and the one at m does not. */
  lemma {:induction false} InsertAt<T>(x: T, s: seq<T>, m: nat, key: T -> int)
    requires m <= |s|
    requires forall p :: 0 <= p < m ==> key(s[p]) < key(x)
    requires m == |s| || key(x) <= key(s[m])
    ensures Insert(x, s, key) == s[..m] + [x] + s[m..]
  {
    if m > 0 {
      var t := s[1..];
      assert key(x) > key(s[0]);
      forall p | 0 <= p < m - 1 ensures key(t[p]) < key(x) {
        assert t[p] == s[p + 1];
      }
      assert m - 1 == |t| || key(x) <= key(t[m - 1]);
      InsertAt(x, t, m - 1, key);
      calc {
        Insert(x, s, key);
        [s[0]] + Insert(x, t, key);
        [s[0]] + (t[..m - 1] + [x] + t[m - 1..]);
        { assert [s[0]] + t[..m - 1] == s[..m]; assert t[m - 1..] == s[m..]; }
        s[..m] + [x] + s[m..];
      }
    } else {
      assert s[..0] + [x] + s[0..] == [x] + s;
    }
  }

  /** The array after the shift, read as a sequence, once x is written into the gap: the
      untouched front, the elements moved one step left, x, and the elements not moved. */
  lemma Shifted<T>(b: seq<T>, front: seq<T>, done: seq<T>, x: T, m: nat)
    requires m <= |done| && |b| == |front| + |done| + 1
    requires b[..|front|] == front
    requires b[|front|..|front| + m] == done[..m]
    requires b[|front| + m + 1..] == done[m..]
    ensures b[|front| + m := x][..|front|] == front
    ensures b[|front| + m := x][|front|..] == done[..m] + [x] + done[m..]
  {
    var n := |front|;
    var c := b[n + m := x];
    assert c[..n] == b[..n];
    assert c[n..] == b[n..n + m] + [x] + b[n + m + 1..];
  }

  /** Moves a[i] rightwards past the following elements with smaller keys. */
  method InsertInPlace<T>(a: array<T>, i: nat, key: T -> int)
    requires i < a.Length
    modifies a
    ensures a[..i] == old(a[..i])
    ensures a[i..] == Insert(old(a[i]), old(a[i + 1..]), key)
  {
    var x := a[i];
    ghost var done := a[i + 1..];
    ghost var front := a[..i];
    var j := i;
    while j + 1 < a.Length && key(a[j + 1]) < key(x)
      invariant i <= j < a.Length
      invariant a[..i] == front
      invariant a[i..j] == done[..j - i]
      invariant a[j + 1..] == done[j - i..]
      invariant forall p :: 0 <= p < j - i ==> key(done[p]) < key(x)
    {
      a[j] := a[j + 1];
      j := j + 1;
    }
    if j + 1 < a.Length {
      assert a[j + 1] == done[j - i];
    }
    InsertAt(x, done, j - i, key);
    ghost var b := a[..];
    assert b[..i] == a[..i];
    assert b[i..j] == a[i..j];
    assert b[j + 1..] == a[j + 1..];
    Shifted(b, front, done, x, j - i);
    a[j] := x;
    assert a[..] == b[j := x];
    assert a[..i] == a[..][..i] && a[i..] == a[..][i..];
  }

  /** Sorts a in place by insertion, from the back; the result is SortBy of the old contents. */
  method SortInPlace<T>(a: array<T>, key: T -> int)
    modifies a
    ensures a[..] == SortBy(old(a[..]), key)
  {
    ghost var s := a[..];
    var i := a.Length;
    while i > 0
      invariant 0 <= i <= a.Length
      invariant a[..i] == s[..i]
      invariant a[i..] == SortBy(s[i..], key)
    {
      i := i - 1;
      assert a[i] == s[i] by { assert a[..i + 1][i] == s[..i + 1][i]; }
      assert a[i + 1..] == SortBy(s[i + 1..], key);
      assert a[..i] == s[..i] by { assert a[..i] == a[..i + 1][..i]; }
      ghost var rest := s[i..];
      assert rest[0] == s[i] && rest[1..] == s[i + 1..];
      assert SortBy(rest, key) == Insert(s[i], SortBy(s[i + 1..], key), key);
      InsertInPlace(a, i, key);
    }
    assert s[0..] == s;
  }
}
