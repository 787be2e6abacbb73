/** `sorted(xs, key=key, reverse=True)`: a stable sort, largest key first.
    Python keeps equal keys in their original order even with
    `reverse=True`; the contract says so by requiring that, for every key
    value, the elements carrying it appear in the same order before and
    after sorting. */
module Sorting {

  ghost predicate SortedDesc<T>(s: seq<T>, key: T -> int)
  {
    forall i, j :: 0 <= i < j < |s| ==> key(s[i]) >= key(s[j])
  }

  /** The elements of `s` whose key is `k`, in order. */
  function WithKey<T>(s: seq<T>, key: T -> int, k: int): seq<T>
  {
    if s == [] then []
    else if key(s[0]) == k then [s[0]] + WithKey(s[1..], key, k)
    else WithKey(s[1..], key, k)
  }

  /** Put `x` in front of the first element whose key is not larger. */
  function Insert<T>(x: T, t: seq<T>, key: T -> int): (r: seq<T>)
    requires SortedDesc(t, key)
    ensures SortedDesc(r, key)
    ensures multiset(r) == multiset(t) + multiset{x}
    ensures r != [] && (r[0] == x || (t != [] && r[0] == t[0]))
    decreases |t|
  {
    if t == [] || key(t[0]) <= key(x) then
      SortedCons(x, t, key);
      [x] + t
    else
      var rest := Insert(x, t[1..], key);
      assert t == [t[0]] + t[1..];
      assert key(rest[0]) <= key(t[0]);
      SortedCons(t[0], rest, key);
      [t[0]] + rest
  }

  /** A head no smaller than the first element keeps a sorted list sorted. */
  lemma SortedCons<T>(h: T, s: seq<T>, key: T -> int)
    requires SortedDesc(s, key) && (s == [] || key(s[0]) <= key(h))
    ensures SortedDesc([h] + s, key)
  {
    var r := [h] + s;
    forall i, j | 0 <= i < j < |r| ensures key(r[i]) >= key(r[j]) {
      if i == 0 {
        assert r[j] == s[j - 1];
        assert key(s[0]) >= key(s[j - 1]) || j == 1;
      } else {
        assert r[i] == s[i - 1] && r[j] == s[j - 1];
      }
    }
  }

  /** Inserting keeps the order among equal keys, with `x` first among the
      elements carrying its key. */
  lemma {:induction false} InsertStable<T>(x: T, t: seq<T>, key: T -> int, k: int)
    requires SortedDesc(t, key)
    ensures WithKey(Insert(x, t, key), key, k) == if key(x) == k then [x] + WithKey(t, key, k) else WithKey(t, key, k)
    decreases |t|
  {
    if t == [] || key(t[0]) <= key(x) {
      WithKeyNoneAbove(t, key, key(x));
      assert ([x] + t)[1..] == t;
    } else {
      InsertStable(x, t[1..], key, k);
      var r := Insert(x, t, key);
      assert r[0] == t[0] && r[1..] == Insert(x, t[1..], key);
    }
  }

  /** In a descending sequence that starts at or below `k`, nothing above `k` appears. */
  lemma WithKeyNoneAbove<T>(t: seq<T>, key: T -> int, k: int)
    requires SortedDesc(t, key) && (t == [] || key(t[0]) <= k)
    ensures forall j :: k < j ==> WithKey(t, key, j) == []
  {
    forall j | k < j ensures WithKey(t, key, j) == [] {
      WithKeyAbsent(t, key, j);
    }
  }

  lemma {:induction false} WithKeyAbsent<T>(t: seq<T>, key: T -> int, j: int)
    requires forall i :: 0 <= i < |t| ==> key(t[i]) != j
    ensures WithKey(t, key, j) == []
    decreases |t|
  {
    if t != [] {
      WithKeyAbsent(t[1..], key, j);
    }
  }

  /** `sorted(s, key=key, reverse=True)` */
  function SortDesc<T>(s: seq<T>, key: T -> int): (r: seq<T>)
    ensures SortedDesc(r, key)
    ensures multiset(r) == multiset(s)
    decreases |s|
  {
    if s == [] then []
    else
      assert s == [s[0]] + s[1..];
      Insert(s[0], SortDesc(s[1..], key), key)
  }

  /** The sort is stable: the elements carrying each key keep their order. */
  lemma {:induction false} SortDescStable<T>(s: seq<T>, key: T -> int, k: int)
    ensures WithKey(SortDesc(s, key), key, k) == WithKey(s, key, k)
    decreases |s|
  {
    if s != [] {
      SortDescStable(s[1..], key, k);
      InsertStable(s[0], SortDesc(s[1..], key), key, k);
    }
  }

  /** `WithKey` finds its first element at the first position with that key. */
  lemma {:induction false} WithKeyHead<T>(s: seq<T>, key: T -> int, k: int)
    requires WithKey(s, key, k) != []
    ensures exists i :: 0 <= i < |s| && s[i] == WithKey(s, key, k)[0] && key(s[i]) == k
                       && forall j :: 0 <= j < i ==> key(s[j]) != k
    decreases |s|
  {
    if key(s[0]) != k {
      WithKeyHead(s[1..], key, k);
      var i :| 0 <= i < |s[1..]| && s[1..][i] == WithKey(s[1..], key, k)[0] && key(s[1..][i]) == k
               && forall j :: 0 <= j < i ==> key(s[1..][j]) != k;
      assert s[i + 1] == s[1..][i];
      assert forall j :: 1 <= j < i + 1 ==> s[j] == s[1..][j - 1];
    }
  }

  /** The head of the sorted list carries the largest key, and among the
      elements carrying it, it is the first in the original order. */
  lemma SortDescHead<T>(s: seq<T>, key: T -> int)
    requires s != []
    ensures var r := SortDesc(s, key);
            |r| == |s|
            && (forall j :: 0 <= j < |s| ==> key(s[j]) <= key(r[0]))
            && exists i :: 0 <= i < |s| && s[i] == r[0]
                           && forall j :: 0 <= j < i ==> key(s[j]) < key(r[0])
  {
    var r := SortDesc(s, key);
    assert |r| == |multiset(r)| == |multiset(s)| == |s|;
    forall j | 0 <= j < |s| ensures key(s[j]) <= key(r[0]) {
      assert s[j] in multiset(s);
      var m :| 0 <= m < |r| && r[m] == s[j];
      if m > 0 {
        assert key(r[0]) >= key(r[m]);
      }
    }
    var k := key(r[0]);
    assert WithKey(r, key, k) == [r[0]] + WithKey(r[1..], key, k);
    SortDescStable(s, key, k);
    WithKeyHead(s, key, k);
  }
}
