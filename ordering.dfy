/** Orderings the SQL queries ask for: ORDER BY an id ascending, ORDER BY a
    value descending, and LIMIT. */
module Ordering {
  import opened Common

  /** Strictly ascending integers. */
  predicate Increasing(s: seq<int>)
  {
    forall i, j :: 0 <= i < j < |s| ==> s[i] < s[j]
  }

  lemma MinExists(s: set<int>)
    requires s != {}
    ensures exists m :: m in s && forall x :: x in s ==> m <= x
    decreases |s|
  {
    var x := Pick(s);
    var rest := s - {x};
    if rest == {} {
      forall y | y in s ensures x <= y { assert y !in rest; }
    } else {
      MinExists(rest);
      var m :| m in rest && forall y :: y in rest ==> m <= y;
      var least := if x < m then x else m;
      forall y | y in s ensures least <= y {
        if y != x { assert y in rest; }
      }
      assert least in s;
    }
  }

  /** The smallest element of a non-empty set of ids. */
  function MinOf(s: set<int>): (m: int)
    requires s != {}
    ensures m in s && forall x :: x in s ==> m <= x
  {
    MinExists(s);
    var m :| m in s && forall x :: x in s ==> m <= x;
    m
  }

  /** A set of ids listed in ascending order (`ORDER BY id`). */
  function SortedIds(s: set<int>): (r: seq<int>)
    ensures Increasing(r)
    ensures forall i :: 0 <= i < |r| ==> r[i] in s
    ensures forall x :: x in s ==> x in r
    ensures |r| == |s|
    decreases |s|
  {
    if s == {} then []
    else
      var m := MinOf(s);
      [m] + SortedIds(s - {m})
  }

  /** An ascending listing of a set is unique: it is the one SortedIds gives. */
  lemma {:induction false} SortedIdsUnique(s: set<int>, r: seq<int>)
    requires Increasing(r)
    requires forall i :: 0 <= i < |r| ==> r[i] in s
    requires forall x :: x in s ==> x in r
    ensures r == SortedIds(s)
    decreases |r|
  {
    if r == [] {
      forall x ensures x !in s {
        assert x in s ==> x in r;
      }
      NoElementEmpty(s);
    } else {
      ListingHead(s, r);
      ListingTail(s, r);
      SortedIdsUnique(s - {r[0]}, r[1..]);
      SortedIdsUnfold(s);
      HeadTail(r);
    }
  }

  lemma HeadTail(r: seq<int>)
    requires r != []
    ensures r == [r[0]] + r[1..]
  {
  }

  lemma SortedIdsUnfold(s: set<int>)
    requires s != {}
    ensures SortedIds(s) == [MinOf(s)] + SortedIds(s - {MinOf(s)})
  {
  }

  lemma ListingHead(s: set<int>, r: seq<int>)
    requires r != []
    requires Increasing(r)
    requires forall i :: 0 <= i < |r| ==> r[i] in s
    requires forall x :: x in s ==> x in r
    ensures s != {} && r[0] == MinOf(s)
  {
    assert r[0] in s;
    var m := MinOf(s);
    assert m in r;
    var k :| 0 <= k < |r| && r[k] == m;
    assert r[0] <= r[k];
  }

  lemma ListingTail(s: set<int>, r: seq<int>)
    requires r != []
    requires Increasing(r)
    requires forall i :: 0 <= i < |r| ==> r[i] in s
    requires forall x :: x in s ==> x in r
    ensures Increasing(r[1..])
    ensures forall i :: 0 <= i < |r[1..]| ==> r[1..][i] in s - {r[0]}
    ensures forall x :: x in s - {r[0]} ==> x in r[1..]
  {
    var tail := r[1..];
    forall i, j | 0 <= i < j < |tail| ensures tail[i] < tail[j] {
      assert tail[i] == r[i + 1] && tail[j] == r[j + 1];
    }
    forall i | 0 <= i < |tail| ensures tail[i] in s - {r[0]} {
      assert tail[i] == r[i + 1];
      assert r[0] < r[i + 1];
    }
    forall x | x in s - {r[0]} ensures x in tail {
      assert x in r;
      var k :| 0 <= k < |r| && r[k] == x;
      assert k != 0;
      assert tail[k - 1] == x;
    }
  }

  /** Appending an id larger than every listed one appends it to the listing. */
  lemma SortedIdsAddMax(s: set<int>, m: int)
    requires forall x :: x in s ==> x < m
    ensures SortedIds(s + {m}) == SortedIds(s) + [m]
  {
    var r := SortedIds(s) + [m];
    forall i, j | 0 <= i < j < |r| ensures r[i] < r[j] {
      if j == |r| - 1 {
        assert r[i] == SortedIds(s)[i];
      }
    }
    forall i | 0 <= i < |r| ensures r[i] in s + {m} {
      if i < |r| - 1 { assert r[i] == SortedIds(s)[i]; }
    }
    SortedIdsUnique(s + {m}, r);
  }

  /** Non-increasing by `key` (`ORDER BY key DESC`). */
  predicate SortedDesc<T>(s: seq<T>, key: T -> int)
  {
    forall i, j :: 0 <= i < j < |s| ==> key(s[i]) >= key(s[j])
  }

  /** Inserts `x` before the first element whose key is not larger. */
  function Insert<T(==)>(x: T, s: seq<T>, key: T -> int): (r: seq<T>)
    ensures multiset(r) == multiset(s) + multiset{x}
    ensures |r| == |s| + 1
    ensures SortedDesc(s, key) ==> SortedDesc(r, key)
  {
    if s == [] then [x]
    else if key(x) >= key(s[0]) then [x] + s
    else
      var rest := Insert(x, s[1..], key);
      assert s == [s[0]] + s[1..];
      InsertDetras(x, s, rest, key);
      [s[0]] + rest
  }

  /** When `x` goes behind the head, the head still leads a sorted result. */
  lemma InsertDetras<T>(x: T, s: seq<T>, rest: seq<T>, key: T -> int)
    requires s != [] && key(x) < key(s[0])
    requires multiset(rest) == multiset(s[1..]) + multiset{x}
    requires SortedDesc(s[1..], key) ==> SortedDesc(rest, key)
    ensures SortedDesc(s, key) ==> SortedDesc([s[0]] + rest, key)
  {
    if SortedDesc(s, key) {
      forall i, j | 0 <= i < j < |s[1..]| ensures key(s[1..][i]) >= key(s[1..][j]) {
        assert s[1..][i] == s[i + 1] && s[1..][j] == s[j + 1];
      }
      forall y | y in rest ensures key(y) <= key(s[0]) {
        assert y in multiset(rest);
        if y != x {
          assert y in multiset(s[1..]);
          var k :| 0 <= k < |s[1..]| && s[1..][k] == y;
          assert s[k + 1] == y;
        }
      }
      ConsSortedDesc(s[0], rest, key);
    }
  }

  lemma ConsSortedDesc<T>(h: T, rest: seq<T>, key: T -> int)
    requires SortedDesc(rest, key)
    requires forall y :: y in rest ==> key(y) <= key(h)
    ensures SortedDesc([h] + rest, key)
  {
    var r := [h] + rest;
    forall i, j | 0 <= i < j < |r| ensures key(r[i]) >= key(r[j]) {
      assert r[j] == rest[j - 1];
      if i > 0 {
        assert r[i] == rest[i - 1];
      }
    }
  }

  /** Insertion sort, non-increasing by `key`; equal keys keep their order. */
  function SortDesc<T(==)>(s: seq<T>, key: T -> int): (r: seq<T>)
    ensures multiset(r) == multiset(s)
    ensures |r| == |s|
    ensures SortedDesc(r, key)
  {
    if s == [] then []
    else
      assert s == [s[0]] + s[1..];
      Insert(s[0], SortDesc(s[1..], key), key)
  }

  /** Every element of the sorted sequence comes from the input. */
  lemma SortDescDe<T>(s: seq<T>, key: T -> int, i: int)
    requires 0 <= i < |SortDesc(s, key)|
    ensures SortDesc(s, key)[i] in s
  {
    var r := SortDesc(s, key);
    assert r[i] in multiset(r);
  }

  /** `LIMIT k`. */
  function Take<T>(s: seq<T>, k: nat): (r: seq<T>)
    ensures |r| == if |s| <= k then |s| else k
    ensures r == s[..|r|]
  {
    if |s| <= k then s else s[..k]
  }

  /** Taking the first k of a non-increasing sequence keeps the k largest:
      anything left out is no larger than anything kept, and something is left
      out only when k elements were kept. */
  lemma {:induction false} TakeKeepsLargest<T>(s: seq<T>, key: T -> int, k: nat, j: nat)
    requires SortedDesc(s, key)
    requires |Take(s, k)| <= j < |s|
    ensures |Take(s, k)| == k
    ensures forall i :: 0 <= i < |Take(s, k)| ==> key(Take(s, k)[i]) >= key(s[j])
  {
    var r := Take(s, k);
    forall i | 0 <= i < |r| ensures key(r[i]) >= key(s[j]) {
      assert r[i] == s[i];
    }
  }
}
