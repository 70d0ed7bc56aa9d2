/** `ORDER BY k1 DESC, k2 DESC` over rows held in a sequence: an insertion
    sort on a pair of integer keys, compared lexicographically. */
module Ordering {

  /** `a` may come before `b` in descending lexicographic order. */
  predicate KeyGeq(a: (int, int), b: (int, int))
  {
    a.0 > b.0 || (a.0 == b.0 && a.1 >= b.1)
  }

  predicate SortedDesc<T>(s: seq<T>, key: T -> (int, int))
  {
    forall i, j :: 0 <= i < j < |s| ==> KeyGeq(key(s[i]), key(s[j]))
  }

  function InsertDesc<T>(x: T, s: seq<T>, key: T -> (int, int)): seq<T>
  {
    if s == [] || KeyGeq(key(x), key(s[0])) then [x] + s
    else [s[0]] + InsertDesc(x, s[1..], key)
  }

  function SortDesc<T>(s: seq<T>, key: T -> (int, int)): seq<T>
  {
    if s == [] then [] else InsertDesc(s[0], SortDesc(s[1..], key), key)
  }

  lemma {:induction false} InsertPermutes<T>(x: T, s: seq<T>, key: T -> (int, int))
    ensures multiset(InsertDesc(x, s, key)) == multiset(s) + multiset{x}
    decreases |s|
  {
    if s != [] && !KeyGeq(key(x), key(s[0])) {
      InsertPermutes(x, s[1..], key);
      assert s == [s[0]] + s[1..];
    }
  }

  lemma {:induction false} InsertSorted<T>(x: T, s: seq<T>, key: T -> (int, int))
    requires SortedDesc(s, key)
    ensures SortedDesc(InsertDesc(x, s, key), key)
    decreases |s|
  {
    if s != [] && !KeyGeq(key(x), key(s[0])) {
      var rest := InsertDesc(x, s[1..], key);
      InsertSorted(x, s[1..], key);
      InsertPermutes(x, s[1..], key);
      forall j | 0 <= j < |rest| ensures KeyGeq(key(s[0]), key(rest[j])) {
        assert rest[j] in multiset(rest);
        if rest[j] != x {
          assert rest[j] in multiset(s[1..]);
          var k :| 0 <= k < |s[1..]| && s[1..][k] == rest[j];
          assert s[k + 1] == rest[j];
        }
      }
    }
  }

  /** The sort puts the rows in descending key order... */
  lemma {:induction false} SortSorted<T>(s: seq<T>, key: T -> (int, int))
    ensures SortedDesc(SortDesc(s, key), key)
    decreases |s|
  {
    if s != [] {
      SortSorted(s[1..], key);
      InsertSorted(s[0], SortDesc(s[1..], key), key);
    }
  }

  /** ...and keeps exactly the rows it was given. */
  lemma {:induction false} SortPermutes<T>(s: seq<T>, key: T -> (int, int))
    ensures multiset(SortDesc(s, key)) == multiset(s)
    decreases |s|
  {
    if s != [] {
      SortPermutes(s[1..], key);
      InsertPermutes(s[0], SortDesc(s[1..], key), key);
      assert s == [s[0]] + s[1..];
    }
  }

  /** `LIMIT n` on a sorted result keeps the first `n` rows; every row it
      drops comes no earlier in the order than every row it keeps. */
  function Take<T>(s: seq<T>, n: nat): (r: seq<T>)
    ensures |r| == if n < |s| then n else |s|
    ensures r == s[..|r|]
  {
    if n < |s| then s[..n] else s
  }

  /** `LIMIT n` keeps a part of its input. */
  lemma TakeSubMultiset<T>(s: seq<T>, n: nat)
    ensures multiset(Take(s, n)) <= multiset(s)
  {
    assert s == Take(s, n) + s[|Take(s, n)|..];
  }

  /** A row of a sorted sequence that `LIMIT n` drops comes after every row
      it keeps, and is only dropped when `n` rows were kept. */
  lemma TakeIsTop<T>(s: seq<T>, n: nat, key: T -> (int, int))
    requires SortedDesc(s, key)
    ensures forall x :: x in s && x !in Take(s, n) ==>
      |Take(s, n)| == n && forall i :: 0 <= i < |Take(s, n)| ==> KeyGeq(key(Take(s, n)[i]), key(x))
  {
    var top := Take(s, n);
    forall x | x in s && x !in top
      ensures |top| == n && forall i :: 0 <= i < |top| ==> KeyGeq(key(top[i]), key(x))
    {
      var j :| 0 <= j < |s| && s[j] == x;
    }
  }
}
