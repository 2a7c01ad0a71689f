/**
 * Ascending order by an integer key: the order a database query with `orderBy: { field: "asc" }`
 * returns rows in (descending order is ascending order of the negated key).
 */
module Sorting {

  predicate SortedBy<T>(s: seq<T>, key: T -> int) {
    forall i, j :: 0 <= i < j < |s| ==> key(s[i]) <= key(s[j])
  }

  /** Where `x` goes in sorted `s`: after every smaller key, before every key not smaller. */
  function InsertionPoint<T>(x: T, s: seq<T>, key: T -> int): (k: nat)
    requires SortedBy(s, key)
    ensures k <= |s|
    ensures forall i :: 0 <= i < k ==> key(s[i]) < key(x)
    ensures forall i :: k <= i < |s| ==> key(x) <= key(s[i])
  {
    if s == [] || key(x) <= key(s[0]) then 0
    else 1 + InsertionPoint(x, s[1..], key)
  }

  function Insert<T>(x: T, s: seq<T>, key: T -> int): (r: seq<T>)
    requires SortedBy(s, key)
    ensures SortedBy(r, key)
    ensures multiset(r) == multiset(s) + multiset{x}
  {
    var k := InsertionPoint(x, s, key);
    InsertKeepsOrder(x, s, key);
    InsertAddsOne(x, s, key);
    s[..k] + [x] + s[k..]
  }

  lemma InsertKeepsOrder<T>(x: T, s: seq<T>, key: T -> int)
    requires SortedBy(s, key)
    ensures var k := InsertionPoint(x, s, key); SortedBy(s[..k] + [x] + s[k..], key)
  {
    var k := InsertionPoint(x, s, key);
    var r := s[..k] + [x] + s[k..];
    forall i, j | 0 <= i < j < |r| ensures key(r[i]) <= key(r[j]) {
      InsertedAt(x, s, k, i);
      InsertedAt(x, s, k, j);
    }
  }

  /** The element at position `i` once `x` is placed at position `k`. */
  lemma InsertedAt<T>(x: T, s: seq<T>, k: nat, i: nat)
    requires k <= |s| && i <= |s|
    ensures var r := s[..k] + [x] + s[k..];
      r[i] == if i < k then s[i] else if i == k then x else s[i - 1]
  {
  }

  lemma InsertAddsOne<T>(x: T, s: seq<T>, key: T -> int)
    requires SortedBy(s, key)
    ensures var k := InsertionPoint(x, s, key); multiset(s[..k] + [x] + s[k..]) == multiset(s) + multiset{x}
  {
    var k := InsertionPoint(x, s, key);
    assert s[..k] + s[k..] == s;
  }

  /** The rows of `s` in ascending key order. */
  function SortBy<T>(s: seq<T>, key: T -> int): (r: seq<T>)
    ensures SortedBy(r, key)
    ensures multiset(r) == multiset(s)
  {
    if s == [] then []
    else
      assert s == [s[0]] + s[1..];
      Insert(s[0], SortBy(s[1..], key), key)
  }
}
