/**
 * Table operations on rows kept as sequences: the filters, first-match lookups,
 * row updates and orderings that the store's queries perform.
 */
module Seqs {
  import opened Wrappers
  import Text

  /** `.select().eq(...)`: the rows that satisfy p, in table order. */
  function Filter<T(==,!new)>(s: seq<T>, p: T -> bool): (r: seq<T>)
    ensures |r| <= |s|
    ensures forall x :: x in r <==> x in s && p(x)
    ensures forall x :: multiset(r)[x] == if p(x) then multiset(s)[x] else 0
    decreases |s|
  {
    if |s| == 0 then []
    else
      assert s == [s[0]] + s[1..];
      if p(s[0]) then [s[0]] + Filter(s[1..], p)
      else Filter(s[1..], p)
  }

  /** `.eq(...).order(column)`: each row that satisfies p, once per occurrence, ordered by an integer column. */
  function SelectSorted<T(==,!new)>(s: seq<T>, p: T -> bool, key: T -> int): (r: seq<T>)
    ensures forall x :: multiset(r)[x] == if p(x) then multiset(s)[x] else 0
    ensures forall x :: x in r <==> x in s && p(x)
    ensures forall i :: 0 < i < |r| ==> key(r[i - 1]) <= key(r[i])
  {
    var kept := Filter(s, p);
    var r := SortByInt(kept, key);
    assert forall x :: x in r <==> x in multiset(kept);
    r
  }

  /** The index of the first row that satisfies p. */
  function FirstIndex<T>(s: seq<T>, p: T -> bool): (r: Option<nat>)
    ensures r.Some? ==> r.value < |s| && p(s[r.value]) && forall j :: 0 <= j < r.value ==> !p(s[j])
    ensures r.None? ==> forall j :: 0 <= j < |s| ==> !p(s[j])
    decreases |s|
  {
    if |s| == 0 then None
    else if p(s[0]) then Some(0)
    else match FirstIndex(s[1..], p)
      case None => None
      case Some(k) => Some(k + 1)
  }

  /** A lookup that returns one row: the first row that satisfies p, if any. */
  function FindFirst<T(==,!new)>(s: seq<T>, p: T -> bool): (r: Option<T>)
    ensures r.Some? ==> r.value in s && p(r.value)
    ensures r.None? <==> forall x :: x in s ==> !p(x)
  {
    match FirstIndex(s, p)
    case None => None
    case Some(i) => Some(s[i])
  }

  /** `.eq(...).order(column)` on a text column: each row that satisfies p, in lexicographic order. */
  function SelectSortedByText<T(==,!new)>(s: seq<T>, p: T -> bool, key: T -> string): (r: seq<T>)
    ensures forall x :: multiset(r)[x] == if p(x) then multiset(s)[x] else 0
    ensures forall x :: x in r <==> x in s && p(x)
    ensures forall i :: 0 < i < |r| ==> Text.LexLe(key(r[i - 1]), key(r[i]))
  {
    var kept := Filter(s, p);
    var r := SortByText(kept, key);
    assert forall x :: x in r <==> x in multiset(kept);
    r
  }

  /** No two rows share a key: a primary key or a natural key of the table. */
  predicate Unique<T, K(==)>(s: seq<T>, key: T -> K) {
    forall i, j :: 0 <= i < j < |s| ==> key(s[i]) != key(s[j])
  }

  predicate HasKey<T, K(==)>(s: seq<T>, key: T -> K, k: K) {
    exists i :: 0 <= i < |s| && key(s[i]) == k
  }

  /** Appending a row whose key is new keeps the key unique. */
  lemma UniqueAppend<T, K>(s: seq<T>, key: T -> K, x: T)
    requires Unique(s, key)
    requires !HasKey(s, key, key(x))
    ensures Unique(s + [x], key)
  {
    forall i, j | 0 <= i < j < |s + [x]|
      ensures key((s + [x])[i]) != key((s + [x])[j])
    {
      if j == |s| {
        assert (s + [x])[j] == x;
        assert (s + [x])[i] == s[i];
      } else {
        assert (s + [x])[i] == s[i] && (s + [x])[j] == s[j];
      }
    }
  }

  /** `.eq(column, k).single()`: the first row whose key is k. */
  function FindByKey<T, K(==)>(s: seq<T>, key: T -> K, k: K): (r: Option<T>)
    ensures r.Some? ==> r.value in s && key(r.value) == k
    ensures r.None? <==> !HasKey(s, key, k)
    decreases |s|
  {
    if |s| == 0 then None
    else if key(s[0]) == k then Some(s[0])
    else FindByKey(s[1..], key, k)
  }

  /** Under a unique key, the lookup finds exactly the row that holds the key. */
  lemma {:induction false} FindByKeyUnique<T, K>(s: seq<T>, key: T -> K, x: T)
    requires Unique(s, key)
    requires x in s
    ensures FindByKey(s, key, key(x)) == Some(x)
    decreases |s|
  {
    if s[0] != x {
      assert x in s[1..];
      assert Unique(s[1..], key) by {
        forall i, j | 0 <= i < j < |s[1..]| ensures key(s[1..][i]) != key(s[1..][j]) {
          assert s[1..][i] == s[i + 1] && s[1..][j] == s[j + 1];
        }
      }
      var n :| 0 <= n < |s[1..]| && s[1..][n] == x;
      assert s[n + 1] == x;
      FindByKeyUnique(s[1..], key, x);
    }
  }

  /** A row inserted under a new key is what a lookup of that key then finds. */
  lemma FindByKeyAfterAppend<T, K>(s: seq<T>, key: T -> K, x: T)
    requires Unique(s, key)
    requires !HasKey(s, key, key(x))
    ensures FindByKey(s + [x], key, key(x)) == Some(x)
  {
    UniqueAppend(s, key, x);
    FindByKeyUnique(s + [x], key, x);
  }

  /** `.delete().eq(column, k)`: every row whose key is k goes, the others stay in order. */
  function RemoveKey<T(==,!new), K(==)>(s: seq<T>, key: T -> K, k: K): (r: seq<T>)
    ensures |r| <= |s|
    ensures forall x :: x in r <==> x in s && key(x) != k
    decreases |s|
  {
    if |s| == 0 then []
    else if key(s[0]) == k then RemoveKey(s[1..], key, k)
    else [s[0]] + RemoveKey(s[1..], key, k)
  }

  /** Deleting rows by one key keeps any key of the table unique. */
  lemma {:induction false} UniqueRemoveKey<T(!new), K, J>(s: seq<T>, key: T -> K, k: K, other: T -> J)
    requires Unique(s, other)
    ensures Unique(RemoveKey(s, key, k), other)
    decreases |s|
  {
    if |s| > 0 {
      assert Unique(s[1..], other) by {
        forall i, j | 0 <= i < j < |s[1..]| ensures other(s[1..][i]) != other(s[1..][j]) {
          assert s[1..][i] == s[i + 1] && s[1..][j] == s[j + 1];
        }
      }
      UniqueRemoveKey(s[1..], key, k, other);
      var rest := RemoveKey(s[1..], key, k);
      if key(s[0]) != k {
        var r := [s[0]] + rest;
        forall i, j | 0 <= i < j < |r| ensures other(r[i]) != other(r[j]) {
          if i == 0 {
            assert r[j] == rest[j - 1];
            assert r[j] in s[1..];
            var n :| 0 <= n < |s[1..]| && s[1..][n] == r[j];
            assert s[n + 1] == r[j];
          } else {
            assert r[i] == rest[i - 1] && r[j] == rest[j - 1];
          }
        }
      }
    }
  }

  /** `.update(f).eq(column, k)`: the rows whose key is k become f of themselves. */
  function UpdateKey<T, K(==)>(s: seq<T>, key: T -> K, k: K, f: T -> T): (r: seq<T>)
    ensures |r| == |s|
    ensures forall i :: 0 <= i < |s| ==> r[i] == if key(s[i]) == k then f(s[i]) else s[i]
  {
    seq(|s|, i requires 0 <= i < |s| => if key(s[i]) == k then f(s[i]) else s[i])
  }

  /** An update that leaves a key alone keeps that key unique. */
  lemma UniqueUpdateKey<T, K, J>(s: seq<T>, key: T -> K, k: K, f: T -> T, other: T -> J)
    requires Unique(s, other)
    requires forall x :: other(f(x)) == other(x)
    ensures Unique(UpdateKey(s, key, k, f), other)
  {
  }

  /** An update addressed by a unique key to the row x leaves every other row in place. */
  lemma {:induction false} UpdateKeyKeepsOthers<T, K>(s: seq<T>, key: T -> K, f: T -> T, x: T)
    requires Unique(s, key)
    requires x in s
    ensures forall v :: v in s && v != x ==> v in UpdateKey(s, key, key(x), f)
  {
    var r := UpdateKey(s, key, key(x), f);
    forall v | v in s && v != x ensures v in r {
      var i :| 0 <= i < |s| && s[i] == v;
      var k :| 0 <= k < |s| && s[k] == x;
      assert i != k;
      assert r[i] == v;
    }
  }

  /** After an update that keeps the key, a lookup of that key finds the updated row. */
  lemma FindByKeyAfterUpdate<T, K>(s: seq<T>, key: T -> K, f: T -> T, x: T)
    requires Unique(s, key)
    requires x in s
    requires forall y :: key(f(y)) == key(y)
    ensures FindByKey(UpdateKey(s, key, key(x), f), key, key(x)) == Some(f(x))
  {
    var i :| 0 <= i < |s| && s[i] == x;
    var r := UpdateKey(s, key, key(x), f);
    UniqueUpdateKey(s, key, key(x), f, key);
    assert r[i] == f(x);
    FindByKeyUnique(r, key, f(x));
  }

  /** The same, for an update addressed by one column and a lookup by another key the update keeps. */
  lemma FindByKeyAfterUpdateOf<T, J, K>(s: seq<T>, pk: T -> J, key: T -> K, f: T -> T, x: T)
    requires Unique(s, key)
    requires x in s
    requires forall y :: key(f(y)) == key(y)
    ensures FindByKey(UpdateKey(s, pk, pk(x), f), key, key(x)) == Some(f(x))
  {
    var i :| 0 <= i < |s| && s[i] == x;
    var r := UpdateKey(s, pk, pk(x), f);
    UniqueUpdateKey(s, pk, pk(x), f, key);
    assert r[i] == f(x);
    FindByKeyUnique(r, key, f(x));
  }

  /** `le` orders any two rows one way or the other. */
  ghost predicate Total<T(!new)>(le: (T, T) -> bool) {
    forall a, b :: le(a, b) || le(b, a)
  }

  /** Each row is ordered before the next. */
  predicate SortedBy<T>(s: seq<T>, le: (T, T) -> bool) {
    forall i :: 0 < i < |s| ==> le(s[i - 1], s[i])
  }

  function Insert<T(==,!new)>(x: T, s: seq<T>, le: (T, T) -> bool): (r: seq<T>)
    requires Total(le)
    requires SortedBy(s, le)
    ensures SortedBy(r, le)
    ensures multiset(r) == multiset(s) + multiset{x}
    ensures |r| == |s| + 1
    ensures r[0] == x || (|s| > 0 && r[0] == s[0])
    decreases |s|
  {
    if |s| == 0 then [x]
    else if le(x, s[0]) then [x] + s
    else
      assert s == [s[0]] + s[1..];
      [s[0]] + Insert(x, s[1..], le)
  }

  /** `.order(...)`: the same rows, each ordered before the next. */
  function Sort<T(==,!new)>(s: seq<T>, le: (T, T) -> bool): (r: seq<T>)
    requires Total(le)
    ensures SortedBy(r, le)
    ensures multiset(r) == multiset(s)
    decreases |s|
  {
    if |s| == 0 then []
    else
      assert s == [s[0]] + s[1..];
      Insert(s[0], Sort(s[1..], le), le)
  }

  /** `.order(column, { ascending: true })` on a numeric column. */
  function SortByInt<T(==,!new)>(s: seq<T>, key: T -> int): (r: seq<T>)
    ensures forall i :: 0 < i < |r| ==> key(r[i - 1]) <= key(r[i])
    ensures multiset(r) == multiset(s)
  {
    Sort(s, (a: T, b: T) => key(a) <= key(b))
  }

  /** `.order(column, { ascending: true })` on a text column. */
  function SortByText<T(==,!new)>(s: seq<T>, key: T -> string): (r: seq<T>)
    ensures forall i :: 0 < i < |r| ==> Text.LexLe(key(r[i - 1]), key(r[i]))
    ensures multiset(r) == multiset(s)
  {
    var le := (a: T, b: T) => Text.LexLe(key(a), key(b));
    assert Total(le) by {
      forall a, b ensures le(a, b) || le(b, a) {
        Text.LexLeTotal(key(a), key(b));
      }
    }
    Sort(s, le)
  }
}
