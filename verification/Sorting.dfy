/** Stable sorting by the unsigned byte order of a key. */
module Sorting {
  import opened Prelude

  function Insert<T>(key: T -> Bytes, x: T, sorted: seq<T>): (r: seq<T>)
    ensures multiset(r) == multiset(sorted) + multiset{x}
  {
    if sorted == [] || LexLess(key(x), key(sorted[0])) then
      assert multiset([x] + sorted) == multiset{x} + multiset(sorted);
      [x] + sorted
    else
      assert sorted == [sorted[0]] + sorted[1..];
      [sorted[0]] + Insert(key, x, sorted[1..])
  }

  function SortBy<T>(key: T -> Bytes, items: seq<T>): (r: seq<T>)
    ensures multiset(r) == multiset(items) && |r| == |items|
  {
    if items == [] then []
    else
      assert items == [items[0]] + items[1..];
      var r := Insert(key, items[0], SortBy(key, items[1..]));
      assert |multiset(r)| == |multiset(items)|;
      r
  }

  lemma CountTwice<T>(s: seq<T>, i: nat, j: nat)
    requires i < j < |s| && s[i] == s[j]
    ensures multiset(s)[s[i]] >= 2
  {
    assert s == s[..i] + [s[i]] + s[i + 1..j] + [s[j]] + s[j + 1..];
  }

  lemma CountOnce<T>(s: seq<T>, a: nat)
    requires a < |s| && forall i, j | 0 <= i < j < |s| :: s[i] != s[j]
    ensures multiset(s)[s[a]] == 1
  {
    assert s == s[..a] + [s[a]] + s[a + 1..];
    assert s[a] !in s[..a] && s[a] !in s[a + 1..];
  }

  /** Nothing later is smaller. */
  ghost predicate NonDescending<T>(key: T -> Bytes, s: seq<T>)
  {
    forall i, j | 0 <= i < j < |s| :: !LexLess(key(s[j]), key(s[i]))
  }

  lemma NotLess(a: Bytes, b: Bytes, x: Bytes)
    requires !LexLess(b, a) && (LexLess(x, a) || x == a)
    ensures !LexLess(b, x)
  {
    if LexLess(b, x) && LexLess(x, a) { LexTransitive(b, x, a); }
  }

  lemma {:induction false} InsertKeepsOrder<T>(key: T -> Bytes, x: T, sorted: seq<T>)
    requires NonDescending(key, sorted)
    ensures NonDescending(key, Insert(key, x, sorted))
  {
    hide LexLess;
    if sorted == [] {
    } else if LexLess(key(x), key(sorted[0])) {
      LexAsymmetric(key(x), key(sorted[0]));
      forall j | 0 <= j < |sorted| ensures !LexLess(key(sorted[j]), key(x)) {
        if j > 0 { NotLess(key(sorted[0]), key(sorted[j]), key(x)); }
      }
    } else {
      var rest := Insert(key, x, sorted[1..]);
      InsertKeepsOrder(key, x, sorted[1..]);
      forall j | 0 <= j < |rest| ensures !LexLess(key(rest[j]), key(sorted[0])) {
        assert rest[j] in multiset(rest);
        if rest[j] != x { assert rest[j] in sorted[1..]; }
      }
    }
  }

  lemma {:induction false} SortIsOrdered<T>(key: T -> Bytes, items: seq<T>)
    ensures NonDescending(key, SortBy(key, items))
  {
    hide NonDescending;
    if items == [] { EmptyOrdered(key); }
    else {
      SortIsOrdered(key, items[1..]);
      InsertKeepsOrder(key, items[0], SortBy(key, items[1..]));
    }
  }

  lemma EmptyOrdered<T>(key: T -> Bytes)
    ensures NonDescending(key, [])
  {
  }

  lemma SameElements<T>(a: seq<T>, b: seq<T>)
    requires multiset(a) == multiset(b)
    ensures forall x :: x in a <==> x in b
  {
    forall x ensures x in a <==> x in b { assert x in multiset(a) <==> x in multiset(b); }
  }

  /** Sorted with all keys different: strictly ascending. */
  lemma DistinctAscends<T>(key: T -> Bytes, s: seq<T>)
    requires NonDescending(key, s) && forall i, j | 0 <= i < j < |s| :: key(s[i]) != key(s[j])
    ensures forall i, j | 0 <= i < j < |s| :: LexLess(key(s[i]), key(s[j]))
  {
    hide LexLess;
    forall i, j | 0 <= i < j < |s| ensures LexLess(key(s[i]), key(s[j])) { LexTotal(key(s[i]), key(s[j])); }
  }
}
