/**
  The order `orderBy: { name: "asc" }` sorts by. The store's collation is not
  part of this model; names are compared lexicographically by character code,
  a proper prefix coming first. The module proves that this is a total order
  and gives the insertion step the listing uses to build a sorted sequence.
 */
module NameOrder {

  /** `a` sorts no later than `b`. */
  predicate LexLe(a: string, b: string)
    decreases |a|
  {
    if a == [] then true
    else if b == [] then false
    else if a[0] != b[0] then a[0] < b[0]
    else LexLe(a[1..], b[1..])
  }

  lemma {:induction false} LexLeReflexive(a: string)
    ensures LexLe(a, a)
    decreases |a|
  {
    if a != [] {
      LexLeReflexive(a[1..]);
    }
  }

  lemma {:induction false} LexLeTotal(a: string, b: string)
    ensures LexLe(a, b) || LexLe(b, a)
    decreases |a|
  {
    if a != [] && b != [] && a[0] == b[0] {
      LexLeTotal(a[1..], b[1..]);
    }
  }

  lemma {:induction false} LexLeAntisymmetric(a: string, b: string)
    requires LexLe(a, b) && LexLe(b, a)
    ensures a == b
    decreases |a|
  {
    if a != [] {
      LexLeAntisymmetric(a[1..], b[1..]);
      assert a == [a[0]] + a[1..] && b == [b[0]] + b[1..];
    }
  }

  lemma {:induction false} LexLeTransitive(a: string, b: string, c: string)
    requires LexLe(a, b) && LexLe(b, c)
    ensures LexLe(a, c)
    decreases |a|
  {
    if a != [] && a[0] == b[0] && b[0] == c[0] {
      LexLeTransitive(a[1..], b[1..], c[1..]);
    }
  }

  /** `s` is in ascending name order, `key` reading the name of an element. */
  ghost predicate SortedBy<T>(s: seq<T>, key: T -> string) {
    forall i, j :: 0 <= i < j < |s| ==> LexLe(key(s[i]), key(s[j]))
  }

  /** Prepending an element that sorts no later than every element keeps the order. */
  lemma PrependSorted<T>(h: T, s: seq<T>, key: T -> string)
    requires SortedBy(s, key)
    requires forall j :: 0 <= j < |s| ==> LexLe(key(h), key(s[j]))
    ensures SortedBy([h] + s, key)
  {
    forall i, j | 0 <= i < j < |[h] + s|
      ensures LexLe(key(([h] + s)[i]), key(([h] + s)[j]))
    {
      if i > 0 {
        assert ([h] + s)[i] == s[i - 1];
      }
    }
  }

  /** A bound on `x` and on every element of `s` bounds every element of a permutation of `s + [x]`. */
  lemma BoundKept<T>(lo: string, s: seq<T>, x: T, r: seq<T>, key: T -> string)
    requires multiset(r) == multiset(s) + multiset{x}
    requires LexLe(lo, key(x))
    requires forall j :: 0 <= j < |s| ==> LexLe(lo, key(s[j]))
    ensures forall j :: 0 <= j < |r| ==> LexLe(lo, key(r[j]))
  {
    forall j | 0 <= j < |r|
      ensures LexLe(lo, key(r[j]))
    {
      assert r[j] in multiset(r);
      if r[j] != x {
        assert r[j] in multiset(s);
        var k :| 0 <= k < |s| && s[k] == r[j];
      }
    }
  }

  /** Inserts `x` after the elements whose name sorts strictly before it. */
  function InsertBy<T>(s: seq<T>, x: T, key: T -> string): (r: seq<T>)
    requires SortedBy(s, key)
    ensures SortedBy(r, key)
    ensures multiset(r) == multiset(s) + multiset{x}
    decreases |s|
  {
    if s == [] then [x]
    else if LexLe(key(x), key(s[0])) then
      assert forall j :: 0 <= j < |s| ==> LexLe(key(x), key(s[j])) by {
        forall j | 0 < j < |s| {
          LexLeTransitive(key(x), key(s[0]), key(s[j]));
        }
      }
      PrependSorted(x, s, key);
      [x] + s
    else
      var rest := InsertBy(s[1..], x, key);
      LexLeTotal(key(x), key(s[0]));
      BoundKept(key(s[0]), s[1..], x, rest, key);
      PrependSorted(s[0], rest, key);
      assert s == [s[0]] + s[1..];
      [s[0]] + rest
  }
}
