/**
 * LINQ's `OrderBy`/`ThenBy` as a stable sort on sequences, and the ordering
 * `StringComparer.OrdinalIgnoreCase` imposes: strings compared code by code
 * after upper-casing, a shorter prefix first. Keys are integer sequences
 * compared lexicographically, so a composite key (`OrderByDescending(flag)
 * .ThenBy(path)`) is one key with the flag in front.
 */
module Ordering {
  import opened Chars
  import opened Text

  /** Lexicographic `<=` on integer sequences. */
  predicate LexLe(a: seq<int>, b: seq<int>) {
    a == [] || (b != [] && (a[0] < b[0] || (a[0] == b[0] && LexLe(a[1..], b[1..]))))
  }

  lemma {:induction false} LexLeTotal(a: seq<int>, b: seq<int>)
    ensures LexLe(a, b) || LexLe(b, a)
  {
    if a != [] && b != [] && a[0] == b[0] {
      LexLeTotal(a[1..], b[1..]);
    }
  }

  lemma {:induction false} LexLeTransitive(a: seq<int>, b: seq<int>, c: seq<int>)
    requires LexLe(a, b) && LexLe(b, c)
    ensures LexLe(a, c)
  {
    if a != [] && b != [] && c != [] && a[0] == b[0] && b[0] == c[0] {
      LexLeTransitive(a[1..], b[1..], c[1..]);
    }
  }

  lemma {:induction false} LexLeAntisymmetric(a: seq<int>, b: seq<int>)
    requires LexLe(a, b) && LexLe(b, a)
    ensures a == b
  {
    if a != [] && b != [] {
      LexLeAntisymmetric(a[1..], b[1..]);
    }
  }

  /** A flag in front of a key decides the order before the key does. */
  lemma LexLeCons(x: int, a: seq<int>, y: int, b: seq<int>)
    ensures LexLe([x] + a, [y] + b) <==> x < y || (x == y && LexLe(a, b))
  {
    assert ([x] + a)[1..] == a;
    assert ([y] + b)[1..] == b;
  }

  /** The sort key of `StringComparer.OrdinalIgnoreCase`: the upper-cased character codes. */
  function FoldKey(s: string): (k: seq<int>)
    ensures |k| == |s|
  {
    seq(|s|, i requires 0 <= i < |s| => ToUpper(s[i]) as int)
  }

  /** Two strings are equal under `OrdinalIgnoreCase` exactly when their fold keys are. */
  lemma FoldKeyEquality(a: string, b: string)
    ensures FoldKey(a) == FoldKey(b) <==> EqualsIgnoreCase(a, b)
  {
    if FoldKey(a) == FoldKey(b) {
      assert |a| == |b|;
      forall i | 0 <= i < |a| ensures Upper(a)[i] == Upper(b)[i] {
        assert FoldKey(a)[i] == FoldKey(b)[i];
      }
    }
    if EqualsIgnoreCase(a, b) {
      assert |Upper(a)| == |Upper(b)|;
      forall i | 0 <= i < |a| ensures FoldKey(a)[i] == FoldKey(b)[i] {
        assert Upper(a)[i] == Upper(b)[i];
      }
    }
  }

  predicate SortedBy<T>(s: seq<T>, key: T -> seq<int>) {
    forall i, j | 0 <= i < j < |s| :: LexLe(key(s[i]), key(s[j]))
  }

  /** Puts `x` in front of the first element whose key is not smaller. */
  function Insert<T>(x: T, s: seq<T>, key: T -> seq<int>): (r: seq<T>)
    requires SortedBy(s, key)
    ensures SortedBy(r, key)
    ensures multiset(r) == multiset(s) + multiset{x}
  {
    if s == [] then [x]
    else if LexLe(key(x), key(s[0])) then
      InsertFront(x, s, key);
      [x] + s
    else
      LexLeTotal(key(x), key(s[0]));
      var rest := Insert(x, s[1..], key);
      InsertBehind(s[0], rest, x, s[1..], key);
      assert s == [s[0]] + s[1..];
      [s[0]] + rest
  }

  lemma InsertFront<T>(x: T, s: seq<T>, key: T -> seq<int>)
    requires SortedBy(s, key) && s != [] && LexLe(key(x), key(s[0]))
    ensures SortedBy([x] + s, key)
  {
    forall j | 0 < j < |s| ensures LexLe(key(x), key(s[j])) {
      LexLeTransitive(key(x), key(s[0]), key(s[j]));
    }
  }

  lemma InsertBehind<T>(h: T, rest: seq<T>, x: T, tail: seq<T>, key: T -> seq<int>)
    requires SortedBy(rest, key) && LexLe(key(h), key(x))
    requires multiset(rest) == multiset(tail) + multiset{x}
    requires forall j | 0 <= j < |tail| :: LexLe(key(h), key(tail[j]))
    ensures SortedBy([h] + rest, key)
  {
    forall j | 0 <= j < |rest| ensures LexLe(key(h), key(rest[j])) {
      assert rest[j] in multiset(rest);
      if rest[j] != x {
        assert rest[j] in multiset(tail);
        var k :| 0 <= k < |tail| && tail[k] == rest[j];
      }
    }
  }

  /** `OrderBy(key)`: a stable insertion sort, sorted by `key` and a permutation of its input. */
  function SortBy<T>(s: seq<T>, key: T -> seq<int>): (r: seq<T>)
    ensures SortedBy(r, key)
    ensures multiset(r) == multiset(s)
    ensures |r| == |s|
  {
    if s == [] then []
    else
      var rest := SortBy(s[1..], key);
      assert s == [s[0]] + s[1..];
      Insert(s[0], rest, key)
  }

  /** An element of a sorted permutation is an element of the input, and conversely. */
  lemma SortByMembers<T>(s: seq<T>, key: T -> seq<int>)
    ensures forall x :: x in SortBy(s, key) <==> x in s
  {
    var r := SortBy(s, key);
    forall x ensures x in r <==> x in s {
      assert x in r <==> x in multiset(r);
      assert x in s <==> x in multiset(s);
    }
  }
}
