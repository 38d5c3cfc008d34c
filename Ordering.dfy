/**
 * Ordering by order id: the comparison `a.localeCompare(b)` (modelled as
 * lexicographic order of characters, Unicode scalar values) and the stable
 * `Array.prototype.sort` the query page calls with it.
 */
module Ordering {

  /** `a` comes no later than `b` in lexicographic order of characters. */
  predicate LexLe(a: string, b: string)
    decreases |a|
  {
    |a| == 0 || (|b| > 0 && (a[0] < b[0] || (a[0] == b[0] && LexLe(a[1..], b[1..]))))
  }

  lemma {:induction false} LexLeReflexive(a: string)
    ensures LexLe(a, a)
    decreases |a|
  {
    if |a| > 0 {
      LexLeReflexive(a[1..]);
    }
  }

  /** A string that does not come before another differs from it. */
  lemma NotLexLeDiffers(a: string, b: string)
    requires !LexLe(a, b)
    ensures a != b
  {
    LexLeReflexive(a);
  }

  lemma {:induction false} LexLeTotal(a: string, b: string)
    ensures LexLe(a, b) || LexLe(b, a)
    decreases |a|
  {
    if |a| > 0 && |b| > 0 && a[0] == b[0] {
      LexLeTotal(a[1..], b[1..]);
    }
  }

  lemma {:induction false} LexLeAntisymmetric(a: string, b: string)
    requires LexLe(a, b) && LexLe(b, a)
    ensures a == b
    decreases |a|
  {
    if |a| > 0 {
      LexLeAntisymmetric(a[1..], b[1..]);
      assert a == [a[0]] + a[1..] && b == [b[0]] + b[1..];
    }
  }

  lemma {:induction false} LexLeTransitive(a: string, b: string, c: string)
    requires LexLe(a, b) && LexLe(b, c)
    ensures LexLe(a, c)
    decreases |a|
  {
    if |a| > 0 && a[0] == b[0] && b[0] == c[0] {
      LexLeTransitive(a[1..], b[1..], c[1..]);
    }
  }

  /** Ascending by key: every earlier element's key is at most every later one's. */
  ghost predicate SortedBy<T>(s: seq<T>, key: T -> string) {
    forall i, j :: 0 <= i < j < |s| ==> LexLe(key(s[i]), key(s[j]))
  }

  /** No two elements share a key. */
  ghost predicate DistinctKeys<T>(s: seq<T>, key: T -> string) {
    forall i, j :: 0 <= i < j < |s| ==> key(s[i]) != key(s[j])
  }

  /** The elements whose key is `k`, in their order in `s`. */
  function KeyFilter<T>(s: seq<T>, key: T -> string, k: string): seq<T> {
    if s == [] then []
    else (if key(s[0]) == k then [s[0]] else []) + KeyFilter(s[1..], key, k)
  }

  /** The sum of `f` over `s`. */
  function SumBy<T>(s: seq<T>, f: T -> int): int {
    if s == [] then 0 else f(s[0]) + SumBy(s[1..], f)
  }

  /** Puts `x` in front of the first element whose key is not below its own. */
  function Insert<T>(x: T, s: seq<T>, key: T -> string): seq<T> {
    if s == [] || LexLe(key(x), key(s[0])) then [x] + s
    else [s[0]] + Insert(x, s[1..], key)
  }

  /**
   * `s.slice().sort((a, b) => key(a).localeCompare(key(b)))`: insertion of each
   * element, from the last to the first, into the sorted rest.
   */
  function SortBy<T>(s: seq<T>, key: T -> string): seq<T> {
    if s == [] then [] else Insert(s[0], SortBy(s[1..], key), key)
  }

  /** Inserting adds exactly one occurrence of `x`. */
  lemma {:induction false} InsertPermutes<T>(x: T, s: seq<T>, key: T -> string)
    ensures multiset(Insert(x, s, key)) == multiset(s) + multiset{x}
    decreases |s|
  {
    if s != [] && !LexLe(key(x), key(s[0])) {
      InsertPermutes(x, s[1..], key);
      assert s == [s[0]] + s[1..];
    }
  }

  /** Sorting is a permutation: every element occurs as often as before. */
  lemma {:induction false} SortByPermutes<T>(s: seq<T>, key: T -> string)
    ensures multiset(SortBy(s, key)) == multiset(s)
    decreases |s|
  {
    if s != [] {
      SortByPermutes(s[1..], key);
      InsertPermutes(s[0], SortBy(s[1..], key), key);
      assert s == [s[0]] + s[1..];
    }
  }

  /** Sorting neither loses nor invents elements. */
  lemma SortByMembers<T>(s: seq<T>, key: T -> string)
    ensures forall e :: e in SortBy(s, key) <==> e in s
  {
    var r := SortBy(s, key);
    SortByPermutes(s, key);
    forall e ensures e in r <==> e in s {
      assert e in r <==> e in multiset(r);
    }
  }

  lemma {:induction false} InsertSorted<T>(x: T, s: seq<T>, key: T -> string)
    requires SortedBy(s, key)
    ensures SortedBy(Insert(x, s, key), key)
    decreases |s|
  {
    if s == [] || LexLe(key(x), key(s[0])) {
      var r := [x] + s;
      forall i, j | 0 <= i < j < |r| ensures LexLe(key(r[i]), key(r[j])) {
        if i == 0 && j > 1 {
          LexLeTransitive(key(x), key(s[0]), key(s[j - 1]));
        }
      }
    } else {
      LexLeTotal(key(x), key(s[0]));
      InsertSorted(x, s[1..], key);
      var rest := Insert(x, s[1..], key);
      InsertPermutes(x, s[1..], key);
      var r := [s[0]] + rest;
      forall j | 0 < j < |r| ensures LexLe(key(s[0]), key(r[j])) {
        assert r[j] in multiset(rest);
        if r[j] != x {
          assert r[j] in multiset(s[1..]);
          var m :| 0 <= m < |s[1..]| && s[1..][m] == r[j];
          assert s[m + 1] == r[j];
        }
      }
    }
  }

  lemma KeyFilterCons<T>(y: T, t: seq<T>, key: T -> string, k: string)
    ensures KeyFilter([y] + t, key, k) == (if key(y) == k then [y] else []) + KeyFilter(t, key, k)
  {
    assert ([y] + t)[1..] == t;
  }

  lemma {:induction false} InsertKeyFilter<T>(x: T, s: seq<T>, key: T -> string, k: string)
    ensures KeyFilter(Insert(x, s, key), key, k)
         == (if key(x) == k then [x] else []) + KeyFilter(s, key, k)
    decreases |s|
  {
    if s == [] || LexLe(key(x), key(s[0])) {
      KeyFilterCons(x, s, key, k);
    } else {
      InsertKeyFilter(x, s[1..], key, k);
      InsertAfterKeyFilter(x, s, key, k);
    }
  }

  /** The step of `InsertKeyFilter` where `x` goes after `s[0]`. */
  lemma InsertAfterKeyFilter<T>(x: T, s: seq<T>, key: T -> string, k: string)
    requires s != [] && !LexLe(key(x), key(s[0]))
    requires KeyFilter(Insert(x, s[1..], key), key, k)
          == (if key(x) == k then [x] else []) + KeyFilter(s[1..], key, k)
    ensures KeyFilter(Insert(x, s, key), key, k)
         == (if key(x) == k then [x] else []) + KeyFilter(s, key, k)
  {
    var rest := Insert(x, s[1..], key);
    var tail := KeyFilter(s[1..], key, k);
    var a := if key(s[0]) == k then [s[0]] else [];
    var b := if key(x) == k then [x] else [];
    KeyFilterCons(s[0], rest, key, k);
    assert KeyFilter(Insert(x, s, key), key, k) == a + (b + tail);
    assert KeyFilter(s, key, k) == a + tail;
    if key(x) == k {
      // x goes after s[0], so s[0] has a different key
      NotLexLeDiffers(key(x), key(s[0]));
      assert a == [];
      assert a + (b + tail) == b + tail;
    } else {
      assert b + tail == tail;
    }
  }

  lemma {:induction false} InsertSum<T>(x: T, s: seq<T>, key: T -> string, f: T -> int)
    ensures SumBy(Insert(x, s, key), f) == f(x) + SumBy(s, f)
    decreases |s|
  {
    if s == [] || LexLe(key(x), key(s[0])) {
      assert ([x] + s)[1..] == s;
    } else {
      InsertSum(x, s[1..], key, f);
      var r := [s[0]] + Insert(x, s[1..], key);
      assert r[1..] == Insert(x, s[1..], key);
    }
  }

  lemma {:induction false} InsertDistinct<T>(x: T, s: seq<T>, key: T -> string)
    requires DistinctKeys(s, key)
    requires forall i :: 0 <= i < |s| ==> key(s[i]) != key(x)
    ensures DistinctKeys(Insert(x, s, key), key)
    decreases |s|
  {
    if s == [] || LexLe(key(x), key(s[0])) {
    } else {
      InsertDistinct(x, s[1..], key);
      var rest := Insert(x, s[1..], key);
      InsertPermutes(x, s[1..], key);
      var r := [s[0]] + rest;
      forall j | 0 < j < |r| ensures key(s[0]) != key(r[j]) {
        assert r[j] in multiset(rest);
        if r[j] != x {
          assert r[j] in multiset(s[1..]);
          var m :| 0 <= m < |s[1..]| && s[1..][m] == r[j];
          assert s[m + 1] == r[j];
        }
      }
    }
  }

  /**
   * The sort is a stable sort: its result is ascending by key, and for every
   * key the elements with that key appear in the same order as in the input
   * (together these make the result a permutation of the input).
   */
  lemma {:induction false} SortByIsStableSort<T>(s: seq<T>, key: T -> string)
    ensures SortedBy(SortBy(s, key), key)
    ensures forall k :: KeyFilter(SortBy(s, key), key, k) == KeyFilter(s, key, k)
    decreases |s|
  {
    if s != [] {
      SortByIsStableSort(s[1..], key);
      InsertSorted(s[0], SortBy(s[1..], key), key);
      forall k ensures KeyFilter(SortBy(s, key), key, k) == KeyFilter(s, key, k) {
        InsertKeyFilter(s[0], SortBy(s[1..], key), key, k);
      }
    }
  }

  /** Sorting does not change a sum over the elements. */
  lemma {:induction false} SortBySum<T>(s: seq<T>, key: T -> string, f: T -> int)
    ensures SumBy(SortBy(s, key), f) == SumBy(s, f)
    decreases |s|
  {
    if s != [] {
      SortBySum(s[1..], key, f);
      InsertSum(s[0], SortBy(s[1..], key), key, f);
    }
  }

  /** Sorting keeps keys distinct. */
  lemma {:induction false} SortByDistinct<T>(s: seq<T>, key: T -> string)
    requires DistinctKeys(s, key)
    ensures DistinctKeys(SortBy(s, key), key)
    decreases |s|
  {
    if s != [] {
      var rest := SortBy(s[1..], key);
      SortByDistinct(s[1..], key);
      SortByPermutes(s[1..], key);
      forall i | 0 <= i < |rest| ensures key(rest[i]) != key(s[0]) {
        assert rest[i] in multiset(s[1..]);
        var m :| 0 <= m < |s[1..]| && s[1..][m] == rest[i];
        assert s[m + 1] == rest[i];
      }
      InsertDistinct(s[0], rest, key);
    }
  }

  /** With distinct keys, a sorted sequence is strictly ascending. */
  lemma SortedDistinctIsStrict<T>(s: seq<T>, key: T -> string, i: int, j: int)
    requires SortedBy(s, key) && DistinctKeys(s, key)
    requires 0 <= i < j < |s|
    ensures LexLe(key(s[i]), key(s[j])) && !LexLe(key(s[j]), key(s[i]))
  {
    if LexLe(key(s[j]), key(s[i])) {
      LexLeAntisymmetric(key(s[i]), key(s[j]));
    }
  }
}
