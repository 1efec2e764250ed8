/**
 * Python's ordering of `str` values (lexicographic by code point, a proper
 * prefix first) and `sorted` by a string key.
 */
module Strings {

  /** `a < b` on Python strings: never true of equal strings, and true of a proper prefix. */
  predicate StrLess(a: string, b: string)
    ensures StrLess(a, b) ==> a != b
    ensures |a| < |b| && a == b[..|a|] ==> StrLess(a, b)
    decreases |a|
  {
    if |b| == 0 then false
    else if |a| == 0 then true
    else if a[0] != b[0] then a[0] < b[0]
    else
      assert |a| < |b| && a == b[..|a|] ==> a[1..] == b[1..][..|a| - 1];
      StrLess(a[1..], b[1..])
  }

  predicate StrLe(a: string, b: string) {
    a == b || StrLess(a, b)
  }

  lemma {:induction false} StrLessIrreflexive(a: string)
    ensures !StrLess(a, a)
    decreases |a|
  {
    if |a| > 0 {
      StrLessIrreflexive(a[1..]);
    }
  }

  /** Two different strings are ordered one way or the other, never both. */
  lemma {:induction false} StrLessTotal(a: string, b: string)
    ensures a != b ==> StrLess(a, b) || StrLess(b, a)
    ensures !(StrLess(a, b) && StrLess(b, a))
    decreases |a|
  {
    if |a| > 0 && |b| > 0 && a[0] == b[0] {
      StrLessTotal(a[1..], b[1..]);
      if a != b {
        assert a == [a[0]] + a[1..] && b == [b[0]] + b[1..];
      }
    }
  }

  lemma {:induction false} StrLessTransitive(a: string, b: string, c: string)
    requires StrLess(a, b) && StrLess(b, c)
    ensures StrLess(a, c)
    decreases |a|
  {
    if |a| > 0 && a[0] == b[0] && b[0] == c[0] {
      StrLessTransitive(a[1..], b[1..], c[1..]);
    }
  }

  lemma StrLeTransitive(a: string, b: string, c: string)
    requires StrLe(a, b) && StrLe(b, c)
    ensures StrLe(a, c)
  {
    if a != b && b != c {
      StrLessTransitive(a, b, c);
    }
  }

  /** Every pair in order: `key(s[i]) <= key(s[j])` for `i < j`. */
  predicate SortedBy<T>(s: seq<T>, key: T -> string) {
    forall i, j :: 0 <= i < j < |s| ==> StrLe(key(s[i]), key(s[j]))
  }

  /** Every pair strictly in order, so no key repeats. */
  predicate StrictlySortedBy<T>(s: seq<T>, key: T -> string) {
    forall i, j :: 0 <= i < j < |s| ==> StrLess(key(s[i]), key(s[j]))
  }

  /** Strict order between neighbours gives strict order between every pair. */
  lemma {:induction false} NeighboursStrictlySorted<T>(s: seq<T>, key: T -> string)
    requires forall i :: 0 <= i < |s| - 1 ==> StrLess(key(s[i]), key(s[i + 1]))
    ensures StrictlySortedBy(s, key)
    decreases |s|
  {
    if |s| > 1 {
      NeighboursStrictlySorted(s[1..], key);
      forall j | 1 < j < |s|
        ensures StrLess(key(s[0]), key(s[j]))
      {
        assert s[1..][j - 1] == s[j];
        StrLessTransitive(key(s[0]), key(s[1]), key(s[j]));
      }
      forall i, j | 0 <= i < j < |s|
        ensures StrLess(key(s[i]), key(s[j]))
      {
        if i > 0 {
          assert s[1..][i - 1] == s[i] && s[1..][j - 1] == s[j];
        }
      }
    }
  }

  /** Places `x` before the first element whose key is not smaller, keeping equal keys in their order. */
  function Insert<T>(x: T, s: seq<T>, key: T -> string): (r: seq<T>)
    ensures |r| == |s| + 1
    ensures multiset(r) == multiset(s) + multiset{x}
    decreases |s|
  {
    if |s| == 0 then [x]
    else if StrLe(key(x), key(s[0])) then [x] + s
    else
      assert s == [s[0]] + s[1..];
      [s[0]] + Insert(x, s[1..], key)
  }

  /** `sorted(s, key=key)`: an insertion sort, stable like Python's. */
  function SortBy<T>(s: seq<T>, key: T -> string): (r: seq<T>)
    ensures |r| == |s|
    decreases |s|
  {
    if |s| == 0 then []
    else
      assert s == [s[0]] + s[1..];
      Insert(s[0], SortBy(s[1..], key), key)
  }

  /** Every element of the result is the inserted one or one of `s`. */
  lemma InsertMember<T>(x: T, s: seq<T>, key: T -> string, m: nat)
    requires m < |Insert(x, s, key)|
    ensures Insert(x, s, key)[m] == x || Insert(x, s, key)[m] in s
  {
    var r := Insert(x, s, key);
    assert r[m] in multiset(r);
  }

  lemma ConsSorted<T>(y: T, t: seq<T>, key: T -> string)
    requires SortedBy(t, key) && forall m :: 0 <= m < |t| ==> StrLe(key(y), key(t[m]))
    ensures SortedBy([y] + t, key)
  {
    var r := [y] + t;
    forall i, j | 0 <= i < j < |r|
      ensures StrLe(key(r[i]), key(r[j]))
    {
      assert r[j] == t[j - 1];
      if i > 0 {
        assert r[i] == t[i - 1];
      }
    }
  }

  lemma ConsStrictlySorted<T>(y: T, t: seq<T>, key: T -> string)
    requires StrictlySortedBy(t, key) && forall m :: 0 <= m < |t| ==> StrLess(key(y), key(t[m]))
    ensures StrictlySortedBy([y] + t, key)
  {
    var r := [y] + t;
    forall i, j | 0 <= i < j < |r|
      ensures StrLess(key(r[i]), key(r[j]))
    {
      assert r[j] == t[j - 1];
      if i > 0 {
        assert r[i] == t[i - 1];
      }
    }
  }

  lemma {:induction false} InsertSorted<T>(x: T, s: seq<T>, key: T -> string)
    requires SortedBy(s, key)
    ensures SortedBy(Insert(x, s, key), key)
    decreases |s|
  {
    if |s| == 0 {
    } else if StrLe(key(x), key(s[0])) {
      forall m | 0 <= m < |s|
        ensures StrLe(key(x), key(s[m]))
      {
        StrLeTransitive(key(x), key(s[0]), key(s[m]));
      }
      ConsSorted(x, s, key);
    } else {
      var rest := Insert(x, s[1..], key);
      InsertSorted(x, s[1..], key);
      StrLessTotal(key(x), key(s[0]));
      forall m | 0 <= m < |rest|
        ensures StrLe(key(s[0]), key(rest[m]))
      {
        InsertMember(x, s[1..], key, m);
        if rest[m] != x {
          var k :| 0 <= k < |s[1..]| && s[1..][k] == rest[m];
          assert s[k + 1] == rest[m];
        }
      }
      assert SortedBy(s[1..], key) by {
        forall i, j | 0 <= i < j < |s[1..]|
          ensures StrLe(key(s[1..][i]), key(s[1..][j]))
        {
          assert s[1..][i] == s[i + 1] && s[1..][j] == s[j + 1];
        }
      }
      ConsSorted(s[0], rest, key);
    }
  }

  /** `sorted` returns its input reordered. */
  lemma {:induction false} SortByPermutes<T>(s: seq<T>, key: T -> string)
    ensures multiset(SortBy(s, key)) == multiset(s)
    decreases |s|
  {
    if |s| > 0 {
      SortByPermutes(s[1..], key);
      assert s == [s[0]] + s[1..];
    }
  }

  /** `sorted` returns its input reordered and in order. */
  lemma {:induction false} SortByCorrect<T>(s: seq<T>, key: T -> string)
    ensures SortedBy(SortBy(s, key), key)
    ensures multiset(SortBy(s, key)) == multiset(s)
    decreases |s|
  {
    SortByPermutes(s, key);
    if |s| > 0 {
      SortByCorrect(s[1..], key);
      InsertSorted(s[0], SortBy(s[1..], key), key);
    }
  }

  /** Sorting a sequence that is already in order changes nothing. */
  lemma {:induction false} SortBySortedInput<T>(s: seq<T>, key: T -> string)
    requires SortedBy(s, key)
    ensures SortBy(s, key) == s
    decreases |s|
  {
    if |s| > 0 {
      assert SortedBy(s[1..], key) by {
        forall i, j | 0 <= i < j < |s[1..]|
          ensures StrLe(key(s[1..][i]), key(s[1..][j]))
        {
          assert s[1..][i] == s[i + 1] && s[1..][j] == s[j + 1];
        }
      }
      SortBySortedInput(s[1..], key);
      if |s| > 1 {
        assert StrLe(key(s[0]), key(s[1]));
      }
      assert s == [s[0]] + s[1..];
    }
  }

  lemma {:induction false} InsertStrictlySorted<T>(x: T, s: seq<T>, key: T -> string)
    requires StrictlySortedBy(s, key)
    requires forall m :: 0 <= m < |s| ==> key(s[m]) != key(x)
    ensures StrictlySortedBy(Insert(x, s, key), key)
    decreases |s|
  {
    if |s| == 0 {
    } else if StrLe(key(x), key(s[0])) {
      forall m | 0 <= m < |s|
        ensures StrLess(key(x), key(s[m]))
      {
        if m > 0 {
          StrLessTransitive(key(x), key(s[0]), key(s[m]));
        }
      }
      ConsStrictlySorted(x, s, key);
    } else {
      var rest := Insert(x, s[1..], key);
      assert StrictlySortedBy(s[1..], key) by {
        forall i, j | 0 <= i < j < |s[1..]|
          ensures StrLess(key(s[1..][i]), key(s[1..][j]))
        {
          assert s[1..][i] == s[i + 1] && s[1..][j] == s[j + 1];
        }
      }
      InsertStrictlySorted(x, s[1..], key);
      StrLessTotal(key(x), key(s[0]));
      forall m | 0 <= m < |rest|
        ensures StrLess(key(s[0]), key(rest[m]))
      {
        InsertMember(x, s[1..], key, m);
        if rest[m] != x {
          var k :| 0 <= k < |s[1..]| && s[1..][k] == rest[m];
          assert s[k + 1] == rest[m];
        }
      }
      ConsStrictlySorted(s[0], rest, key);
    }
  }

  /**
   * Sorting distinct keys gives them in strictly increasing order: the
   * result of `sorted` over the items of a dictionary.
   */
  lemma {:induction false} SortByDistinct<T>(s: seq<T>, key: T -> string)
    requires forall i, j :: 0 <= i < j < |s| ==> key(s[i]) != key(s[j])
    ensures StrictlySortedBy(SortBy(s, key), key)
    decreases |s|
  {
    if |s| > 0 {
      var rest := SortBy(s[1..], key);
      SortByDistinct(s[1..], key);
      SortByCorrect(s[1..], key);
      forall m | 0 <= m < |rest|
        ensures key(rest[m]) != key(s[0])
      {
        assert rest[m] in multiset(rest);
        var k :| 0 <= k < |s[1..]| && s[1..][k] == rest[m];
        assert s[k + 1] == rest[m];
      }
      InsertStrictlySorted(s[0], rest, key);
    }
  }
}
