/**
 * Python's ordering of strings (code point by code point, a proper prefix
 * first) and of tuples of strings, and `sorted(xs, key=...)` on those keys.
 */
module Sorting {

  /** Python `a <= b` on strings. */
  predicate StrLe(a: string, b: string) {
    |a| == 0 || (|b| > 0 && (a[0] < b[0] || (a[0] == b[0] && StrLe(a[1..], b[1..]))))
  }

  predicate StrLt(a: string, b: string) {
    StrLe(a, b) && a != b
  }

  lemma {:induction false} StrLeTotal(a: string, b: string)
    ensures StrLe(a, b) || StrLe(b, a)
  {
    if |a| > 0 && |b| > 0 && a[0] == b[0] {
      StrLeTotal(a[1..], b[1..]);
    }
  }

  lemma {:induction false} StrLeTransitive(a: string, b: string, c: string)
    requires StrLe(a, b) && StrLe(b, c)
    ensures StrLe(a, c)
  {
    if |a| > 0 && a[0] == b[0] && b[0] == c[0] {
      StrLeTransitive(a[1..], b[1..], c[1..]);
    }
  }

  lemma {:induction false} StrLeAntisymmetric(a: string, b: string)
    requires StrLe(a, b) && StrLe(b, a)
    ensures a == b
  {
    if |a| > 0 {
      StrLeAntisymmetric(a[1..], b[1..]);
      assert a == [a[0]] + a[1..] && b == [b[0]] + b[1..];
    }
  }

  /** Python `a <= b` on tuples of strings. */
  predicate KeyLe(a: seq<string>, b: seq<string>) {
    |a| == 0 || (|b| > 0 && (StrLt(a[0], b[0]) || (a[0] == b[0] && KeyLe(a[1..], b[1..]))))
  }

  lemma {:induction false} KeyLeTotal(a: seq<string>, b: seq<string>)
    ensures KeyLe(a, b) || KeyLe(b, a)
  {
    if |a| > 0 && |b| > 0 {
      StrLeTotal(a[0], b[0]);
      if a[0] == b[0] {
        KeyLeTotal(a[1..], b[1..]);
      }
    }
  }

  lemma {:induction false} KeyLeTransitive(a: seq<string>, b: seq<string>, c: seq<string>)
    requires KeyLe(a, b) && KeyLe(b, c)
    ensures KeyLe(a, c)
  {
    if |a| > 0 {
      if a[0] == b[0] && b[0] == c[0] {
        KeyLeTransitive(a[1..], b[1..], c[1..]);
      } else if a[0] != b[0] && b[0] != c[0] {
        StrLeTransitive(a[0], b[0], c[0]);
        if a[0] == c[0] {
          StrLeAntisymmetric(a[0], b[0]);
        }
      }
    }
  }

  ghost predicate SortedBy<T>(s: seq<T>, key: T -> seq<string>) {
    forall i, j :: 0 <= i < j < |s| ==> KeyLe(key(s[i]), key(s[j]))
  }

  /**
   * Inserts `x` into `s` after every element whose key is at most `x`'s,
   * which keeps equal keys in insertion order.
   */
  function Insert<T>(x: T, s: seq<T>, key: T -> seq<string>): (r: seq<T>)
    requires SortedBy(s, key)
    ensures SortedBy(r, key)
    ensures multiset(r) == multiset(s) + multiset{x}
  {
    if |s| == 0 then [x]
    else if KeyLe(key(s[0]), key(x)) then
      var rest := Insert(x, s[1..], key);
      InsertAfterHead(x, s, rest, key);
      [s[0]] + rest
    else
      InsertAtFront(x, s, key);
      [x] + s
  }

  /** `x` goes after the head: the head, then `x` inserted into the tail. */
  lemma InsertAfterHead<T>(x: T, s: seq<T>, rest: seq<T>, key: T -> seq<string>)
    requires |s| > 0 && SortedBy(s, key) && KeyLe(key(s[0]), key(x))
    requires SortedBy(rest, key) && multiset(rest) == multiset(s[1..]) + multiset{x}
    ensures SortedBy([s[0]] + rest, key)
    ensures multiset([s[0]] + rest) == multiset(s) + multiset{x}
  {
    assert s == [s[0]] + s[1..];
    forall j | 0 <= j < |rest|
      ensures KeyLe(key(s[0]), key(rest[j]))
    {
      assert rest[j] in multiset(rest);
      if rest[j] != x {
        assert rest[j] in multiset(s[1..]);
        var k :| 0 <= k < |s[1..]| && s[1..][k] == rest[j];
        assert s[1..][k] == s[k + 1];
      }
    }
    var r := [s[0]] + rest;
    forall i, j | 0 <= i < j < |r|
      ensures KeyLe(key(r[i]), key(r[j]))
    {
      assert r[j] == rest[j - 1];
      if i > 0 {
        assert r[i] == rest[i - 1];
      }
    }
  }

  /** `x` goes before the head, and so before everything. */
  lemma InsertAtFront<T>(x: T, s: seq<T>, key: T -> seq<string>)
    requires |s| > 0 && SortedBy(s, key) && !KeyLe(key(s[0]), key(x))
    ensures SortedBy([x] + s, key)
    ensures multiset([x] + s) == multiset(s) + multiset{x}
  {
    KeyLeTotal(key(s[0]), key(x));
    forall j | 0 <= j < |s|
      ensures KeyLe(key(x), key(s[j]))
    {
      if j > 0 {
        KeyLeTransitive(key(x), key(s[0]), key(s[j]));
      }
    }
    var r := [x] + s;
    forall i, j | 0 <= i < j < |r|
      ensures KeyLe(key(r[i]), key(r[j]))
    {
      assert r[j] == s[j - 1];
      if i > 0 {
        assert r[i] == s[i - 1];
      }
    }
  }

  /** Python `sorted(s, key=key)`: a stable insertion sort. */
  function SortBy<T>(s: seq<T>, key: T -> seq<string>): (r: seq<T>)
    ensures SortedBy(r, key)
    ensures multiset(r) == multiset(s)
    ensures |r| == |s|
  {
    if |s| == 0 then []
    else
      var init := s[..|s| - 1];
      assert s == init + [s[|s| - 1]];
      var r := Insert(s[|s| - 1], SortBy(init, key), key);
      assert |r| == |multiset(r)|;
      r
  }

  /** The elements of `s` whose key is `k`, in their order in `s`. */
  function KeyFilter<T>(s: seq<T>, key: T -> seq<string>, k: seq<string>): (r: seq<T>)
    ensures |r| <= |s|
    ensures forall i :: 0 <= i < |r| ==> key(r[i]) == k
  {
    if |s| == 0 then []
    else (if key(s[0]) == k then [s[0]] else []) + KeyFilter(s[1..], key, k)
  }

  /**
   * `sorted` is stable: for every key, the elements carrying that key come
   * out in the order they went in.
   */
  lemma {:induction false} SortByStable<T>(s: seq<T>, key: T -> seq<string>, k: seq<string>)
    ensures KeyFilter(SortBy(s, key), key, k) == KeyFilter(s, key, k)
    decreases |s|
  {
    if |s| > 0 {
      var init, x := s[..|s| - 1], s[|s| - 1];
      assert s == init + [x];
      SortByStable(init, key, k);
      KeyFilterInsert(x, SortBy(init, key), key, k);
      KeyFilterSnoc(init, x, key, k);
    }
  }

  /** Inserting `x` puts it after every element of equal key. */
  lemma {:induction false} KeyFilterInsert<T>(x: T, t: seq<T>, key: T -> seq<string>, k: seq<string>)
    requires SortedBy(t, key)
    ensures KeyFilter(Insert(x, t, key), key, k) == KeyFilter(t, key, k) + (if key(x) == k then [x] else [])
    decreases |t|
  {
    if |t| == 0 {
    } else if KeyLe(key(t[0]), key(x)) {
      var rest := Insert(x, t[1..], key);
      assert Insert(x, t, key) == [t[0]] + rest;
      KeyFilterInsert(x, t[1..], key, k);
      KeyFilterCons(t[0], rest, key, k);
    } else {
      assert Insert(x, t, key) == [x] + t;
      KeyFilterFront(x, t, key, k);
    }
  }

  /** Putting `x` before a sorted list whose head is above it adds `x` after every element of equal key. */
  lemma KeyFilterFront<T>(x: T, t: seq<T>, key: T -> seq<string>, k: seq<string>)
    requires SortedBy(t, key) && |t| > 0 && !KeyLe(key(t[0]), key(x))
    ensures KeyFilter([x] + t, key, k) == KeyFilter(t, key, k) + (if key(x) == k then [x] else [])
  {
    KeyFilterCons(x, t, key, k);
    if key(x) == k {
      KeysAbove(x, t, key);
      KeyFilterNone(t, key, k);
    }
  }

  /** Before the head of a sorted list whose head is above `x`, no key equals `x`'s. */
  lemma KeysAbove<T>(x: T, t: seq<T>, key: T -> seq<string>)
    requires SortedBy(t, key) && |t| > 0 && !KeyLe(key(t[0]), key(x))
    ensures forall j :: 0 <= j < |t| ==> key(t[j]) != key(x)
  {
    KeyLeTotal(key(x), key(x));
    forall j | 0 < j < |t|
      ensures KeyLe(key(t[0]), key(t[j]))
    {
    }
  }

  lemma KeyFilterCons<T>(a: T, rest: seq<T>, key: T -> seq<string>, k: seq<string>)
    ensures KeyFilter([a] + rest, key, k) == (if key(a) == k then [a] else []) + KeyFilter(rest, key, k)
  {
    assert ([a] + rest)[1..] == rest;
  }

  lemma {:induction false} KeyFilterNone<T>(t: seq<T>, key: T -> seq<string>, k: seq<string>)
    requires forall j :: 0 <= j < |t| ==> key(t[j]) != k
    ensures KeyFilter(t, key, k) == []
    decreases |t|
  {
    if |t| > 0 {
      KeyFilterNone(t[1..], key, k);
    }
  }

  lemma {:induction false} KeyFilterSnoc<T>(a: seq<T>, x: T, key: T -> seq<string>, k: seq<string>)
    ensures KeyFilter(a + [x], key, k) == KeyFilter(a, key, k) + (if key(x) == k then [x] else [])
    decreases |a|
  {
    if |a| == 0 {
      assert a + [x] == [x];
    } else {
      assert (a + [x])[1..] == a[1..] + [x];
      KeyFilterSnoc(a[1..], x, key, k);
    }
  }

  lemma {:induction false} KeyLeAntisymmetric(a: seq<string>, b: seq<string>)
    requires KeyLe(a, b) && KeyLe(b, a)
    ensures a == b
  {
    if |a| > 0 {
      if a[0] != b[0] {
        StrLeAntisymmetric(a[0], b[0]);
      }
      KeyLeAntisymmetric(a[1..], b[1..]);
      assert a == [a[0]] + a[1..] && b == [b[0]] + b[1..];
    }
  }

  /**
   * Under a key that tells elements apart, a sorted arrangement of a
   * multiset is unique: whatever order the input came in, `sorted` gives
   * the same list.
   */
  lemma {:induction false} SortedUnique<T>(a: seq<T>, b: seq<T>, key: T -> seq<string>)
    requires SortedBy(a, key) && SortedBy(b, key)
    requires multiset(a) == multiset(b)
    requires forall x, y :: key(x) == key(y) ==> x == y
    ensures a == b
  {
    if |a| == 0 {
      assert |multiset(b)| == 0;
    } else {
      assert |b| == |multiset(b)| == |multiset(a)| == |a|;
      SortedHeads(a, b, key);
      MultisetTail(a);
      MultisetTail(b);
      SortedUnique(a[1..], b[1..], key);
      assert a == [a[0]] + a[1..] && b == [b[0]] + b[1..];
    }
  }

  lemma SortedHeads<T>(a: seq<T>, b: seq<T>, key: T -> seq<string>)
    requires SortedBy(a, key) && SortedBy(b, key)
    requires multiset(a) == multiset(b) && |a| > 0 && |b| > 0
    requires forall x, y :: key(x) == key(y) ==> x == y
    ensures a[0] == b[0]
  {
    assert a[0] in multiset(b) && b[0] in multiset(a);
    var k :| 0 <= k < |b| && b[k] == a[0];
    var m :| 0 <= m < |a| && a[m] == b[0];
    if k > 0 && m > 0 {
      KeyLeAntisymmetric(key(a[0]), key(b[0]));
    }
  }

  lemma MultisetTail<T>(a: seq<T>)
    requires |a| > 0
    ensures multiset(a[1..]) == multiset(a) - multiset{a[0]}
  {
    assert a == [a[0]] + a[1..];
  }

  /** `[f(x) for x in s]`. */
  function Map<T, U>(s: seq<T>, f: T -> U): (r: seq<U>)
    ensures |r| == |s| && forall i :: 0 <= i < |s| ==> r[i] == f(s[i])
  {
    seq(|s|, i requires 0 <= i < |s| => f(s[i]))
  }

  /** Mapping keeps multiset equality: a permuted input gives a permuted output. */
  lemma {:induction false} MapMultiset<T, U>(a: seq<T>, b: seq<T>, f: T -> U)
    requires multiset(a) == multiset(b)
    ensures multiset(Map(a, f)) == multiset(Map(b, f))
    decreases |a|
  {
    if |a| == 0 {
      assert |b| == |multiset(b)| == 0;
    } else {
      assert a[0] in multiset(b);
      var k :| 0 <= k < |b| && b[k] == a[0];
      MultisetRemoveAt(b, k);
      MultisetTail(a);
      MapMultiset(a[1..], b[..k] + b[k + 1..], f);
      MapRemoveAt(b, k, f);
      MultisetRemoveAt(Map(b, f), k);
      MapCons(a, f);
      assert Map(b, f)[k] in multiset(Map(b, f));
    }
  }

  lemma MapRemoveAt<T, U>(b: seq<T>, k: nat, f: T -> U)
    requires k < |b|
    ensures Map(b[..k] + b[k + 1..], f) == Map(b, f)[..k] + Map(b, f)[k + 1..]
  {
  }

  lemma MapCons<T, U>(a: seq<T>, f: T -> U)
    requires |a| > 0
    ensures Map(a, f) == [f(a[0])] + Map(a[1..], f)
  {
  }

  lemma MultisetRemoveAt<T>(b: seq<T>, k: nat)
    requires k < |b|
    ensures multiset(b[..k] + b[k + 1..]) == multiset(b) - multiset{b[k]}
  {
    assert b == b[..k] + [b[k]] + b[k + 1..];
  }
}
