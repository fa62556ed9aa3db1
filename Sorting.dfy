/**
 * Python's `sorted` on strings (code-point lexicographic order) and on
 * records by a string key. `sorted` is stable, and so is the insertion
 * sort below: records with equal keys keep their input order.
 */
module Sorting {

  /** Python's `a <= b` on strings. */
  predicate StrLe(a: string, b: string) {
    a == [] || (b != [] && (a[0] < b[0] || (a[0] == b[0] && StrLe(a[1..], b[1..]))))
  }

  lemma {:induction false} StrLeTotal(a: string, b: string)
    ensures StrLe(a, b) || StrLe(b, a)
  {
    if a != [] && b != [] && a[0] == b[0] {
      StrLeTotal(a[1..], b[1..]);
    }
  }

  lemma {:induction false} StrLeAntisymmetric(a: string, b: string)
    requires StrLe(a, b) && StrLe(b, a)
    ensures a == b
  {
    if a != [] && b != [] {
      StrLeAntisymmetric(a[1..], b[1..]);
      assert a == [a[0]] + a[1..] && b == [b[0]] + b[1..];
    }
  }

  lemma {:induction false} StrLeTransitive(a: string, b: string, c: string)
    requires StrLe(a, b) && StrLe(b, c)
    ensures StrLe(a, c)
  {
    if a != [] && b != [] && c != [] && a[0] == b[0] && b[0] == c[0] {
      StrLeTransitive(a[1..], b[1..], c[1..]);
    }
  }

  /** `s` is in non-decreasing key order. */
  ghost predicate SortedBy<T>(s: seq<T>, key: T -> string) {
    forall i, j :: 0 <= i < j < |s| ==> StrLe(key(s[i]), key(s[j]))
  }

  /** Puts `x` before the first element whose key is at least `key(x)`. */
  function InsertBy<T>(x: T, s: seq<T>, key: T -> string): seq<T> {
    if s == [] || StrLe(key(x), key(s[0])) then [x] + s else [s[0]] + InsertBy(x, s[1..], key)
  }

  /** `sorted(s, key=key)` */
  function SortBy<T>(s: seq<T>, key: T -> string): seq<T> {
    if s == [] then [] else InsertBy(s[0], SortBy(s[1..], key), key)
  }

  lemma {:induction false} InsertByPermutes<T>(x: T, s: seq<T>, key: T -> string)
    ensures multiset(InsertBy(x, s, key)) == multiset{x} + multiset(s)
  {
    if !(s == [] || StrLe(key(x), key(s[0]))) {
      InsertByPermutes(x, s[1..], key);
      assert s == [s[0]] + s[1..];
    }
  }

  /** The first key of an insertion is the smaller of `key(x)` and the old first key. */
  lemma InsertByHead<T>(x: T, s: seq<T>, key: T -> string)
    ensures InsertBy(x, s, key) != []
    ensures InsertBy(x, s, key)[0] == x || (s != [] && InsertBy(x, s, key)[0] == s[0])
  {
  }

  /** Putting `x` in front keeps the order when its key is at most the first key. */
  lemma InsertFrontSorted<T>(x: T, s: seq<T>, key: T -> string)
    requires SortedBy(s, key) && (s == [] || StrLe(key(x), key(s[0])))
    ensures SortedBy([x] + s, key)
  {
    var r := [x] + s;
    forall i, j | 0 <= i < j < |r| ensures StrLe(key(r[i]), key(r[j])) {
      if i == 0 && j > 1 {
        StrLeTransitive(key(x), key(s[0]), key(s[j - 1]));
      } else if i > 0 {
        assert r[i] == s[i - 1] && r[j] == s[j - 1];
      }
    }
  }

  /** Putting `y` in front of a sorted `t` keeps the order when its key is at most every key of `t`. */
  lemma ConsLeastSorted<T>(y: T, t: seq<T>, key: T -> string)
    requires SortedBy(t, key) && forall z :: z in multiset(t) ==> StrLe(key(y), key(z))
    ensures SortedBy([y] + t, key)
  {
    var r := [y] + t;
    forall i, j | 0 <= i < j < |r| ensures StrLe(key(r[i]), key(r[j])) {
      if i == 0 {
        assert r[j] == t[j - 1] && t[j - 1] in multiset(t);
      } else {
        assert r[i] == t[i - 1] && r[j] == t[j - 1];
      }
    }
  }

  lemma {:induction false} InsertBySorted<T>(x: T, s: seq<T>, key: T -> string)
    requires SortedBy(s, key)
    ensures SortedBy(InsertBy(x, s, key), key)
  {
    if s == [] || StrLe(key(x), key(s[0])) {
      InsertFrontSorted(x, s, key);
    } else {
      StrLeTotal(key(x), key(s[0]));
      var t := InsertBy(x, s[1..], key);
      SortedTail(s, key);
      InsertBySorted(x, s[1..], key);
      InsertByPermutes(x, s[1..], key);
      forall z | z in multiset(t) ensures StrLe(key(s[0]), key(z)) {
        if z != x {
          assert z in multiset(s[1..]);
          var k :| 0 <= k < |s[1..]| && s[1..][k] == z;
          assert s[k + 1] == z;
        }
      }
      ConsLeastSorted(s[0], t, key);
    }
  }

  /** The tail of a sorted sequence is sorted. */
  lemma SortedTail<T>(s: seq<T>, key: T -> string)
    requires SortedBy(s, key) && s != []
    ensures SortedBy(s[1..], key)
  {
    forall i, j | 0 <= i < j < |s[1..]| ensures StrLe(key(s[1..][i]), key(s[1..][j])) {
      assert s[1..][i] == s[i + 1] && s[1..][j] == s[j + 1];
    }
  }

  /** Sorting orders the records by key... */
  lemma {:induction false} SortBySorted<T>(s: seq<T>, key: T -> string)
    ensures SortedBy(SortBy(s, key), key)
  {
    if s != [] {
      SortBySorted(s[1..], key);
      InsertBySorted(s[0], SortBy(s[1..], key), key);
    }
  }

  /** ...and only rearranges them. */
  lemma {:induction false} SortByPermutes<T>(s: seq<T>, key: T -> string)
    ensures multiset(SortBy(s, key)) == multiset(s)
  {
    if s != [] {
      SortByPermutes(s[1..], key);
      InsertByPermutes(s[0], SortBy(s[1..], key), key);
      assert s == [s[0]] + s[1..];
    }
  }

  /** Sorting what is already sorted changes nothing. */
  lemma {:induction false} SortBySortedIsIdentity<T>(s: seq<T>, key: T -> string)
    requires SortedBy(s, key)
    ensures SortBy(s, key) == s
  {
    if s != [] {
      SortedTail(s, key);
      SortBySortedIsIdentity(s[1..], key);
      if |s| > 1 {
        assert StrLe(key(s[0]), key(s[1..][0]));
      }
      assert [s[0]] + s[1..] == s;
    }
  }

  /** Sorting is idempotent. */
  lemma SortByIdempotent<T>(s: seq<T>, key: T -> string)
    ensures SortBy(SortBy(s, key), key) == SortBy(s, key)
  {
    SortBySorted(s, key);
    SortBySortedIsIdentity(SortBy(s, key), key);
  }

  /**
   * Sorting commutes with a change of the records that keeps their keys:
   * the arrangement depends on the keys alone.
   */
  lemma {:induction false} SortByMap<T>(s: seq<T>, key: T -> string, f: T -> T)
    requires forall x :: key(f(x)) == key(x)
    ensures SortBy(MapSeq(s, f), key) == MapSeq(SortBy(s, key), f)
  {
    if s != [] {
      SortByMap(s[1..], key, f);
      InsertByMap(s[0], SortBy(s[1..], key), key, f);
    }
  }

  lemma {:induction false} InsertByMap<T>(x: T, s: seq<T>, key: T -> string, f: T -> T)
    requires forall y :: key(f(y)) == key(y)
    ensures InsertBy(f(x), MapSeq(s, f), key) == MapSeq(InsertBy(x, s, key), f)
  {
    if s != [] && !StrLe(key(x), key(s[0])) {
      InsertByMap(x, s[1..], key, f);
    }
  }

  /** `[f(x) for x in s]` */
  function MapSeq<A, B>(s: seq<A>, f: A -> B): (r: seq<B>)
    ensures |r| == |s|
  {
    if s == [] then [] else [f(s[0])] + MapSeq(s[1..], f)
  }

  /** Mapping distributes over appending one element. */
  lemma {:induction false} MapSeqAppend<A, B>(s: seq<A>, x: A, f: A -> B)
    ensures MapSeq(s + [x], f) == MapSeq(s, f) + [f(x)]
  {
    if s != [] {
      MapSeqAppend(s[1..], x, f);
      assert (s + [x])[1..] == s[1..] + [x];
    }
  }

  /** Mapping distributes over concatenation. */
  lemma {:induction false} MapSeqConcat<A, B>(a: seq<A>, b: seq<A>, f: A -> B)
    ensures MapSeq(a + b, f) == MapSeq(a, f) + MapSeq(b, f)
  {
    if a == [] {
      assert a + b == b;
    } else {
      MapSeqConcat(a[1..], b, f);
      assert (a + b)[1..] == a[1..] + b;
      assert (a + b)[0] == a[0];
    }
  }

  /** The element at `i` of a mapped sequence. */
  lemma {:induction false} MapSeqAt<A, B>(s: seq<A>, f: A -> B, i: int)
    requires 0 <= i < |s|
    ensures MapSeq(s, f)[i] == f(s[i])
  {
    if i > 0 {
      MapSeqAt(s[1..], f, i - 1);
    }
  }

  /** The key of a string sorted by itself. */
  function Self(x: string): string {
    x
  }

  /** `sorted(s)` on strings. */
  function SortStrings(s: seq<string>): seq<string> {
    SortBy(s, Self)
  }

  /** The least element of a sorted sequence comes first. */
  lemma SortedHeadLeast(s: seq<string>, x: string)
    requires SortedBy(s, Self) && x in multiset(s)
    ensures s != [] && StrLe(s[0], x)
  {
    var i :| 0 <= i < |s| && s[i] == x;
    if i > 0 {
      assert StrLe(Self(s[0]), Self(s[i]));
    } else {
      StrLeTotal(s[0], x);
    }
  }

  /** Equal multisets with equal first elements have equal multisets of tails. */
  lemma MultisetTails<T>(a: seq<T>, b: seq<T>)
    requires a != [] && b != [] && a[0] == b[0] && multiset(a) == multiset(b)
    ensures multiset(a[1..]) == multiset(b[1..])
  {
    assert a == [a[0]] + a[1..] && b == [b[0]] + b[1..];
    assert multiset(a) == multiset{a[0]} + multiset(a[1..]);
    assert multiset(b) == multiset{b[0]} + multiset(b[1..]);
    forall z ensures multiset(a[1..])[z] == multiset(b[1..])[z] {
      assert multiset(a)[z] == multiset{a[0]}[z] + multiset(a[1..])[z];
      assert multiset(b)[z] == multiset{b[0]}[z] + multiset(b[1..])[z];
    }
  }

  /** Two sorted rearrangements of the same strings are equal. */
  lemma {:induction false} SortedUnique(a: seq<string>, b: seq<string>)
    requires SortedBy(a, Self) && SortedBy(b, Self) && multiset(a) == multiset(b)
    ensures a == b
  {
    if a != [] {
      assert a[0] in multiset(a);
      SortedHeadLeast(b, a[0]);
      assert b[0] in multiset(b);
      SortedHeadLeast(a, b[0]);
      StrLeAntisymmetric(a[0], b[0]);
      MultisetTails(a, b);
      SortedTail(a, Self);
      SortedTail(b, Self);
      SortedUnique(a[1..], b[1..]);
      assert a == [a[0]] + a[1..] && b == [b[0]] + b[1..];
    } else {
      assert |multiset(b)| == 0;
    }
  }

  /** `sorted(s)` depends only on which strings `s` holds, not on their order. */
  lemma SortStringsOrderFree(a: seq<string>, b: seq<string>)
    requires multiset(a) == multiset(b)
    ensures SortStrings(a) == SortStrings(b)
  {
    SortBySorted(a, Self);
    SortBySorted(b, Self);
    SortByPermutes(a, Self);
    SortByPermutes(b, Self);
    SortedUnique(SortStrings(a), SortStrings(b));
  }

  lemma {:induction false} StrLeReflexive(a: string)
    ensures StrLe(a, a)
  {
    if a != [] {
      StrLeReflexive(a[1..]);
    }
  }

  /** The records of `s` whose key is `k`, in their order in `s`. */
  function KeyRun<T>(s: seq<T>, key: T -> string, k: string): seq<T> {
    if s == [] then [] else (if key(s[0]) == k then [s[0]] else []) + KeyRun(s[1..], key, k)
  }

  /** An inserted record goes before every record with the same key. */
  lemma {:induction false} InsertByStable<T>(x: T, s: seq<T>, key: T -> string, k: string)
    ensures KeyRun(InsertBy(x, s, key), key, k) == (if key(x) == k then [x] else []) + KeyRun(s, key, k)
  {
    if s == [] || StrLe(key(x), key(s[0])) {
      assert ([x] + s)[1..] == s;
    } else {
      var r := InsertBy(x, s, key);
      var rest := InsertBy(x, s[1..], key);
      assert r[0] == s[0] && r[1..] == rest;
      InsertByStable(x, s[1..], key, k);
      var hx: seq<T> := if key(x) == k then [x] else [];
      var hs: seq<T> := if key(s[0]) == k then [s[0]] else [];
      // x and s[0] have different keys, so at most one of them is in the run
      StrLeReflexive(key(x));
      assert hx == [] || hs == [];
      assert hs + hx == hx + hs;
      calc {
        KeyRun(r, key, k);
        hs + KeyRun(rest, key, k);
        hs + (hx + KeyRun(s[1..], key, k));
        { assert hs + (hx + KeyRun(s[1..], key, k)) == (hs + hx) + KeyRun(s[1..], key, k); }
        (hx + hs) + KeyRun(s[1..], key, k);
        { assert (hx + hs) + KeyRun(s[1..], key, k) == hx + (hs + KeyRun(s[1..], key, k)); }
        hx + KeyRun(s, key, k);
      }
    }
  }

  /** Sorting is stable: the records with any one key keep their input order. */
  lemma {:induction false} SortByStable<T>(s: seq<T>, key: T -> string, k: string)
    ensures KeyRun(SortBy(s, key), key, k) == KeyRun(s, key, k)
  {
    if s != [] {
      SortByStable(s[1..], key, k);
      InsertByStable(s[0], SortBy(s[1..], key), key, k);
    }
  }

  /** Mapping an insertion adds the image of the inserted record. */
  lemma {:induction false} InsertByMapMultiset<T, U>(x: T, s: seq<T>, key: T -> string, f: T -> U)
    ensures multiset(MapSeq(InsertBy(x, s, key), f)) == multiset{f(x)} + multiset(MapSeq(s, f))
  {
    if !(s == [] || StrLe(key(x), key(s[0]))) {
      InsertByMapMultiset(x, s[1..], key, f);
      var r := InsertBy(x, s, key);
      assert r[0] == s[0] && r[1..] == InsertBy(x, s[1..], key);
      assert MapSeq(r, f) == [f(s[0])] + MapSeq(r[1..], f);
      assert MapSeq(s, f) == [f(s[0])] + MapSeq(s[1..], f);
    }
  }

  /** The images of the sorted records are the images of the records, rearranged. */
  lemma {:induction false} SortByMapMultiset<T, U>(s: seq<T>, key: T -> string, f: T -> U)
    ensures multiset(MapSeq(SortBy(s, key), f)) == multiset(MapSeq(s, f))
  {
    if s != [] {
      SortByMapMultiset(s[1..], key, f);
      InsertByMapMultiset(s[0], SortBy(s[1..], key), key, f);
      assert MapSeq(s, f) == [f(s[0])] + MapSeq(s[1..], f);
    }
  }
}
