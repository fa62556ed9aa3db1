/**
 * Sequence operations the catalogue code relies on: order-preserving
 * filtering, Python's `s[:k]`, concatenation of batches and
 * first-occurrence deduplication under a key.
 */
module Seqs {
  import opened Wrappers

  /** `[x for x in s if p(x)]` */
  function Filter<T(==)>(s: seq<T>, p: T -> bool): (r: seq<T>)
    ensures |r| <= |s|
    ensures forall x :: x in r ==> x in s && p(x)
  {
    if s == [] then []
    else if p(s[0]) then [s[0]] + Filter(s[1..], p)
    else Filter(s[1..], p)
  }

  /**
   * The loop `for x in s: if keep(x): out.append(x)`: the elements `keep`
   * accepts, in order. The test is a parameter, so the loop's proof never
   * unfolds it.
   */
  method KeepWhere<T(==)>(s: seq<T>, keep: T -> bool) returns (kept: seq<T>)
    ensures kept == Filter(s, keep)
  {
    kept := [];
    var i := 0;
    while i < |s|
      invariant 0 <= i <= |s|
      invariant kept == Filter(s[..i], keep)
    {
      assert s[..i + 1] == s[..i] + [s[i]];
      FilterAppend(s[..i], [s[i]], keep);
      if keep(s[i]) {
        kept := kept + [s[i]];
      }
      i := i + 1;
    }
    assert s[..i] == s;
  }

  /** Every element that passes the test is kept. */
  lemma {:induction false} FilterKeeps<T>(s: seq<T>, p: T -> bool, x: T)
    requires x in s && p(x)
    ensures x in Filter(s, p)
  {
    if s[0] != x {
      FilterKeeps(s[1..], p, x);
    }
  }

  /** Filtering distributes over concatenation, so relative order is kept. */
  lemma {:induction false} FilterAppend<T>(a: seq<T>, b: seq<T>, p: T -> bool)
    ensures Filter(a + b, p) == Filter(a, p) + Filter(b, p)
  {
    if a != [] {
      assert (a + b)[0] == a[0] && (a + b)[1..] == a[1..] + b;
      FilterAppend(a[1..], b, p);
    } else {
      assert a + b == b;
    }
  }

  /** A filter that keeps everything is the identity. */
  lemma {:induction false} FilterAll<T>(s: seq<T>, p: T -> bool)
    requires forall x :: x in s ==> p(x)
    ensures Filter(s, p) == s
  {
    if s != [] {
      FilterAll(s[1..], p);
    }
  }

  /** Python's `s[:k]`, including a negative `k`, which drops `-k` elements from the end. */
  function SliceTo<T>(s: seq<T>, k: int): (r: seq<T>)
    ensures |r| <= |s| && r == s[..|r|]
    ensures k >= 0 ==> |r| == if k < |s| then k else |s|
    ensures k < 0 ==> |r| == if |s| + k > 0 then |s| + k else 0
  {
    if k >= 0 then (if k < |s| then s[..k] else s)
    else if |s| + k > 0 then s[..|s| + k] else []
  }

  /** The index of the first element satisfying `p`, as a loop that breaks on the first match finds it. */
  function FirstWhere<T>(s: seq<T>, p: T -> bool): (r: Option<nat>)
    ensures r.Some? ==> r.value < |s| && p(s[r.value]) && forall j :: 0 <= j < r.value ==> !p(s[j])
    ensures r.None? ==> forall j :: 0 <= j < |s| ==> !p(s[j])
  {
    if s == [] then None
    else if p(s[0]) then Some(0)
    else
      match FirstWhere(s[1..], p)
      case None => None
      case Some(i) => Some(i + 1)
  }

  /** `[x for batch in ss for x in batch]` */
  function Flatten<T>(ss: seq<seq<T>>): seq<T> {
    if ss == [] then [] else ss[0] + Flatten(ss[1..])
  }

  lemma {:induction false} FlattenAppend<T>(a: seq<seq<T>>, b: seq<seq<T>>)
    ensures Flatten(a + b) == Flatten(a) + Flatten(b)
  {
    if a != [] {
      assert (a + b)[0] == a[0] && (a + b)[1..] == a[1..] + b;
      FlattenAppend(a[1..], b);
    } else {
      assert a + b == b;
    }
  }

  /**
   * The elements of `s`, in order, whose key is neither in `seen` nor the
   * key of an earlier element: the loop over a `seen_models` set that appends
   * a record the first time its key turns up.
   */
  function FirstByKey<T(==), K(==)>(s: seq<T>, key: T -> K, seen: set<K>): (r: seq<T>)
    ensures |r| <= |s|
  {
    if s == [] then []
    else if key(s[0]) in seen then FirstByKey(s[1..], key, seen)
    else [s[0]] + FirstByKey(s[1..], key, seen + {key(s[0])})
  }

  /** No two elements of `r` share a key. */
  ghost predicate DistinctKeys<T, K>(r: seq<T>, key: T -> K) {
    forall i, j :: 0 <= i < j < |r| ==> key(r[i]) != key(r[j])
  }

  lemma DistinctKeysCons<T, K>(x: T, tail: seq<T>, key: T -> K)
    requires DistinctKeys(tail, key)
    requires forall j :: 0 <= j < |tail| ==> key(tail[j]) != key(x)
    ensures DistinctKeys([x] + tail, key)
  {
    var r := [x] + tail;
    forall i, j | 0 <= i < j < |r| ensures key(r[i]) != key(r[j]) {
      assert r[j] == tail[j - 1];
      if i > 0 {
        assert r[i] == tail[i - 1];
      }
    }
  }

  /** Every kept element comes from the input, and its key was not already seen. */
  lemma {:induction false} FirstByKeyFrom<T, K>(s: seq<T>, key: T -> K, seen: set<K>, x: T)
    requires x in FirstByKey(s, key, seen)
    ensures x in s && key(x) !in seen
  {
    var k := key(s[0]);
    if k in seen {
      FirstByKeyFrom(s[1..], key, seen, x);
    } else if x != s[0] {
      FirstByKeyFrom(s[1..], key, seen + {k}, x);
    }
  }

  /** No two records of the result share a key. */
  lemma {:induction false} FirstByKeyDistinct<T, K>(s: seq<T>, key: T -> K, seen: set<K>)
    ensures DistinctKeys(FirstByKey(s, key, seen), key)
  {
    if s != [] {
      var k := key(s[0]);
      if k in seen {
        FirstByKeyDistinct(s[1..], key, seen);
      } else {
        var tail := FirstByKey(s[1..], key, seen + {k});
        FirstByKeyDistinct(s[1..], key, seen + {k});
        forall j | 0 <= j < |tail| ensures key(tail[j]) != k {
          FirstByKeyFrom(s[1..], key, seen + {k}, tail[j]);
        }
        DistinctKeysCons(s[0], tail, key);
      }
    }
  }

  /** Every key of the input that was not already seen is in the result. */
  lemma {:induction false} FirstByKeyCovers<T, K>(s: seq<T>, key: T -> K, seen: set<K>, x: T)
    requires x in s && key(x) !in seen
    ensures exists y :: y in FirstByKey(s, key, seen) && key(y) == key(x)
  {
    var k := key(s[0]);
    if k in seen {
      FirstByKeyCovers(s[1..], key, seen, x);
    } else if k != key(x) {
      assert x in s[1..];
      FirstByKeyCovers(s[1..], key, seen + {k}, x);
      var y :| y in FirstByKey(s[1..], key, seen + {k}) && key(y) == key(x);
      assert y in FirstByKey(s, key, seen);
    } else {
      assert s[0] in FirstByKey(s, key, seen);
    }
  }

  /** The position of the first element of `s` whose key is `k`, if any. */
  function FirstIndexOfKey<T(==), K(==)>(s: seq<T>, key: T -> K, k: K): (i: int)
    ensures -1 <= i < |s|
    ensures i >= 0 ==> key(s[i]) == k && forall j :: 0 <= j < i ==> key(s[j]) != k
    ensures i < 0 ==> forall j :: 0 <= j < |s| ==> key(s[j]) != k
  {
    if s == [] then -1
    else if key(s[0]) == k then 0
    else
      var i := FirstIndexOfKey(s[1..], key, k);
      if i < 0 then -1 else i + 1
  }

  /** First wins: the record kept for a key is the first record of the input with that key. */
  lemma {:induction false} FirstByKeyKeepsFirst<T, K>(s: seq<T>, key: T -> K, seen: set<K>, y: T)
    requires y in FirstByKey(s, key, seen)
    ensures FirstIndexOfKey(s, key, key(y)) >= 0
    ensures y == s[FirstIndexOfKey(s, key, key(y))]
  {
    var k := key(s[0]);
    if k in seen {
      FirstByKeyKeepsFirst(s[1..], key, seen, y);
      FirstByKeyFrom(s[1..], key, seen, y);
    } else if y == s[0] {
    } else {
      assert y in FirstByKey(s[1..], key, seen + {k});
      FirstByKeyKeepsFirst(s[1..], key, seen + {k}, y);
      FirstByKeyFrom(s[1..], key, seen + {k}, y);
    }
  }

  /** The keys of the elements of `s`. */
  ghost function KeySet<T, K>(s: seq<T>, key: T -> K): set<K> {
    set x | x in s :: key(x)
  }

  lemma KeySetCons<T, K>(s: seq<T>, key: T -> K)
    requires s != []
    ensures KeySet(s, key) == {key(s[0])} + KeySet(s[1..], key)
  {
    assert s == [s[0]] + s[1..];
    forall k | k in KeySet(s, key) ensures k in {key(s[0])} + KeySet(s[1..], key) {
      var x :| x in s && key(x) == k;
      if x != s[0] {
        assert x in s[1..];
      }
    }
    forall k | k in KeySet(s[1..], key) ensures k in KeySet(s, key) {
      var x :| x in s[1..] && key(x) == k;
      assert x in s;
    }
  }

  lemma KeySetAppendOne<T, K>(s: seq<T>, x: T, key: T -> K)
    ensures KeySet(s + [x], key) == KeySet(s, key) + {key(x)}
  {
    forall k | k in KeySet(s + [x], key) ensures k in KeySet(s, key) + {key(x)} {
      var y :| y in s + [x] && key(y) == k;
      if y != x {
        assert y in s;
      }
    }
    forall k | k in KeySet(s, key) ensures k in KeySet(s + [x], key) {
      var y :| y in s && key(y) == k;
      assert y in s + [x];
    }
    assert x in s + [x];
  }

  /** The keys of a prefix one element longer. */
  lemma KeySetPrefixStep<T, K>(s: seq<T>, i: nat, key: T -> K)
    requires i < |s|
    ensures KeySet(s[..i + 1], key) == KeySet(s[..i], key) + {key(s[i])}
  {
    assert s[..i + 1] == s[..i] + [s[i]];
    KeySetAppendOne(s[..i], s[i], key);
  }

  /** Deduplicating a concatenation: the second part is deduplicated against every key of the first. */
  lemma {:induction false} FirstByKeyAppend<T, K>(a: seq<T>, b: seq<T>, key: T -> K, seen: set<K>)
    ensures FirstByKey(a + b, key, seen) == FirstByKey(a, key, seen) + FirstByKey(b, key, seen + KeySet(a, key))
  {
    if a == [] {
      assert a + b == b;
      assert KeySet(a, key) == {};
      assert seen + KeySet(a, key) == seen;
      assert FirstByKey(a, key, seen) == [];
    } else {
      var k := key(a[0]);
      assert (a + b)[0] == a[0] && (a + b)[1..] == a[1..] + b;
      KeySetCons(a, key);
      if k in seen {
        FirstByKeyAppend(a[1..], b, key, seen);
        assert seen + KeySet(a, key) == seen + KeySet(a[1..], key);
      } else {
        FirstByKeyAppend(a[1..], b, key, seen + {k});
        assert seen + {k} + KeySet(a[1..], key) == seen + KeySet(a, key);
      }
    }
  }

  /** One step of the deduplication loop, for the element at position `i`. */
  lemma FirstByKeyStep<T, K>(s: seq<T>, i: nat, key: T -> K, seen: set<K>)
    requires i < |s|
    ensures key(s[i]) in seen ==> FirstByKey(s[i..], key, seen) == FirstByKey(s[i + 1..], key, seen)
    ensures key(s[i]) !in seen ==>
      FirstByKey(s[i..], key, seen) == [s[i]] + FirstByKey(s[i + 1..], key, seen + {key(s[i])})
  {
    assert s[i..][0] == s[i] && s[i..][1..] == s[i + 1..];
  }

  /** The deduplication loop's invariant carried over the element at position `i`. */
  lemma FirstByKeyLoopStep<T, K>(s: seq<T>, i: nat, key: T -> K, seen: set<K>, out: seq<T>, target: seq<T>)
    requires i < |s| && out + FirstByKey(s[i..], key, seen) == target
    ensures key(s[i]) in seen ==> out + FirstByKey(s[i + 1..], key, seen) == target
    ensures key(s[i]) !in seen ==> out + [s[i]] + FirstByKey(s[i + 1..], key, seen + {key(s[i])}) == target
  {
    FirstByKeyStep(s, i, key, seen);
    if key(s[i]) !in seen {
      ConcatAssoc(out, [s[i]], FirstByKey(s[i + 1..], key, seen + {key(s[i])}));
    }
  }

  /** `[y for x in s if (y := f(x)) is not None]`: the results `f` gives, in order, skipping the `None`s. */
  function FilterMap<A, B>(s: seq<A>, f: A -> Option<B>): (r: seq<B>)
    ensures |r| <= |s|
  {
    if s == [] then []
    else
      match f(s[0])
      case Some(y) => [y] + FilterMap(s[1..], f)
      case None => FilterMap(s[1..], f)
  }

  /** Every result comes from some element. */
  lemma {:induction false} FilterMapFrom<A, B>(s: seq<A>, f: A -> Option<B>, y: B)
    requires y in FilterMap(s, f)
    ensures exists x :: x in s && f(x) == Some(y)
  {
    if f(s[0]) != Some(y) {
      FilterMapFrom(s[1..], f, y);
      var x :| x in s[1..] && f(x) == Some(y);
      assert x in s;
    }
  }

  lemma {:induction false} FilterMapAppend<A, B>(s: seq<A>, x: A, f: A -> Option<B>)
    ensures FilterMap(s + [x], f) == FilterMap(s, f) + (if f(x).Some? then [f(x).value] else [])
  {
    if s == [] {
      assert s + [x] == [x];
    } else {
      assert (s + [x])[1..] == s[1..] + [x];
      FilterMapAppend(s[1..], x, f);
    }
  }

  /** Putting the head back in front of the tail, before a suffix. */
  lemma ConsPrefix<T>(x: seq<T>, a: seq<T>)
    requires x != []
    ensures [x[0]] + (x[1..] + a) == x + a
  {
    assert x == [x[0]] + x[1..];
  }

  /** The front of a concatenation is its first part. */
  lemma ConcatIndex<T>(a: seq<T>, b: seq<T>)
    ensures |a + b| == |a| + |b| && forall i :: 0 <= i < |a| ==> (a + b)[i] == a[i]
  {
  }

  /** A slice is the slice up to a midpoint followed by the rest. */
  lemma SliceSplit<T>(s: seq<T>, i: nat, j: nat, k: nat)
    requires i <= j <= k <= |s|
    ensures s[i..k] == s[i..j] + s[j..k]
  {
  }

  /** A slice of one element. */
  lemma SliceOne<T>(s: seq<T>, j: nat)
    requires j < |s|
    ensures s[j..j + 1] == [s[j]]
  {
  }

  /** A concatenation whose first part is a prefix of `s` agrees with `s` on that part. */
  lemma PrefixAgrees<T>(a: seq<T>, b: seq<T>, s: seq<T>)
    requires |a| <= |s| && s[..|a|] == a
    ensures |a + b| >= |a| && forall i :: 0 <= i < |a| ==> (a + b)[i] == s[i]
  {
    forall i | 0 <= i < |a|
      ensures (a + b)[i] == s[i]
    {
      assert s[..|a|][i] == s[i];
    }
  }

  /** Concatenation regroups. */
  lemma ConcatAssoc<T>(a: seq<T>, b: seq<T>, c: seq<T>)
    ensures a + b + c == a + (b + c)
  {
  }
}
