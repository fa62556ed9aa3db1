/**
 * Python string operations on `seq<char>`, restricted to ASCII: `lower`,
 * `upper`, `strip`, `startswith`, `in`, `split`, `replace`, `join` and the
 * decimal rendering of integers.
 */
module Text {
  import opened Wrappers

  /**
   * The ASCII characters Python's `str.strip()` removes: blank, tab, the
   * line breaks '\n', '\v', '\f', '\r', and the separators \x1c-\x1f.
   */
  predicate IsSpace(c: char) {
    c == ' ' || c == '\t' || c == '\n' || c == '\r' || c == '\U{000B}' || c == '\U{000C}' ||
    '\U{001C}' <= c <= '\U{001F}'
  }

  predicate IsDigit(c: char) {
    '0' <= c <= '9'
  }

  function LowerChar(c: char): (r: char)
    ensures 'A' <= c <= 'Z' ==> r as int == c as int + 32
    ensures !('A' <= c <= 'Z') ==> r == c
  {
    if 'A' <= c <= 'Z' then (c as int + 32) as char else c
  }

  function UpperChar(c: char): (r: char)
    ensures 'a' <= c <= 'z' ==> r as int == c as int - 32
    ensures !('a' <= c <= 'z') ==> r == c
  {
    if 'a' <= c <= 'z' then (c as int - 32) as char else c
  }

  /** `s.lower()` */
  function Lower(s: string): (r: string)
    ensures |r| == |s|
    ensures forall i :: 0 <= i < |s| ==> r[i] == LowerChar(s[i])
  {
    if s == [] then [] else [LowerChar(s[0])] + Lower(s[1..])
  }

  /** `s.upper()` */
  function Upper(s: string): (r: string)
    ensures |r| == |s|
    ensures forall i :: 0 <= i < |s| ==> r[i] == UpperChar(s[i])
  {
    if s == [] then [] else [UpperChar(s[0])] + Upper(s[1..])
  }

  /** `s.startswith(p)` */
  predicate StartsWith(s: string, p: string) {
    |p| <= |s| && s[..|p|] == p
  }

  /** `p in s`: `p` occurs somewhere in `s` (the empty string occurs everywhere). */
  predicate Contains(s: string, p: string)
    decreases |s|
  {
    StartsWith(s, p) || (|s| > 0 && Contains(s[1..], p))
  }

  /** An occurrence at index `i` makes `p in s` true. */
  lemma {:induction false} ContainsAt(s: string, p: string, i: nat)
    requires i <= |s| && StartsWith(s[i..], p)
    ensures Contains(s, p)
    decreases i
  {
    if i > 0 {
      assert s[1..][i - 1..] == s[i..];
      ContainsAt(s[1..], p, i - 1);
    }
  }

  /** The first index at or after `from` where `p` occurs in `s`. */
  function IndexFrom(s: string, p: string, from: nat): (r: Option<nat>)
    requires from <= |s|
    ensures r.Some? ==> from <= r.value <= |s| && StartsWith(s[r.value..], p)
    ensures r.Some? ==> forall j :: from <= j < r.value ==> !StartsWith(s[j..], p)
    ensures r.None? ==> forall j :: from <= j <= |s| ==> !StartsWith(s[j..], p)
    decreases |s| - from
  {
    if StartsWith(s[from..], p) then Some(from)
    else if from == |s| then None
    else IndexFrom(s, p, from + 1)
  }

  /** Removes leading characters for which `drop` holds. */
  function TrimLeft(s: string, drop: char -> bool): (r: string)
  {
    if s != [] && drop(s[0]) then TrimLeft(s[1..], drop) else s
  }

  /** Removes trailing characters for which `drop` holds. */
  function TrimRight(s: string, drop: char -> bool): (r: string)
  {
    if s != [] && drop(s[|s| - 1]) then TrimRight(s[..|s| - 1], drop) else s
  }

  /** Cutting `s[1..]` at `k` is cutting `s` at `k + 1`. */
  lemma TailSlice(s: string, k: nat)
    requires s != [] && k <= |s| - 1
    ensures s[1..][k..] == s[k + 1..]
  {
  }

  lemma {:induction false} TrimLeftShape(s: string, drop: char -> bool)
    ensures var r := TrimLeft(s, drop);
      |r| <= |s| && r == s[|s| - |r|..] && (r != [] ==> !drop(r[0])) &&
      forall i :: 0 <= i < |s| - |r| ==> drop(s[i])
  {
    if s != [] && drop(s[0]) {
      TrimLeftShape(s[1..], drop);
      TailSlice(s, |s[1..]| - |TrimLeft(s[1..], drop)|);
    }
  }

  lemma {:induction false} TrimRightShape(s: string, drop: char -> bool)
    ensures var r := TrimRight(s, drop);
      |r| <= |s| && r == s[..|r|] && (r != [] ==> !drop(r[|r| - 1])) &&
      forall i :: |r| <= i < |s| ==> drop(s[i])
  {
    if s != [] && drop(s[|s| - 1]) {
      var t := s[..|s| - 1];
      var r := TrimRight(t, drop);
      TrimRightShape(t, drop);
      assert TrimRight(s, drop) == r;
      assert t[..|r|] == s[..|r|];
      forall i | |r| <= i < |s| ensures drop(s[i]) {
        if i < |s| - 1 {
          assert s[i] == t[i];
        }
      }
    }
  }

  /** Removing dropped characters in front of a string that does not start with one gives that string. */
  lemma {:induction false} TrimLeftPrefix(t: string, s: string, drop: char -> bool)
    requires forall i :: 0 <= i < |t| ==> drop(t[i])
    requires s != [] ==> !drop(s[0])
    ensures TrimLeft(t + s, drop) == s
  {
    if t == [] {
      assert t + s == s;
    } else {
      assert (t + s)[0] == t[0] && (t + s)[1..] == t[1..] + s;
      TrimLeftPrefix(t[1..], s, drop);
    }
  }

  /** Removing dropped characters behind a string that does not end with one gives that string. */
  lemma {:induction false} TrimRightSuffix(s: string, t: string, drop: char -> bool)
    requires forall i :: 0 <= i < |t| ==> drop(t[i])
    requires s != [] ==> !drop(s[|s| - 1])
    ensures TrimRight(s + t, drop) == s
    decreases |t|
  {
    if t == [] {
      assert s + t == s;
    } else {
      var u := t[..|t| - 1];
      assert (s + t)[|s + t| - 1] == t[|t| - 1] && (s + t)[..|s + t| - 1] == s + u;
      TrimRightSuffix(s, u, drop);
    }
  }

  /** Stripping padding around a string whose ends are not dropped gives that string. */
  lemma TrimBoth(t1: string, s: string, t2: string, drop: char -> bool)
    requires forall i :: 0 <= i < |t1| ==> drop(t1[i])
    requires forall i :: 0 <= i < |t2| ==> drop(t2[i])
    requires s != [] && !drop(s[0]) && !drop(s[|s| - 1])
    ensures TrimRight(TrimLeft(t1 + s + t2, drop), drop) == s
  {
    assert t1 + s + t2 == t1 + (s + t2);
    TrimLeftPrefix(t1, s + t2, drop);
    TrimRightSuffix(s, t2, drop);
  }

  /** `s.strip()` */
  function Strip(s: string): string {
    TrimRight(TrimLeft(s, IsSpace), IsSpace)
  }

  /** A string is its stripped form with whitespace on either side. */
  lemma StripBounds(s: string) returns (k: nat, m: nat)
    ensures k <= m <= |s| && Strip(s) == s[k..m]
    ensures forall i :: 0 <= i < k ==> IsSpace(s[i])
    ensures forall i :: m <= i < |s| ==> IsSpace(s[i])
  {
    var l := TrimLeft(s, IsSpace);
    TrimLeftShape(s, IsSpace);
    TrimRightShape(l, IsSpace);
    k := |s| - |l|;
    m := k + |Strip(s)|;
    assert l == s[k..];
    forall i | m <= i < |s|
      ensures IsSpace(s[i])
    {
      assert s[i] == l[i - k];
    }
  }

  /** `s.strip(c)` for a one-character argument. */
  function StripChar(s: string, c: char): string {
    TrimRight(TrimLeft(s, x => x == c), x => x == c)
  }

  /** `s.split(c)[0]`: everything before the first `c`. */
  function BeforeChar(s: string, c: char): (r: string)
    ensures |r| <= |s| && r == s[..|r|] && c !in r
    ensures |r| < |s| ==> s[|r|] == c
  {
    if s == [] || s[0] == c then [] else [s[0]] + BeforeChar(s[1..], c)
  }

  /** Everything after the first `c`. */
  function AfterChar(s: string, c: char): (r: string)
    requires c in s
    ensures s == BeforeChar(s, c) + [c] + r
  {
    var b := BeforeChar(s, c);
    s[|b| + 1..]
  }

  /** `s.split(c)[1]` when `c` occurs: the text between the first `c` and the next one, or the end. */
  function PieceOne(s: string, c: char): string
    requires c in s
  {
    BeforeChar(AfterChar(s, c), c)
  }

  /** The pieces of a string glued from pieces without `c`. */
  lemma {:induction false} BeforeCharGlued(x: string, c: char, y: string)
    requires c !in x
    ensures BeforeChar(x + [c] + y, c) == x
    ensures AfterChar(x + [c] + y, c) == y
  {
    var s := x + [c] + y;
    if x != [] {
      assert s[0] == x[0] && s[1..] == x[1..] + [c] + y;
      BeforeCharGlued(x[1..], c, y);
    }
    assert BeforeChar(s, c) == x;
    assert s[|x| + 1..] == y;
  }

  lemma BeforeCharWithout(x: string, c: char)
    requires c !in x
    ensures BeforeChar(x, c) == x
  {
  }

  /** `s.split(c)` for a one-character separator. */
  function Split(s: string, c: char): (r: seq<string>)
    ensures |r| >= 1
    decreases |s|
  {
    if s == [] then [""]
    else if s[0] == c then [""] + Split(s[1..], c)
    else
      var rest := Split(s[1..], c);
      [[s[0]] + rest[0]] + rest[1..]
  }

  /** Splitting a string glued at a first separator gives the piece before it, then the pieces of the rest. */
  lemma {:induction false} SplitGlued(x: string, c: char, y: string)
    requires c !in x
    ensures Split(x + [c] + y, c) == [x] + Split(y, c)
  {
    var s := x + [c] + y;
    if x == [] {
      assert s[0] == c && s[1..] == y;
    } else {
      assert s[0] == x[0] && s[1..] == x[1..] + [c] + y;
      SplitGlued(x[1..], c, y);
      assert [x[0]] + x[1..] == x;
    }
  }

  /** A string without the separator is a single piece. */
  lemma {:induction false} SplitNone(z: string, c: char)
    requires c !in z
    ensures Split(z, c) == [z]
  {
    if z != [] {
      SplitNone(z[1..], c);
      assert [z[0]] + z[1..] == z;
    }
  }

  /** `s.replace(old, new)`: every non-overlapping occurrence, scanning left to right. */
  function Replace(s: string, key: string, repl: string): string
    requires key != []
    decreases |s|
  {
    if |s| < |key| then s
    else if s[..|key|] == key then repl + Replace(s[|key|..], key, repl)
    else [s[0]] + Replace(s[1..], key, repl)
  }

  /** `sep.join(parts)` */
  function Join(parts: seq<string>, sep: string): string {
    if parts == [] then ""
    else if |parts| == 1 then parts[0]
    else parts[0] + sep + Join(parts[1..], sep)
  }

  function DigitChar(d: nat): char
    requires d < 10
  {
    "0123456789"[d]
  }

  /** `str(n)` for a non-negative integer. */
  function NatToString(n: nat): (r: string)
    ensures r != []
    ensures forall i :: 0 <= i < |r| ==> IsDigit(r[i])
  {
    if n < 10 then [DigitChar(n)] else NatToString(n / 10) + [DigitChar(n % 10)]
  }

  /** The value of a non-empty string of decimal digits. */
  function DigitsValue(s: string): nat
    requires forall i :: 0 <= i < |s| ==> IsDigit(s[i])
  {
    if s == [] then 0
    else
      assert IsDigit(s[|s| - 1]);
      DigitsValue(s[..|s| - 1]) * 10 + (s[|s| - 1] as int - '0' as int)
  }

  lemma DigitCharValue(d: nat)
    requires d < 10
    ensures IsDigit(DigitChar(d)) && DigitChar(d) as int - '0' as int == d
  {
    assert "0123456789"[d] as int == '0' as int + d by {
      if d == 0 {} else if d == 1 {} else if d == 2 {} else if d == 3 {} else if d == 4 {}
      else if d == 5 {} else if d == 6 {} else if d == 7 {} else if d == 8 {} else {}
    }
  }

  /** Reading back the decimal rendering of `n` gives `n`. */
  lemma {:induction false} DigitsValueOfNat(n: nat)
    ensures DigitsValue(NatToString(n)) == n
  {
    var s := NatToString(n);
    if n < 10 {
      DigitCharValue(n);
      assert s[..|s| - 1] == [];
    } else {
      DigitsValueOfNat(n / 10);
      DigitCharValue(n % 10);
      assert s[..|s| - 1] == NatToString(n / 10);
    }
  }

  /** `[t.strip() for t in ts]` */
  function StripEach(ts: seq<string>): (r: seq<string>)
    ensures |r| == |ts|
  {
    if ts == [] then [] else [Strip(ts[0])] + StripEach(ts[1..])
  }

  lemma StripEachAppend(ts: seq<string>, t: string)
    ensures StripEach(ts + [t]) == StripEach(ts) + [Strip(t)]
  {
    if ts == [] {
      assert ts + [t] == [t];
    } else {
      assert (ts + [t])[1..] == ts[1..] + [t];
      StripEachAppend(ts[1..], t);
    }
  }

  /** `any(c in text for c in cands)` */
  function AnyIn(text: string, cands: seq<string>): bool {
    cands != [] && (Contains(text, cands[0]) || AnyIn(text, cands[1..]))
  }

  lemma {:induction false} AnyInIff(text: string, cands: seq<string>)
    ensures AnyIn(text, cands) <==> exists c :: c in cands && Contains(text, c)
  {
    if cands != [] {
      AnyInIff(text, cands[1..]);
      if Contains(text, cands[0]) {
        assert cands[0] in cands;
      } else if exists c :: c in cands && Contains(text, c) {
        var c :| c in cands && Contains(text, c);
        assert c in cands[1..];
      }
    }
  }
}
