/**
 * The version step of `build.py`: read the version from `pyproject.toml`
 * (as `build_and_publish.py` does) and write it into `setup.py` and the
 * package's `__init__.py` with two regular-expression substitutions each.
 *
 * A file's content is a string; `None` stands for a file that does not exist.
 */
module BuildVersion {
  import opened Wrappers
  import opened Text
  import opened Seqs
  import opened BuildAndPublish

  /** The text a substitution looks for: the key and the opening quote. */
  function Opening(key: string, q: char): string {
    key + [q]
  }

  /** A match of `KEY Q [^Q]* Q` starts at the front of `s`. */
  predicate MatchesAtStart(s: string, key: string, q: char) {
    StartsWith(s, Opening(key, q)) && q in s[|Opening(key, q)|..]
  }

  /**
   * `re.sub(KEY + Q + "[^Q]*" + Q, KEY + Q + v + Q, s)`: scanning from the
   * left, each match (the key, a quote, anything up to the next quote) is
   * replaced by the key and `v` in quotes, and the scan goes on after it.
   */
  function SubQuoted(s: string, key: string, q: char, v: string): string
    decreases |s|
  {
    if s == [] then []
    else if MatchesAtStart(s, key, q) then
      var after := AfterChar(s[|Opening(key, q)|..], q);
      Opening(key, q) + v + [q] + SubQuoted(after, key, q, v)
    else [s[0]] + SubQuoted(s[1..], key, q, v)
  }

  /** With no quote at or after `k` (and `k` no later than the end of the opening), nothing matches. */
  lemma {:induction false} NoLateQuote(s: string, key: string, q: char, v: string, k: nat)
    requires k <= |Opening(key, q)| && k <= |s| && q !in s[k..]
    ensures SubQuoted(s, key, q, v) == s
    decreases |s|
  {
    if s != [] {
      var k' := if k == 0 then 0 else k - 1;
      assert s[1..][k'..] == s[1 + k'..];
      NoLateQuote(s[1..], key, q, v, k');
    }
  }

  /** A text without the quote character is left as it is. */
  lemma NoQuoteUnchanged(s: string, key: string, q: char, v: string)
    requires q !in s
    ensures SubQuoted(s, key, q, v) == s
  {
    assert s[0..] == s;
    NoLateQuote(s, key, q, v, 0);
  }

  /** The substitution keeps the first characters, as many as the opening has, up to any match. */
  lemma {:induction false} SubQuotedAgrees(s: string, key: string, q: char, v: string)
    ensures var n := if |s| < |Opening(key, q)| then |s| else |Opening(key, q)|;
      |SubQuoted(s, key, q, v)| >= n && forall i :: 0 <= i < n ==> SubQuoted(s, key, q, v)[i] == s[i]
    decreases |s|
  {
    if s != [] && !MatchesAtStart(s, key, q) {
      SubQuotedAgrees(s[1..], key, q, v);
      CopiedAgrees(s, key, q, v);
    } else if s != [] {
      ReplacedAgrees(s, key, q, v);
    }
  }

  /** A copied first character, followed by a tail that agrees with `s[1..]`, agrees with `s`. */
  lemma CopiedAgrees(s: string, key: string, q: char, v: string)
    requires s != [] && !MatchesAtStart(s, key, q)
    requires var n := if |s[1..]| < |Opening(key, q)| then |s[1..]| else |Opening(key, q)|;
      |SubQuoted(s[1..], key, q, v)| >= n && forall i :: 0 <= i < n ==> SubQuoted(s[1..], key, q, v)[i] == s[1..][i]
    ensures var n := if |s| < |Opening(key, q)| then |s| else |Opening(key, q)|;
      |SubQuoted(s, key, q, v)| >= n && forall i :: 0 <= i < n ==> SubQuoted(s, key, q, v)[i] == s[i]
  {
    var n := if |s| < |Opening(key, q)| then |s| else |Opening(key, q)|;
    var t := SubQuoted(s[1..], key, q, v);
    var r := SubQuoted(s, key, q, v);
    assert r == [s[0]] + t;
    forall i | 1 <= i < n
      ensures r[i] == s[i]
    {
      assert r[i] == t[i - 1];
      assert s[1..][i - 1] == s[i];
    }
  }

  /** A match at the front writes the opening first, which is what `s` starts with. */
  lemma ReplacedAgrees(s: string, key: string, q: char, v: string)
    requires MatchesAtStart(s, key, q)
    ensures var n := if |s| < |Opening(key, q)| then |s| else |Opening(key, q)|;
      |SubQuoted(s, key, q, v)| >= n && forall i :: 0 <= i < n ==> SubQuoted(s, key, q, v)[i] == s[i]
  {
    var o := Opening(key, q);
    var rest := v + [q] + SubQuoted(AfterChar(s[|o|..], q), key, q, v);
    assert SubQuoted(s, key, q, v) == o + rest;
    PrefixAgrees(o, rest, s);
  }

  /**
   * Substituting twice writes what substituting once wrote, as long as the
   * new value holds no quote: a second build leaves the files as they are.
   */
  lemma {:induction false} SubQuotedIdempotent(s: string, key: string, q: char, v: string)
    requires q !in key && q !in v
    ensures SubQuoted(SubQuoted(s, key, q, v), key, q, v) == SubQuoted(s, key, q, v)
    decreases |s|
  {
    var o := Opening(key, q);
    var r := SubQuoted(s, key, q, v);
    if s == [] {
    } else if MatchesAtStart(s, key, q) {
      var after := AfterChar(s[|o|..], q);
      var tail := SubQuoted(after, key, q, v);
      assert r == o + (v + [q] + tail);
      assert StartsWith(r, o);
      assert r[|o|..] == v + [q] + tail;
      BeforeCharGlued(v, q, tail);
      assert MatchesAtStart(r, key, q);
      SubQuotedIdempotent(after, key, q, v);
    } else if StartsWith(s, o) || |s| < |o| {
      var k := if |s| < |o| then |s| else |o|;
      assert q !in s[k..];
      NoLateQuote(s, key, q, v, k);
    } else {
      SubQuotedAgrees(s, key, q, v);
      assert !StartsWith(r, o);
      SubQuotedIdempotent(s[1..], key, q, v);
      assert r == [s[0]] + SubQuoted(s[1..], key, q, v);
      assert r[1..] == SubQuoted(s[1..], key, q, v);
    }
  }

  /** A text whose first characters, before the key's length, hold no quote does not start with a match. */
  lemma NoOpeningAhead(x: string, key: string, q: char, rest: string)
    requires x != [] && q !in x && q !in key
    ensures !StartsWith(x + key + rest, Opening(key, q))
  {
    var s := x + key + rest;
    assert s[|key|] == (x + key)[|key|];
  }

  /** A match at the front is replaced by the key and the new value in quotes. */
  lemma ReplacesAtStart(key: string, q: char, prev: string, v: string, z: string)
    requires q !in prev
    ensures SubQuoted(Opening(key, q) + prev + [q] + z, key, q, v) == Opening(key, q) + v + [q] + SubQuoted(z, key, q, v)
  {
    var o := Opening(key, q);
    var s := o + prev + [q] + z;
    assert s == o + (prev + [q] + z);
    assert s[|o|..] == prev + [q] + z;
    BeforeCharGlued(prev, q, z);
    assert MatchesAtStart(s, key, q);
  }

  /** A first character that cannot begin a match is copied, and the scan goes on after it. */
  lemma CopiesFirst(x: string, key: string, q: char, rest: string, v: string)
    requires x != [] && q !in x && q !in key
    ensures SubQuoted(x + key + rest, key, q, v) == [x[0]] + SubQuoted(x[1..] + key + rest, key, q, v)
  {
    var s := x + key + rest;
    NoOpeningAhead(x, key, q, rest);
    assert s[1..] == x[1..] + key + rest;
  }

  /** A prefix without the quote character is copied as it is. */
  lemma {:induction false} CopiesPrefix(x: string, key: string, q: char, rest: string, v: string)
    requires q !in x && q !in key
    ensures SubQuoted(x + key + rest, key, q, v) == x + SubQuoted(key + rest, key, q, v)
    decreases |x|
  {
    if x == [] {
      assert x + key + rest == key + rest;
    } else {
      CopiesFirst(x, key, q, rest, v);
      CopiesPrefix(x[1..], key, q, rest, v);
      ConsPrefix(x, SubQuoted(key + rest, key, q, v));
    }
  }

  /** A prefix without the quote character holds no match: an old quoted value after it is replaced. */
  lemma SubQuotedReplaces(x: string, key: string, q: char, prev: string, v: string, z: string)
    requires q !in x && q !in key && q !in prev
    ensures SubQuoted(x + Opening(key, q) + prev + [q] + z, key, q, v) ==
      x + Opening(key, q) + v + [q] + SubQuoted(z, key, q, v)
  {
    var rest := [q] + prev + [q] + z;
    Regroup(x, key, q, prev, z);
    CopiesPrefix(x, key, q, rest, v);
    ReplacesAtStart(key, q, prev, v, z);
  }

  /** The text around an old quoted value, as the key followed by the rest. */
  lemma Regroup(x: string, key: string, q: char, prev: string, z: string)
    ensures x + Opening(key, q) + prev + [q] + z == x + key + ([q] + prev + [q] + z)
    ensures key + ([q] + prev + [q] + z) == Opening(key, q) + prev + [q] + z
  {
  }

  /** `if "version=" in setup_content`: both substitutions, double quotes first; `None` when nothing is written. */
  function SetupRewrite(content: string, version: string): Option<string> {
    if Contains(content, "version=") then
      Some(SubQuoted(SubQuoted(content, "version=", '"', version), "version=", '\'', version))
    else None
  }

  /** `if "__version__" in init_content`: the same two substitutions on `__version__ = `. */
  function InitRewrite(content: string, version: string): Option<string> {
    if Contains(content, "__version__") then
      Some(SubQuoted(SubQuoted(content, "__version__ = ", '"', version), "__version__ = ", '\'', version))
    else None
  }

  /** What `update_version_files` of `build.py` returns and writes. */
  datatype Written = Written(setup: Option<string>, init: Option<string>)

  /** `update_version_files()`: false without a version, else the version and the files written. */
  method UpdateVersionFiles(pyproject: seq<string>, setup: Option<string>, init: Option<string>)
    returns (version: Option<string>, written: Written)
    ensures PyprojectVersion(pyproject).None? || PyprojectVersion(pyproject) == Some("") ==>
      version.None? && written == Written(None, None)
    ensures PyprojectVersion(pyproject).Some? && PyprojectVersion(pyproject) != Some("") ==>
      version == PyprojectVersion(pyproject)
    ensures version.Some? ==>
      written.setup == (if setup.Some? then SetupRewrite(setup.value, version.value) else None) &&
      written.init == (if init.Some? then InitRewrite(init.value, version.value) else None)
  {
    written := Written(None, None);
    var found := ReadPyprojectVersion(pyproject);
    if found.None? || found.value == "" {
      return None, written;
    }
    var v := found.value;
    var setupOut: Option<string> := None;
    if setup.Some? && Contains(setup.value, "version=") {
      var content := SubQuoted(setup.value, "version=", '"', v);
      content := SubQuoted(content, "version=", '\'', v);
      setupOut := Some(content);
    }
    var initOut: Option<string> := None;
    if init.Some? && Contains(init.value, "__version__") {
      var content := SubQuoted(init.value, "__version__ = ", '"', v);
      content := SubQuoted(content, "__version__ = ", '\'', v);
      initOut := Some(content);
    }
    return found, Written(setupOut, initOut);
  }

  lemma HasKey(x: string, key: string, rest: string)
    ensures Contains(x + key + rest, key)
  {
    var s := x + key + rest;
    assert s[|x|..][..|key|] == key;
    ContainsAt(s, key, |x|);
  }

  /** The double-quote pass over a setup line with one double-quoted version. */
  lemma DoubleQuotePass(x: string, prev: string, z: string, v: string)
    requires '"' !in x && '"' !in prev && '"' !in z
    ensures SubQuoted(x + "version=\"" + prev + "\"" + z, "version=", '"', v) == x + "version=\"" + v + "\"" + z
  {
    var key := "version=";
    assert Opening(key, '"') == "version=\"";
    SubQuotedReplaces(x, key, '"', prev, v, z);
    NoQuoteUnchanged(z, key, '"', v);
  }

  /** A double-quoted setup version with no quote before or after it is written as the new version. */
  lemma SetupVersionReplaced(x: string, prev: string, z: string, v: string)
    requires '"' !in x + prev + z && '\'' !in x + prev + z + v
    ensures SetupRewrite(x + "version=\"" + prev + "\"" + z, v) == Some(x + "version=\"" + v + "\"" + z)
  {
    var s := x + "version=\"" + prev + "\"" + z;
    var once := x + "version=\"" + v + "\"" + z;
    DoubleQuotePass(x, prev, z, v);
    assert s == x + "version=" + ("\"" + prev + "\"" + z);
    HasKey(x, "version=", "\"" + prev + "\"" + z);
    assert '\'' !in once;
    NoQuoteUnchanged(once, "version=", '\'', v);
  }
}
