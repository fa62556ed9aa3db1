/**
 * `update_imports.py`: rewrites the old `ollama_integration` import
 * prefixes to the `ollama.api` package in a fixed list of files.
 *
 * A file's content is a string; reading it is `None` when it raises, and
 * whether writing succeeds is a parameter.
 */
module UpdateImports {
  import opened Wrappers
  import opened Text
  import opened Seqs

  /** Old import prefixes and their replacements, in dictionary order. */
  type Mapping = seq<(string, string)>

  const OldAbsolute := "from getllm.ollama_integration"
  const NewAbsolute := "from getllm.ollama.api"
  const OldRelative := "from .ollama_integration"
  const NewRelative := "from .ollama.api"

  const ImportMapping: Mapping := [(OldAbsolute, NewAbsolute), (OldRelative, NewRelative)]

  const FilesToUpdate: seq<string> := [
    "test_default_model.py",
    "test_installation_options.sh",
    "getllm/interactive_cli.py",
    "getllm/__init__.py",
    "getllm/cli.py",
    "getllm/models.py",
    "tests/test_ollama_search.py",
    "tests/ollama/test_api.py",
    "tests/test_ollama_integration.py"
  ]

  /** Every old text of the mapping is non-empty. */
  predicate ValidMapping(m: Mapping) {
    forall i :: 0 <= i < |m| ==> m[i].0 != []
  }

  /** One entry of the loop: `if old in content: content = content.replace(old, new)`. */
  function ReplaceIfPresent(c: string, key: string, repl: string): string
    requires key != []
  {
    if Contains(c, key) then Replace(c, key, repl) else c
  }

  /** The content after the whole loop over the mapping. */
  function ApplyMapping(c: string, m: Mapping): string
    requires ValidMapping(m)
    decreases |m|
  {
    if m == [] then c else ApplyMapping(ReplaceIfPresent(c, m[0].0, m[0].1), m[1..])
  }

  /** Whether some old text is found at its turn of the loop, which sets `updated`. */
  predicate Occurs(c: string, m: Mapping)
    requires ValidMapping(m)
    decreases |m|
  {
    m != [] && (Contains(c, m[0].0) || Occurs(ReplaceIfPresent(c, m[0].0, m[0].1), m[1..]))
  }

  /** The loop of `update_file` over the mapping. */
  method RewriteContent(content: string, m: Mapping) returns (out: string, updated: bool)
    requires ValidMapping(m)
    ensures out == ApplyMapping(content, m)
    ensures updated == Occurs(content, m)
  {
    out := content;
    updated := false;
    var i := 0;
    while i < |m|
      invariant 0 <= i <= |m|
      invariant ApplyMapping(out, m[i..]) == ApplyMapping(content, m)
      invariant (updated || Occurs(out, m[i..])) == Occurs(content, m)
    {
      assert m[i..][0] == m[i] && m[i..][1..] == m[i + 1..];
      var (key, repl) := m[i];
      if Contains(out, key) {
        out := Replace(out, key, repl);
        updated := true;
      }
      i := i + 1;
    }
    assert m[i..] == [];
  }

  /** A text without the key is left as it is: the guard before `replace` only decides the flag. */
  lemma {:induction false} ReplaceAbsent(s: string, key: string, repl: string)
    requires key != [] && !Contains(s, key)
    ensures Replace(s, key, repl) == s
    decreases |s|
  {
    if |s| >= |key| {
      assert !StartsWith(s, key);
      ReplaceAbsent(s[1..], key, repl);
    }
  }

  /**
   * A replacement that cannot make `target` appear: it does not start with a
   * prefix of `target`, the first character of `target` is not in it after
   * its first position, and its first character is not in `target` after
   * `target`'s first position.
   */
  predicate Safe(target: string, repl: string) {
    repl != [] && target != [] &&
    target[0] !in repl[1..] && repl[0] !in target[1..] &&
    exists i :: 0 <= i < |repl| && i < |target| && repl[i] != target[i]
  }

  lemma ShortHasNone(s: string, key: string)
    requires |s| < |key|
    ensures !Contains(s, key)
    decreases |s|
  {
    if |s| > 0 {
      ShortHasNone(s[1..], key);
    }
  }

  lemma {:induction false} SuffixHasNone(s: string, key: string, i: nat)
    requires i <= |s| && !Contains(s, key)
    ensures !Contains(s[i..], key)
    decreases i
  {
    if i > 0 {
      assert s[1..][i - 1..] == s[i..];
      SuffixHasNone(s[1..], key, i - 1);
    }
  }

  /** The result of a replacement starts with a piece of `target` only where the text did. */
  lemma {:induction false} StartsPreserved(s: string, key: string, repl: string, target: string, j: nat)
    requires key != [] && Safe(target, repl) && j < |target|
    requires StartsWith(Replace(s, key, repl), target[j..])
    ensures StartsWith(s, target[j..])
    decreases |s|
  {
    var r := Replace(s, key, repl);
    var w := target[j..];
    if |s| < |key| {
    } else if s[..|key|] == key {
      ConcatIndex(repl, Replace(s[|key|..], key, repl));
      assert false;
    } else {
      var t := Replace(s[1..], key, repl);
      assert r == [s[0]] + t;
      assert s[0] == r[..|w|][0] == w[0];
      if j + 1 < |target| {
        assert StartsWith(t, target[j + 1..]) by {
          assert t[..|target[j + 1..]|] == r[..|w|][1..];
          assert target[j + 1..] == w[1..];
        }
        StartsPreserved(s[1..], key, repl, target, j + 1);
        assert s[..|w|] == [s[0]] + s[1..][..|target[j + 1..]|];
      } else {
        assert |w| == 1;
      }
    }
  }

  /** A replacement text followed by a tail without `target` holds no `target`. */
  lemma {:induction false} ReplacementHasNone(repl: string, j: nat, rest: string, target: string)
    requires Safe(target, repl) && j <= |repl| && !Contains(rest, target)
    ensures !Contains(repl[j..] + rest, target)
    decreases |repl| - j
  {
    var t := repl[j..] + rest;
    if j < |repl| {
      assert t[0] == repl[j];
      if j == 0 {
        assert !StartsWith(t, target) by {
          var i :| 0 <= i < |repl| && i < |target| && repl[i] != target[i];
          assert t[i] == repl[i];
        }
      } else {
        assert !StartsWith(t, target) by {
          assert repl[1..][j - 1] == repl[j];
        }
      }
      assert t[1..] == repl[j + 1..] + rest;
      ReplacementHasNone(repl, j + 1, rest, target);
    } else {
      assert t == rest;
    }
  }

  /**
   * After `replace(key, repl)` there is no `target` left when `target` is the
   * key itself, or when it was absent before.
   */
  lemma {:induction false} ReplaceLeavesNone(s: string, key: string, repl: string, target: string)
    requires key != [] && Safe(target, repl)
    requires target == key || !Contains(s, target)
    ensures !Contains(Replace(s, key, repl), target)
    decreases |s|
  {
    var r := Replace(s, key, repl);
    if |s| < |key| {
      if target == key {
        ShortHasNone(s, key);
      }
    } else if s[..|key|] == key {
      if target != key {
        SuffixHasNone(s, target, |key|);
      }
      ReplaceLeavesNone(s[|key|..], key, repl, target);
      assert repl[0..] == repl;
      ReplacementHasNone(repl, 0, Replace(s[|key|..], key, repl), target);
    } else {
      var t := Replace(s[1..], key, repl);
      ReplaceLeavesNone(s[1..], key, repl, target);
      assert r == [s[0]] + t && r[1..] == t;
      if StartsWith(r, target) {
        assert target[0..] == target;
        StartsPreserved(s, key, repl, target, 0);
      }
    }
  }

  lemma AbsoluteSafe()
    ensures Safe(OldAbsolute, NewAbsolute)
  {
    assert NewAbsolute[18] != OldAbsolute[18];
  }

  lemma RelativeSafe()
    ensures Safe(OldRelative, NewRelative)
  {
    assert NewRelative[12] != OldRelative[12];
  }

  lemma CrossSafe()
    ensures Safe(OldAbsolute, NewRelative)
  {
    assert NewRelative[5] != OldAbsolute[5];
  }

  /** Two guarded replacements in turn, each safe for the old texts, leave neither old text behind. */
  lemma TwoStepsLeaveNone(c: string, k1: string, r1: string, k2: string, r2: string)
    requires k1 != [] && k2 != [] && Safe(k1, r1) && Safe(k2, r2) && Safe(k1, r2)
    ensures var out := ReplaceIfPresent(ReplaceIfPresent(c, k1, r1), k2, r2);
      !Contains(out, k1) && !Contains(out, k2)
  {
    var c1 := ReplaceIfPresent(c, k1, r1);
    if Contains(c, k1) {
      ReplaceLeavesNone(c, k1, r1, k1);
    }
    if Contains(c1, k2) {
      ReplaceLeavesNone(c1, k2, r2, k2);
      ReplaceLeavesNone(c1, k2, r2, k1);
    }
  }

  lemma ApplyImportMapping(c: string)
    ensures ApplyMapping(c, ImportMapping) ==
      ReplaceIfPresent(ReplaceIfPresent(c, OldAbsolute, NewAbsolute), OldRelative, NewRelative)
  {
    var m := ImportMapping;
    var c1 := ReplaceIfPresent(c, OldAbsolute, NewAbsolute);
    var c2 := ReplaceIfPresent(c1, OldRelative, NewRelative);
    assert m[0] == (OldAbsolute, NewAbsolute) && m[1..][0] == (OldRelative, NewRelative);
    assert m[1..][1..] == [];
    assert ApplyMapping(c1, m[1..]) == ApplyMapping(c2, m[1..][1..]);
  }

  /** After the loop, neither old import prefix occurs in the content. */
  lemma OldImportsGone(c: string)
    ensures !Contains(ApplyMapping(c, ImportMapping), OldAbsolute)
    ensures !Contains(ApplyMapping(c, ImportMapping), OldRelative)
  {
    AbsoluteSafe();
    RelativeSafe();
    CrossSafe();
    ApplyImportMapping(c);
    TwoStepsLeaveNone(c, OldAbsolute, NewAbsolute, OldRelative, NewRelative);
  }

  /** `updated` is set exactly when the file holds one of the old prefixes, and otherwise the content stays. */
  lemma UpdatedIffOldImport(c: string)
    ensures Occurs(c, ImportMapping) <==> Contains(c, OldAbsolute) || Contains(c, OldRelative)
    ensures !Occurs(c, ImportMapping) ==> ApplyMapping(c, ImportMapping) == c
  {
    var m := ImportMapping;
    var c1 := ReplaceIfPresent(c, OldAbsolute, NewAbsolute);
    assert m[0] == (OldAbsolute, NewAbsolute) && m[1..][0] == (OldRelative, NewRelative);
    assert m[1..][1..] == [];
    assert Occurs(c1, m[1..]) == Contains(c1, OldRelative);
    ApplyImportMapping(c);
  }

  /** `update_file(path)`: `read` is the content read, `None` when reading raised. */
  method UpdateFile(read: Option<string>, writeOk: bool) returns (ok: bool, written: Option<string>)
    ensures written == if read.Some? && Occurs(read.value, ImportMapping)
      then Some(ApplyMapping(read.value, ImportMapping)) else None
    ensures ok <==> written.Some? && writeOk
  {
    if read.None? {
      return false, None;
    }
    var content, updated := RewriteContent(read.value, ImportMapping);
    if updated {
      return writeOk, Some(content);
    }
    return false, None;
  }

  /** A file of the list as `main` finds it. */
  datatype FileState = Missing | Exists(read: Option<string>, writeOk: bool)

  /** `update_file` returns `True` for the file. */
  predicate Rewritten(f: FileState) {
    f.Exists? && f.read.Some? && Occurs(f.read.value, ImportMapping) && f.writeOk
  }

  /** `main()`: the number of files `update_file` rewrote; missing files are skipped. */
  method UpdateAll(files: seq<FileState>) returns (count: nat)
    ensures count == |Filter(files, Rewritten)|
  {
    count := 0;
    var i := 0;
    while i < |files|
      invariant 0 <= i <= |files|
      invariant count == |Filter(files[..i], Rewritten)|
    {
      FilterAppend(files[..i], [files[i]], Rewritten);
      assert files[..i + 1] == files[..i] + [files[i]];
      if files[i].Exists? {
        var ok, _ := UpdateFile(files[i].read, files[i].writeOk);
        if ok {
          count := count + 1;
        }
      }
      i := i + 1;
    }
    assert files[..i] == files;
  }

  /** A file that is missing, unreadable or without an old prefix does not change the count. */
  lemma SkippedNotCounted(a: seq<FileState>, f: FileState, b: seq<FileState>)
    requires !Rewritten(f)
    ensures |Filter(a + [f] + b, Rewritten)| == |Filter(a + b, Rewritten)|
  {
    FilterAppend(a + [f], b, Rewritten);
    FilterAppend(a, [f], Rewritten);
    FilterAppend(a, b, Rewritten);
  }

  /** Every rewritten file adds one to the count. */
  lemma RewrittenCounted(a: seq<FileState>, f: FileState, b: seq<FileState>)
    requires Rewritten(f)
    ensures |Filter(a + [f] + b, Rewritten)| == |Filter(a + b, Rewritten)| + 1
  {
    FilterAppend(a + [f], b, Rewritten);
    FilterAppend(a, [f], Rewritten);
    FilterAppend(a, b, Rewritten);
  }
}
