/**
 * The version step of `build_and_publish.py`: read the version from
 * `pyproject.toml` and `setup.py`, and when the two agree bump the patch
 * number and rewrite the version line of both files.
 *
 * A file is the sequence of its lines as Python iterates them (each with
 * its '\n'); what is written is the sequence of lines written.
 */
module BuildAndPublish {
  import opened Wrappers
  import opened Text
  import opened Seqs
  import opened Sorting

  // ---------------------------------------------------------------------
  // Reading the versions
  // ---------------------------------------------------------------------

  /** A line whose stripped form starts with "version = ". */
  predicate IsPyprojectVersionLine(line: string) {
    StartsWith(Strip(line), "version = ")
  }

  /** `line.strip().split("=")[1].strip().strip('"').strip("'")` */
  function PyprojectValue(line: string): string
    requires IsPyprojectVersionLine(line)
  {
    assert Strip(line)[8] == '=';
    StripChar(StripChar(Strip(PieceOne(Strip(line), '=')), '"'), '\'')
  }

  /** The version of the first version line of `pyproject.toml`. */
  function PyprojectVersion(lines: seq<string>): Option<string> {
    match FirstWhere(lines, IsPyprojectVersionLine)
    case None => None
    case Some(i) => Some(PyprojectValue(lines[i]))
  }

  /** The loop over `pyproject.toml` that stops at the first version line. */
  method ReadPyprojectVersion(lines: seq<string>) returns (version: Option<string>)
    ensures version == PyprojectVersion(lines)
  {
    version := None;
    var i := 0;
    while i < |lines|
      invariant 0 <= i <= |lines|
      invariant forall j :: 0 <= j < i ==> !IsPyprojectVersionLine(lines[j])
    {
      if IsPyprojectVersionLine(lines[i]) {
        FirstAt(lines, IsPyprojectVersionLine, i);
        return Some(PyprojectValue(lines[i]));
      }
      i := i + 1;
    }
    FirstNone(lines, IsPyprojectVersionLine);
  }

  /** `FirstWhere` finds `i` when `i` is the first match. */
  lemma FirstAt<T>(s: seq<T>, p: T -> bool, i: nat)
    requires i < |s| && p(s[i]) && forall j :: 0 <= j < i ==> !p(s[j])
    ensures FirstWhere(s, p) == Some(i)
  {
  }

  lemma FirstNone<T>(s: seq<T>, p: T -> bool)
    requires forall j :: 0 <= j < |s| ==> !p(s[j])
    ensures FirstWhere(s, p) == None
  {
  }

  /** A line whose stripped form starts with "version=" or "version =". */
  predicate IsSetupVersionLine(line: string) {
    StartsWith(Strip(line), "version=") || StartsWith(Strip(line), "version =")
  }

  lemma SetupLineHasEquals(line: string)
    requires IsSetupVersionLine(line)
    ensures '=' in line
  {
    var k, m := StripBounds(line);
    var i := if StartsWith(Strip(line), "version=") then 7 else 8;
    assert Strip(line)[i] == '=';
    assert line[k + i] == '=';
  }

  /** `line.split("=")[1].split(",")[0].strip().strip('"').strip("'")` */
  function SetupValue(line: string): string
    requires IsSetupVersionLine(line)
  {
    SetupLineHasEquals(line);
    StripChar(StripChar(Strip(BeforeChar(PieceOne(line, '='), ',')), '"'), '\'')
  }

  /** The version of the first version line of `setup.py`, none when the file does not exist. */
  function SetupVersion(setup: Option<seq<string>>): Option<string> {
    if setup.None? then None
    else
      match FirstWhere(setup.value, IsSetupVersionLine)
      case None => None
      case Some(i) => Some(SetupValue(setup.value[i]))
  }

  /** The loop over `setup.py` that stops at the first version line. */
  method ReadSetupVersion(setup: Option<seq<string>>) returns (version: Option<string>)
    ensures version == SetupVersion(setup)
  {
    if setup.None? {
      return None;
    }
    var lines := setup.value;
    var i := 0;
    while i < |lines|
      invariant 0 <= i <= |lines|
      invariant forall j :: 0 <= j < i ==> !IsSetupVersionLine(lines[j])
    {
      if IsSetupVersionLine(lines[i]) {
        FirstAt(lines, IsSetupVersionLine, i);
        return Some(SetupValue(lines[i]));
      }
      i := i + 1;
    }
    FirstNone(lines, IsSetupVersionLine);
    return None;
  }

  // ---------------------------------------------------------------------
  // The patch bump
  // ---------------------------------------------------------------------

  predicate AllDigits(t: string) {
    forall i :: 0 <= i < |t| ==> IsDigit(t[i])
  }

  /** `map(int, version.split("."))` into three numbers; `None` where `int` or the unpacking raises. */
  function ParseVersion(v: string): Option<(nat, nat, nat)> {
    var parts := Split(v, '.');
    if |parts| == 3 && parts[0] != [] && parts[1] != [] && parts[2] != [] &&
       AllDigits(parts[0]) && AllDigits(parts[1]) && AllDigits(parts[2])
    then Some((DigitsValue(parts[0]), DigitsValue(parts[1]), DigitsValue(parts[2])))
    else None
  }

  /** `f"{major}.{minor}.{patch}"` */
  function FormatVersion(major: nat, minor: nat, patch: nat): string {
    NatToString(major) + "." + NatToString(minor) + "." + NatToString(patch)
  }

  lemma NoDot(n: nat)
    ensures '.' !in NatToString(n) && '=' !in NatToString(n)
  {
    var s := NatToString(n);
    forall i | 0 <= i < |s|
      ensures s[i] != '.' && s[i] != '='
    {
      assert IsDigit(s[i]);
    }
  }

  /** Formatting the three numbers and parsing them back gives the same numbers. */
  lemma ParseFormat(major: nat, minor: nat, patch: nat)
    ensures ParseVersion(FormatVersion(major, minor, patch)) == Some((major, minor, patch))
  {
    var a, b, c := NatToString(major), NatToString(minor), NatToString(patch);
    NoDot(major);
    NoDot(minor);
    NoDot(patch);
    assert FormatVersion(major, minor, patch) == a + ['.'] + (b + ['.'] + c);
    SplitGlued(a, '.', b + ['.'] + c);
    SplitGlued(b, '.', c);
    SplitNone(c, '.');
    DigitsValueOfNat(major);
    DigitsValueOfNat(minor);
    DigitsValueOfNat(patch);
  }

  /** The bumped version: the same major and minor numbers and the next patch number. */
  function Bump(v: string): (r: Option<string>)
    ensures r.Some? <==> ParseVersion(v).Some?
  {
    match ParseVersion(v)
    case None => None
    case Some((major, minor, patch)) => Some(FormatVersion(major, minor, patch + 1))
  }

  /** A bumped version reads back with the patch number one higher. */
  lemma BumpIncrementsPatch(v: string)
    requires ParseVersion(v).Some?
    ensures var (major, minor, patch) := ParseVersion(v).value;
      ParseVersion(Bump(v).value) == Some((major, minor, patch + 1))
  {
    var (major, minor, patch) := ParseVersion(v).value;
    ParseFormat(major, minor, patch + 1);
  }

  // ---------------------------------------------------------------------
  // Rewriting the files
  // ---------------------------------------------------------------------

  /** A version line of `pyproject.toml` becomes `version = "NEW"`; the other lines stay. */
  function PyprojectLine(newVersion: string, line: string): string {
    if IsPyprojectVersionLine(line) then "version = \"" + newVersion + "\"\n" else line
  }

  /** A version line of `setup.py` keeps what precedes its first '=' and becomes `PREFIX= "NEW",`. */
  function SetupLine(newVersion: string, line: string): string {
    if IsSetupVersionLine(line) then BeforeChar(line, '=') + "= \"" + newVersion + "\",\n" else line
  }

  /** The loop that writes `pyproject.toml` back, one line at a time. */
  method RewritePyproject(lines: seq<string>, newVersion: string) returns (out: seq<string>)
    ensures out == MapSeq(lines, l => PyprojectLine(newVersion, l))
  {
    out := [];
    var i := 0;
    while i < |lines|
      invariant 0 <= i <= |lines|
      invariant out == MapSeq(lines[..i], l => PyprojectLine(newVersion, l))
    {
      MapSeqAppend(lines[..i], lines[i], l => PyprojectLine(newVersion, l));
      assert lines[..i + 1] == lines[..i] + [lines[i]];
      if IsPyprojectVersionLine(lines[i]) {
        out := out + ["version = \"" + newVersion + "\"\n"];
      } else {
        out := out + [lines[i]];
      }
      i := i + 1;
    }
    assert lines[..i] == lines;
  }

  /** The loop that writes `setup.py` back, one line at a time. */
  method RewriteSetup(lines: seq<string>, newVersion: string) returns (out: seq<string>)
    ensures out == MapSeq(lines, l => SetupLine(newVersion, l))
  {
    out := [];
    var i := 0;
    while i < |lines|
      invariant 0 <= i <= |lines|
      invariant out == MapSeq(lines[..i], l => SetupLine(newVersion, l))
    {
      MapSeqAppend(lines[..i], lines[i], l => SetupLine(newVersion, l));
      assert lines[..i + 1] == lines[..i] + [lines[i]];
      if IsSetupVersionLine(lines[i]) {
        out := out + [BeforeChar(lines[i], '=') + "= \"" + newVersion + "\",\n"];
      } else {
        out := out + [lines[i]];
      }
      i := i + 1;
    }
    assert lines[..i] == lines;
  }

  /** What `update_version_files` does. */
  datatype VersionUpdate =
    | NoVersion                 // returns False, nothing written
    | Unchanged                 // returns True, nothing written
    | Bumped(newVersion: string, pyproject: seq<string>, setup: seq<string>)  // returns True
    | Raised                    // `int()` or the unpacking raises

  /** `update_version_files()`; `setup` is `None` when `setup.py` does not exist. */
  method UpdateVersionFiles(pyproject: seq<string>, setup: Option<seq<string>>) returns (u: VersionUpdate)
    ensures PyprojectVersion(pyproject) == None || PyprojectVersion(pyproject) == Some("") ==> u == NoVersion
    ensures (PyprojectVersion(pyproject).Some? && PyprojectVersion(pyproject).value != "" &&
             SetupVersion(setup) != PyprojectVersion(pyproject)) ==> u == Unchanged
    ensures (PyprojectVersion(pyproject).Some? && PyprojectVersion(pyproject).value != "" &&
             SetupVersion(setup) == PyprojectVersion(pyproject)) ==>
      setup.Some? &&
      match Bump(PyprojectVersion(pyproject).value)
      case None => u == Raised
      case Some(nv) =>
        u == Bumped(nv, MapSeq(pyproject, l => PyprojectLine(nv, l)), MapSeq(setup.value, l => SetupLine(nv, l)))
  {
    var version := ReadPyprojectVersion(pyproject);
    if version.None? || version.value == "" {
      return NoVersion;
    }
    var setupVersion := ReadSetupVersion(setup);
    if setupVersion != version {
      return Unchanged;
    }
    var nv := Bump(version.value);
    if nv.None? {
      return Raised;
    }
    var py := RewritePyproject(pyproject, nv.value);
    var st := RewriteSetup(setup.value, nv.value);
    return Bumped(nv.value, py, st);
  }

  // ---------------------------------------------------------------------
  // Reading back what was written
  // ---------------------------------------------------------------------

  /** A version as `FormatVersion` writes it: digits and dots, starting and ending with a digit. */
  predicate Plain(v: string) {
    v != [] && IsDigit(v[0]) && IsDigit(v[|v| - 1]) && forall i :: 0 <= i < |v| ==> IsDigit(v[i]) || v[i] == '.'
  }

  lemma FormatPlain(major: nat, minor: nat, patch: nat)
    ensures Plain(FormatVersion(major, minor, patch))
  {
    var a, b, c := NatToString(major), NatToString(minor), NatToString(patch);
    var v := FormatVersion(major, minor, patch);
    assert v == a + "." + b + "." + c;
    assert v[0] == a[0];
    assert v[|v| - 1] == c[|c| - 1];
    forall i | 0 <= i < |v|
      ensures IsDigit(v[i]) || v[i] == '.'
    {
      if i < |a| {
        assert v[i] == a[i];
      } else if i == |a| {
      } else if i < |a| + 1 + |b| {
        assert v[i] == b[i - |a| - 1];
      } else if i == |a| + 1 + |b| {
      } else {
        assert v[i] == c[i - |a| - 2 - |b|];
      }
    }
  }

  /** Quotes around a plain version, and the padding `strip` removes, come off. */
  lemma UnquotePlain(pad: string, v: string, tail: string)
    requires Plain(v)
    requires forall i :: 0 <= i < |pad| ==> IsSpace(pad[i])
    requires forall i :: 0 <= i < |tail| ==> IsSpace(tail[i])
    ensures StripChar(StripChar(Strip(pad + "\"" + v + "\"" + tail), '"'), '\'') == v
  {
    var q := "\"" + v + "\"";
    assert pad + "\"" + v + "\"" + tail == pad + q + tail;
    TrimBoth(pad, q, tail, IsSpace);
    assert q == ['"'] + v + ['"'];
    TrimBoth(['"'], v, ['"'], x => x == '"');
    TrimBoth([], v, [], x => x == '\'');
    assert [] + v + [] == v;
  }

  lemma PlainHasNo(v: string, c: char)
    requires Plain(v) && !IsDigit(c) && c != '.'
    ensures c !in v
  {
  }

  /** The piece after the first `c`, up to the next: `x + [c] + y` split at `c` gives `y` as piece one. */
  lemma PieceOneGlued(x: string, c: char, y: string)
    requires c !in x && c !in y
    ensures c in x + [c] + y && PieceOne(x + [c] + y, c) == y
  {
    assert (x + [c] + y)[|x|] == c;
    BeforeCharGlued(x, c, y);
    BeforeCharWithout(y, c);
  }

  /** The text of a written `pyproject.toml` version line, without its newline. */
  function PyprojectBody(v: string): string {
    "version = \"" + v + "\""
  }

  lemma PyprojectBodyStrip(v: string)
    requires Plain(v)
    ensures "version = \"" + v + "\"\n" == [] + PyprojectBody(v) + "\n"
    ensures Strip("version = \"" + v + "\"\n") == PyprojectBody(v)
  {
    var body := PyprojectBody(v);
    assert "version = \"" + v + "\"\n" == [] + body + "\n";
    assert body[0] == 'v' && body[|body| - 1] == '"';
    TrimBoth([], body, "\n", IsSpace);
  }

  lemma PyprojectBodyPiece(v: string)
    requires Plain(v)
    ensures StartsWith(PyprojectBody(v), "version = ")
    ensures '=' in PyprojectBody(v) && PieceOne(PyprojectBody(v), '=') == " " + "\"" + v + "\"" + []
  {
    var body := PyprojectBody(v);
    assert body[..10] == "version = ";
    var y := " \"" + v + "\"";
    assert body == "version " + ['='] + y;
    PlainHasNo(v, '=');
    assert '=' !in y by {
      assert y == " \"" + v + "\"";
    }
    PieceOneGlued("version ", '=', y);
    assert y == " " + "\"" + v + "\"" + [];
  }

  /** The line written for `pyproject.toml` is a version line holding the new version. */
  lemma PyprojectLineReads(v: string)
    requires Plain(v)
    ensures IsPyprojectVersionLine("version = \"" + v + "\"\n")
    ensures PyprojectValue("version = \"" + v + "\"\n") == v
  {
    PyprojectBodyStrip(v);
    PyprojectBodyPiece(v);
    UnquotePlain(" ", v, []);
  }

  /** After the rewrite, the first version line of `pyproject.toml` holds the new version. */
  lemma PyprojectRoundTrip(lines: seq<string>, v: string)
    requires Plain(v) && FirstWhere(lines, IsPyprojectVersionLine).Some?
    ensures PyprojectVersion(MapSeq(lines, l => PyprojectLine(v, l))) == Some(v)
  {
    var out := MapSeq(lines, l => PyprojectLine(v, l));
    var i := FirstWhere(lines, IsPyprojectVersionLine).value;
    PyprojectLineReads(v);
    forall j | 0 <= j <= i
      ensures out[j] == PyprojectLine(v, lines[j])
    {
      MapSeqAt(lines, l => PyprojectLine(v, l), j);
    }
    FirstAt(out, IsPyprojectVersionLine, i);
  }

  /** The prefix a setup version line keeps: its indentation and "version", with the space before '=' if any. */
  lemma SetupPrefix(line: string) returns (w: string, key: string)
    requires IsSetupVersionLine(line)
    ensures key == "version" || key == "version "
    ensures forall i :: 0 <= i < |w| ==> IsSpace(w[i])
    ensures BeforeChar(line, '=') == w + key
  {
    var k, m := StripBounds(line);
    var s := Strip(line);
    w := line[..k];
    key := if StartsWith(s, "version=") then "version" else "version ";
    assert s[..|key|] == key && s[|key|] == '=';
    var rest := line[k + |key| + 1..];
    assert |key| + 1 <= |s| == m - k;
    assert line[k..k + |key|] == s[..|key|] by {
      forall i | 0 <= i < |key|
        ensures line[k..k + |key|][i] == s[..|key|][i]
      {
        assert s[i] == line[k + i];
      }
    }
    assert line[k + |key|] == s[|key|];
    assert line == w + line[k..k + |key|] + [line[k + |key|]] + rest;
    PrefixHasNoEquals(w, key);
    BeforeCharGlued(w + key, '=', rest);
  }

  /** The text of a written `setup.py` version line, after its indentation and without its newline. */
  function SetupBody(key: string, v: string): string {
    key + "= \"" + v + "\","
  }

  lemma SetupBodyStrip(w: string, key: string, v: string)
    requires key == "version" || key == "version "
    requires forall i :: 0 <= i < |w| ==> IsSpace(w[i])
    ensures Strip(w + key + "= \"" + v + "\",\n") == SetupBody(key, v)
    ensures IsSetupVersionLine(w + key + "= \"" + v + "\",\n")
  {
    var body := SetupBody(key, v);
    assert w + key + "= \"" + v + "\",\n" == w + body + "\n";
    assert body[0] == 'v' && body[|body| - 1] == ',';
    TrimBoth(w, body, "\n", IsSpace);
    if key == "version" {
      assert body[..8] == "version=";
    } else {
      assert body[..9] == "version =";
    }
  }

  lemma PrefixHasNoEquals(w: string, key: string)
    requires key == "version" || key == "version "
    requires forall i :: 0 <= i < |w| ==> IsSpace(w[i])
    ensures '=' !in w + key
  {
    forall i | 0 <= i < |w + key|
      ensures (w + key)[i] != '='
    {
      if i < |w| {
        assert IsSpace(w[i]);
      }
    }
  }

  /** What follows the '=' of a written setup line, up to the ',' before its newline. */
  lemma SetupTailValue(v: string)
    requires Plain(v)
    ensures '=' !in " \"" + v + "\",\n"
    ensures BeforeChar(" \"" + v + "\",\n", ',') == " " + "\"" + v + "\"" + []
  {
    var z := " \"" + v + "\"";
    PlainHasNo(v, '=');
    PlainHasNo(v, ',');
    assert " \"" + v + "\",\n" == z + [','] + "\n";
    assert ',' !in z;
    BeforeCharGlued(z, ',', "\n");
    assert z == " " + "\"" + v + "\"" + [];
  }

  lemma SetupLinePiece(w: string, key: string, v: string)
    requires key == "version" || key == "version "
    requires forall i :: 0 <= i < |w| ==> IsSpace(w[i])
    requires Plain(v)
    ensures '=' in w + key + "= \"" + v + "\",\n"
    ensures BeforeChar(PieceOne(w + key + "= \"" + v + "\",\n", '='), ',') == " " + "\"" + v + "\"" + []
  {
    var y := " \"" + v + "\",\n";
    assert w + key + "= \"" + v + "\",\n" == (w + key) + ['='] + y;
    PrefixHasNoEquals(w, key);
    SetupTailValue(v);
    PieceOneGlued(w + key, '=', y);
  }

  /** The line written for `setup.py` is a version line holding the new version. */
  lemma SetupLineReads(line: string, v: string)
    requires IsSetupVersionLine(line) && Plain(v)
    ensures IsSetupVersionLine(SetupLine(v, line))
    ensures SetupValue(SetupLine(v, line)) == v
  {
    var w, key := SetupPrefix(line);
    assert SetupLine(v, line) == w + key + "= \"" + v + "\",\n";
    SetupBodyStrip(w, key, v);
    SetupLinePiece(w, key, v);
    UnquotePlain(" ", v, []);
  }

  /** After the rewrite, the first version line of `setup.py` holds the new version. */
  lemma SetupRoundTrip(lines: seq<string>, v: string)
    requires Plain(v) && FirstWhere(lines, IsSetupVersionLine).Some?
    ensures SetupVersion(Some(MapSeq(lines, l => SetupLine(v, l)))) == Some(v)
  {
    var out := MapSeq(lines, l => SetupLine(v, l));
    var i := FirstWhere(lines, IsSetupVersionLine).value;
    SetupLineReads(lines[i], v);
    forall j | 0 <= j <= i
      ensures out[j] == SetupLine(v, lines[j])
    {
      MapSeqAt(lines, l => SetupLine(v, l), j);
    }
    FirstAt(out, IsSetupVersionLine, i);
  }

  /**
   * After a bump both files read back the new version, which is the old
   * one with the patch number one higher: the files agree again, so the next
   * run bumps again.
   */
  lemma BumpedFilesAgree(pyproject: seq<string>, setup: Option<seq<string>>, v: string)
    requires PyprojectVersion(pyproject) == Some(v) && v != "" && SetupVersion(setup) == Some(v)
    requires ParseVersion(v).Some?
    ensures setup.Some?
    ensures var nv := Bump(v).value;
      PyprojectVersion(MapSeq(pyproject, l => PyprojectLine(nv, l))) == Some(nv) &&
      SetupVersion(Some(MapSeq(setup.value, l => SetupLine(nv, l)))) == Some(nv) &&
      ParseVersion(nv) == Some((ParseVersion(v).value.0, ParseVersion(v).value.1, ParseVersion(v).value.2 + 1))
  {
    var (major, minor, patch) := ParseVersion(v).value;
    var nv := Bump(v).value;
    FormatPlain(major, minor, patch + 1);
    PyprojectRoundTrip(pyproject, nv);
    SetupRoundTrip(setup.value, nv);
    BumpIncrementsPatch(v);
  }

  /** Only version lines change; every other line is written back as it was. */
  lemma RewriteKeepsOtherLines(lines: seq<string>, v: string, i: int)
    requires 0 <= i < |lines|
    ensures var out := MapSeq(lines, l => PyprojectLine(v, l));
      |out| == |lines| &&
      (IsPyprojectVersionLine(lines[i]) ==> out[i] == "version = \"" + v + "\"\n") &&
      (!IsPyprojectVersionLine(lines[i]) ==> out[i] == lines[i])
    ensures var out := MapSeq(lines, l => SetupLine(v, l));
      |out| == |lines| &&
      (IsSetupVersionLine(lines[i]) ==> out[i] == BeforeChar(lines[i], '=') + "= \"" + v + "\",\n") &&
      (!IsSetupVersionLine(lines[i]) ==> out[i] == lines[i])
  {
    MapSeqAt(lines, l => PyprojectLine(v, l), i);
    MapSeqAt(lines, l => SetupLine(v, l), i);
  }
}
