/**
 * The model helpers of the `pyllm` package: the `.env` settings it reads,
 * the rewrite of the `OLLAMA_MODEL=` line, the `models.json` fallback, and
 * the filter that turns the headings of the Ollama library page into small
 * coding models.
 */
module PyllmModels {
  import opened Wrappers
  import opened Text
  import opened Seqs
  import opened Sorting

  // ---------------------------------------------------------------------
  // Settings
  // ---------------------------------------------------------------------

  /** The parsed `.env` and `.env.example` files next to the package; `None` when the file does not exist. */
  datatype EnvFiles = EnvFiles(env: Option<map<string, string>>, example: Option<map<string, string>>)

  /** The settings in force: `.env` when it exists, else `.env.example`, else none. */
  function Settings(files: EnvFiles): (s: map<string, string>)
    ensures files.env.Some? ==> s == files.env.value
    ensures files.env.None? && files.example.Some? ==> s == files.example.value
    ensures files.env.None? && files.example.None? ==> s == map[]
  {
    if files.env.Some? then files.env.value
    else if files.example.Some? then files.example.value
    else map[]
  }

  /**
   * `env.get(key, default)` on the settings in force: the value in `.env`
   * when that file exists, else the value in `.env.example`, else the
   * default; a file in force without the key gives the default.
   */
  function Setting(files: EnvFiles, key: string, default: string): (v: string)
    ensures files.env.Some? && key in files.env.value ==> v == files.env.value[key]
    ensures files.env.Some? && key !in files.env.value ==> v == default
    ensures files.env.None? && files.example.Some? && key in files.example.value ==> v == files.example.value[key]
    ensures files.env.None? && (files.example.None? || key !in files.example.value) ==> v == default
  {
    var s := Settings(files);
    if key in s then s[key] else default
  }

  /** `get_models_dir`: `MODELS_DIR` of the settings in force, by default "./models". */
  function GetModelsDir(files: EnvFiles): string {
    Setting(files, "MODELS_DIR", "./models")
  }

  /** `get_default_model`: `OLLAMA_MODEL` of the settings in force, by default empty. */
  function GetDefaultModel(files: EnvFiles): string {
    Setting(files, "OLLAMA_MODEL", "")
  }

  // ---------------------------------------------------------------------
  // Lines of a text file
  // ---------------------------------------------------------------------

  /** The length of the first line of `s`, its '\n' included. */
  function LineLen(s: string): (n: nat)
    ensures s != [] ==> 1 <= n <= |s|
    ensures s == [] ==> n == 0
  {
    if s == [] then 0 else if s[0] == '\n' then 1 else 1 + LineLen(s[1..])
  }

  lemma {:induction false} LineLenShape(s: string)
    ensures forall j :: 0 <= j < LineLen(s) - 1 ==> s[j] != '\n'
    ensures LineLen(s) < |s| ==> s[LineLen(s) - 1] == '\n'
  {
    if s != [] && s[0] != '\n' {
      LineLenShape(s[1..]);
      assert forall j :: 1 <= j < |s| ==> s[j] == s[1..][j - 1];
    }
  }

  /** A text cut after each '\n': each line ends with its '\n', the last one possibly without. */
  function Lines(s: string): seq<string>
    decreases |s|
  {
    if s == [] then [] else [s[..LineLen(s)]] + Lines(s[LineLen(s)..])
  }

  /**
   * What reading a file in text mode sees: Python's universal newlines turn
   * every "\r\n" and every lone '\r' into '\n'.
   */
  function Universal(s: string): string
    decreases |s|
  {
    if s == [] then []
    else if s[0] == '\r' then
      if |s| >= 2 && s[1] == '\n' then "\n" + Universal(s[2..]) else "\n" + Universal(s[1..])
    else [s[0]] + Universal(s[1..])
  }

  /** No '\r' survives the translation. */
  lemma {:induction false} UniversalNoCr(s: string)
    ensures '\r' !in Universal(s)
    decreases |s|
  {
    if s != [] {
      if s[0] == '\r' && |s| >= 2 && s[1] == '\n' {
        UniversalNoCr(s[2..]);
      } else {
        UniversalNoCr(s[1..]);
      }
    }
  }

  /** A text without '\r' is read as it is. */
  lemma {:induction false} UniversalKeeps(s: string)
    requires '\r' !in s
    ensures Universal(s) == s
    decreases |s|
  {
    if s != [] {
      assert s[1..] == s[1..] && '\r' !in s[1..] by {
        forall x | x in s[1..] ensures x in s { }
      }
      UniversalKeeps(s[1..]);
      assert s == [s[0]] + s[1..];
    }
  }

  /** "A=1\r\nB\r" is read as "A=1\nB\n": two terminated lines. */
  lemma UniversalExample()
    ensures Universal("A=1\r\nB\r") == "A=1\nB\n"
  {
    var s := "A=1\r\nB\r";
    assert s[1..] == "=1\r\nB\r" && s[2..] == "1\r\nB\r" && s[3..] == "\r\nB\r";
    assert s[3..][2..] == "B\r" && s[3..][2..][1..] == "\r";
  }

  /** `for line in f` over a file opened with "r", whose contents are `content` (`None`: no file). */
  function ReadLines(content: Option<string>): seq<string> {
    Lines(Universal(content.GetOr("")))
  }

  /** None of the lines holds a '\r'. */
  predicate CrFree(ls: seq<string>) {
    forall i :: 0 <= i < |ls| ==> '\r' !in ls[i]
  }

  /** `"".join(lines)`, which is what `writelines` puts in the file. */
  function Concat(lines: seq<string>): string {
    if lines == [] then "" else lines[0] + Concat(lines[1..])
  }

  /** A line as file iteration yields it; only the last line may lack its '\n'. */
  predicate GoodLine(l: string, last: bool) {
    l != [] && (forall j :: 0 <= j < |l| - 1 ==> l[j] != '\n') && (!last ==> l[|l| - 1] == '\n')
  }

  predicate GoodLines(ls: seq<string>) {
    forall i :: 0 <= i < |ls| ==> GoodLine(ls[i], i == |ls| - 1)
  }

  lemma {:induction false} LinesGood(s: string)
    ensures GoodLines(Lines(s))
    decreases |s|
  {
    if s != [] {
      var k := LineLen(s);
      LineLenShape(s);
      LinesGood(s[k..]);
      var ls := Lines(s);
      assert ls == [s[..k]] + Lines(s[k..]);
      forall i | 0 <= i < |ls| ensures GoodLine(ls[i], i == |ls| - 1) {
        if i > 0 {
          assert ls[i] == Lines(s[k..])[i - 1];
        } else if |ls| > 1 {
          assert s[k..] != [];
        }
      }
    }
  }

  lemma {:induction false} LineLenOfGood(l: string, rest: string)
    requires l != [] && forall j :: 0 <= j < |l| - 1 ==> l[j] != '\n'
    requires l[|l| - 1] == '\n' || rest == []
    ensures LineLen(l + rest) == |l|
  {
    if |l| > 1 {
      assert (l + rest)[1..] == l[1..] + rest;
      LineLenOfGood(l[1..], rest);
    }
  }

  /** Reading back what `writelines` wrote gives the same lines. */
  lemma {:induction false} LinesOfConcat(ls: seq<string>)
    requires GoodLines(ls)
    ensures Lines(Concat(ls)) == ls
  {
    if ls != [] {
      var rest := Concat(ls[1..]);
      assert |ls| == 1 ==> rest == [];
      LineLenOfGood(ls[0], rest);
      var s := ls[0] + rest;
      assert s[..|ls[0]|] == ls[0] && s[|ls[0]|..] == rest;
      assert GoodLines(ls[1..]) by {
        forall i | 0 <= i < |ls[1..]| ensures GoodLine(ls[1..][i], i == |ls[1..]| - 1) {
          assert ls[1..][i] == ls[i + 1];
        }
      }
      LinesOfConcat(ls[1..]);
    }
  }

  // ---------------------------------------------------------------------
  // set_default_model
  // ---------------------------------------------------------------------

  const ModelKey := "OLLAMA_MODEL="

  /** A line that sets the model: its stripped form starts with "OLLAMA_MODEL=". */
  predicate IsModelLine(line: string) {
    StartsWith(Strip(line), ModelKey)
  }

  /** The line `set_default_model` writes. */
  function EnvLine(name: string): string {
    ModelKey + name + "\n"
  }

  function RewriteLine(name: string, line: string): string {
    if IsModelLine(line) then EnvLine(name) else line
  }

  /** Every model line replaced by the new one, every other line kept, in order. */
  function Replaced(lines: seq<string>, name: string): (r: seq<string>)
    ensures |r| == |lines|
  {
    MapSeq(lines, l => RewriteLine(name, l))
  }

  predicate HasModelLine(lines: seq<string>) {
    exists i :: 0 <= i < |lines| && IsModelLine(lines[i])
  }

  /** The loop of `set_default_model`, with its `found` flag. */
  method RewriteEnvLines(lines: seq<string>, name: string) returns (out: seq<string>, found: bool)
    ensures out == Replaced(lines, name)
    ensures found <==> HasModelLine(lines)
  {
    out := [];
    found := false;
    var i := 0;
    while i < |lines|
      invariant 0 <= i <= |lines|
      invariant out == Replaced(lines[..i], name)
      invariant found <==> HasModelLine(lines[..i])
    {
      MapSeqAppend(lines[..i], lines[i], l => RewriteLine(name, l));
      assert lines[..i + 1] == lines[..i] + [lines[i]];
      if StartsWith(Strip(lines[i]), ModelKey) {
        out := out + [EnvLine(name)];
        found := true;
      } else {
        out := out + [lines[i]];
      }
      assert HasModelLine(lines[..i + 1]) <==> HasModelLine(lines[..i]) || IsModelLine(lines[i]) by {
        if IsModelLine(lines[i]) {
          assert lines[..i + 1][i] == lines[i];
        }
        if HasModelLine(lines[..i + 1]) && !IsModelLine(lines[i]) {
          var k :| 0 <= k < i + 1 && IsModelLine(lines[..i + 1][k]);
          assert lines[..i][k] == lines[..i + 1][k];
        }
        if HasModelLine(lines[..i]) {
          var k :| 0 <= k < i && IsModelLine(lines[..i][k]);
          assert lines[..i + 1][k] == lines[..i][k];
        }
      }
      i := i + 1;
    }
    assert lines[..i] == lines;
  }

  /** The lines as `set_default_model` leaves them, as written: the new line is appended to the list when none was found. */
  function RewriteAsWritten(lines: seq<string>, name: string): seq<string> {
    Replaced(lines, name) + (if HasModelLine(lines) then [] else [EnvLine(name)])
  }

  /**
   * `set_default_model(name)` on a `.env` with contents `content` (`None`
   * when the file does not exist), as written: the new file contents.
   */
  function SetDefaultModelAsWritten(content: Option<string>, name: string): string {
    Concat(RewriteAsWritten(ReadLines(content), name))
  }

  /** The written line is itself a model line. */
  lemma EnvLineIsModelLine(name: string)
    ensures IsModelLine(EnvLine(name))
  {
    var s := EnvLine(name);
    assert s[0] == 'O';
    var t := TrimLeft(s, IsSpace);
    assert t == s;
    TrimRightShape(t, IsSpace);
    var r := TrimRight(t, IsSpace);
    assert !IsSpace(s[12]);
    assert |r| >= 13;
    assert r[..13] == s[..13] == ModelKey;
  }

  lemma RewriteLineTwice(name: string, line: string)
    ensures RewriteLine(name, RewriteLine(name, line)) == RewriteLine(name, line)
  {
    EnvLineIsModelLine(name);
  }

  lemma {:induction false} ReplacedTwice(lines: seq<string>, name: string)
    ensures Replaced(Replaced(lines, name), name) == Replaced(lines, name)
  {
    if lines != [] {
      RewriteLineTwice(name, lines[0]);
      ReplacedTwice(lines[1..], name);
    }
  }

  lemma {:induction false} ReplacedNoModelLine(lines: seq<string>, name: string)
    requires !HasModelLine(lines)
    ensures Replaced(lines, name) == lines
  {
    if lines != [] {
      assert !IsModelLine(lines[0]);
      assert !HasModelLine(lines[1..]) by {
        forall i | 0 <= i < |lines[1..]| ensures !IsModelLine(lines[1..][i]) {
          assert lines[1..][i] == lines[i + 1];
        }
      }
      ReplacedNoModelLine(lines[1..], name);
    }
  }

  lemma HasModelLineAfter(lines: seq<string>, name: string)
    ensures HasModelLine(RewriteAsWritten(lines, name))
  {
    EnvLineIsModelLine(name);
    var r := RewriteAsWritten(lines, name);
    if HasModelLine(lines) {
      var i :| 0 <= i < |lines| && IsModelLine(lines[i]);
      MapSeqAt(lines, l => RewriteLine(name, l), i);
      assert IsModelLine(r[i]);
    } else {
      assert IsModelLine(r[|r| - 1]);
    }
  }

  /**
   * Applied to a list of lines, the rewrite is idempotent: a second pass
   * finds the line the first pass wrote and rewrites it to itself.
   */
  lemma RewriteIdempotent(lines: seq<string>, name: string)
    ensures RewriteAsWritten(RewriteAsWritten(lines, name), name) == RewriteAsWritten(lines, name)
  {
    var once := RewriteAsWritten(lines, name);
    HasModelLineAfter(lines, name);
    if HasModelLine(lines) {
      assert once == Replaced(lines, name);
      ReplacedTwice(lines, name);
    } else {
      ReplacedNoModelLine(lines, name);
      EnvLineIsModelLine(name);
      MapSeqConcat(lines, [EnvLine(name)], l => RewriteLine(name, l));
      assert Replaced([EnvLine(name)], name) == [EnvLine(name)];
    }
  }

  /** Trimming leading spaces commutes with appending a character, unless only spaces remain. */
  lemma {:induction false} TrimLeftAppend(x: string, c: char)
    ensures TrimLeft(x + [c], IsSpace) == if TrimLeft(x, IsSpace) == [] then TrimLeft([c], IsSpace) else TrimLeft(x, IsSpace) + [c]
  {
    if x != [] {
      assert (x + [c])[0] == x[0] && (x + [c])[1..] == x[1..] + [c];
      if IsSpace(x[0]) {
        TrimLeftAppend(x[1..], c);
      }
    }
  }

  /** `strip` ignores a trailing '\n'. */
  lemma StripNewline(x: string)
    ensures Strip(x + "\n") == Strip(x)
  {
    TrimLeftAppend(x, '\n');
    var t := TrimLeft(x, IsSpace);
    if t != [] {
      assert (t + "\n")[..|t|] == t;
    }
  }

  /** The last line with its missing '\n' added. */
  function Terminated(lines: seq<string>): (r: seq<string>)
    ensures |r| == |lines| && r[..|r| - 1 * (if |r| > 0 then 1 else 0)] == lines[..|lines| - (if |lines| > 0 then 1 else 0)]
  {
    if lines == [] || (lines[|lines| - 1] != [] && lines[|lines| - 1][|lines[|lines| - 1]| - 1] == '\n') then lines
    else lines[..|lines| - 1] + [lines[|lines| - 1] + "\n"]
  }

  /** The rewrite with the appended line starting a line of its own. */
  function RewriteLines(lines: seq<string>, name: string): seq<string> {
    if HasModelLine(lines) then Replaced(lines, name) else Terminated(lines) + [EnvLine(name)]
  }

  /** `set_default_model(name)` with the missing '\n' of the last line supplied before the new line is appended. */
  function SetDefaultModel(content: Option<string>, name: string): string {
    Concat(RewriteLines(ReadLines(content), name))
  }

  /** `set_default_model`: read the lines, rewrite them, append the line when none was found, write. */
  method SetDefaultModelFile(content: Option<string>, name: string) returns (written: string)
    ensures written == SetDefaultModel(content, name)
  {
    var lines := ReadLines(content);
    var out, found := RewriteEnvLines(lines, name);
    if !found {
      out := Terminated(lines) + [EnvLine(name)];
    }
    written := Concat(out);
  }

  lemma EnvLineGood(name: string, last: bool)
    requires '\n' !in name
    ensures GoodLine(EnvLine(name), last)
  {
    var e := EnvLine(name);
    forall j | 0 <= j < |e| - 1 ensures e[j] != '\n' {
      if j >= |ModelKey| {
        assert e[j] == name[j - |ModelKey|];
      }
    }
  }

  lemma RewriteLinesGood(lines: seq<string>, name: string)
    requires GoodLines(lines) && '\n' !in name
    ensures GoodLines(RewriteLines(lines, name))
  {
    var r := RewriteLines(lines, name);
    if HasModelLine(lines) {
      forall i | 0 <= i < |r| ensures GoodLine(r[i], i == |r| - 1) {
        MapSeqAt(lines, l => RewriteLine(name, l), i);
        EnvLineGood(name, i == |r| - 1);
      }
    } else {
      var t := Terminated(lines);
      forall i | 0 <= i < |r| ensures GoodLine(r[i], i == |r| - 1) {
        if i == |r| - 1 {
          EnvLineGood(name, true);
        } else if i == |lines| - 1 {
          var l := lines[i];
          assert GoodLine(l, true);
          if t[i] != l {
            assert t[i] == l + "\n";
          }
        } else {
          assert r[i] == t[i] == lines[i];
        }
      }
    }
  }

  lemma TerminatedNoModelLine(lines: seq<string>)
    requires !HasModelLine(lines)
    ensures !HasModelLine(Terminated(lines))
  {
    var t := Terminated(lines);
    if t != lines {
      var n := |lines| - 1;
      StripNewline(lines[n]);
      forall i | 0 <= i < |t| ensures !IsModelLine(t[i]) {
        if i < n {
          assert t[i] == lines[i];
        } else {
          assert t[i] == lines[n] + "\n";
        }
      }
    }
  }

  /** The lines of a text without '\r' hold none. */
  lemma {:induction false} LinesCrFree(s: string)
    requires '\r' !in s
    ensures CrFree(Lines(s))
    decreases |s|
  {
    if s != [] {
      var k := LineLen(s);
      assert '\r' !in s[..k] && '\r' !in s[k..] by {
        forall x | x in s[..k] ensures x in s { }
        forall x | x in s[k..] ensures x in s { }
      }
      LinesCrFree(s[k..]);
      var ls := Lines(s);
      forall i | 0 <= i < |ls| ensures '\r' !in ls[i] {
        if i > 0 {
          assert ls[i] == Lines(s[k..])[i - 1];
        }
      }
    }
  }

  /** Joining lines without '\r' gives a text without '\r'. */
  lemma {:induction false} ConcatCrFree(ls: seq<string>)
    requires CrFree(ls)
    ensures '\r' !in Concat(ls)
  {
    if ls != [] {
      assert CrFree(ls[1..]) by {
        forall i | 0 <= i < |ls[1..]| ensures '\r' !in ls[1..][i] {
          assert ls[1..][i] == ls[i + 1];
        }
      }
      ConcatCrFree(ls[1..]);
      assert '\r' !in ls[0];
    }
  }

  /** The rewrite adds no '\r' when the model name has none. */
  lemma RewriteLinesCrFree(lines: seq<string>, name: string)
    requires CrFree(lines) && '\r' !in name
    ensures CrFree(RewriteLines(lines, name))
  {
    var e := EnvLine(name);
    assert '\r' !in e by {
      forall j | 0 <= j < |e| ensures e[j] != '\r' {
        if |ModelKey| <= j < |e| - 1 {
          assert e[j] == name[j - |ModelKey|];
        }
      }
    }
    var r := RewriteLines(lines, name);
    if HasModelLine(lines) {
      forall i | 0 <= i < |r| ensures '\r' !in r[i] {
        MapSeqAt(lines, l => RewriteLine(name, l), i);
      }
    } else {
      var t := Terminated(lines);
      forall i | 0 <= i < |r| ensures '\r' !in r[i] {
        if i == |r| - 1 {
          assert r[i] == e;
        } else if i == |lines| - 1 {
          var l := lines[i];
          if t[i] != l {
            assert t[i] == l + "\n";
          }
        } else {
          assert r[i] == t[i] == lines[i];
        }
      }
    }
  }

  /**
   * The corrected file, read back in text mode, gives the rewritten lines:
   * it holds no '\r', so reading it changes nothing, and its lines are
   * well formed.
   */
  lemma ReadBackRewrite(content: Option<string>, name: string)
    requires '\n' !in name && '\r' !in name
    ensures ReadLines(Some(SetDefaultModel(content, name))) == RewriteLines(ReadLines(content), name)
  {
    var u := Universal(content.GetOr(""));
    UniversalNoCr(content.GetOr(""));
    var lines := Lines(u);
    LinesGood(u);
    LinesCrFree(u);
    var once := RewriteLines(lines, name);
    RewriteLinesGood(lines, name);
    RewriteLinesCrFree(lines, name);
    ConcatCrFree(once);
    UniversalKeeps(Concat(once));
    LinesOfConcat(once);
  }

  /**
   * The corrected rewrite is idempotent on the file itself: writing the
   * model twice leaves the same contents as writing it once.
   */
  lemma SetDefaultModelIdempotent(content: Option<string>, name: string)
    requires '\n' !in name && '\r' !in name
    ensures SetDefaultModel(Some(SetDefaultModel(content, name)), name) == SetDefaultModel(content, name)
  {
    var lines := ReadLines(content);
    var once := RewriteLines(lines, name);
    ReadBackRewrite(content, name);
    EnvLineIsModelLine(name);
    if HasModelLine(lines) {
      var i :| 0 <= i < |lines| && IsModelLine(lines[i]);
      MapSeqAt(lines, l => RewriteLine(name, l), i);
      assert IsModelLine(once[i]);
      ReplacedTwice(lines, name);
    } else {
      var t := Terminated(lines);
      assert IsModelLine(once[|once| - 1]);
      TerminatedNoModelLine(lines);
      ReplacedNoModelLine(t, name);
      MapSeqConcat(t, [EnvLine(name)], l => RewriteLine(name, l));
      assert Replaced([EnvLine(name)], name) == [EnvLine(name)];
    }
  }

  /** After the corrected rewrite the file, read back, has a line setting the model. */
  lemma SetDefaultModelSetsLine(content: Option<string>, name: string)
    requires '\n' !in name && '\r' !in name
    ensures HasModelLine(ReadLines(Some(SetDefaultModel(content, name))))
  {
    var lines := ReadLines(content);
    ReadBackRewrite(content, name);
    EnvLineIsModelLine(name);
    var once := RewriteLines(lines, name);
    if HasModelLine(lines) {
      var i :| 0 <= i < |lines| && IsModelLine(lines[i]);
      MapSeqAt(lines, l => RewriteLine(name, l), i);
      assert IsModelLine(once[i]);
    } else {
      assert IsModelLine(once[|once| - 1]);
    }
  }

  /** A text without '\n' before its end is a single line. */
  lemma SingleLine(l: string)
    requires GoodLine(l, true)
    ensures Lines(l) == [l]
  {
    LinesOfConcat([l]);
    assert Concat([l]) == l;
  }

  /** As written, a last line without '\n' and without a model line gets the new line glued on. */
  lemma AppendedWhenMissing(c: string, name: string)
    requires c != [] && '\n' !in c && '\r' !in c && !IsModelLine(c)
    ensures SetDefaultModelAsWritten(Some(c), name) == c + EnvLine(name)
  {
    UniversalKeeps(c);
    SingleLine(c);
    assert !HasModelLine([c]);
    ReplacedNoModelLine([c], name);
    assert Concat([c, EnvLine(name)]) == c + Concat([EnvLine(name)]);
  }

  /** The glued line is one line, and it does not start with the key. */
  lemma GluedLineNotModel(c: string, name: string)
    requires c != [] && !IsSpace(c[0]) && c[0] != 'O' && '\n' !in c && '\n' !in name
    ensures var glued := c + EnvLine(name);
      Lines(glued) == [glued] && !IsModelLine(glued)
  {
    var glued := c + EnvLine(name);
    EnvLineGood(name, true);
    forall j | 0 <= j < |glued| - 1 ensures glued[j] != '\n' {
      if j >= |c| {
        assert glued[j] == EnvLine(name)[j - |c|];
      }
    }
    SingleLine(glued);
    assert TrimLeft(glued, IsSpace) == glued;
    TrimRightShape(glued, IsSpace);
  }

  /**
   * As written, a `.env` whose last line lacks its '\n' gets the new line
   * glued onto that line: "A=1" becomes "A=1OLLAMA_MODEL=m\n", a file
   * without any model line, so a second call appends yet another line
   * instead of leaving the file as it is.
   */
  lemma GluedModelLine()
    ensures SetDefaultModelAsWritten(Some("A=1"), "m") == "A=1" + EnvLine("m")
    ensures !HasModelLine(ReadLines(Some("A=1" + EnvLine("m"))))
    ensures SetDefaultModelAsWritten(Some("A=1" + EnvLine("m")), "m") != "A=1" + EnvLine("m")
  {
    GluedOnFirstCall();
    GluedAgainOnSecondCall();
  }

  /** The first call on "A=1" glues the model line onto it, leaving no model line. */
  lemma GluedOnFirstCall()
    ensures SetDefaultModelAsWritten(Some("A=1"), "m") == "A=1" + EnvLine("m")
    ensures !HasModelLine(ReadLines(Some("A=1" + EnvLine("m"))))
  {
    var c := "A=1";
    GluedCrFree();
    TrimLeftShape(c, IsSpace);
    TrimRightShape(TrimLeft(c, IsSpace), IsSpace);
    assert !IsModelLine(c);
    AppendedWhenMissing(c, "m");
    GluedLineNotModel(c, "m");
  }

  /** The texts of the example hold no '\r', so reading them changes nothing. */
  lemma GluedCrFree()
    ensures Universal("A=1") == "A=1" && Universal("A=1" + EnvLine("m")) == "A=1" + EnvLine("m")
  {
    var glued := "A=1" + EnvLine("m");
    assert glued == "A=1OLLAMA_MODEL=m\n";
    UniversalKeeps("A=1");
    UniversalKeeps(glued);
  }

  /** The second call finds no model line either, and appends another. */
  lemma GluedAgainOnSecondCall()
    ensures SetDefaultModelAsWritten(Some("A=1" + EnvLine("m")), "m") != "A=1" + EnvLine("m")
  {
    var glued := "A=1" + EnvLine("m");
    GluedCrFree();
    GluedLineNotModel("A=1", "m");
    assert [glued][0] == glued;
    assert !HasModelLine([glued]);
    ReplacedNoModelLine([glued], "m");
    assert Concat([glued, EnvLine("m")]) == glued + Concat([EnvLine("m")]);
    assert Concat([EnvLine("m")]) == EnvLine("m") + "";
  }

  // ---------------------------------------------------------------------
  // models.json
  // ---------------------------------------------------------------------

  /** An entry of the model list: its name, size label and description. */
  datatype PyModel = PyModel(name: string, size: string, desc: string)

  const DefaultModels: seq<PyModel> := [
    PyModel("tinyllama:1.1b", "1.1B", "TinyLlama 1.1B - szybki, mały model"),
    PyModel("codellama:7b", "7B", "CodeLlama 7B - kodowanie, Meta"),
    PyModel("wizardcoder:7b-python", "7B", "WizardCoder 7B Python"),
    PyModel("deepseek-coder:6.7b", "6.7B", "Deepseek Coder 6.7B"),
    PyModel("codegemma:2b", "2B", "CodeGemma 2B - Google"),
    PyModel("phi:2.7b", "2.7B", "Microsoft Phi-2 2.7B"),
    PyModel("stablelm-zephyr:3b", "3B", "StableLM Zephyr 3B"),
    PyModel("mistral:7b", "7B", "Mistral 7B"),
    PyModel("qwen:7b", "7B", "Qwen 7B"),
    PyModel("gemma:7b", "7B", "Gemma 7B"),
    PyModel("gemma:2b", "2B", "Gemma 2B")]

  /** `load_models_from_json`: the parsed list, or the defaults for a missing or unparsable file. */
  function LoadModelsFromJson(file: FileRead<seq<PyModel>>): (models: seq<PyModel>)
    ensures file.Parsed? ==> models == file.value
    ensures !file.Parsed? ==> models == DefaultModels
  {
    if file.Parsed? then file.value else DefaultModels
  }

  /** Only a missing or broken file falls back: a file holding an empty list yields no models at all. */
  lemma EmptyFileIsNotDefaulted()
    ensures LoadModelsFromJson(Parsed([])) == [] && LoadModelsFromJson(NoFile) != []
  {
  }

  // ---------------------------------------------------------------------
  // update_models_from_ollama
  // ---------------------------------------------------------------------

  /** One match of `(\d+(?:\.\d+)?)([bm])`: the integer digits, the fraction digits ("" without a fraction) and the unit. */
  datatype SizeMatch = SizeMatch(whole: string, frac: string, unit: char)

  /** The end of the run of digits that starts at `i`. */
  function DigitRun(s: string, i: nat): (e: nat)
    requires i <= |s|
    ensures i <= e <= |s| && (e < |s| ==> !IsDigit(s[e]))
    ensures forall k :: i <= k < e ==> IsDigit(s[k])
    decreases |s| - i
  {
    if i < |s| && IsDigit(s[i]) then DigitRun(s, i + 1) else i
  }

  predicate IsUnit(c: char) {
    c == 'b' || c == 'm'
  }

  /**
   * The match of the pattern that starts at `i`, with the index after it.
   * The digit runs are greedy and backing off never helps, because a digit
   * is neither '.' nor a unit, so the match is decided by the maximal runs.
   */
  function MatchAt(s: string, i: nat): (r: Option<(SizeMatch, nat)>)
    requires i <= |s|
    ensures r.Some? ==> i < r.value.1 <= |s|
  {
    var e := DigitRun(s, i);
    if e == i || e == |s| then None
    else if s[e] == '.' && DigitRun(s, e + 1) > e + 1 && DigitRun(s, e + 1) < |s| && IsUnit(s[DigitRun(s, e + 1)]) then
      var f := DigitRun(s, e + 1);
      Some((SizeMatch(s[i..e], s[e + 1..f], s[f]), f + 1))
    else if IsUnit(s[e]) then Some((SizeMatch(s[i..e], "", s[e]), e + 1))
    else None
  }

  /** `re.findall` from index `i`: leftmost matches, each search resuming where the last match ended. */
  function FindSizes(s: string, i: nat): seq<SizeMatch>
    requires i <= |s|
    decreases |s| - i
  {
    if i == |s| then []
    else match MatchAt(s, i)
      case Some((m, e)) => [m] + FindSizes(s, e)
      case None => FindSizes(s, i + 1)
  }

  predicate AllDigits(t: string) {
    forall k :: 0 <= k < |t| ==> IsDigit(t[k])
  }

  /** The text a match covers. */
  function MatchText(m: SizeMatch): string {
    m.whole + (if m.frac == [] then "" else "." + m.frac) + [m.unit]
  }

  /** A match at `i` is digits, an optional fraction and a unit, and it covers the text up to its end. */
  lemma MatchAtSound(s: string, i: nat)
    requires i <= |s| && MatchAt(s, i).Some?
    ensures var (m, e) := MatchAt(s, i).value;
      m.whole != [] && AllDigits(m.whole) && AllDigits(m.frac) && IsUnit(m.unit) && s[i..e] == MatchText(m)
  {
    var e := DigitRun(s, i);
    DigitRunDigits(s, i);
    if s[e] == '.' && DigitRun(s, e + 1) > e + 1 && DigitRun(s, e + 1) < |s| && IsUnit(s[DigitRun(s, e + 1)]) {
      var f := DigitRun(s, e + 1);
      DigitRunDigits(s, e + 1);
      var m := SizeMatch(s[i..e], s[e + 1..f], s[f]);
      assert MatchAt(s, i).value == (m, f + 1);
      FracText(s, i, e, f);
      assert MatchText(m) == s[i..e] + ("." + s[e + 1..f]) + [s[f]];
    } else {
      var m := SizeMatch(s[i..e], "", s[e]);
      assert MatchAt(s, i).value == (m, e + 1);
      PlainText(s, i, e);
      assert MatchText(m) == s[i..e] + "" + [s[e]];
    }
  }

  /** The text of a match with a fraction, cut at the point and before the unit. */
  lemma FracText(s: string, i: nat, e: nat, f: nat)
    requires i <= e < f < |s| && s[e] == '.'
    ensures s[i..f + 1] == s[i..e] + ("." + s[e + 1..f]) + [s[f]]
  {
    SliceSplit(s, i, e, f + 1);
    SliceSplit(s, e, e + 1, f + 1);
    SliceSplit(s, e + 1, f, f + 1);
    SliceOne(s, e);
    SliceOne(s, f);
  }

  /** The text of a match without a fraction, cut before the unit. */
  lemma PlainText(s: string, i: nat, e: nat)
    requires i <= e < |s|
    ensures s[i..e + 1] == s[i..e] + "" + [s[e]]
  {
    SliceSplit(s, i, e, e + 1);
    SliceOne(s, e);
  }

  /** The run of digits from `i` is all digits. */
  lemma DigitRunDigits(s: string, i: nat)
    requires i <= |s|
    ensures AllDigits(s[i..DigitRun(s, i)])
  {
    var e := DigitRun(s, i);
    forall k | 0 <= k < e - i ensures IsDigit(s[i..e][k]) {
      assert s[i..e][k] == s[i + k];
    }
  }

  /** Every match is digits, an optional fraction and a unit, and its text occurs in the scanned string. */
  lemma {:induction false} FindSizesSound(s: string, i: nat, m: SizeMatch)
    requires i <= |s| && m in FindSizes(s, i)
    ensures m.whole != [] && AllDigits(m.whole) && AllDigits(m.frac) && IsUnit(m.unit)
    ensures Contains(s, MatchText(m))
    decreases |s| - i
  {
    var r := MatchAt(s, i);
    if r.Some? && m == r.value.0 {
      MatchAtSound(s, i);
      assert StartsWith(s[i..], MatchText(m));
      ContainsAt(s, MatchText(m), i);
    } else if r.Some? {
      FindSizesSound(s, r.value.1, m);
    } else {
      FindSizesSound(s, i + 1, m);
    }
  }

  /** "1.5b" is one match with a fraction; "7m" is a match in millions. */
  lemma FindSizesExample()
    ensures FindSizes("1.5b", 0) == [SizeMatch("1", "5", 'b')]
    ensures FindSizes("7m", 0) == [SizeMatch("7", "", 'm')]
  {
    var t := "1.5b";
    assert DigitRun(t, 0) == 1 && DigitRun(t, 2) == 3;
    assert t[0..1] == "1" && t[2..3] == "5" && t[1] == '.' && IsUnit(t[3]);
    assert MatchAt(t, 0) == Some((SizeMatch("1", "5", 'b'), 4));
    var u := "7m";
    assert DigitRun(u, 0) == 1;
    assert u[0..1] == "7" && u[1] != '.' && IsUnit(u[1]);
    assert MatchAt(u, 0) == Some((SizeMatch("7", "", 'm'), 2));
  }

  /** A size in billions, as its decimal digits. */
  datatype Decimal = Decimal(whole: string, frac: string)

  /** `float(num) <= 7`, decided exactly on the digits. */
  predicate AtMostSeven(m: SizeMatch)
    requires AllDigits(m.whole) && AllDigits(m.frac)
  {
    DigitsValue(m.whole) < 7 || (DigitsValue(m.whole) == 7 && forall k :: 0 <= k < |m.frac| ==> m.frac[k] == '0')
  }

  /** A match kept as a size: unit 'b' and at most seven. */
  predicate SmallBillions(m: SizeMatch) {
    m.unit == 'b' && AllDigits(m.whole) && AllDigits(m.frac) && AtMostSeven(m)
  }

  function ValueOf(m: SizeMatch): Decimal {
    Decimal(m.whole, m.frac)
  }

  const CodingKeywords := ["code", "coder", "llama", "phi", "gemma", "deepseek", "smollm", "stablelm", "tinyllama", "exaone", "wizard"]

  /** An `h2` of the library page: its text and the text of the paragraph after it, if any. */
  datatype Heading = Heading(text: string, desc: Option<string>)

  /** A kept model block. */
  datatype Block = Block(name: string, desc: string, sizes: seq<Decimal>)

  /** An entry of the written list: one size of one block. */
  datatype SizedEntry = SizedEntry(name: string, sizeB: Decimal, desc: string)

  function HeadingName(h: Heading): string {
    Lower(Strip(h.text))
  }

  function HeadingDesc(h: Heading): string {
    if h.desc.Some? then Strip(h.desc.value) else ""
  }

  /** The sizes of a heading: the small billion sizes found in the description followed by the name. */
  function HeadingSizes(h: Heading): seq<Decimal> {
    var text := HeadingDesc(h) + HeadingName(h);
    MapSeq(Filter(FindSizes(text, 0), SmallBillions), ValueOf)
  }

  /** The block of a heading: kept when its name holds a keyword and it has a size. */
  function BlockOf(h: Heading): Option<Block> {
    var sizes := HeadingSizes(h);
    if AnyIn(HeadingName(h), CodingKeywords) && sizes != [] then Some(Block(HeadingName(h), HeadingDesc(h), sizes))
    else None
  }

  function BlockEntries(b: Block): (r: seq<SizedEntry>)
    ensures |r| == |b.sizes|
  {
    MapSeq(b.sizes, (sz: Decimal) => SizedEntry(b.name, sz, b.desc))
  }

  /** The list `update_models_from_ollama` writes, or `None` when it writes nothing. */
  function UpdatePlan(page: Option<seq<Heading>>): Option<seq<SizedEntry>> {
    if page.None? then None
    else
      var blocks := FilterMap(page.value, BlockOf);
      if blocks == [] then None else Some(Flatten(MapSeq(blocks, BlockEntries)))
  }

  /**
   * The heading loop: one block per heading that `blockOf` keeps, in page
   * order. `update_models_from_ollama` runs it with `BlockOf`; the test is a
   * parameter so that the loop's proof does not unfold it.
   */
  method CollectBlocks(headings: seq<Heading>, blockOf: Heading -> Option<Block>) returns (blocks: seq<Block>)
    ensures blocks == FilterMap(headings, blockOf)
  {
    blocks := [];
    var i := 0;
    while i < |headings|
      invariant 0 <= i <= |headings|
      invariant blocks == FilterMap(headings[..i], blockOf)
    {
      FilterMapAppend(headings[..i], headings[i], blockOf);
      assert headings[..i + 1] == headings[..i] + [headings[i]];
      var b := blockOf(headings[i]);
      if b.Some? {
        blocks := blocks + [b.value];
      }
      i := i + 1;
    }
    assert headings[..i] == headings;
  }

  /** The nested loop that writes one entry per (block, size) pair. */
  method FlattenBlocks(blocks: seq<Block>) returns (entries: seq<SizedEntry>)
    ensures entries == Flatten(MapSeq(blocks, BlockEntries))
  {
    entries := [];
    var i := 0;
    while i < |blocks|
      invariant 0 <= i <= |blocks|
      invariant entries == Flatten(MapSeq(blocks[..i], BlockEntries))
    {
      var b := blocks[i];
      var j := 0;
      var block := [];
      while j < |b.sizes|
        invariant 0 <= j <= |b.sizes|
        invariant block == MapSeq(b.sizes[..j], (sz: Decimal) => SizedEntry(b.name, sz, b.desc))
      {
        MapSeqAppend(b.sizes[..j], b.sizes[j], (sz: Decimal) => SizedEntry(b.name, sz, b.desc));
        assert b.sizes[..j + 1] == b.sizes[..j] + [b.sizes[j]];
        block := block + [SizedEntry(b.name, b.sizes[j], b.desc)];
        j := j + 1;
      }
      assert b.sizes[..j] == b.sizes;
      MapSeqAppend(blocks[..i], b, BlockEntries);
      FlattenAppend(MapSeq(blocks[..i], BlockEntries), [BlockEntries(b)]);
      assert Flatten([BlockEntries(b)]) == BlockEntries(b) + [];
      assert blocks[..i + 1] == blocks[..i] + [b];
      entries := entries + block;
      i := i + 1;
    }
    assert blocks[..i] == blocks;
  }

  /** `update_models_from_ollama`: `page` is the list of headings, `None` when the request failed. */
  method UpdateModelsFromOllama(page: Option<seq<Heading>>) returns (written: Option<seq<SizedEntry>>)
    ensures written == UpdatePlan(page)
  {
    if page.None? {
      return None;
    }
    var blocks := CollectBlocks(page.value, BlockOf);
    if blocks == [] {
      return None;
    }
    var entries := FlattenBlocks(blocks);
    written := Some(entries);
  }

  /** Every kept block has a keyword in its name and at least one size, each in billions and at most seven. */
  lemma KeptBlocksQualify(headings: seq<Heading>, b: Block)
    requires b in FilterMap(headings, BlockOf)
    ensures (exists k :: k in CodingKeywords && Contains(b.name, k)) && b.sizes != []
    ensures forall d :: d in b.sizes ==> exists m :: m in FindSizes(b.desc + b.name, 0) && SmallBillions(m) && d == ValueOf(m)
  {
    FilterMapFrom(headings, BlockOf, b);
    var h :| h in headings && BlockOf(h) == Some(b);
    AnyInIff(b.name, CodingKeywords);
    var kept := Filter(FindSizes(b.desc + b.name, 0), SmallBillions);
    forall d | d in b.sizes ensures exists m :: m in FindSizes(b.desc + b.name, 0) && SmallBillions(m) && d == ValueOf(m) {
      var k :| 0 <= k < |b.sizes| && b.sizes[k] == d;
      MapSeqAt(kept, ValueOf, k);
      assert kept[k] in kept;
    }
  }

  /** The written list has one entry per (block, size) pair, blocks in page order. */
  lemma {:induction false} EntriesPerSize(blocks: seq<Block>, i: nat)
    requires i < |blocks|
    ensures Flatten(MapSeq(blocks, BlockEntries)) ==
      Flatten(MapSeq(blocks[..i], BlockEntries)) + BlockEntries(blocks[i]) + Flatten(MapSeq(blocks[i + 1..], BlockEntries))
  {
    assert blocks == blocks[..i] + [blocks[i]] + blocks[i + 1..];
    MapSeqConcat(blocks[..i] + [blocks[i]], blocks[i + 1..], BlockEntries);
    MapSeqConcat(blocks[..i], [blocks[i]], BlockEntries);
    assert MapSeq([blocks[i]], BlockEntries) == [BlockEntries(blocks[i])];
    var a := MapSeq(blocks[..i], BlockEntries);
    var c := MapSeq(blocks[i + 1..], BlockEntries);
    assert MapSeq(blocks, BlockEntries) == a + [BlockEntries(blocks[i])] + c;
    FlattenAppend(a + [BlockEntries(blocks[i])], c);
    FlattenAppend(a, [BlockEntries(blocks[i])]);
    assert Flatten([BlockEntries(blocks[i])]) == BlockEntries(blocks[i]) + [];
  }

  /** Nothing is written when no heading qualifies. */
  lemma NoBlocksNoWrite(headings: seq<Heading>)
    requires forall h :: h in headings ==> BlockOf(h).None?
    ensures UpdatePlan(Some(headings)) == None
  {
    if FilterMap(headings, BlockOf) != [] {
      var b := FilterMap(headings, BlockOf)[0];
      FilterMapFrom(headings, BlockOf, b);
    }
  }
}
