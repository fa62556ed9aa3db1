/**
 * The prompt templates and the code extraction of the `getllm` command-line
 * wrapper, and its mock Ollama integration used when no server runs.
 */
module CodegenCli {
  import opened Wrappers
  import opened Text

  /** A piece of a `str.format` template: literal text or a `{name}` field. */
  datatype Piece = Lit(text: string) | Field(name: string)

  /** The outcome of `template.format(**args)`: the text, or the `KeyError` for the first missing field. */
  datatype Rendering = Rendered(text: string) | MissingKey(key: string)

  /** The literal texts of the templates. */
  const TaskPrefix := "Generate Python code for the following task: "
  const PlatformIntro := "\n\nThe code should run on "
  const PlatformOutro := " operating system.\n"
  const OnlyDependencies := "\n\nUse only the following dependencies: "
  const TestsRequest := "\n\nInclude unit tests for the code.\n"
  const SecurePrefix := "Generate secure Python code for the following task: "
  const SecurityRequest := "\n\nEnsure the code follows security best practices and handles errors properly.\n"
  const PerformancePrefix := "Generate high-performance Python code for the following task: "
  const PerformanceRequest := "\n\nOptimize the code for performance.\n"
  const StyleRequest := "\n\nEnsure the code follows PEP 8 style guidelines.\n"
  const DebugPrefix := "Debug the following Python code that has an error:\n\n```python\n"
  const DebugErrorHeading := "\n```\n\nError message:\n"
  const DebugRequest := "\n\nFix the code to solve the problem and provide the corrected version."

  /** The templates of the table; any other name falls back to `Basic`. */
  datatype TemplateKind =
    Basic | PlatformAware | DependencyAware | Testable | Secure | Performance | Pep8 | Debug

  /** The names of the templates the table defines. */
  const TemplateNames: set<string> :=
    {"basic", "platform_aware", "dependency_aware", "testable", "secure", "performance", "pep8", "debug"}

  /** `templates.get(template_type, templates["basic"])`: the key a template name selects. */
  function KindOf(templateType: string): (k: TemplateKind)
    ensures templateType !in TemplateNames ==> k == Basic
    ensures k == Basic <==> templateType == "basic" || templateType !in TemplateNames
  {
    match templateType
    case "platform_aware" => PlatformAware
    case "dependency_aware" => DependencyAware
    case "testable" => Testable
    case "secure" => Secure
    case "performance" => Performance
    case "pep8" => Pep8
    case "debug" => Debug
    case _ => Basic
  }

  /** The template table. */
  function TemplateFor(kind: TemplateKind): seq<Piece> {
    match kind
    case Basic => [Lit(TaskPrefix), Field("prompt")]
    case PlatformAware =>
      [Lit(TaskPrefix), Field("prompt"), Lit(PlatformIntro), Field("platform"),
       Lit(PlatformOutro), Field("dependencies")]
    case DependencyAware =>
      [Lit(TaskPrefix), Field("prompt"), Lit(OnlyDependencies), Field("dependencies")]
    case Testable =>
      [Lit(TaskPrefix), Field("prompt"), Lit(TestsRequest), Field("dependencies")]
    case Secure =>
      [Lit(SecurePrefix), Field("prompt"),
       Lit(SecurityRequest),
       Field("dependencies")]
    case Performance =>
      [Lit(PerformancePrefix), Field("prompt"),
       Lit(PerformanceRequest), Field("dependencies")]
    case Pep8 =>
      [Lit(TaskPrefix), Field("prompt"), Lit(StyleRequest),
       Field("dependencies")]
    case Debug =>
      [Lit(DebugPrefix), Field("code"),
       Lit(DebugErrorHeading), Field("error_message"),
       Lit(DebugRequest)]
  }

  /** The field names a template refers to. */
  function FieldNames(t: seq<Piece>): set<string> {
    set p | p in t && p.Field? :: p.name
  }

  /** `str.format`: fields are filled from `args` left to right. */
  function Render(t: seq<Piece>, args: map<string, string>): (r: Rendering)
    ensures r.MissingKey? ==> r.key in FieldNames(t) && r.key !in args
  {
    if t == [] then Rendered("")
    else
      var rest := Render(t[1..], args);
      match t[0]
      case Lit(s) => if rest.Rendered? then Rendered(s + rest.text) else rest
      case Field(n) =>
        if n !in args then MissingKey(n)
        else if rest.Rendered? then Rendered(args[n] + rest.text) else rest
  }

  /** Formatting fails exactly when some field of the template has no value. */
  lemma {:induction false} RenderFailsIffMissing(t: seq<Piece>, args: map<string, string>)
    ensures Render(t, args).MissingKey? <==> exists n :: n in FieldNames(t) && n !in args
  {
    if t != [] {
      RenderFailsIffMissing(t[1..], args);
      assert t == [t[0]] + t[1..];
      forall n ensures n in FieldNames(t) <==> (t[0].Field? && t[0].name == n) || n in FieldNames(t[1..]) {
        if n in FieldNames(t) {
          var p :| p in t && p.Field? && p.name == n;
          if p != t[0] {
            assert p in t[1..];
          }
        }
        if n in FieldNames(t[1..]) {
          var p :| p in t[1..] && p.Field? && p.name == n;
          assert p in t;
        }
      }
    }
  }

  /** The text that replaces `{dependencies}`. */
  function DependenciesLine(kwargs: map<string, string>): (line: string)
    ensures "dependencies" in kwargs && kwargs["dependencies"] != [] ==>
      line == "Use the following dependencies: " + kwargs["dependencies"]
    ensures !("dependencies" in kwargs && kwargs["dependencies"] != []) ==>
      line == "Use standard Python libraries."
  {
    if "dependencies" in kwargs then
      if kwargs["dependencies"] != [] then "Use the following dependencies: " + kwargs["dependencies"]
      else "Use standard Python libraries."
    else "Use standard Python libraries."
  }

  /**
   * `get_template(prompt, template_type, **kwargs)`; Python itself rejects a
   * second `prompt` keyword, so `kwargs` never holds one.
   */
  function GetTemplate(prompt: string, templateType: string, kwargs: map<string, string>): Rendering
    requires "prompt" !in kwargs
  {
    Render(TemplateFor(KindOf(templateType)), FormatArgs(prompt, kwargs))
  }

  /** The keyword arguments `format` receives: the caller's, then `dependencies`, then `prompt`. */
  function FormatArgs(prompt: string, kwargs: map<string, string>): (args: map<string, string>)
    ensures args.Keys == kwargs.Keys + {"dependencies", "prompt"}
    ensures args["prompt"] == prompt && args["dependencies"] == DependenciesLine(kwargs)
    ensures forall k :: k in kwargs && k !in {"dependencies", "prompt"} ==> args[k] == kwargs[k]
  {
    kwargs["dependencies" := DependenciesLine(kwargs)]["prompt" := prompt]
  }

  /** The "basic" template, and every unknown template name, is the instruction sentence followed by the prompt. */
  lemma BasicTemplateExact(prompt: string, templateType: string, kwargs: map<string, string>)
    requires "prompt" !in kwargs
    requires templateType == "basic" || templateType !in TemplateNames
    ensures GetTemplate(prompt, templateType, kwargs) == Rendered(TaskPrefix + prompt)
  {
    var args := kwargs["dependencies" := DependenciesLine(kwargs)]["prompt" := prompt];
    var t := TemplateFor(KindOf(templateType));
    assert t == [Lit(TaskPrefix), Field("prompt")];
    assert t[1..][1..] == [];
    assert Render(t[1..], args) == Rendered(prompt + "");
    assert prompt + "" == prompt;
  }

  /**
   * The templates whose last field is `{dependencies}` end with the
   * dependencies sentence once every field they name has a value.
   */
  lemma DependenciesTemplateEnding(prompt: string, templateType: string, kwargs: map<string, string>)
    requires "prompt" !in kwargs
    requires KindOf(templateType) !in {Basic, Debug}
    requires KindOf(templateType) == PlatformAware ==> "platform" in kwargs
    ensures GetTemplate(prompt, templateType, kwargs).Rendered?
    ensures var text := GetTemplate(prompt, templateType, kwargs).text;
      |DependenciesLine(kwargs)| <= |text| && text[|text| - |DependenciesLine(kwargs)|..] == DependenciesLine(kwargs)
  {
    var kind, args := KindOf(templateType), FormatArgs(prompt, kwargs);
    assert "prompt" in args.Keys && "dependencies" in args.Keys;
    assert kind == PlatformAware ==> "platform" in args.Keys;
    KindEndsWithDependencies(kind, args);
    assert GetTemplate(prompt, templateType, kwargs) == Render(TemplateFor(kind), args);
  }

  lemma KindEndsWithDependencies(kind: TemplateKind, args: map<string, string>)
    requires "prompt" in args && "dependencies" in args
    requires kind !in {Basic, Debug}
    requires kind == PlatformAware ==> "platform" in args
    ensures Render(TemplateFor(kind), args).Rendered?
    ensures var text := Render(TemplateFor(kind), args).text; var v := args["dependencies"];
      |v| <= |text| && text[|text| - |v|..] == v
  {
    var t := TemplateFor(kind);
    forall i | 0 <= i < |t| && t[i].Field? ensures t[i].name in args {
    }
    RenderEndsWithDependencies(t, args);
  }

  lemma RenderEndsWithDependencies(t: seq<Piece>, args: map<string, string>)
    requires forall i :: 0 <= i < |t| && t[i].Field? ==> t[i].name in args
    requires t != [] && t[|t| - 1] == Field("dependencies")
    ensures Render(t, args).Rendered?
    ensures var text := Render(t, args).text; var v := args["dependencies"];
      |v| <= |text| && text[|text| - |v|..] == v
  {
    RenderFailsIffMissing(t, args);
    RenderEndsWithLastField(t, args);
  }

  /** A successful rendering ends with the value of a trailing field. */
  lemma {:induction false} RenderEndsWithLastField(t: seq<Piece>, args: map<string, string>)
    requires t != [] && t[|t| - 1].Field? && Render(t, args).Rendered?
    ensures t[|t| - 1].name in args
    ensures var text := Render(t, args).text; var v := args[t[|t| - 1].name];
      |v| <= |text| && text[|text| - |v|..] == v
  {
    if |t| == 1 {
      assert t[1..] == [];
    } else {
      var rest := Render(t[1..], args);
      assert t[1..][|t[1..]| - 1] == t[|t| - 1];
      assert rest.Rendered? by {
        if rest.MissingKey? {
          match t[0]
          case Lit(s) =>
          case Field(n) =>
        }
      }
      RenderEndsWithLastField(t[1..], args);
    }
  }

  /** The "debug" template needs a `code` value: without one formatting raises `KeyError('code')`. */
  lemma DebugTemplateNeedsCode(prompt: string, kwargs: map<string, string>)
    requires "prompt" !in kwargs && "code" !in kwargs
    ensures GetTemplate(prompt, "debug", kwargs) == MissingKey("code")
  {
    assert KindOf("debug") == Debug;
    var d := DependenciesLine(kwargs);
    var args := kwargs["dependencies" := d]["prompt" := prompt];
    assert "code" != "dependencies";
    assert "code" !in args;
    var t := TemplateFor(Debug);
    var u := t[1..];
    assert u != [] && u[0] == Field("code");
    assert Render(u, args) == MissingKey("code");
    assert Render(t, args) == MissingKey("code");
  }

  /** The prefixes by which `extract_python_code` recognises an answer that is already code. */
  predicate LooksLikeCode(stripped: string) {
    StartsWith(stripped, "import ") || StartsWith(stripped, "#") || StartsWith(stripped, "def ") ||
    StartsWith(stripped, "class ") || StartsWith(stripped, "print")
  }

  /** The optional `python` after the opening fence is not part of the code. */
  function DropLanguage(body: string): string {
    if StartsWith(body, "python") then body[6..] else body
  }

  const Fence := "```"

  const FallbackHeader :=
    "# Could not extract Python code from the model response\n# Here's a simple implementation:\n\n" +
    "print(\"Hello, World!\")\n\n# Original response:\n# "

  predicate MentionsHelloWorld(text: string) {
    Contains(Lower(text), "print hello world") || Contains(Lower(text), "print(\"hello world\")") ||
    Contains(Lower(text), "print('hello world')")
  }

  /** `i` is the first fence of `text` and `j` the first fence after it. */
  ghost predicate IsFirstFencedBlock(text: string, i: nat, j: nat) {
    i + 3 <= j <= |text| &&
    StartsWith(text[i..], Fence) && StartsWith(text[j..], Fence) &&
    (forall k :: 0 <= k < i ==> !StartsWith(text[k..], Fence)) &&
    (forall k :: i + 3 <= k < j ==> !StartsWith(text[k..], Fence))
  }

  /** Some fence is followed by another, non-overlapping one. */
  ghost predicate HasFencedBlock(text: string) {
    exists i: nat, j: nat :: i + 3 <= j <= |text| && StartsWith(text[i..], Fence) && StartsWith(text[j..], Fence)
  }

  /**
   * Where the regex ```` ```(?:python)?\s*([\s\S]*?)``` ```` matches: at the
   * first fence of the text, with the lazy group ending at the next fence.
   */
  function FencedBlock(text: string): (r: Option<(nat, nat)>)
    ensures r.Some? ==> IsFirstFencedBlock(text, r.value.0, r.value.1)
    ensures r.None? <==> !HasFencedBlock(text)
  {
    match IndexFrom(text, Fence, 0)
    case None => NoFenceAtAll(text); None
    case Some(i) =>
      assert i + 3 <= |text|;
      match IndexFrom(text, Fence, i + 3)
      case Some(j) => Some((i, j))
      case None => NoSecondFence(text, i); None
  }

  lemma NoFenceAtAll(text: string)
    requires forall k :: 0 <= k <= |text| ==> !StartsWith(text[k..], Fence)
    ensures !HasFencedBlock(text)
  {
  }

  lemma NoSecondFence(text: string, i: nat)
    requires i <= |text|
    requires forall k :: 0 <= k < i ==> !StartsWith(text[k..], Fence)
    requires forall k :: i + 3 <= k <= |text| ==> !StartsWith(text[k..], Fence)
    ensures !HasFencedBlock(text)
  {
  }

  /**
   * `extract_python_code`: an answer that already looks like code is kept;
   * otherwise the first fenced block, without its language tag and
   * surrounding blanks; otherwise a hello-world program when the answer
   * mentions one; otherwise a commented fallback that quotes the answer.
   */
  function ExtractPythonCode(text: string): (r: string)
    ensures LooksLikeCode(Strip(text)) ==> r == text
    ensures !LooksLikeCode(Strip(text)) && HasFencedBlock(text) ==>
      exists i: nat, j: nat :: IsFirstFencedBlock(text, i, j) && r == Strip(DropLanguage(text[i + 3..j]))
    ensures !LooksLikeCode(Strip(text)) && !HasFencedBlock(text) && MentionsHelloWorld(text) ==>
      r == "print(\"Hello, World!\")"
    ensures !LooksLikeCode(Strip(text)) && !HasFencedBlock(text) && !MentionsHelloWorld(text) ==>
      r == FallbackHeader + text
  {
    if LooksLikeCode(Strip(text)) then text
    else
      match FencedBlock(text)
      case Some((i, j)) => Strip(DropLanguage(text[i + 3..j]))
      case None =>
        if MentionsHelloWorld(text) then "print(\"Hello, World!\")" else FallbackHeader + text
  }

  /** Whatever `extract_python_code` cannot use is kept, unchanged, at the end of the fallback. */
  lemma FallbackKeepsOriginal(text: string)
    requires !LooksLikeCode(Strip(text)) && !HasFencedBlock(text) && !MentionsHelloWorld(text)
    ensures |text| <= |ExtractPythonCode(text)|
    ensures ExtractPythonCode(text)[|ExtractPythonCode(text)| - |text|..] == text
  {
  }

  /** `MockOllamaIntegration`: a stand-in that answers a few prompts with canned code. */
  datatype MockIntegration = MockIntegration(model: string) {

    /** `query_ollama`: "hello world" is looked for before "binary search tree", both case-insensitively. */
    function QueryOllama(prompt: string): (reply: string)
      ensures Contains(Lower(prompt), "hello world") ==> reply == "print('Hello, World!')"
      ensures !Contains(Lower(prompt), "hello world") && Contains(Lower(prompt), "binary search tree") ==>
        reply == BinarySearchTreeExample
      ensures !Contains(Lower(prompt), "hello world") && !Contains(Lower(prompt), "binary search tree") ==>
        reply == "# Mock code for: " + prompt + "\nprint('This is mock code generated for testing')\n"
    {
      if Contains(Lower(prompt), "hello world") then "print('Hello, World!')"
      else if Contains(Lower(prompt), "binary search tree") then BinarySearchTreeExample
      else "# Mock code for: " + prompt + "\nprint('This is mock code generated for testing')\n"
    }

    /** The mock's `extract_python_code` hands the answer back untouched. */
    function ExtractPythonCode(text: string): (r: string)
      ensures |r| == |text| && forall i :: 0 <= i < |text| ==> r[i] == text[i]
    {
      text
    }
  }

  /** `MockOllamaIntegration(model)`: `model or "mock-model"`. */
  function NewMockIntegration(model: Option<string>): (m: MockIntegration)
    ensures model.Some? && model.value != [] ==> m.model == model.value
    ensures model.None? || model.value == [] ==> m.model == "mock-model"
  {
    if model.Some? && model.value != [] then MockIntegration(model.value) else MockIntegration("mock-model")
  }

  /** The canned answer to a binary-search-tree prompt. */
  const BinarySearchTreeExample := Join(BinarySearchTreeLines, "\n")

  /** Its lines: a `Node` class and a `BinarySearchTree` class with `insert` and `search`. */
  const BinarySearchTreeLines: seq<string> := [
    "",
    "class Node:",
    "    def __init__(self, value):",
    "        self.value = value",
    "        self.left = None",
    "        self.right = None",
    "",
    "class BinarySearchTree:",
    "    def __init__(self):",
    "        self.root = None",
    "    ",
    "    def insert(self, value):",
    "        if self.root is None:",
    "            self.root = Node(value)",
    "        else:",
    "            self._insert_recursive(self.root, value)",
    "    ",
    "    def _insert_recursive(self, node, value):",
    "        if value < node.value:",
    "            if node.left is None:",
    "                node.left = Node(value)",
    "            else:",
    "                self._insert_recursive(node.left, value)",
    "        else:",
    "            if node.right is None:",
    "                node.right = Node(value)",
    "            else:",
    "                self._insert_recursive(node.right, value)",
    "    ",
    "    def search(self, value):",
    "        return self._search_recursive(self.root, value)",
    "    ",
    "    def _search_recursive(self, node, value):",
    "        if node is None or node.value == value:",
    "            return node",
    "        if value < node.value:",
    "            return self._search_recursive(node.left, value)",
    "        return self._search_recursive(node.right, value)",
    "",
    "# Example usage",
    "bst = BinarySearchTree()",
    "bst.insert(5)",
    "bst.insert(3)",
    "bst.insert(7)",
    "bst.insert(2)",
    "bst.insert(4)",
    "",
    "print(\"Searching for 4:\", bst.search(4).value if bst.search(4) else \"Not found\")",
    "print(\"Searching for 6:\", bst.search(6).value if bst.search(6) else \"Not found\")",
    ""
  ]
}
