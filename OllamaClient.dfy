/**
 * The HTTP client of the Ollama API (`ollama/api/client.py`): the endpoint
 * URLs derived from the base URL, the JSON payload each call sends, the
 * choice between a plain POST and a streamed one, and the chunks a streamed
 * answer yields.
 *
 * The network is not modelled: what the server sends back is a parameter,
 * `None` when `requests` raises (no connection, an HTTP error status).
 * Whether a line is UTF-8 follows section 4 of RFC 3629, which Python's
 * strict `utf-8` codec implements; reading JSON text is the parameter
 * `json`.
 */
module OllamaClient {
  import opened Wrappers
  import opened Text
  import opened Seqs

  type Bytes = seq<bv8>

  /** The JSON values a payload holds. */
  datatype Value =
    | Str(s: string)
    | Bool(b: bool)
    | Ints(xs: seq<int>)
    | Messages(ms: seq<map<string, string>>)
    | Object(fields: map<string, string>)

  /** The keys a request payload may carry. */
  datatype Field = Model | Prompt | Stream | Raw | System | Template | Context | Format | Options | MessageList

  /** The JSON name of each key. */
  function Key(f: Field): (k: string)
  {
    match f
    case Model => "model"
    case Prompt => "prompt"
    case Stream => "stream"
    case Raw => "raw"
    case System => "system"
    case Template => "template"
    case Context => "context"
    case Format => "format"
    case Options => "options"
    case MessageList => "messages"
  }

  /** A request payload, keyed by its fields. */
  type Payload = map<Field, Value>

  /** A decoded JSON object the server sends back. */
  type Reply = map<string, Value>

  const DefaultBaseUrl := "http://localhost:11434/api"
  const DefaultTimeout := 30

  /** A request the client hands to `requests.post`. */
  datatype Request = Request(url: string, payload: Payload, stream: bool, timeout: int)

  /** `base_url.rstrip('/')` */
  function StripSlashes(base: string): string {
    TrimRight(base, c => c == '/')
  }

  /** The stripped URL is the given one without its trailing slashes, and stripping again changes nothing. */
  lemma StripSlashesShape(base: string)
    ensures var r := StripSlashes(base);
      |r| <= |base| && r == base[..|r|] && (r != [] ==> r[|r| - 1] != '/') &&
      (forall i :: |r| <= i < |base| ==> base[i] == '/') &&
      StripSlashes(r) == r
  {
    TrimRightShape(base, c => c == '/');
    var r := StripSlashes(base);
    assert r == [] || r[|r| - 1] != '/';
  }

  const AllFields: set<Field> := {Model, Prompt, Stream, Raw, System, Template, Context, Format, Options, MessageList}

  /** Every field is one of `AllFields`. */
  lemma FieldsListed()
    ensures forall f: Field :: f in AllFields
  {
    forall f: Field
      ensures f in AllFields
    {
      match f
      case Model =>
      case Prompt =>
      case Stream =>
      case Raw =>
      case System =>
      case Template =>
      case Context =>
      case Format =>
      case Options =>
      case MessageList =>
    }
  }

  /** The payload holding, for each field, the value `fieldOf` gives, and no key where it gives `None`. */
  function PayloadOf(fieldOf: Field -> Option<Value>): (p: Payload)
    ensures forall f :: f in p <==> fieldOf(f).Some?
    ensures forall f :: f in p ==> p[f] == fieldOf(f).value
  {
    FieldsListed();
    map f | f in AllFields && fieldOf(f).Some? :: fieldOf(f).value
  }

  function OptStr(s: Option<string>): Option<Value> {
    if s.Some? then Some(Str(s.value)) else None
  }

  function OptObject(o: Option<map<string, string>>): Option<Value> {
    if o.Some? then Some(Object(o.value)) else None
  }

  /** The arguments of `generate`. */
  datatype GenerateArgs = GenerateArgs(prompt: string, model: string, system: Option<string>, template: Option<string>,
                                       context: Option<seq<int>>, stream: bool, raw: bool, format: Option<string>,
                                       options: Option<map<string, string>>)

  /**
   * The `generate` payload: model, prompt, stream and raw always, then
   * `payload[key] = value` for each optional argument that is not `None`.
   */
  function GeneratePayload(a: GenerateArgs): Payload {
    PayloadOf((f: Field) =>
      match f
      case Model => Some(Str(a.model))
      case Prompt => Some(Str(a.prompt))
      case Stream => Some(Bool(a.stream))
      case Raw => Some(Bool(a.raw))
      case System => OptStr(a.system)
      case Template => OptStr(a.template)
      case Context => if a.context.Some? then Some(Ints(a.context.value)) else None
      case Format => OptStr(a.format)
      case Options => OptObject(a.options)
      case MessageList => None)
  }

  /**
   * The `generate` payload always carries model, prompt, stream and raw; each
   * optional argument is sent exactly when it is not `None` (an empty
   * context list is sent), and nothing else is sent.
   */
  lemma GeneratePayloadKeys(a: GenerateArgs)
    ensures forall f :: f in GeneratePayload(a) <==>
      f in {Model, Prompt, Stream, Raw} ||
      (f == System && a.system.Some?) || (f == Template && a.template.Some?) ||
      (f == Context && a.context.Some?) || (f == Format && a.format.Some?) ||
      (f == Options && a.options.Some?)
  {
  }

  /** Each key of the `generate` payload holds the argument of the same name. */
  lemma GeneratePayloadValues(a: GenerateArgs)
    ensures var p := GeneratePayload(a);
      p[Model] == Str(a.model) && p[Prompt] == Str(a.prompt) && p[Stream] == Bool(a.stream) && p[Raw] == Bool(a.raw) &&
      (a.system.Some? ==> p[System] == Str(a.system.value)) &&
      (a.template.Some? ==> p[Template] == Str(a.template.value)) &&
      (a.context.Some? ==> p[Context] == Ints(a.context.value)) &&
      (a.format.Some? ==> p[Format] == Str(a.format.value)) &&
      (a.options.Some? ==> p[Options] == Object(a.options.value))
  {
  }

  /** The `chat` payload: model, messages and stream, plus format and options when they are not `None`. */
  function ChatPayload(messages: seq<map<string, string>>, model: string, stream: bool, format: Option<string>,
                       options: Option<map<string, string>>): Payload {
    PayloadOf((f: Field) =>
      match f
      case Model => Some(Str(model))
      case MessageList => Some(Messages(messages))
      case Stream => Some(Bool(stream))
      case Format => OptStr(format)
      case Options => OptObject(options)
      case _ => None)
  }

  /** The `chat` payload carries model, messages and stream, and format and options exactly when given. */
  lemma ChatPayloadKeys(messages: seq<map<string, string>>, model: string, stream: bool, format: Option<string>,
                        options: Option<map<string, string>>)
    ensures var p := ChatPayload(messages, model, stream, format, options);
      p.Keys == {Model, MessageList, Stream} + (if format.Some? then {Format} else {}) +
        (if options.Some? then {Options} else {}) &&
      p[Model] == Str(model) && p[MessageList] == Messages(messages) && p[Stream] == Bool(stream) &&
      (format.Some? ==> p[Format] == Str(format.value)) &&
      (options.Some? ==> p[Options] == Object(options.value))
  {
  }

  /** The `embeddings` payload: model and prompt, plus options when they are not `None`. */
  function EmbeddingsPayload(prompt: string, model: string, options: Option<map<string, string>>): Payload {
    PayloadOf((f: Field) =>
      match f
      case Model => Some(Str(model))
      case Prompt => Some(Str(prompt))
      case Options => OptObject(options)
      case _ => None)
  }

  /** The `embeddings` payload carries model and prompt, and options exactly when given. */
  lemma EmbeddingsPayloadKeys(prompt: string, model: string, options: Option<map<string, string>>)
    ensures var p := EmbeddingsPayload(prompt, model, options);
      p.Keys == {Model, Prompt} + (if options.Some? then {Options} else {}) &&
      p[Model] == Str(model) && p[Prompt] == Str(prompt) &&
      (options.Some? ==> p[Options] == Object(options.value))
  {
  }

  /** A continuation byte: `%x80-BF`. */
  predicate Tail(x: bv8) {
    0x80 <= x <= 0xBF
  }

  /**
   * The length of the UTF-8 character at the front of `b` (section 4 of
   * RFC 3629: no overlong forms, no surrogates, nothing above U+10FFFF),
   * or 0 when `b` does not start with one.
   */
  function Utf8Width(b: Bytes): (n: nat)
    requires b != []
    ensures n <= |b| && n <= 4
  {
    var b0 := b[0];
    if b0 <= 0x7F then 1
    else if 0xC2 <= b0 <= 0xDF then
      if |b| >= 2 && Tail(b[1]) then 2 else 0
    else if 0xE0 <= b0 <= 0xEF then
      var lo: bv8 := if b0 == 0xE0 then 0xA0 else 0x80;
      var hi: bv8 := if b0 == 0xED then 0x9F else 0xBF;
      if |b| >= 3 && lo <= b[1] <= hi && Tail(b[2]) then 3 else 0
    else if 0xF0 <= b0 <= 0xF4 then
      var lo: bv8 := if b0 == 0xF0 then 0x90 else 0x80;
      var hi: bv8 := if b0 == 0xF4 then 0x8F else 0xBF;
      if |b| >= 4 && lo <= b[1] <= hi && Tail(b[2]) && Tail(b[3]) then 4 else 0
    else 0
  }

  /** `line.decode('utf-8')` succeeds: the bytes are a run of well-formed UTF-8 characters. */
  predicate Utf8(b: Bytes)
    decreases |b|
  {
    b == [] || (Utf8Width(b) > 0 && Utf8(b[Utf8Width(b)..]))
  }

  /** Plain ASCII is UTF-8. */
  lemma {:induction false} AsciiIsUtf8(b: Bytes)
    requires forall i :: 0 <= i < |b| ==> b[i] <= 0x7F
    ensures Utf8(b)
    decreases |b|
  {
    if b != [] {
      assert Utf8Width(b) == 1;
      AsciiIsUtf8(b[1..]);
    }
  }

  /** A two-byte character is accepted; a stray byte, an overlong form and a surrogate are refused. */
  lemma Utf8Examples()
    ensures Utf8([0xC3, 0xA9])
    ensures !Utf8([0xFF]) && !Utf8([0xC0, 0x80]) && !Utf8([0xED, 0xA0, 0x80])
  {
    var e: Bytes := [0xC3, 0xA9];
    assert Utf8Width(e) == 2 && e[2..] == [];
  }

  /** What a call returns: the decoded reply, the stream it opens, or an exception. */
  datatype Answer = Raised | Answered(reply: Reply) | Streamed(stream: Iteration)

  /**
   * What iterating a streamed answer gives: the chunks yielded, and whether
   * the iteration then ends with an exception rather than normally.
   */
  datatype Iteration = Iteration(chunks: seq<Reply>, raised: bool)

  /**
   * `_stream_request`'s generator over `response.iter_lines()`: an empty line
   * is skipped; a line that is not UTF-8 makes `line.decode` raise
   * `UnicodeDecodeError`, which the `JSONDecodeError` handler does not catch,
   * so the generator stops with it; a UTF-8 line that is not JSON is
   * skipped; a JSON line is yielded.
   */
  function StreamOf(lines: seq<Bytes>, json: Bytes -> Option<Reply>): Iteration
    decreases |lines|
  {
    if lines == [] then Iteration([], false)
    else if lines[0] == [] then StreamOf(lines[1..], json)
    else if !Utf8(lines[0]) then Iteration([], true)
    else
      var rest := StreamOf(lines[1..], json);
      match json(lines[0])
      case None => rest
      case Some(c) => Iteration([c] + rest.chunks, rest.raised)
  }

  /** The chunks already yielded, followed by what the rest of the stream gives. */
  function After(yielded: seq<Reply>, rest: Iteration): Iteration {
    Iteration(yielded + rest.chunks, rest.raised)
  }

  /** One step of the generator, for the line at position `i`. */
  lemma StreamStep(lines: seq<Bytes>, i: nat, json: Bytes -> Option<Reply>)
    requires i < |lines|
    ensures lines[i] == [] ==> StreamOf(lines[i..], json) == StreamOf(lines[i + 1..], json)
    ensures lines[i] != [] && !Utf8(lines[i]) ==> StreamOf(lines[i..], json) == Iteration([], true)
    ensures lines[i] != [] && Utf8(lines[i]) && json(lines[i]).None? ==>
      StreamOf(lines[i..], json) == StreamOf(lines[i + 1..], json)
    ensures lines[i] != [] && Utf8(lines[i]) && json(lines[i]).Some? ==>
      StreamOf(lines[i..], json) == After([json(lines[i]).value], StreamOf(lines[i + 1..], json))
  {
    assert lines[i..][0] == lines[i] && lines[i..][1..] == lines[i + 1..];
  }

  /** `After` regroups: chunks yielded in two runs are yielded in one. */
  lemma AfterAfter(a: seq<Reply>, b: seq<Reply>, rest: Iteration)
    ensures After(a, After(b, rest)) == After(a + b, rest)
  {
  }

  /** The generator, iterated to its end. */
  method StreamChunks(lines: seq<Bytes>, json: Bytes -> Option<Reply>) returns (st: Iteration)
    ensures st == StreamOf(lines, json)
  {
    var chunks := [];
    var i := 0;
    while i < |lines|
      invariant 0 <= i <= |lines|
      invariant StreamOf(lines, json) == After(chunks, StreamOf(lines[i..], json))
    {
      StreamStep(lines, i, json);
      if lines[i] != [] {
        if !Utf8(lines[i]) {
          return Iteration(chunks, true);
        }
        var chunk := json(lines[i]);
        if chunk.Some? {
          AfterAfter(chunks, [chunk.value], StreamOf(lines[i + 1..], json));
          chunks := chunks + [chunk.value];
        }
      }
      i := i + 1;
    }
    assert lines[i..] == [];
    return Iteration(chunks, false);
  }

  /** Every chunk is the JSON of a non-empty UTF-8 line of the answer. */
  lemma {:induction false} ChunksFromLines(lines: seq<Bytes>, json: Bytes -> Option<Reply>, c: Reply)
    requires c in StreamOf(lines, json).chunks
    ensures exists l :: l in lines && l != [] && Utf8(l) && json(l) == Some(c)
    decreases |lines|
  {
    var l := lines[0];
    if l == [] || json(l) != Some(c) {
      ChunksFromLines(lines[1..], json, c);
      var l' :| l' in lines[1..] && l' != [] && Utf8(l') && json(l') == Some(c);
      assert l' in lines;
    } else {
      assert l in lines;
    }
  }

  /**
   * The stream raises exactly when some non-empty line is not UTF-8; the
   * lines after the first one that is not are never read.
   */
  lemma {:induction false} RaisesIffNotUtf8(lines: seq<Bytes>, json: Bytes -> Option<Reply>)
    ensures StreamOf(lines, json).raised <==> exists i :: 0 <= i < |lines| && lines[i] != [] && !Utf8(lines[i])
    decreases |lines|
  {
    if lines != [] {
      RaisesIffNotUtf8(lines[1..], json);
      if exists i :: 0 <= i < |lines[1..]| && lines[1..][i] != [] && !Utf8(lines[1..][i]) {
        var i :| 0 <= i < |lines[1..]| && lines[1..][i] != [] && !Utf8(lines[1..][i]);
        assert lines[i + 1] == lines[1..][i];
      }
      if exists i :: 0 <= i < |lines| && lines[i] != [] && !Utf8(lines[i]) {
        var i :| 0 <= i < |lines| && lines[i] != [] && !Utf8(lines[i]);
        if i > 0 {
          assert lines[1..][i - 1] == lines[i];
        }
      }
    }
  }

  /**
   * Chunks are yielded in the order their lines arrive: a second run of
   * lines adds its chunks after the first run's, and is never read when
   * the first run raised.
   */
  lemma {:induction false} ChunksInOrder(a: seq<Bytes>, b: seq<Bytes>, json: Bytes -> Option<Reply>)
    ensures StreamOf(a, json).raised ==> StreamOf(a + b, json) == StreamOf(a, json)
    ensures !StreamOf(a, json).raised ==> StreamOf(a + b, json) == After(StreamOf(a, json).chunks, StreamOf(b, json))
    decreases |a|
  {
    if a == [] {
      assert a + b == b;
    } else {
      assert (a + b)[0] == a[0] && (a + b)[1..] == a[1..] + b;
      ChunksInOrder(a[1..], b, json);
    }
  }

  /** The client: its endpoint URLs and its request timeout. */
  class Client {
    const baseUrl: string
    const generateUrl: string
    const chatUrl: string
    const embeddingsUrl: string
    const timeout: int

    /**
     * `OllamaClient(base_url)`, the local API when no base is given, with
     * the timeout `OLLAMA_TIMEOUT` configures and 30 seconds when it is unset.
     */
    constructor (base: Option<string>, timeoutSetting: Option<int>)
      ensures baseUrl == StripSlashes(base.GetOr(DefaultBaseUrl))
      ensures generateUrl == baseUrl + "/generate"
      ensures chatUrl == baseUrl + "/chat"
      ensures embeddingsUrl == baseUrl + "/embeddings"
      ensures timeout == timeoutSetting.GetOr(DefaultTimeout)
    {
      var b := StripSlashes(base.GetOr(DefaultBaseUrl));
      baseUrl := b;
      generateUrl := b + "/generate";
      chatUrl := b + "/chat";
      embeddingsUrl := b + "/embeddings";
      timeout := timeoutSetting.GetOr(DefaultTimeout);
    }

    /** The request `generate` sends: streamed exactly when `stream` is set. */
    function Generate(a: GenerateArgs): (r: Request)
      ensures r.url == generateUrl && r.stream == a.stream && r.timeout == timeout
      ensures r.payload == GeneratePayload(a)
    {
      Request(generateUrl, GeneratePayload(a), a.stream, timeout)
    }

    /** The request `chat` sends. */
    function Chat(messages: seq<map<string, string>>, model: string, stream: bool, format: Option<string>,
                  options: Option<map<string, string>>): (r: Request)
      ensures r.url == chatUrl && r.stream == stream && r.timeout == timeout
      ensures r.payload == ChatPayload(messages, model, stream, format, options)
    {
      Request(chatUrl, ChatPayload(messages, model, stream, format, options), stream, timeout)
    }

    /** The request `embeddings` sends: always a plain POST. */
    function Embeddings(prompt: string, model: string, options: Option<map<string, string>>): (r: Request)
      ensures r.url == embeddingsUrl && !r.stream && r.timeout == timeout
      ensures r.payload == EmbeddingsPayload(prompt, model, options)
    {
      Request(embeddingsUrl, EmbeddingsPayload(prompt, model, options), false, timeout)
    }
  }

  /**
   * Sending a request: a streamed request opens the stream of the streamed
   * lines; a plain POST returns the decoded body, and raises when the body
   * does not decode. `body` and `lines` are what the server sends, `None`
   * when `requests` raises; `json` reads a body or a line as JSON.
   */
  method Send(req: Request, body: Option<Bytes>, lines: Option<seq<Bytes>>, json: Bytes -> Option<Reply>)
    returns (a: Answer)
    ensures req.stream && lines.None? ==> a == Raised
    ensures req.stream && lines.Some? ==> a == Streamed(StreamOf(lines.value, json))
    ensures !req.stream && (body.None? || json(body.value).None?) ==> a == Raised
    ensures !req.stream && body.Some? && json(body.value).Some? ==> a == Answered(json(body.value).value)
  {
    if req.stream {
      if lines.None? {
        return Raised;
      }
      var st := StreamChunks(lines.value, json);
      return Streamed(st);
    }
    if body.None? {
      return Raised;
    }
    var reply := json(body.value);
    if reply.None? {
      return Raised;
    }
    return Answered(reply.value);
  }
}
