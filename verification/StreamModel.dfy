/** The message protocol of `core/providerStreaming.ts`: events, processor state and what each input does to it. */
module StreamModel {
  import opened Basics
  import opened Text
  import opened Json

  datatype Provider = Codex | Claude | Gemini

  /** The three chat events. The fields that never vary within one processor are left out, and so is the timestamp. */
  datatype ChatEvent =
    | Started(id: string)
    | Delta(id: string, text: string)
    | Completed(id: string)

  /** `prefix` is the provider, role and scope part of every message id; `parse` is `JSON.parse`. */
  datatype Config = Config(provider: Provider, prefix: string, parse: string -> Option<Value>) {
    function ScopeId(raw: Option<Value>): string {
      match raw
      case Some(JStr(s)) => prefix + s
      case Some(JNum(t)) => prefix + t
      case _ => prefix + "message"
    }

    function SyntheticId(): string {
      ScopeId(None)
    }
  }

  /** The fields of a processor other than its line buffer, and the events handed to `emit` so far. */
  datatype Core = Core(
    active: seq<string>,
    completed: set<string>,
    streamed: map<string, string>,
    emittedAny: bool,
    plainStarted: bool,
    out: seq<ChatEvent>)

  const INITIAL_CORE := Core([], {}, map[], false, false, [])

  datatype Processor = Processor(core: Core, buffer: string)

  /** A call either returns or throws; a throwing call leaves its changes behind. */
  datatype Outcome<+S> = Ok(state: S) | Threw(state: S)

  function StreamedText(core: Core, id: string): string {
    if id in core.streamed then core.streamed[id] else ""
  }

  /** The insertion-ordered set operations of the active message ids. */
  function Insert(ids: seq<string>, id: string): seq<string> {
    if id in ids then ids else ids + [id]
  }

  function Remove(ids: seq<string>, id: string): seq<string> {
    if ids == [] then []
    else if ids[0] == id then Remove(ids[1..], id)
    else [ids[0]] + Remove(ids[1..], id)
  }

  function Emit(core: Core, event: ChatEvent): Core {
    var noted := core.(emittedAny := true, out := core.out + [event]);
    match event
    case Started(id) =>
      noted.(active := Insert(core.active, id),
             streamed := if id in core.streamed then core.streamed else core.streamed[id := ""])
    case Delta(id, text) =>
      noted.(streamed := core.streamed[id := StreamedText(core, id) + text])
    case Completed(id) =>
      noted.(active := Remove(core.active, id), completed := core.completed + {id})
  }

  function EnsureStarted(core: Core, id: string): Core {
    if id in core.active || id in core.completed then core else Emit(core, Started(id))
  }

  function SharedPrefix(left: string, right: string): (n: nat)
    ensures n <= |left| && n <= |right|
    ensures left[..n] == right[..n]
    ensures n < |left| && n < |right| ==> left[n] != right[n]
  {
    if left != "" && right != "" && left[0] == right[0] then 1 + SharedPrefix(left[1..], right[1..]) else 0
  }

  /** What is missing from `current` for it to hold the snapshot `next`. */
  function MessageSuffix(current: string, next: string): string {
    if next == "" then ""
    else if current == "" then next
    else if StartsWith(current, next) then ""
    else if StartsWith(next, current) then next[|current|..]
    else next[SharedPrefix(current, next)..]
  }

  function EmitMissing(core: Core, id: string, message: string): Core {
    var suffix := MessageSuffix(StreamedText(core, id), message);
    if suffix == "" then core else Emit(core, Delta(id, suffix))
  }

  // ---- Codex ---------------------------------------------------------------

  /** The first of the four id fields that is a string or a number counts, unless it is falsy. */
  function InferCodexId(record: Value): Option<Value> {
    var candidates := [Get(record, "item_id"), Get(record, "itemId"), Get(record, "id"), Get(record, "output_index")];
    FirstStringOrNumber(candidates)
  }

  function FirstStringOrNumber(candidates: seq<Option<Value>>): Option<Value> {
    if candidates == [] then None
    else
      match candidates[0]
      case Some(JStr(s)) => if s == "" then None else candidates[0]
      case Some(JNum(t)) => if t == "0" then None else candidates[0]
      case _ => FirstStringOrNumber(candidates[1..])
  }

  predicate IsAgentMessage(item: Option<Value>) {
    item.Some? && StringOrEmpty(item.value, "type") == "agent_message"
  }

  /** Starts the message, adds what is missing of a non-blank final text, and completes it. */
  function FinishMessage(core: Core, id: string, text: string): Core {
    var begun := EnsureStarted(core, id);
    var filled := if Trim(text) != "" then EmitMissing(begun, id, text) else begun;
    Emit(filled, Completed(id))
  }

  predicate IsDone(eventType: string) {
    EndsWith(eventType, "output_text.done") || EndsWith(eventType, "message.completed")
  }

  /** What a codex record asks for. */
  datatype CodexAction =
    | Begin(id: string)
    | Extend(id: string, delta: string)
    | Finish(id: string, text: string)
    | Ignore

  /** `open` is whether the synthetic message is active. */
  function DecodeCodex(config: Config, open: bool, record: Value): CodexAction {
    var eventType := StringOrEmpty(record, "type");
    var item := ObjectField(record, "item");
    if eventType == "turn.started" then
      Begin(config.SyntheticId())
    else if eventType == "item.started" && IsAgentMessage(item) then
      Begin(config.ScopeId(Get(item.value, "id")))
    else if eventType == "item.completed" && IsAgentMessage(item) then
      Finish(CodexItemTarget(config, open, item.value), StringOrEmpty(item.value, "text"))
    else if EndsWith(eventType, "output_text.delta") && HasString(record, "delta") then
      Extend(config.ScopeId(InferCodexId(record)), StringOrEmpty(record, "delta"))
    else if IsDone(eventType) && HasString(record, "text") then
      Finish(config.ScopeId(InferCodexId(record)), StringOrEmpty(record, "text"))
    else
      Ignore
  }

  function Perform(core: Core, action: CodexAction): Core {
    match action
    case Begin(id) => EnsureStarted(core, id)
    case Extend(id, delta) => Emit(EnsureStarted(core, id), Delta(id, delta))
    case Finish(id, text) => FinishMessage(core, id, text)
    case Ignore => core
  }

  function CodexEvent(config: Config, core: Core, record: Value): Core {
    Perform(core, DecodeCodex(config, config.SyntheticId() in core.active, record))
  }

  /** The synthetic message is preferred once `turn.started` has opened it. */
  function CodexItemTarget(config: Config, open: bool, item: Value): string {
    if open then config.SyntheticId() else config.ScopeId(Get(item, "id"))
  }

  /** Reading `type` of a JSON null throws; nothing else in the handler does. */
  function CodexLine(config: Config, core: Core, line: string): Outcome<Core> {
    match config.parse(line)
    case None => Ok(core)
    case Some(JNull) => Threw(core)
    case Some(record) => Ok(CodexEvent(config, core, record))
  }

  // ---- Gemini --------------------------------------------------------------

  predicate IsAssistantMessage(record: Value) {
    && StringOrEmpty(record, "type") == "message"
    && Get(record, "role") == Some(JStr("assistant"))
    && HasString(record, "content")
  }

  function GeminiEvent(config: Config, core: Core, record: Value): Core {
    var id := config.SyntheticId();
    if IsAssistantMessage(record) then
      var begun := EnsureStarted(core, id);
      var content := StringOrEmpty(record, "content");
      if content == "" then begun
      else if Get(record, "delta") == Some(JBool(true)) then Emit(begun, Delta(id, content))
      else EmitMissing(begun, id, content)
    else if StringOrEmpty(record, "type") == "result" && id in core.active then
      Emit(core, Completed(id))
    else
      core
  }

  function GeminiLine(config: Config, core: Core, line: string): Outcome<Core> {
    match config.parse(line)
    case None => Ok(core)
    case Some(record) => Ok(if IsObject(record) then GeminiEvent(config, core, record) else core)
  }

  function HandleLine(config: Config, core: Core, line: string): Outcome<Core> {
    if config.provider == Codex then CodexLine(config, core, line) else GeminiLine(config, core, line)
  }

  // ---- Chunks --------------------------------------------------------------

  /** Handles every complete line of the buffer; what follows the last newline stays in it. */
  function Drain(config: Config, core: Core, buffer: string): (r: Outcome<Processor>)
    ensures r.Ok? ==> '\n' !in r.state.buffer
    decreases |buffer|
  {
    var i := NewlineIndex(buffer);
    if i < 0 then Ok(Processor(core, buffer))
    else
      var line, rest := Trim(buffer[..i]), buffer[i + 1..];
      if line == "" then Drain(config, core, rest)
      else
        match HandleLine(config, core, line)
        case Ok(next) => Drain(config, next, rest)
        case Threw(next) => Threw(Processor(next, rest))
  }

  /** Claude's plain text: white-space chunks are dropped after they have opened the message. */
  function ClaudeChunk(config: Config, core: Core, text: string): Core {
    var id := config.SyntheticId();
    var cleaned := StripAnsi(text);
    var begun := if core.plainStarted then core else Emit(core.(plainStarted := true), Started(id));
    if Trim(cleaned) == "" then begun else Emit(begun, Delta(id, cleaned))
  }

  function HandleStdout(config: Config, p: Processor, text: string): Outcome<Processor> {
    if config.provider == Claude then Ok(p.(core := ClaudeChunk(config, p.core, text)))
    else Drain(config, p.core, p.buffer + text)
  }

  // ---- End of the stream ---------------------------------------------------

  function CompleteEach(core: Core, ids: seq<string>): Core
    decreases |ids|
  {
    if ids == [] then core
    else CompleteEach(if ids[0] in core.completed then core else Emit(core, Completed(ids[0])), ids[1..])
  }

  function Close(config: Config, core: Core, stdout: string): Core {
    var id := config.SyntheticId();
    if core.plainStarted && id !in core.completed then
      Emit(core, Completed(id))
    else if !core.emittedAny then
      var text := FinalText(config.provider, config.parse, stdout);
      if text == "" then core
      else Emit(Emit(Emit(core, Started(id)), Delta(id, text)), Completed(id))
    else
      CompleteEach(core, core.active)
  }

  function Finalize(config: Config, p: Processor, stdout: string): Outcome<Processor> {
    if config.provider != Claude && Trim(p.buffer) != "" then
      match HandleLine(config, p.core, Trim(p.buffer))
      case Ok(next) => Ok(Processor(Close(config, next, stdout), ""))
      case Threw(next) => Threw(p.(core := next))
    else
      Ok(p.(core := Close(config, p.core, stdout)))
  }

  /** The stdout listener of a CLI process: one call per chunk, none after a call that threw. */
  function FeedAll(config: Config, p: Processor, chunks: seq<string>): Outcome<Processor>
    decreases |chunks|
  {
    if chunks == [] then Ok(p)
    else
      match HandleStdout(config, p, chunks[0])
      case Ok(next) => FeedAll(config, next, chunks[1..])
      case Threw(next) => Threw(next)
  }

  const INITIAL := Processor(INITIAL_CORE, "")

  /** A whole CLI process: its chunks, then the close handler with the collected stdout. */
  function RunProcess(config: Config, chunks: seq<string>): Outcome<Processor> {
    match FeedAll(config, INITIAL, chunks)
    case Ok(p) => Finalize(config, p, Flatten(chunks))
    case Threw(p) => Threw(p)
  }

  // ---- The batch parser ----------------------------------------------------

  predicate IsAnsiParameter(c: char) {
    '0' <= c <= '9' || c == ';'
  }

  function ParameterRun(s: string): (n: nat)
    ensures n <= |s|
  {
    if s != "" && IsAnsiParameter(s[0]) then 1 + ParameterRun(s[1..]) else 0
  }

  /** The length of the colour sequence that `s` starts with, or 0. */
  function AnsiLength(s: string): (n: nat)
    ensures n <= |s|
    ensures n > 0 ==> s[0] == '\U{001B}'
  {
    if |s| >= 2 && s[0] == '\U{001B}' && s[1] == '[' then
      var k := ParameterRun(s[2..]);
      if 2 + k < |s| && s[2 + k] == 'm' then k + 3 else 0
    else 0
  }

  function StripAnsi(s: string): string {
    if s == "" then ""
    else if AnsiLength(s) > 0 then StripAnsi(s[AnsiLength(s)..])
    else [s[0]] + StripAnsi(s[1..])
  }

  /** The lines of a text, each without the carriage return before its newline. */
  function SplitLines(s: string): seq<string>
    decreases |s|
  {
    var i := NewlineIndex(s);
    if i < 0 then [s]
    else [if i > 0 && s[i - 1] == '\r' then s[..i - 1] else s[..i]] + SplitLines(s[i + 1..])
  }

  /** The values of the non-blank lines that parse. */
  function ParsedLines(parse: string -> Option<Value>, lines: seq<string>): seq<Value> {
    if lines == [] then []
    else
      var trimmed := Trim(lines[0]);
      var rest := ParsedLines(parse, lines[1..]);
      if trimmed != "" && parse(trimmed).Some? then [parse(trimmed).value] + rest else rest
  }

  predicate IsStreamJson(v: Value) {
    IsObject(v) && StringOrEmpty(v, "type") in ["init", "message", "tool_use", "tool_result", "error", "result"]
  }

  function GeminiAppend(output: string, v: Value): string {
    if !IsAssistantMessage(v) then output
    else if Get(v, "delta") == Some(JBool(true)) then output + StringOrEmpty(v, "content")
    else output + MessageSuffix(output, StringOrEmpty(v, "content"))
  }

  function GeminiOutput(output: string, values: seq<Value>): string
    decreases |values|
  {
    if values == [] then output else GeminiOutput(GeminiAppend(output, values[0]), values[1..])
  }

  function GeminiStreamText(values: seq<Value>): Option<string> {
    if exists i :: 0 <= i < |values| && IsStreamJson(values[i]) then Some(Trim(GeminiOutput("", values))) else None
  }

  /** Below, the empty text stands for `undefined`: every caller tests for a non-empty text. */
  function Dedupe(values: seq<string>, seen: set<string>): seq<string> {
    if values == [] then []
    else
      var v := Trim(values[0]);
      if v == "" || v in seen then Dedupe(values[1..], seen) else [v] + Dedupe(values[1..], seen + {v})
  }

  function GenericText(v: Value): string
    decreases v, 1, 0
  {
    match v
    case JStr(s) => Trim(s)
    case JArr(items) => JoinParagraphs(Dedupe(GenericTexts(v, items), {}))
    case JObj(_) => FirstGeneric(v, ["content", "message", "output", "result", "text"])
    case _ => ""
  }

  function GenericTexts(v: Value, items: seq<Value>): seq<string>
    requires v.JArr? && forall item :: item in items ==> item in v.items
    decreases v, 0, |items|
  {
    if items == [] then []
    else assert items[0] in v.items; [GenericText(items[0])] + GenericTexts(v, items[1..])
  }

  function FirstGeneric(v: Value, keys: seq<string>): string
    requires v.JObj?
    decreases v, 0, |keys|
  {
    if keys == [] then ""
    else
      var text := if keys[0] in v.fields then GenericText(v.fields[keys[0]]) else "";
      if text != "" then text else FirstGeneric(v, keys[1..])
  }

  function FirstNonBlank(values: seq<Option<Value>>): string {
    if values == [] then ""
    else
      match values[0]
      case Some(JStr(s)) => if Trim(s) != "" then Trim(s) else FirstNonBlank(values[1..])
      case _ => FirstNonBlank(values[1..])
  }

  function PartTexts(parts: seq<Value>): seq<string> {
    if parts == [] then []
    else
      var text := Trim(StringOrEmpty(parts[0], "text"));
      (if text != "" then [text] else []) + PartTexts(parts[1..])
  }

  function CandidateTexts(candidates: seq<Value>): seq<string> {
    if candidates == [] then []
    else
      var own :=
        match ObjectField(candidates[0], "content")
        case Some(content) =>
          (match Get(content, "parts") case Some(JArr(parts)) => PartTexts(parts) case _ => [])
        case None => [];
      own + CandidateTexts(candidates[1..])
  }

  function GeminiText(v: Value): string {
    if !IsObject(v) then (if v.JStr? then Trim(v.s) else "")
    else
      var output, result := ObjectField(v, "output"), ObjectField(v, "result");
      var direct := FirstNonBlank([
        Get(v, "response"), Get(v, "text"),
        if output.Some? then Get(output.value, "text") else None,
        if result.Some? then Get(result.value, "response") else None]);
      if direct != "" then direct
      else match Get(v, "candidates")
           case Some(JArr(candidates)) => JoinParagraphs(CandidateTexts(candidates))
           case _ => ""
  }

  function CodexText(v: Value): string {
    var item := ObjectField(v, "item");
    if IsAgentMessage(item) && Trim(StringOrEmpty(item.value, "text")) != "" then
      Trim(StringOrEmpty(item.value, "text"))
    else if IsDone(StringOrEmpty(v, "type")) then Trim(StringOrEmpty(v, "text"))
    else ""
  }

  function PreferredText(provider: Provider, v: Value): string {
    var own := match provider
      case Gemini => GeminiText(v)
      case Codex => CodexText(v)
      case Claude => "";
    if own != "" then own else GenericText(v)
  }

  function PreferredTexts(provider: Provider, values: seq<Value>): seq<string> {
    if values == [] then [] else [PreferredText(provider, values[0])] + PreferredTexts(provider, values[1..])
  }

  /** The text taken from the whole of the output when that is one JSON value. */
  function WholeDocumentText(provider: Provider, parse: string -> Option<Value>, cleaned: string): string {
    match parse(cleaned)
    case Some(v) => PreferredText(provider, v)
    case None => ""
  }

  /** `parseProviderFinalText`. */
  function FinalText(provider: Provider, parse: string -> Option<Value>, stdout: string): string {
    var cleaned := Trim(StripAnsi(stdout));
    if cleaned == "" || provider == Claude then cleaned
    else if WholeDocumentText(provider, parse, cleaned) != "" then WholeDocumentText(provider, parse, cleaned)
    else
      var values := ParsedLines(parse, SplitLines(cleaned));
      if provider == Gemini && GeminiStreamText(values).Some? then GeminiStreamText(values).value
      else
        var merged := Trim(JoinParagraphs(Dedupe(PreferredTexts(provider, values), {})));
        if merged != "" then merged
        else
          var fallback := match parse(cleaned) case Some(v) => GenericText(v) case None => "";
          if fallback != "" then fallback else cleaned
  }
}
