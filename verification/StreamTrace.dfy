/** The events of a stream as a function of its records: what each record says is read off its fields, and what it adds
    depends on nothing but the events before it. */
module StreamTrace {
  import opened Basics
  import opened Text
  import opened Json
  import opened StreamModel
  import opened ChunkInvariance
  import opened MessageLifecycle
  import opened BatchRefinement

  // ---- What the events so far say ------------------------------------------

  predicate IsOpen(out: seq<ChatEvent>, id: string) {
    Started(id) in out && Completed(id) !in out
  }

  /** The open messages in the order in which they were started. */
  function OpenIds(out: seq<ChatEvent>): seq<string> {
    if out == [] then []
    else
      var before := OpenIds(out[..|out| - 1]);
      match out[|out| - 1]
      case Started(id) => before + [id]
      case Delta(_, _) => before
      case Completed(id) => Remove(before, id)
  }

  function Opening(out: seq<ChatEvent>, id: string): seq<ChatEvent> {
    if Started(id) in out then [] else [Started(id)]
  }

  /** What is left of a text behind the part that it shares with the text streamed so far. */
  function Rest(current: string, text: string): string {
    text[SharedPrefix(current, text)..]
  }

  function Catching(out: seq<ChatEvent>, id: string, text: string): seq<ChatEvent> {
    var rest := Rest(DeltaText(out, id), text);
    if rest == "" then [] else [Delta(id, rest)]
  }

  /** Starts a message that is new, streams what is missing of a text that is not blank, and completes it. */
  ghost function Ending(out: seq<ChatEvent>, id: string, text: string): seq<ChatEvent> {
    Opening(out, id) + (if Blank(text) then [] else Catching(out, id, text)) + [Completed(id)]
  }

  // ---- The fields of a record ----------------------------------------------

  predicate HasType(record: Value, t: string) {
    Get(record, "type") == Some(JStr(t))
  }

  predicate TypeEnds(record: Value, suffix: string) {
    HasString(record, "type") && EndsWith(StringOrEmpty(record, "type"), suffix)
  }

  predicate HasAgentItem(record: Value) {
    Get(record, "item").Some? && HasType(Get(record, "item").value, "agent_message")
  }

  /** The part of a message id that a field gives: its string, its number, or "message". */
  function NameOf(field: Option<Value>): string {
    match field
    case Some(JStr(s)) => s
    case Some(JNum(t)) => t
    case _ => "message"
  }

  predicate IsName(field: Option<Value>) {
    field.Some? && (field.value.JStr? || field.value.JNum?)
  }

  const NAMES := ["item_id", "itemId", "id", "output_index"]

  /** The first of the four name fields that is a string or a number names the message, unless it is empty or zero. */
  ghost predicate Names(record: Value, name: string) {
    if exists k :: 0 <= k < 4 && IsName(Get(record, NAMES[k])) then
      exists k :: 0 <= k < 4 && IsName(Get(record, NAMES[k])) &&
                  (forall j :: 0 <= j < k ==> !IsName(Get(record, NAMES[j]))) &&
                  name == if Get(record, NAMES[k]).value in {JStr(""), JNum("0")} then "message"
                          else NameOf(Get(record, NAMES[k]))
    else name == "message"
  }

  function NameFrom(record: Value, k: nat): string
    requires k <= 4
    decreases 4 - k
  {
    if k == 4 then "message"
    else if IsName(Get(record, NAMES[k])) then
      if Get(record, NAMES[k]).value in {JStr(""), JNum("0")} then "message" else NameOf(Get(record, NAMES[k]))
    else NameFrom(record, k + 1)
  }

  /** The five kinds of codex records. */
  datatype Saying =
    | Opens(id: string)
    | Adds(id: string, text: string)
    | Ends(id: string, text: string)
    | Nothing

  /** What a codex record says, and of which message, when the synthetic message is open and when it is not. */
  function CodexSays(config: Config, open: bool, record: Value): Saying {
    var synthetic := config.prefix + "message";
    if HasType(record, "turn.started") then Opens(synthetic)
    else if HasAgentItem(record) && HasType(record, "item.started") then
      Opens(config.prefix + NameOf(Get(Get(record, "item").value, "id")))
    else if HasAgentItem(record) && HasType(record, "item.completed") then
      var item := Get(record, "item").value;
      Ends(if open then synthetic else config.prefix + NameOf(Get(item, "id")), StringOrEmpty(item, "text"))
    else if TypeEnds(record, "output_text.delta") && HasString(record, "delta") then
      Adds(config.prefix + NameFrom(record, 0), StringOrEmpty(record, "delta"))
    else if (TypeEnds(record, "output_text.done") || TypeEnds(record, "message.completed")) &&
            HasString(record, "text") then
      Ends(config.prefix + NameFrom(record, 0), StringOrEmpty(record, "text"))
    else Nothing
  }

  function SyntheticOpen(config: Config, out: seq<ChatEvent>): bool {
    IsOpen(out, config.prefix + "message")
  }

  /** The events of a saying. */
  ghost function SaidEvents(out: seq<ChatEvent>, saying: Saying): seq<ChatEvent> {
    match saying
    case Opens(id) => Opening(out, id)
    case Adds(id, text) => Opening(out, id) + [Delta(id, text)]
    case Ends(id, text) => Ending(out, id, text)
    case Nothing => []
  }

  /** What a gemini record adds: an assistant message starts the one message and adds its content, as it is when it is a
      delta and what is missing of it when it is a snapshot; a result completes the message if it is open. */
  ghost function GeminiEvents(config: Config, out: seq<ChatEvent>, record: Value): seq<ChatEvent> {
    var id := config.prefix + "message";
    if HasType(record, "message") && Get(record, "role") == Some(JStr("assistant")) && HasString(record, "content") then
      var content := StringOrEmpty(record, "content");
      Opening(out, id) +
      (if content == "" then []
       else if Get(record, "delta") == Some(JBool(true)) then [Delta(id, content)]
       else Catching(out, id, content))
    else if HasType(record, "result") && IsOpen(out, id) then [Completed(id)]
    else []
  }

  ghost function RecordEvents(config: Config, out: seq<ChatEvent>, record: Value): seq<ChatEvent> {
    if config.provider == Codex then SaidEvents(out, CodexSays(config, SyntheticOpen(config, out), record))
    else GeminiEvents(config, out, record)
  }

  /** The events of the lines of a stream: a codex stream stops at a bare JSON null. */
  ghost function Trace(config: Config, out: seq<ChatEvent>, lines: seq<string>): seq<ChatEvent>
    decreases |lines|
  {
    if lines == [] then out
    else
      match config.parse(lines[0])
      case None => Trace(config, out, lines[1..])
      case Some(record) =>
        if record == JNull && config.provider == Codex then out
        else Trace(config, out + RecordEvents(config, out, record), lines[1..])
  }

  function Completions(ids: seq<string>): seq<ChatEvent> {
    seq(|ids|, i requires 0 <= i < |ids| => Completed(ids[i]))
  }

  /** The events of a stream that is closed: the open messages are completed in the order of their start; one that said
      nothing says the parsed text. */
  ghost function ClosedTrace(config: Config, out: seq<ChatEvent>, stdout: string): seq<ChatEvent> {
    var id, text := config.prefix + "message", FinalText(config.provider, config.parse, stdout);
    if out != [] then out + Completions(OpenIds(out))
    else if text == "" then []
    else [Started(id), Delta(id, text), Completed(id)]
  }

  // ---- Names ---------------------------------------------------------------

  lemma NameIsFirst(record: Value)
    ensures Names(record, NameFrom(record, 0))
  {
    assert NAMES[0] == "item_id" && NAMES[1] == "itemId" && NAMES[2] == "id" && NAMES[3] == "output_index";
  }

  lemma InferredName(config: Config, record: Value)
    ensures config.ScopeId(InferCodexId(record)) == config.prefix + NameFrom(record, 0)
  {
    var fields := [Get(record, "item_id"), Get(record, "itemId"), Get(record, "id"), Get(record, "output_index")];
    assert NAMES[0] == "item_id" && NAMES[1] == "itemId" && NAMES[2] == "id" && NAMES[3] == "output_index";
    NameStep(record, fields, 3);
    NameStep(record, fields, 2);
    NameStep(record, fields, 1);
    NameStep(record, fields, 0);
    assert fields[0..] == fields;
  }

  lemma NameStep(record: Value, fields: seq<Option<Value>>, k: nat)
    requires k < 4 && |fields| == 4 && forall i :: 0 <= i < 4 ==> fields[i] == Get(record, NAMES[i])
    requires k == 3 || NameOf(FirstStringOrNumber(fields[k + 1..])) == NameFrom(record, k + 1)
    ensures NameOf(FirstStringOrNumber(fields[k..])) == NameFrom(record, k)
  {
    hide Get;
    var rest := fields[k..];
    assert rest[1..] == fields[k + 1..] && rest[0] == fields[k];
    if k == 3 {
      assert rest[1..] == [];
    }
  }

  // ---- The processor's emissions -------------------------------------------

  /** What a snapshot repair adds is always what is left behind the shared part. */
  lemma SuffixIsRest(current: string, text: string)
    ensures MessageSuffix(current, text) == Rest(current, text)
  {
    var k := SharedPrefix(current, text);
    if StartsWith(current, text) {
      assert k == |text|;
    } else if StartsWith(text, current) {
      assert k == |current|;
    }
  }

  lemma StartedIffKnown(core: Core, id: string)
    requires Lifecycle(core)
    ensures Started(id) in core.out <==> Known(core, id)
    ensures IsOpen(core.out, id) <==> id in core.active
    ensures DeltaText(core.out, id) == StreamedText(core, id)
  {
    assert IdAgrees(core, id);
    DeltasAreText(core, id);
  }

  lemma OpeningEmits(core: Core, id: string)
    requires Lifecycle(core)
    ensures EnsureStarted(core, id).out == core.out + Opening(core.out, id)
    ensures StreamedText(EnsureStarted(core, id), id) == StreamedText(core, id)
  {
    StartedIffKnown(core, id);
    assert core.out + [] == core.out;
  }

  lemma CatchingEmits(core: Core, before: seq<ChatEvent>, id: string, text: string)
    requires DeltaText(before, id) == StreamedText(core, id)
    ensures EmitMissing(core, id, text).out == core.out + Catching(before, id, text)
  {
    SuffixIsRest(StreamedText(core, id), text);
    assert core.out + [] == core.out;
  }

  lemma EndingEmits(core: Core, id: string, text: string)
    requires Lifecycle(core)
    ensures FinishMessage(core, id, text).out == core.out + Ending(core.out, id, text)
  {
    hide Trim, Catching, Opening, EmitMissing, EnsureStarted, Lifecycle, Blank;
    var begun := EnsureStarted(core, id);
    OpeningEmits(core, id);
    StartedIffKnown(core, id);
    TrimBlank(text);
    CatchingEmits(begun, core.out, id, text);
    assert begun.out + [] == begun.out;
  }

  /** A codex record is decoded as its fields say. */
  lemma DecodesAsSaid(config: Config, core: Core, record: Value)
    requires Lifecycle(core)
    ensures CodexActionOf(config, core, record) ==
            match CodexSays(config, SyntheticOpen(config, core.out), record)
            case Opens(id) => Begin(id)
            case Adds(id, text) => Extend(id, text)
            case Ends(id, text) => Finish(id, text)
            case Nothing => Ignore
  {
    hide EndsWith, Lifecycle, InferCodexId, NameFrom, IsOpen;
    InferredName(config, record);
    StartedIffKnown(core, config.SyntheticId());
    NoTypeEnds();
    assert config.SyntheticId() == config.prefix + "message";
  }

  lemma NoTypeEnds()
    ensures !EndsWith("", "output_text.delta")
    ensures !EndsWith("", "output_text.done") && !EndsWith("", "message.completed")
  {
  }

  lemma CodexEmits(config: Config, core: Core, record: Value)
    requires Lifecycle(core)
    ensures CodexEvent(config, core, record).out ==
            core.out + SaidEvents(core.out, CodexSays(config, SyntheticOpen(config, core.out), record))
  {
    hide Lifecycle, CodexSays, DecodeCodex, Opening, Ending, FinishMessage, EnsureStarted;
    DecodesAsSaid(config, core, record);
    assert core.out + [] == core.out;
    match CodexSays(config, SyntheticOpen(config, core.out), record)
    case Opens(id) => OpeningEmits(core, id);
    case Adds(id, text) =>
      OpeningEmits(core, id);
      var added := [Delta(id, text)];
      assert core.out + (Opening(core.out, id) + added) == core.out + Opening(core.out, id) + added;
    case Ends(id, text) => EndingEmits(core, id, text);
    case Nothing =>
  }

  lemma GeminiEmits(config: Config, core: Core, record: Value)
    requires Lifecycle(core)
    ensures GeminiEvent(config, core, record).out == core.out + GeminiEvents(config, core.out, record)
  {
    hide Lifecycle, Opening, EnsureStarted, EmitMissing, Catching, IsOpen;
    var id := config.SyntheticId();
    assert id == config.prefix + "message";
    OpeningEmits(core, id);
    StartedIffKnown(core, id);
    var begun, content := EnsureStarted(core, id), StringOrEmpty(record, "content");
    CatchingEmits(begun, core.out, id, content);
    assert core.out + [] == core.out && begun.out + [] == begun.out;
    assert Opening(core.out, id) + [] == Opening(core.out, id);
    if IsAssistantMessage(record) && content != "" {
      assert core.out + (Opening(core.out, id) + [Delta(id, content)]) == begun.out + [Delta(id, content)];
      var caught := Catching(core.out, id, content);
      assert core.out + (Opening(core.out, id) + caught) == begun.out + caught;
    }
  }

  /** A value that is no object says nothing. */
  lemma PlainValueSilent(config: Config, out: seq<ChatEvent>, v: Value)
    requires !IsObject(v)
    ensures GeminiEvents(config, out, v) == []
  {
  }

  lemma {:induction false} LinesTrace(config: Config, core: Core, lines: seq<string>)
    requires config.provider != Claude && Lifecycle(core)
    ensures HandleLines(config, core, lines).state.out == Trace(config, core.out, lines)
    decreases |lines|
  {
    hide Lifecycle, CodexEvent, GeminiEvent, SaidEvents, CodexSays, GeminiEvents;
    if lines != [] {
      LineKeeps(config, core, lines[0]);
      var parsed, handled := config.parse(lines[0]), HandleLine(config, core, lines[0]);
      if parsed.Some? {
        if config.provider == Codex {
          CodexEmits(config, core, parsed.value);
        } else if IsObject(parsed.value) {
          GeminiEmits(config, core, parsed.value);
        } else {
          PlainValueSilent(config, core.out, parsed.value);
          assert core.out + [] == core.out;
        }
      }
      if handled.Ok? {
        LinesTrace(config, handled.state, lines[1..]);
      }
    }
  }

  // ---- The close -----------------------------------------------------------

  /** The active messages are kept in the order of their start. */
  ghost predicate Ordered(core: Core) {
    core.active == OpenIds(core.out)
  }

  lemma EmitOrdered(core: Core, event: ChatEvent)
    requires Ordered(core) && (event.Started? ==> event.id !in core.active)
    ensures Ordered(Emit(core, event))
  {
    assert (core.out + [event])[..|core.out|] == core.out;
  }

  lemma OpeningOrdered(core: Core, id: string)
    requires Ordered(core)
    ensures Ordered(EnsureStarted(core, id))
  {
    if id !in core.active && id !in core.completed {
      EmitOrdered(core, Started(id));
    }
  }

  lemma CatchingOrdered(core: Core, id: string, text: string)
    requires Ordered(core)
    ensures Ordered(EmitMissing(core, id, text))
  {
    hide MessageSuffix;
    if MessageSuffix(StreamedText(core, id), text) != "" {
      EmitOrdered(core, Delta(id, MessageSuffix(StreamedText(core, id), text)));
    }
  }

  lemma PerformOrdered(core: Core, action: CodexAction)
    requires Ordered(core)
    ensures Ordered(Perform(core, action))
  {
    hide Ordered, EnsureStarted, EmitMissing, Emit, Trim;
    match action
    case Begin(id) => OpeningOrdered(core, id);
    case Extend(id, delta) =>
      OpeningOrdered(core, id);
      EmitOrdered(EnsureStarted(core, id), Delta(id, delta));
    case Finish(id, text) =>
      OpeningOrdered(core, id);
      CatchingOrdered(EnsureStarted(core, id), id, text);
      EmitOrdered(if Trim(text) != "" then EmitMissing(EnsureStarted(core, id), id, text) else EnsureStarted(core, id),
                  Completed(id));
    case Ignore =>
  }

  lemma GeminiOrdered(config: Config, core: Core, record: Value)
    requires Ordered(core)
    ensures Ordered(GeminiEvent(config, core, record))
  {
    hide Ordered, EnsureStarted, EmitMissing, Emit, IsAssistantMessage;
    var id, content := config.SyntheticId(), StringOrEmpty(record, "content");
    OpeningOrdered(core, id);
    CatchingOrdered(EnsureStarted(core, id), id, content);
    EmitOrdered(EnsureStarted(core, id), Delta(id, content));
    EmitOrdered(core, Completed(id));
  }

  lemma {:induction false} LinesOrdered(config: Config, core: Core, lines: seq<string>)
    requires config.provider != Claude && Ordered(core)
    ensures Ordered(HandleLines(config, core, lines).state)
    decreases |lines|
  {
    hide Ordered, GeminiEvent, Perform, DecodeCodex;
    if lines != [] {
      var parsed, handled := config.parse(lines[0]), HandleLine(config, core, lines[0]);
      if parsed.Some? {
        if config.provider == Codex {
          PerformOrdered(core, CodexActionOf(config, core, parsed.value));
        } else {
          GeminiOrdered(config, core, parsed.value);
        }
      }
      if handled.Ok? {
        LinesOrdered(config, handled.state, lines[1..]);
      }
    }
  }

  lemma {:induction false} CompletionsEmitted(core: Core, ids: seq<string>)
    requires Distinct(ids) && forall id :: id in ids ==> id !in core.completed
    ensures CompleteEach(core, ids).out == core.out + Completions(ids)
    decreases |ids|
  {
    if ids == [] {
      assert core.out + Completions([]) == core.out;
    } else {
      var next := Emit(core, Completed(ids[0]));
      assert ids[0] in ids;
      forall id | id in ids[1..] ensures id !in next.completed {
        var i :| 0 <= i < |ids[1..]| && ids[1..][i] == id;
        assert ids[i + 1] == id && ids[0] != ids[i + 1];
      }
      assert Distinct(ids[1..]) by {
        forall i, j | 0 <= i < j < |ids[1..]| ensures ids[1..][i] != ids[1..][j] {
          assert ids[i + 1] != ids[j + 1];
        }
      }
      CompletionsEmitted(next, ids[1..]);
      assert Completions(ids) == [Completed(ids[0])] + Completions(ids[1..]);
    }
  }

  lemma CloseEmits(config: Config, core: Core, stdout: string)
    requires Lifecycle(core) && Ordered(core) && !core.plainStarted
    ensures Close(config, core, stdout).out == ClosedTrace(config, core.out, stdout)
  {
    hide FinalText, Completions;
    forall id | id in core.active ensures id !in core.completed {
      assert IdAgrees(core, id);
    }
    CompletionsEmitted(core, core.active);
    assert config.SyntheticId() == config.prefix + "message";
  }

  /** The events of a whole codex or gemini process are those that its records and its close add, one after the other; a
      codex process with a bare JSON null stops there and is not closed. */
  lemma ProcessTrace(config: Config, chunks: seq<string>)
    requires config.provider != Claude
    ensures var stdout, r := Flatten(chunks), RunProcess(config, chunks);
            var said := Trace(config, [], MeaningfulLines(stdout));
            r.state.core.out == if r.Threw? then said else ClosedTrace(config, said, stdout)
  {
    hide Lifecycle, Ordered, Close, Trace, ClosedTrace, MeaningfulLines;
    var stdout := Flatten(chunks);
    var lines := MeaningfulLines(stdout);
    EmptyLifecycle();
    NothingOrdered();
    StreamIsLineByLine(config, chunks);
    LinesTrace(config, INITIAL_CORE, lines);
    LinesKeep(config, INITIAL_CORE, lines);
    LinesNotPlain(config, INITIAL_CORE, lines);
    LinesOrdered(config, INITIAL_CORE, lines);
    var handled := HandleLines(config, INITIAL_CORE, lines);
    if handled.Ok? {
      CloseEmits(config, handled.state, stdout);
    }
  }

  lemma NothingOrdered()
    ensures Ordered(INITIAL_CORE)
  {
  }
}
