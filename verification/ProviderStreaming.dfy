/** `core/providerStreaming.ts` in its own form: a processor that updates its fields, and the batch parser's loops. */
module ProviderStreaming {
  import opened Basics
  import opened Text
  import opened Json
  import opened StreamModel

  /** `emit` is atomic: the events it has been given are the field `emitted`. */
  class StreamProcessor {
    const config: Config
    var activeMessageIds: seq<string>
    var completedMessageIds: set<string>
    var streamedMessageText: map<string, string>
    var emittedAnyChat: bool
    var codexBuffer: string
    var geminiBuffer: string
    var plainStreamStarted: bool
    var emitted: seq<ChatEvent>

    function State(): Core
      reads this
    {
      Core(activeMessageIds, completedMessageIds, streamedMessageText, emittedAnyChat, plainStreamStarted, emitted)
    }

    function Contents(): Processor
      reads this
    {
      Processor(State(), if config.provider == Codex then codexBuffer else geminiBuffer)
    }

    constructor (config: Config)
      ensures this.config == config && Contents() == INITIAL
    {
      this.config := config;
      activeMessageIds, completedMessageIds, streamedMessageText := [], {}, map[];
      emittedAnyChat, plainStreamStarted := false, false;
      codexBuffer, geminiBuffer, emitted := "", "", [];
    }

    method EmitChatEvent(event: ChatEvent)
      modifies this
      ensures State() == Emit(old(State()), event)
      ensures codexBuffer == old(codexBuffer) && geminiBuffer == old(geminiBuffer)
    {
      emittedAnyChat := true;
      match event {
        case Started(id) =>
          if id !in activeMessageIds {
            activeMessageIds := activeMessageIds + [id];
          }
          if id !in streamedMessageText {
            streamedMessageText := streamedMessageText[id := ""];
          }
        case Delta(id, text) =>
          var current := if id in streamedMessageText then streamedMessageText[id] else "";
          streamedMessageText := streamedMessageText[id := current + text];
        case Completed(id) =>
          activeMessageIds := Remove(activeMessageIds, id);
          completedMessageIds := completedMessageIds + {id};
      }
      emitted := emitted + [event];
    }

    method BeginMessage(id: string)
      modifies this
      ensures State() == EnsureStarted(old(State()), id)
      ensures codexBuffer == old(codexBuffer) && geminiBuffer == old(geminiBuffer)
    {
      if id in activeMessageIds || id in completedMessageIds {
        return;
      }
      EmitChatEvent(Started(id));
    }

    method EmitMissingMessageText(id: string, message: string)
      modifies this
      ensures State() == EmitMissing(old(State()), id, message)
      ensures codexBuffer == old(codexBuffer) && geminiBuffer == old(geminiBuffer)
    {
      var current := if id in streamedMessageText then streamedMessageText[id] else "";
      var suffix := ComputeMessageSuffix(current, message);
      if suffix != "" {
        EmitChatEvent(Delta(id, suffix));
      }
    }

    /** The two completion branches of the codex handler. */
    method CompleteWithText(id: string, text: string)
      modifies this
      ensures State() == FinishMessage(old(State()), id, text)
      ensures codexBuffer == old(codexBuffer) && geminiBuffer == old(geminiBuffer)
    {
      BeginMessage(id);
      if Trim(text) != "" {
        EmitMissingMessageText(id, text);
      }
      EmitChatEvent(Completed(id));
    }

    method HandleCodexLine(line: string) returns (threw: bool)
      modifies this
      ensures CodexLine(config, old(State()), line) == if threw then Threw(State()) else Ok(State())
      ensures codexBuffer == old(codexBuffer) && geminiBuffer == old(geminiBuffer)
    {
      hide Emit, EnsureStarted, FinishMessage, EndsWith, Trim;
      var parsed := config.parse(line);
      if parsed.None? {
        return false;
      }
      if parsed.value.JNull? {
        return true;
      }
      threw := false;
      var record := parsed.value;
      var eventType, item := StringOrEmpty(record, "type"), ObjectField(record, "item");
      if eventType == "turn.started" {
        BeginMessage(config.SyntheticId());
        return;
      }
      if eventType == "item.started" && IsAgentMessage(item) {
        BeginMessage(config.ScopeId(Get(item.value, "id")));
        return;
      }
      if eventType == "item.completed" && IsAgentMessage(item) {
        var synthetic := config.SyntheticId();
        var messageId := if synthetic in activeMessageIds then synthetic else config.ScopeId(Get(item.value, "id"));
        CompleteWithText(messageId, StringOrEmpty(item.value, "text"));
        return;
      }
      if EndsWith(eventType, "output_text.delta") && HasString(record, "delta") {
        var messageId := config.ScopeId(InferCodexId(record));
        BeginMessage(messageId);
        EmitChatEvent(Delta(messageId, StringOrEmpty(record, "delta")));
        return;
      }
      if (EndsWith(eventType, "output_text.done") || EndsWith(eventType, "message.completed")) &&
         HasString(record, "text")
      {
        CompleteWithText(config.ScopeId(InferCodexId(record)), StringOrEmpty(record, "text"));
      }
    }

    method HandleGeminiLine(line: string)
      modifies this
      ensures GeminiLine(config, old(State()), line) == Ok(State())
      ensures codexBuffer == old(codexBuffer) && geminiBuffer == old(geminiBuffer)
    {
      hide Emit, EnsureStarted, EmitMissing;
      var parsed := config.parse(line);
      if parsed.None? || !IsObject(parsed.value) {
        return;
      }
      var record, id := parsed.value, config.SyntheticId();
      if IsAssistantMessage(record) {
        BeginMessage(id);
        var content := StringOrEmpty(record, "content");
        if content != "" {
          if Get(record, "delta") == Some(JBool(true)) {
            EmitChatEvent(Delta(id, content));
          } else {
            EmitMissingMessageText(id, content);
          }
        }
        return;
      }
      if StringOrEmpty(record, "type") == "result" && id in activeMessageIds {
        EmitChatEvent(Completed(id));
      }
    }

    method HandleStdoutChunk(text: string) returns (threw: bool)
      modifies this
      ensures HandleStdout(config, old(Contents()), text) == if threw then Threw(Contents()) else Ok(Contents())
    {
      if config.provider == Codex {
        threw := DrainCodex(text);
      } else if config.provider == Gemini {
        DrainGemini(text);
        threw := false;
      } else {
        StreamPlainText(text);
        threw := false;
      }
    }

    method DrainCodex(text: string) returns (threw: bool)
      requires config.provider == Codex
      modifies this
      ensures HandleStdout(config, old(Contents()), text) == if threw then Threw(Contents()) else Ok(Contents())
    {
      hide CodexLine, Trim;
      ghost var target := Drain(config, State(), codexBuffer + text);
      codexBuffer := codexBuffer + text;
      var newlineIndex := NewlineIndex(codexBuffer);
      while newlineIndex >= 0
        invariant newlineIndex == NewlineIndex(codexBuffer)
        invariant Drain(config, State(), codexBuffer) == target
        decreases |codexBuffer|
      {
        var line := Trim(codexBuffer[..newlineIndex]);
        codexBuffer := codexBuffer[newlineIndex + 1..];
        if line != "" {
          threw := HandleCodexLine(line);
          if threw {
            return;
          }
        }
        newlineIndex := NewlineIndex(codexBuffer);
      }
      threw := false;
    }

    method DrainGemini(text: string)
      requires config.provider == Gemini
      modifies this
      ensures HandleStdout(config, old(Contents()), text) == Ok(Contents())
    {
      hide GeminiLine, Trim;
      ghost var target := Drain(config, State(), geminiBuffer + text);
      geminiBuffer := geminiBuffer + text;
      var newlineIndex := NewlineIndex(geminiBuffer);
      while newlineIndex >= 0
        invariant newlineIndex == NewlineIndex(geminiBuffer)
        invariant Drain(config, State(), geminiBuffer) == target
        decreases |geminiBuffer|
      {
        var line := Trim(geminiBuffer[..newlineIndex]);
        geminiBuffer := geminiBuffer[newlineIndex + 1..];
        if line != "" {
          HandleGeminiLine(line);
        }
        newlineIndex := NewlineIndex(geminiBuffer);
      }
    }

    method StreamPlainText(text: string)
      requires config.provider == Claude
      modifies this
      ensures HandleStdout(config, old(Contents()), text) == Ok(Contents())
    {
      hide Emit, Trim, StripAnsi;
      var id := config.SyntheticId();
      var cleaned := StripAnsi(text);
      if !plainStreamStarted {
        plainStreamStarted := true;
        EmitChatEvent(Started(id));
        if Trim(cleaned) == "" {
          return;
        }
      }
      if Trim(cleaned) != "" {
        EmitChatEvent(Delta(id, cleaned));
      }
    }

    method FinalizeStream(stdout: string) returns (threw: bool)
      modifies this
      ensures Finalize(config, old(Contents()), stdout) == if threw then Threw(Contents()) else Ok(Contents())
    {
      hide CodexLine, GeminiLine, Close, Trim;
      if config.provider == Codex && Trim(codexBuffer) != "" {
        threw := HandleCodexLine(Trim(codexBuffer));
        if threw {
          return;
        }
        codexBuffer := "";
      }
      if config.provider == Gemini && Trim(geminiBuffer) != "" {
        HandleGeminiLine(Trim(geminiBuffer));
        geminiBuffer := "";
      }
      CloseMessages(stdout);
      threw := false;
    }

    method CloseMessages(stdout: string)
      modifies this
      ensures State() == Close(config, old(State()), stdout)
      ensures codexBuffer == old(codexBuffer) && geminiBuffer == old(geminiBuffer)
    {
      hide Emit, FinalText;
      var id := config.SyntheticId();
      if plainStreamStarted && id !in completedMessageIds {
        EmitChatEvent(Completed(id));
        return;
      }
      if !emittedAnyChat {
        var finalText := ParseProviderFinalText(config.provider, config.parse, stdout);
        if finalText != "" {
          EmitChatEvent(Started(id));
          EmitChatEvent(Delta(id, finalText));
          EmitChatEvent(Completed(id));
        }
      } else {
        var ids := activeMessageIds;
        ghost var target := CompleteEach(State(), ids);
        for i := 0 to |ids|
          invariant CompleteEach(State(), ids[i..]) == target
          invariant codexBuffer == old(codexBuffer) && geminiBuffer == old(geminiBuffer)
        {
          assert ids[i..][1..] == ids[i + 1..];
          if ids[i] !in completedMessageIds {
            EmitChatEvent(Completed(ids[i]));
          }
        }
      }
    }
  }

  /** The stdout and close listeners of one CLI process. */
  method StreamProcess(p: StreamProcessor, chunks: seq<string>) returns (threw: bool)
    requires p.Contents() == INITIAL
    modifies p
    ensures RunProcess(p.config, chunks) == if threw then Threw(p.Contents()) else Ok(p.Contents())
  {
    hide HandleStdout, Finalize;
    var stdout := "";
    for i := 0 to |chunks|
      invariant FeedAll(p.config, INITIAL, chunks) == FeedAll(p.config, p.Contents(), chunks[i..])
      invariant stdout + Flatten(chunks[i..]) == Flatten(chunks)
    {
      stdout := stdout + chunks[i];
      assert chunks[i..][1..] == chunks[i + 1..];
      threw := p.HandleStdoutChunk(chunks[i]);
      if threw {
        return;
      }
    }
    assert chunks[|chunks|..] == [] && stdout + "" == stdout;
    threw := p.FinalizeStream(stdout);
  }

  method SharedPrefixLength(left: string, right: string) returns (index: nat)
    ensures index == SharedPrefix(left, right)
  {
    var length := if |left| < |right| then |left| else |right|;
    index := 0;
    while index < length && left[index] == right[index]
      invariant index <= length
      invariant SharedPrefix(left, right) == index + SharedPrefix(left[index..], right[index..])
    {
      assert left[index..][1..] == left[index + 1..] && right[index..][1..] == right[index + 1..];
      index := index + 1;
    }
  }

  method ComputeMessageSuffix(current: string, next: string) returns (suffix: string)
    ensures suffix == MessageSuffix(current, next)
  {
    if next == "" {
      return "";
    }
    if current == "" {
      return next;
    }
    if next == current || StartsWith(current, next) {
      return "";
    }
    if StartsWith(next, current) {
      return next[|current|..];
    }
    var shared := SharedPrefixLength(current, next);
    return next[shared..];
  }

  method ParseJsonLines(parse: string -> Option<Value>, text: string) returns (parsed: seq<Value>)
    ensures parsed == ParsedLines(parse, SplitLines(text))
  {
    hide SplitLines, Trim;
    var lines := SplitLines(text);
    parsed := [];
    for i := 0 to |lines|
      invariant parsed + ParsedLines(parse, lines[i..]) == ParsedLines(parse, lines)
    {
      assert lines[i..][1..] == lines[i + 1..];
      var trimmed := Trim(lines[i]);
      if trimmed != "" {
        var value := parse(trimmed);
        if value.Some? {
          parsed := parsed + [value.value];
        }
      }
    }
  }

  method ExtractGeminiStreamJsonText(values: seq<Value>) returns (text: Option<string>)
    ensures text == GeminiStreamText(values)
  {
    hide GeminiAppend, Trim, IsStreamJson;
    var sawStreamJsonEvent, output := false, "";
    for i := 0 to |values|
      invariant GeminiOutput(output, values[i..]) == GeminiOutput("", values)
      invariant sawStreamJsonEvent <==> exists j :: 0 <= j < i && IsStreamJson(values[j])
    {
      assert values[i..][1..] == values[i + 1..];
      if IsStreamJson(values[i]) {
        sawStreamJsonEvent := true;
      }
      output := AppendMessage(output, values[i]);
    }
    text := if sawStreamJsonEvent then Some(Trim(output)) else None;
  }

  method AppendMessage(output: string, v: Value) returns (next: string)
    ensures next == GeminiAppend(output, v)
  {
    if !IsAssistantMessage(v) {
      return output;
    }
    if Get(v, "delta") == Some(JBool(true)) {
      return output + StringOrEmpty(v, "content");
    }
    var suffix := ComputeMessageSuffix(output, StringOrEmpty(v, "content"));
    return output + suffix;
  }

  method ParseProviderFinalText(provider: Provider, parse: string -> Option<Value>, stdout: string)
    returns (text: string)
    ensures text == FinalText(provider, parse, stdout)
  {
    hide Trim, StripAnsi, PreferredText, GeminiStreamText, SplitLines, GenericText, JoinParagraphs, Dedupe;
    var cleaned := Trim(StripAnsi(stdout));
    if cleaned == "" || provider == Claude {
      return cleaned;
    }
    var wholeDocument := parse(cleaned);
    if wholeDocument.Some? && PreferredText(provider, wholeDocument.value) != "" {
      return PreferredText(provider, wholeDocument.value);
    }
    var linewiseJson := ParseJsonLines(parse, cleaned);
    if provider == Gemini {
      var streamText := ExtractGeminiStreamJsonText(linewiseJson);
      if streamText.Some? {
        return streamText.value;
      }
    }
    var merged := Trim(JoinParagraphs(Dedupe(PreferredTexts(provider, linewiseJson), {})));
    if merged != "" {
      return merged;
    }
    var fallback := if wholeDocument.Some? then GenericText(wholeDocument.value) else "";
    text := if fallback != "" then fallback else cleaned;
  }
}
