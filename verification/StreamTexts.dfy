/** What a codex process streams of each of its messages, record by record. */
module StreamTexts {
  import opened Basics
  import opened Text
  import opened Json
  import opened StreamModel
  import opened ChunkInvariance
  import opened MessageLifecycle
  import opened BatchRefinement
  import opened StreamTrace

  /** The streamed text of a message after a saying: what is added to the message is appended, and a final text that is
      not blank appends what is missing of it. */
  function Grown(text: string, saying: Saying, id: string): string {
    match saying
    case Adds(other, added) => if other == id then text + added else text
    case Ends(other, final) => if other == id && Trim(final) != "" then text + Rest(text, final) else text
    case Opens(_) => text
    case Nothing => text
  }

  predicate IsOf(saying: Saying, id: string) {
    !saying.Nothing? && saying.id == id
  }

  /** The text of a message after some lines: `named` is whether the synthetic message has been named by a record, and
      `ended` whether it has been ended by one. */
  ghost function Spoken(config: Config, id: string, lines: seq<string>, named: bool, ended: bool, text: string): string
    decreases |lines|
  {
    if lines == [] then text
    else
      match config.parse(lines[0])
      case None => Spoken(config, id, lines[1..], named, ended, text)
      case Some(JNull) => text
      case Some(record) =>
        var saying, synthetic := CodexSays(config, named && !ended, record), config.prefix + "message";
        Spoken(config, id, lines[1..], named || IsOf(saying, synthetic),
               ended || (saying.Ends? && saying.id == synthetic), Grown(text, saying, id))
  }

  /** No line is a record that says something. */
  ghost predicate Silent(config: Config, lines: seq<string>) {
    forall i :: 0 <= i < |lines| && config.parse(lines[i]).Some? ==>
                  CodexSays(config, false, config.parse(lines[i]).value).Nothing?
  }

  lemma {:induction false} DeltaTextAdd(out: seq<ChatEvent>, more: seq<ChatEvent>, id: string)
    ensures DeltaText(out + more, id) == DeltaText(out, id) + DeltaText(more, id)
    decreases |more|
  {
    if more == [] {
      assert out + more == out;
    } else {
      var n := |more| - 1;
      assert (out + more)[..|out + more| - 1] == out + more[..n];
      DeltaTextAdd(out, more[..n], id);
    }
  }

  lemma DeltaTextOf(event: ChatEvent, id: string)
    ensures DeltaText([event], id) == if event.Delta? && event.id == id then event.text else ""
  {
    assert [event][..0] == [];
  }

  lemma OpeningSaysNothing(out: seq<ChatEvent>, target: string, id: string)
    ensures DeltaText(Opening(out, target), id) == ""
  {
    DeltaTextOf(Started(target), id);
  }

  lemma CatchingSays(out: seq<ChatEvent>, target: string, text: string, id: string)
    ensures DeltaText(Catching(out, target, text), id) == if target == id then Rest(DeltaText(out, id), text) else ""
  {
    hide Rest;
    DeltaTextOf(Delta(target, Rest(DeltaText(out, target), text)), id);
  }

  /** A saying changes the text of its own message alone, by exactly what it adds. */
  lemma SayingTexts(out: seq<ChatEvent>, saying: Saying, id: string)
    ensures DeltaText(out + SaidEvents(out, saying), id) == Grown(DeltaText(out, id), saying, id)
  {
    hide DeltaText, Opening, Catching, Rest, Trim, Blank;
    DeltaTextAdd(out, SaidEvents(out, saying), id);
    match saying
    case Opens(target) => OpeningSaysNothing(out, target, id);
    case Adds(target, text) =>
      OpeningSaysNothing(out, target, id);
      DeltaTextOf(Delta(target, text), id);
      DeltaTextAdd(Opening(out, target), [Delta(target, text)], id);
    case Ends(target, text) =>
      TrimBlank(text);
      OpeningSaysNothing(out, target, id);
      CatchingSays(out, target, text, id);
      DeltaTextOf(Completed(target), id);
      var caught := if Blank(text) then [] else Catching(out, target, text);
      NothingSays(id);
      DeltaTextAdd(Opening(out, target) + caught, [Completed(target)], id);
      DeltaTextAdd(Opening(out, target), caught, id);
    case Nothing => NothingSays(id);
  }

  lemma NothingSays(id: string)
    ensures DeltaText([], id) == ""
  {
  }

  /** A final text that is not blank is contained in the streamed text, and begins it, exactly when it could be compared
      with what was streamed before; nothing streamed is lost, and a message without text becomes the final one. */
  lemma FinalTextHeld(out: seq<ChatEvent>, id: string, text: string)
    requires !Blank(text)
    ensures var before, after := DeltaText(out, id), DeltaText(out + SaidEvents(out, Ends(id, text)), id);
            && before <= after
            && (text <= after <==> Comparable(before, text))
            && (before == "" ==> after == text)
            && (before <= text ==> after == text)
  {
    hide SaidEvents, DeltaText;
    var before := DeltaText(out, id);
    SayingTexts(out, Ends(id, text), id);
    TrimBlank(text);
    SuffixIsRest(before, text);
    SuffixRepairs(before, text);
    if before <= text {
      assert SharedPrefix(before, text) == |before|;
    }
  }

  lemma SayingNames(out: seq<ChatEvent>, saying: Saying, id: string)
    ensures var after := out + SaidEvents(out, saying);
            && (Started(id) in after <==> Started(id) in out || IsOf(saying, id))
            && (Completed(id) in after <==> Completed(id) in out || (saying.Ends? && saying.id == id))
            && (after == [] <==> out == [] && saying.Nothing?)
  {
    hide Rest, Blank, DeltaText;
  }

  lemma {:induction false} TraceTexts(config: Config, out: seq<ChatEvent>, lines: seq<string>, id: string)
    requires config.provider == Codex
    ensures var synthetic := config.prefix + "message";
            DeltaText(Trace(config, out, lines), id) ==
            Spoken(config, id, lines, Started(synthetic) in out, Completed(synthetic) in out, DeltaText(out, id))
    decreases |lines|
  {
    hide SaidEvents, CodexSays, DeltaText, Grown, IsOf;
    if lines != [] {
      var parsed, synthetic := config.parse(lines[0]), config.prefix + "message";
      if parsed.Some? && parsed.value != JNull {
        var saying := CodexSays(config, SyntheticOpen(config, out), parsed.value);
        SayingTexts(out, saying, id);
        SayingNames(out, saying, synthetic);
        TraceTexts(config, out + SaidEvents(out, saying), lines[1..], id);
      } else if parsed.None? {
        TraceTexts(config, out, lines[1..], id);
      }
    }
  }

  lemma NothingEitherWay(config: Config, open: bool, record: Value)
    ensures CodexSays(config, open, record).Nothing? <==> CodexSays(config, false, record).Nothing?
  {
  }

  lemma {:induction false} TraceSilent(config: Config, out: seq<ChatEvent>, lines: seq<string>)
    requires config.provider == Codex && forall i :: 0 <= i < |lines| ==> config.parse(lines[i]) != Some(JNull)
    ensures Trace(config, out, lines) == [] <==> out == [] && Silent(config, lines)
    decreases |lines|
  {
    hide SaidEvents, CodexSays;
    if lines != [] {
      var parsed := config.parse(lines[0]);
      assert lines == [lines[0]] + lines[1..];
      if parsed.Some? {
        var open := SyntheticOpen(config, out);
        var saying := CodexSays(config, open, parsed.value);
        SayingNames(out, saying, "");
        NothingEitherWay(config, open, parsed.value);
        TraceSilent(config, out + SaidEvents(out, saying), lines[1..]);
      } else {
        TraceSilent(config, out, lines[1..]);
      }
    }
  }

  lemma {:induction false} CompletionsSayNothing(ids: seq<string>, id: string)
    ensures DeltaText(Completions(ids), id) == ""
    decreases |ids|
  {
    if ids != [] {
      CompletionsSayNothing(ids[..|ids| - 1], id);
      assert Completions(ids)[..|ids| - 1] == Completions(ids[..|ids| - 1]);
    }
  }

  lemma ClosedTexts(config: Config, out: seq<ChatEvent>, stdout: string, id: string)
    ensures DeltaText(ClosedTrace(config, out, stdout), id) ==
            if out == [] && id == config.prefix + "message" then FinalText(config.provider, config.parse, stdout)
            else DeltaText(out, id)
  {
    hide FinalText, DeltaText, Completions;
    var synthetic, text := config.prefix + "message", FinalText(config.provider, config.parse, stdout);
    NothingSays(id);
    if out != [] {
      DeltaTextAdd(out, Completions(OpenIds(out)), id);
      CompletionsSayNothing(OpenIds(out), id);
    } else if text != "" {
      DeltaTextOf(Started(synthetic), id);
      DeltaTextOf(Delta(synthetic, text), id);
      DeltaTextOf(Completed(synthetic), id);
      DeltaTextAdd([Started(synthetic)], [Delta(synthetic, text), Completed(synthetic)], id);
      DeltaTextAdd([Delta(synthetic, text)], [Completed(synthetic)], id);
      assert [Started(synthetic)] + [Delta(synthetic, text), Completed(synthetic)] ==
             [Started(synthetic), Delta(synthetic, text), Completed(synthetic)];
      assert [Delta(synthetic, text)] + [Completed(synthetic)] == [Delta(synthetic, text), Completed(synthetic)];
    }
  }

  /** What a whole codex process streams of each message is what its records say of it, in their order, up to the first
      bare JSON null; only a process that was closed and said nothing at all streams the parsed text instead. */
  lemma CodexStreamedText(config: Config, chunks: seq<string>, id: string)
    requires config.provider == Codex
    ensures var stdout, r := Flatten(chunks), RunProcess(config, chunks);
            DeltaText(r.state.core.out, id) ==
            if r.Ok? && Silent(config, MeaningfulLines(stdout)) && id == config.prefix + "message" then
              FinalText(Codex, config.parse, stdout)
            else Spoken(config, id, MeaningfulLines(stdout), false, false, "")
  {
    hide RunProcess, DeltaText, Trace, ClosedTrace, Spoken, MeaningfulLines, FinalText, Silent;
    var stdout := Flatten(chunks);
    var lines := MeaningfulLines(stdout);
    ProcessTrace(config, chunks);
    TraceTexts(config, [], lines, id);
    NothingSays(id);
    var r := RunProcess(config, chunks);
    if r.Ok? {
      NoNullLine(config, chunks);
      TraceSilent(config, [], lines);
      ClosedTexts(config, Trace(config, [], lines), stdout, id);
    }
  }

  lemma NoNullLine(config: Config, chunks: seq<string>)
    requires config.provider == Codex && RunProcess(config, chunks).Ok?
    ensures var lines := MeaningfulLines(Flatten(chunks));
            forall i :: 0 <= i < |lines| ==> config.parse(lines[i]) != Some(JNull)
  {
    StreamIsLineByLine(config, chunks);
    ThrowsOnNullLine(config, INITIAL_CORE, MeaningfulLines(Flatten(chunks)));
  }

  // ---- Claude --------------------------------------------------------------

  /** One delta for each chunk that shows more than white space. */
  function KeptDeltas(id: string, chunks: seq<string>): seq<ChatEvent> {
    if chunks == [] then []
    else
      var text := StripAnsi(chunks[0]);
      (if Trim(text) == "" then [] else [Delta(id, text)]) + KeptDeltas(id, chunks[1..])
  }

  /** The message is open, and these events were emitted. */
  predicate Begun(config: Config, core: Core, out: seq<ChatEvent>) {
    core.plainStarted && config.SyntheticId() !in core.completed && core.out == out
  }

  lemma ClaudeChunkTrace(config: Config, core: Core, chunk: string)
    requires core.plainStarted && config.SyntheticId() !in core.completed
    ensures var text := StripAnsi(chunk);
            Begun(config, ClaudeChunk(config, core, chunk),
                  core.out + if Trim(text) == "" then [] else [Delta(config.SyntheticId(), text)])
  {
    hide StripAnsi, Trim;
    assert core.out + [] == core.out;
  }

  lemma {:induction false} ClaudeFeedTrace(config: Config, p: Processor, chunks: seq<string>, out: seq<ChatEvent>)
    requires config.provider == Claude && Begun(config, p.core, out)
    ensures var r := FeedAll(config, p, chunks);
            r.Ok? && Begun(config, r.state.core, out + KeptDeltas(config.SyntheticId(), chunks))
    decreases |chunks|
  {
    hide StripAnsi, Trim, ClaudeChunk, StreamModel.Config.SyntheticId;
    var id := config.SyntheticId();
    if chunks == [] {
      assert out + [] == out;
    } else {
      var text := StripAnsi(chunks[0]);
      var first := if Trim(text) == "" then [] else [Delta(id, text)];
      ClaudeChunkTrace(config, p.core, chunks[0]);
      ClaudeFeedTrace(config, p.(core := ClaudeChunk(config, p.core, chunks[0])), chunks[1..], out + first);
      assert out + first + KeptDeltas(id, chunks[1..]) == out + KeptDeltas(id, chunks);
    }
  }

  /** The events of a claude process: one message, opened by the first chunk and completed by the close. */
  lemma ClaudeTrace(config: Config, chunks: seq<string>)
    requires config.provider == Claude
    ensures var r, id := RunProcess(config, chunks), config.prefix + "message";
            r.Ok? &&
            r.state.core.out == if chunks == [] then [] else [Started(id)] + KeptDeltas(id, chunks) + [Completed(id)]
  {
    hide StripAnsi, Trim;
    var id := config.SyntheticId();
    if chunks == [] {
      NothingToParse();
      assert RunProcess(config, chunks) == Finalize(config, INITIAL, "");
      assert Close(config, INITIAL_CORE, "") == INITIAL_CORE;
    } else {
      var begun := Processor(Emit(INITIAL_CORE.(plainStarted := true), Started(id)), "");
      assert ClaudeChunk(config, begun.core, chunks[0]) == ClaudeChunk(config, INITIAL_CORE, chunks[0]);
      assert FeedAll(config, INITIAL, chunks) == FeedAll(config, begun, chunks);
      ClaudeFeedTrace(config, begun, chunks, [Started(id)]);
      var core := FeedAll(config, begun, chunks).state.core;
      assert Close(config, core, Flatten(chunks)) == Emit(core, Completed(id));
    }
  }

  lemma NothingToParse()
    ensures Trim(StripAnsi("")) == ""
  {
  }
}
