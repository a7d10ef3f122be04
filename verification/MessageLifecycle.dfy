/** What every stream keeps: each message is started once and first, its text is its deltas, and it ends completed. */
module MessageLifecycle {
  import opened Basics
  import opened Text
  import opened Json
  import opened StreamModel
  import opened ChunkInvariance

  /** The text that the deltas of `id` add up to. */
  function DeltaText(out: seq<ChatEvent>, id: string): string {
    if out == [] then ""
    else
      var last := out[|out| - 1];
      DeltaText(out[..|out| - 1], id) + if last.Delta? && last.id == id then last.text else ""
  }

  /** A message is started at most once, and before anything else is said of it. */
  ghost predicate StartedOnceAndFirst(out: seq<ChatEvent>) {
    out == [] ||
    var before, last := out[..|out| - 1], out[|out| - 1];
    (last.Started? <==> Started(last.id) !in before) && StartedOnceAndFirst(before)
  }

  ghost predicate CompletedAtMostOnce(out: seq<ChatEvent>) {
    out == [] ||
    var before, last := out[..|out| - 1], out[|out| - 1];
    (last.Completed? ==> last !in before) && CompletedAtMostOnce(before)
  }

  ghost predicate AllCompleted(out: seq<ChatEvent>) {
    forall id :: Started(id) in out ==> Completed(id) in out
  }

  /** What the fields of the processor say of a message is what the events it has emitted say: it is active or completed
      once started, completed once a completion is out, and its text is that of its deltas. */
  ghost predicate IdAgrees(core: Core, id: string) {
    && !(id in core.active && id in core.completed)
    && (Started(id) in core.out <==> id in core.active || id in core.completed)
    && (Started(id) in core.out <==> id in core.streamed)
    && (Completed(id) in core.out <==> id in core.completed)
    && (id in core.streamed ==> core.streamed[id] == DeltaText(core.out, id))
  }

  ghost predicate Lifecycle(core: Core) {
    && StartedOnceAndFirst(core.out)
    && Distinct(core.active)
    && (core.emittedAny <==> core.out != [])
    && forall id :: IdAgrees(core, id)
  }

  predicate Known(core: Core, id: string) {
    id in core.active || id in core.completed
  }

  lemma {:induction false} RemoveMembers(ids: seq<string>, id: string)
    ensures forall other :: other in Remove(ids, id) <==> other in ids && other != id
    ensures Distinct(ids) ==> Distinct(Remove(ids, id))
  {
    if ids != [] {
      RemoveMembers(ids[1..], id);
      assert forall other :: other in ids <==> other == ids[0] || other in ids[1..];
      if Distinct(ids) {
        assert forall i :: 0 <= i < |ids[1..]| ==> ids[1..][i] == ids[i + 1];
        assert ids[0] !in ids[1..];
      }
    }
  }

  lemma AppendMembers(out: seq<ChatEvent>, event: ChatEvent)
    ensures forall e :: e in out + [event] <==> e in out || e == event
    ensures (out + [event])[..|out + [event]| - 1] == out
  {
  }

  lemma DeltaTextAppend(out: seq<ChatEvent>, event: ChatEvent, id: string)
    ensures DeltaText(out + [event], id) ==
            DeltaText(out, id) + if event.Delta? && event.id == id then event.text else ""
  {
    assert (out + [event])[..|out + [event]| - 1] == out;
  }

  lemma TraceKeeps(out: seq<ChatEvent>, event: ChatEvent)
    requires StartedOnceAndFirst(out)
    requires event.Started? <==> Started(event.id) !in out
    ensures StartedOnceAndFirst(out + [event])
    ensures CompletedAtMostOnce(out) ==> (CompletedAtMostOnce(out + [event]) <==> !(event.Completed? && event in out))
  {
    AppendMembers(out, event);
  }

  lemma EmitStartedKeeps(core: Core, id: string)
    requires Lifecycle(core) && !Known(core, id)
    ensures var next := Emit(core, Started(id));
            && Lifecycle(next) && Known(next, id)
            && (CompletedAtMostOnce(core.out) ==> CompletedAtMostOnce(next.out))
  {
    hide DeltaText, StartedOnceAndFirst, CompletedAtMostOnce, Distinct;
    var event := Started(id);
    var next := Emit(core, event);
    assert IdAgrees(core, id);
    assert next.active == core.active + [id];
    TraceKeeps(core.out, event);
    AppendMembers(core.out, event);
    NoDeltasBeforeStart(core.out, id);
    DistinctPush(core.active, id);
    forall other ensures IdAgrees(next, other) {
      assert IdAgrees(core, other);
      DeltaTextAppend(core.out, event, other);
    }
  }

  lemma EmitDeltaKeeps(core: Core, id: string, text: string)
    requires Lifecycle(core) && Known(core, id)
    ensures var next := Emit(core, Delta(id, text));
            && Lifecycle(next) && Known(next, id)
            && (CompletedAtMostOnce(core.out) ==> CompletedAtMostOnce(next.out))
  {
    hide DeltaText, StartedOnceAndFirst, CompletedAtMostOnce, Distinct;
    var event := Delta(id, text);
    var next := Emit(core, event);
    assert IdAgrees(core, id);
    TraceKeeps(core.out, event);
    AppendMembers(core.out, event);
    forall other ensures IdAgrees(next, other) {
      assert IdAgrees(core, other);
      DeltaTextAppend(core.out, event, other);
    }
  }

  lemma EmitCompletedKeeps(core: Core, id: string)
    requires Lifecycle(core) && Known(core, id)
    ensures var next := Emit(core, Completed(id));
            && Lifecycle(next) && id in next.completed
            && (CompletedAtMostOnce(core.out) ==> (CompletedAtMostOnce(next.out) <==> id !in core.completed))
  {
    hide DeltaText, StartedOnceAndFirst, CompletedAtMostOnce, Distinct, Remove;
    var event := Completed(id);
    var next := Emit(core, event);
    assert IdAgrees(core, id);
    TraceKeeps(core.out, event);
    AppendMembers(core.out, event);
    RemoveMembers(core.active, id);
    forall other ensures IdAgrees(next, other) {
      assert IdAgrees(core, other);
      DeltaTextAppend(core.out, event, other);
    }
  }

  /** Emitting keeps the agreement as long as only unknown messages are started and only known ones continued. */
  lemma EmitKeeps(core: Core, event: ChatEvent)
    requires Lifecycle(core)
    requires event.Started? <==> !Known(core, event.id)
    ensures Lifecycle(Emit(core, event))
    ensures CompletedAtMostOnce(core.out) ==>
              (CompletedAtMostOnce(Emit(core, event).out) <==> !(event.Completed? && event.id in core.completed))
    ensures forall id :: Known(Emit(core, event), id) <==> Known(core, id) || id == event.id
    ensures Emit(core, event).completed == core.completed + if event.Completed? then {event.id} else {}
  {
    hide Lifecycle, CompletedAtMostOnce;
    match event
    case Started(id) => EmitStartedKeeps(core, id);
    case Delta(id, text) => EmitDeltaKeeps(core, id, text);
    case Completed(id) => EmitCompletedKeeps(core, id); RemoveMembers(core.active, id);
  }

  lemma NothingKnownAtFirst(core: Core)
    requires Lifecycle(core) && !core.emittedAny
    ensures forall id :: !Known(core, id)
  {
    forall id ensures !Known(core, id) {
      assert IdAgrees(core, id);
    }
  }

  lemma AllKnownCompleted(core: Core)
    requires Lifecycle(core)
    requires forall id :: Known(core, id) ==> id in core.completed
    ensures AllCompleted(core.out)
  {
    forall id | Started(id) in core.out ensures Completed(id) in core.out {
      assert IdAgrees(core, id);
    }
  }

  lemma {:induction false} NoDeltasBeforeStart(out: seq<ChatEvent>, id: string)
    requires StartedOnceAndFirst(out)
    requires Started(id) !in out
    ensures DeltaText(out, id) == ""
  {
    if out != [] {
      var n := |out| - 1;
      NoDeltasBeforeStart(out[..n], id);
      assert Started(out[n].id) in out[..n] + [out[n]];
      assert out[..n] + [out[n]] == out;
    }
  }

  lemma EnsureStartedKeeps(core: Core, id: string)
    requires Lifecycle(core)
    ensures var next := EnsureStarted(core, id);
            && Lifecycle(next)
            && Known(next, id)
            && next.completed == core.completed
            && (CompletedAtMostOnce(core.out) ==> CompletedAtMostOnce(next.out))
  {
    if !Known(core, id) {
      EmitKeeps(core, Started(id));
    }
  }

  lemma EmitMissingKeeps(core: Core, id: string, message: string)
    requires Lifecycle(core) && Known(core, id)
    ensures var next := EmitMissing(core, id, message);
            && Lifecycle(next)
            && Known(next, id)
            && next.completed == core.completed
            && (CompletedAtMostOnce(core.out) ==> CompletedAtMostOnce(next.out))
  {
    var suffix := MessageSuffix(StreamedText(core, id), message);
    if suffix != "" {
      EmitKeeps(core, Delta(id, suffix));
    }
  }

  lemma FinishMessageKeeps(core: Core, id: string, text: string)
    requires Lifecycle(core)
    ensures Lifecycle(FinishMessage(core, id, text))
    ensures CompletedAtMostOnce(core.out) ==>
              (CompletedAtMostOnce(FinishMessage(core, id, text).out) <==> id !in core.completed)
  {
    EnsureStartedKeeps(core, id);
    var begun := EnsureStarted(core, id);
    if Trim(text) != "" {
      EmitMissingKeeps(begun, id, text);
      EmitKeeps(EmitMissing(begun, id, text), Completed(id));
    } else {
      EmitKeeps(begun, Completed(id));
    }
  }

  function CodexActionOf(config: Config, core: Core, record: Value): CodexAction {
    DecodeCodex(config, config.SyntheticId() in core.active, record)
  }

  /** A codex record keeps the agreement; it completes a message twice exactly when its target is completed already. */
  lemma CodexEventKeeps(config: Config, core: Core, record: Value)
    requires Lifecycle(core)
    ensures var next, action := CodexEvent(config, core, record), CodexActionOf(config, core, record);
            && Lifecycle(next)
            && (CompletedAtMostOnce(core.out) ==>
                  (CompletedAtMostOnce(next.out) <==> !(action.Finish? && action.id in core.completed)))
  {
    PerformKeeps(core, CodexActionOf(config, core, record));
  }

  lemma PerformKeeps(core: Core, action: CodexAction)
    requires Lifecycle(core)
    ensures Lifecycle(Perform(core, action))
    ensures CompletedAtMostOnce(core.out) ==>
              (CompletedAtMostOnce(Perform(core, action).out) <==> !(action.Finish? && action.id in core.completed))
  {
    hide Lifecycle, CompletedAtMostOnce;
    match action
    case Begin(id) => EnsureStartedKeeps(core, id);
    case Extend(id, delta) =>
      EnsureStartedKeeps(core, id);
      EmitKeeps(EnsureStarted(core, id), Delta(id, delta));
    case Finish(id, text) => FinishMessageKeeps(core, id, text);
    case Ignore =>
  }

  lemma ActiveNotCompleted(core: Core, id: string)
    requires Lifecycle(core) && id in core.active
    ensures id !in core.completed
  {
    assert IdAgrees(core, id);
  }

  /** Gemini completes its one message at most once. */
  lemma GeminiEventKeeps(config: Config, core: Core, record: Value)
    requires Lifecycle(core)
    ensures Lifecycle(GeminiEvent(config, core, record))
    ensures CompletedAtMostOnce(core.out) ==> CompletedAtMostOnce(GeminiEvent(config, core, record).out)
  {
    hide Lifecycle, CompletedAtMostOnce, Emit, EnsureStarted, EmitMissing, IsAssistantMessage;
    var id := config.SyntheticId();
    if IsAssistantMessage(record) {
      EnsureStartedKeeps(core, id);
      var begun := EnsureStarted(core, id);
      var content := StringOrEmpty(record, "content");
      if content != "" {
        if Get(record, "delta") == Some(JBool(true)) {
          EmitKeeps(begun, Delta(id, content));
        } else {
          EmitMissingKeeps(begun, id, content);
        }
      }
    } else if StringOrEmpty(record, "type") == "result" && id in core.active {
      ActiveNotCompleted(core, id);
      EmitKeeps(core, Completed(id));
    }
  }

  lemma LineKeeps(config: Config, core: Core, line: string)
    requires Lifecycle(core)
    ensures Lifecycle(HandleLine(config, core, line).state)
    ensures config.provider != Codex && CompletedAtMostOnce(core.out) ==>
              CompletedAtMostOnce(HandleLine(config, core, line).state.out)
  {
    var parsed := config.parse(line);
    if parsed.Some? {
      if config.provider == Codex {
        if parsed.value != JNull {
          CodexEventKeeps(config, core, parsed.value);
        }
      } else if IsObject(parsed.value) {
        GeminiEventKeeps(config, core, parsed.value);
      }
    }
  }

  lemma {:induction false} LinesKeep(config: Config, core: Core, lines: seq<string>)
    requires Lifecycle(core)
    ensures Lifecycle(HandleLines(config, core, lines).state)
    ensures config.provider != Codex && CompletedAtMostOnce(core.out) ==>
              CompletedAtMostOnce(HandleLines(config, core, lines).state.out)
    decreases |lines|
  {
    if lines != [] {
      LineKeeps(config, core, lines[0]);
      var handled := HandleLine(config, core, lines[0]);
      if handled.Ok? {
        LinesKeep(config, handled.state, lines[1..]);
      }
    }
  }

  /** Completing the active messages one by one leaves none of them open. */
  lemma {:induction false} CompleteEachKeeps(core: Core, ids: seq<string>)
    requires Lifecycle(core)
    requires forall id :: id in ids ==> Known(core, id)
    ensures var next := CompleteEach(core, ids);
            && Lifecycle(next)
            && (CompletedAtMostOnce(core.out) ==> CompletedAtMostOnce(next.out))
            && (forall id :: id in next.completed <==> id in core.completed || id in ids)
            && (forall id :: Known(core, id) <==> Known(next, id))
    decreases |ids|
  {
    if ids != [] {
      var next := if ids[0] in core.completed then core else Emit(core, Completed(ids[0]));
      if ids[0] !in core.completed {
        EmitKeeps(core, Completed(ids[0]));
        RemoveMembers(core.active, ids[0]);
      }
      assert forall id :: id in ids <==> id == ids[0] || id in ids[1..];
      assert forall id :: Known(core, id) <==> Known(next, id);
      CompleteEachKeeps(next, ids[1..]);
    }
  }

  /** Only claude sets the plain-stream flag, and then its one message is the only one. */
  ghost predicate PlainAgrees(config: Config, core: Core) {
    core.plainStarted ==> forall id :: Known(core, id) <==> id == config.SyntheticId()
  }

  lemma CloseCompletesAll(config: Config, core: Core, stdout: string)
    requires Lifecycle(core) && PlainAgrees(config, core)
    ensures var next := Close(config, core, stdout);
            && Lifecycle(next)
            && AllCompleted(next.out)
            && (CompletedAtMostOnce(core.out) ==> CompletedAtMostOnce(next.out))
  {
    hide FinalText, Emit, Lifecycle, CompletedAtMostOnce;
    var id := config.SyntheticId();
    if core.plainStarted && id !in core.completed {
      EmitKeeps(core, Completed(id));
    } else if !core.emittedAny {
      NothingKnownAtFirst(core);
      var text := FinalText(config.provider, config.parse, stdout);
      if text != "" {
        var begun := Emit(core, Started(id));
        EmitKeeps(core, Started(id));
        EmitKeeps(begun, Delta(id, text));
        EmitKeeps(Emit(begun, Delta(id, text)), Completed(id));
      }
    } else {
      CompleteEachKeeps(core, core.active);
    }
    AllKnownCompleted(Close(config, core, stdout));
  }

  lemma LineNotPlain(config: Config, core: Core, line: string)
    ensures HandleLine(config, core, line).state.plainStarted == core.plainStarted
  {
    hide Trim, MessageSuffix, Remove, Insert, IsAssistantMessage, DecodeCodex, IsObject;
  }

  lemma {:induction false} LinesNotPlain(config: Config, core: Core, lines: seq<string>)
    requires !core.plainStarted
    ensures !HandleLines(config, core, lines).state.plainStarted
    decreases |lines|
  {
    hide HandleLine;
    if lines != [] {
      LineNotPlain(config, core, lines[0]);
      if HandleLine(config, core, lines[0]).Ok? {
        LinesNotPlain(config, HandleLine(config, core, lines[0]).state, lines[1..]);
      }
    }
  }

  lemma ClaudeChunkKeeps(config: Config, core: Core, text: string)
    requires Lifecycle(core) && PlainAgrees(config, core) && (core.emittedAny ==> core.plainStarted)
    ensures var next := ClaudeChunk(config, core, text);
            && Lifecycle(next) && PlainAgrees(config, next) && next.plainStarted
            && (CompletedAtMostOnce(core.out) ==> CompletedAtMostOnce(next.out))
  {
    hide StripAnsi, Trim, Lifecycle, CompletedAtMostOnce;
    var id := config.SyntheticId();
    var begun := core;
    if !core.plainStarted {
      FlagKeeps(core);
      NothingKnownAtFirst(core);
      assert forall other :: Known(core.(plainStarted := true), other) <==> Known(core, other);
      EmitKeeps(core.(plainStarted := true), Started(id));
      begun := Emit(core.(plainStarted := true), Started(id));
    }
    var cleaned := StripAnsi(text);
    if Trim(cleaned) != "" {
      EmitKeeps(begun, Delta(id, cleaned));
    }
  }

  lemma FlagKeeps(core: Core)
    requires Lifecycle(core)
    ensures Lifecycle(core.(plainStarted := true))
  {
    forall id ensures IdAgrees(core.(plainStarted := true), id) {
      assert IdAgrees(core, id);
    }
  }

  lemma {:induction false} ClaudeFeedKeeps(config: Config, p: Processor, chunks: seq<string>)
    requires config.provider == Claude
    requires Lifecycle(p.core) && PlainAgrees(config, p.core) && (p.core.emittedAny ==> p.core.plainStarted)
    requires CompletedAtMostOnce(p.core.out)
    ensures var r := FeedAll(config, p, chunks);
            && r.Ok? && Lifecycle(r.state.core) && PlainAgrees(config, r.state.core)
            && CompletedAtMostOnce(r.state.core.out)
    decreases |chunks|
  {
    if chunks != [] {
      ClaudeChunkKeeps(config, p.core, chunks[0]);
      var next := p.(core := ClaudeChunk(config, p.core, chunks[0]));
      assert HandleStdout(config, p, chunks[0]) == Ok(next);
      ClaudeFeedKeeps(config, next, chunks[1..]);
      assert FeedAll(config, p, chunks) == FeedAll(config, next, chunks[1..]);
    }
  }

  /** The lifecycle of every message in every stream of every provider. */
  lemma StreamLifecycle(config: Config, chunks: seq<string>)
    ensures var r := RunProcess(config, chunks);
            && Lifecycle(r.state.core)
            && (r.Ok? ==> AllCompleted(r.state.core.out))
            && (config.provider != Codex ==> CompletedAtMostOnce(r.state.core.out))
  {
    hide Lifecycle, CompletedAtMostOnce, AllCompleted, Close;
    EmptyLifecycle();
    if config.provider == Claude {
      ClaudeFeedKeeps(config, INITIAL, chunks);
      CloseCompletesAll(config, FeedAll(config, INITIAL, chunks).state.core, Flatten(chunks));
    } else {
      var lines := MeaningfulLines(Flatten(chunks));
      StreamIsLineByLine(config, chunks);
      LinesKeep(config, INITIAL_CORE, lines);
      LinesNotPlain(config, INITIAL_CORE, lines);
      var handled := HandleLines(config, INITIAL_CORE, lines);
      if handled.Ok? {
        CloseCompletesAll(config, handled.state, Flatten(chunks));
      }
    }
  }

  lemma EmptyLifecycle()
    ensures Lifecycle(INITIAL_CORE) && CompletedAtMostOnce(INITIAL_CORE.out)
  {
  }

  // ---- Codex completions ---------------------------------------------------

  /** The ids that the records of a codex stream finish, read off the records alone: `open` is whether the synthetic
      message is open and `done` whether it has been finished. */
  function FinishedIds(config: Config, open: bool, done: bool, lines: seq<string>): seq<string>
    decreases |lines|
  {
    if lines == [] then []
    else
      match config.parse(lines[0])
      case None => FinishedIds(config, open, done, lines[1..])
      case Some(JNull) => []
      case Some(record) =>
        match DecodeCodex(config, open, record)
        case Begin(id) => FinishedIds(config, open || (id == config.SyntheticId() && !done), done, lines[1..])
        case Extend(id, _) => FinishedIds(config, open || (id == config.SyntheticId() && !done), done, lines[1..])
        case Finish(id, _) =>
          [id] + FinishedIds(config, open && id != config.SyntheticId(), done || id == config.SyntheticId(), lines[1..])
        case Ignore => FinishedIds(config, open, done, lines[1..])
  }

  lemma {:induction false} OncePrefix(out: seq<ChatEvent>, longer: seq<ChatEvent>)
    requires out <= longer && CompletedAtMostOnce(longer)
    ensures CompletedAtMostOnce(out)
    decreases |longer|
  {
    if |out| < |longer| {
      assert out <= longer[..|longer| - 1];
      OncePrefix(out, longer[..|longer| - 1]);
    } else {
      assert out == longer;
    }
  }

  lemma PerformGrows(core: Core, action: CodexAction)
    ensures core.out <= Perform(core, action).out
  {
    hide Trim, MessageSuffix, Remove, Insert;
  }

  lemma {:induction false} CodexLinesGrow(config: Config, core: Core, lines: seq<string>)
    requires config.provider == Codex
    ensures core.out <= HandleLines(config, core, lines).state.out
    decreases |lines|
  {
    hide Perform, DecodeCodex;
    if lines != [] {
      var parsed := config.parse(lines[0]);
      if parsed.Some? && parsed.value != JNull {
        PerformGrows(core, CodexActionOf(config, core, parsed.value));
      }
      if HandleLine(config, core, lines[0]).Ok? {
        CodexLinesGrow(config, HandleLine(config, core, lines[0]).state, lines[1..]);
      }
    }
  }

  /** What an action does to the ids that are active and completed. */
  lemma PerformIds(core: Core, action: CodexAction, id: string)
    requires Lifecycle(core)
    ensures var next := Perform(core, action);
            match action
            case Begin(target) =>
              next.completed == core.completed &&
              (id in next.active <==> id in core.active || (id == target && id !in core.completed))
            case Extend(target, _) =>
              next.completed == core.completed &&
              (id in next.active <==> id in core.active || (id == target && id !in core.completed))
            case Finish(target, _) =>
              next.completed == core.completed + {target} && (id in next.active <==> id in core.active && id != target)
            case Ignore => next == core
  {
    hide Trim, MessageSuffix, Lifecycle;
    match action
    case Begin(target) =>
    case Extend(target, _) =>
    case Finish(target, _) =>
      var begun := EnsureStarted(core, target);
      RemoveMembers(begun.active, target);
    case Ignore =>
  }

  ghost predicate AllNew(ids: seq<string>, completed: set<string>) {
    Distinct(ids) && forall id :: id in ids ==> id !in completed
  }

  lemma NothingIsNew(completed: set<string>)
    ensures AllNew([], completed)
  {
  }

  lemma FirstIsNew(id: string, ids: seq<string>, completed: set<string>)
    ensures AllNew([id] + ids, completed) <==> id !in completed && AllNew(ids, completed + {id})
  {
    var all := [id] + ids;
    assert forall i :: 0 <= i < |ids| ==> all[i + 1] == ids[i];
    assert forall other :: other in all <==> other == id || other in ids;
    if Distinct(all) {
      forall i | 0 <= i < |ids| ensures ids[i] != id {
        assert all[0] != all[i + 1];
      }
      forall i, j | 0 <= i < j < |ids| ensures ids[i] != ids[j] {
        assert all[i + 1] != all[j + 1];
      }
    }
  }

  /** A record's action, and what the reading of the records makes of it. */
  lemma FinishedIdsStep(config: Config, core: Core, lines: seq<string>, record: Value)
    requires config.provider == Codex && Lifecycle(core)
    requires lines != [] && config.parse(lines[0]) == Some(record) && record != JNull
    ensures var id, next := config.SyntheticId(), CodexEvent(config, core, record);
            var rest := FinishedIds(config, id in next.active, id in next.completed, lines[1..]);
            var action := CodexActionOf(config, core, record);
            FinishedIds(config, id in core.active, id in core.completed, lines) ==
            if action.Finish? then [action.id] + rest else rest
  {
    hide Lifecycle, DecodeCodex, Perform;
    PerformIds(core, CodexActionOf(config, core, record), config.SyntheticId());
  }

  lemma {:induction false} CodexLinesOnce(config: Config, core: Core, lines: seq<string>)
    requires config.provider == Codex && Lifecycle(core) && CompletedAtMostOnce(core.out)
    ensures var id := config.SyntheticId();
            CompletedAtMostOnce(HandleLines(config, core, lines).state.out) <==>
            AllNew(FinishedIds(config, id in core.active, id in core.completed, lines), core.completed)
    decreases |lines|
  {
    hide Lifecycle, CompletedAtMostOnce, AllNew, DecodeCodex, Perform;
    if lines == [] {
      NothingIsNew(core.completed);
    } else {
      var parsed := config.parse(lines[0]);
      if parsed.None? {
        CodexLinesOnce(config, core, lines[1..]);
      } else if parsed.value == JNull {
        NothingIsNew(core.completed);
      } else {
        var next, action := CodexEvent(config, core, parsed.value), CodexActionOf(config, core, parsed.value);
        CodexEventKeeps(config, core, parsed.value);
        PerformIds(core, action, config.SyntheticId());
        FinishedIdsStep(config, core, lines, parsed.value);
        var id := config.SyntheticId();
        var rest := FinishedIds(config, id in next.active, id in next.completed, lines[1..]);
        if action.Finish? {
          FirstIsNew(action.id, rest, core.completed);
        }
        if CompletedAtMostOnce(next.out) {
          CodexLinesOnce(config, next, lines[1..]);
        } else {
          CodexLinesGrow(config, next, lines[1..]);
          if CompletedAtMostOnce(HandleLines(config, core, lines).state.out) {
            OncePrefix(next.out, HandleLines(config, core, lines).state.out);
          }
        }
      }
    }
  }

  lemma {:induction false} CompletingGrows(core: Core, ids: seq<string>)
    ensures core.out <= CompleteEach(core, ids).out
    decreases |ids|
  {
    if ids != [] {
      CompletingGrows(if ids[0] in core.completed then core else Emit(core, Completed(ids[0])), ids[1..]);
    }
  }

  lemma CloseGrows(config: Config, core: Core, stdout: string)
    ensures core.out <= Close(config, core, stdout).out
  {
    hide FinalText, Remove;
    CompletingGrows(core, core.active);
  }

  /** A whole codex process completes no message twice if and only if its records finish different messages. */
  lemma CodexCompletesOnce(config: Config, chunks: seq<string>)
    requires config.provider == Codex
    ensures CompletedAtMostOnce(RunProcess(config, chunks).state.core.out) <==>
            Distinct(FinishedIds(config, false, false, MeaningfulLines(Flatten(chunks))))
  {
    hide Lifecycle, CompletedAtMostOnce, AllCompleted, Close, FinishedIds, Distinct;
    var lines := MeaningfulLines(Flatten(chunks));
    EmptyLifecycle();
    StreamIsLineByLine(config, chunks);
    LinesKeep(config, INITIAL_CORE, lines);
    LinesNotPlain(config, INITIAL_CORE, lines);
    CodexLinesOnce(config, INITIAL_CORE, lines);
    var handled := HandleLines(config, INITIAL_CORE, lines);
    if handled.Ok? {
      var closed := Close(config, handled.state, Flatten(chunks));
      CloseCompletesAll(config, handled.state, Flatten(chunks));
      CloseGrows(config, handled.state, Flatten(chunks));
      if CompletedAtMostOnce(closed.out) {
        OncePrefix(handled.state.out, closed.out);
      }
    }
  }

  /** A codex process that prints one completion record of a message twice completes the message twice. `line` is the
      record's text. */
  lemma CodexCompletesTwice(config: Config, line: string)
    requires config.provider == Codex
    requires Trim(line) == line != "" && '\n' !in line
    requires config.parse(line) == Some(JObj(map["type" := JStr("message.completed"), "text" := JStr("")]))
    ensures var id := config.SyntheticId();
            RunProcess(config, [line + "\n" + line + "\n"]).state.core.out ==
            [Started(id), Completed(id), Completed(id)]
  {
    hide CodexEvent, FinishMessage, Trim, MeaningfulLines, Close, Drain, FeedAll;
    var record := config.parse(line).value;
    var stdout := line + "\n" + line + "\n";
    assert Flatten([stdout]) == stdout by {
      assert [stdout][1..] == [] && stdout + "" == stdout;
    }
    TwoLines(line);
    StreamIsLineByLine(config, [stdout]);
    var first := CodexEvent(config, INITIAL_CORE, record);
    CodexDone(config, INITIAL_CORE, record);
    CodexDone(config, first, record);
    var second := CodexEvent(config, first, record);
    FinishTwice(config.SyntheticId());
    assert [line, line][1..] == [line] && [line][1..] == [];
    assert HandleLines(config, first, [line]) == HandleLines(config, second, []);
    assert HandleLines(config, INITIAL_CORE, [line, line]) == Ok(second);
    NothingToClose(config, second, stdout);
  }

  lemma NothingToClose(config: Config, core: Core, stdout: string)
    requires !core.plainStarted && core.emittedAny && core.active == []
    ensures Close(config, core, stdout) == core
  {
  }

  lemma TwoLines(line: string)
    requires Trim(line) == line != "" && '\n' !in line
    ensures MeaningfulLines(line + "\n" + line + "\n") == [line, line]
  {
    hide Trim, MeaningfulLines;
    NoLine();
    OneLine(line, "");
    assert line + "\n" + "" == line + "\n";
    OneLine(line, line + "\n");
    assert line + "\n" + line + "\n" == line + "\n" + (line + "\n");
    assert [line] + [] == [line];
  }

  lemma NoLine()
    ensures MeaningfulLines("") == []
  {
    TrimBlank("");
  }

  lemma OneLine(line: string, rest: string)
    requires Trim(line) == line != "" && '\n' !in line
    ensures MeaningfulLines(line + "\n" + rest) == [line] + MeaningfulLines(rest)
  {
    hide Trim;
    var s := line + "\n" + rest;
    assert s == line + ("\n" + rest);
    NewlineIndexAppend(line, "\n" + rest);
    assert NewlineIndex(s) == |line|;
    assert s[..|line|] == line && s[|line| + 1..] == rest;
  }

  lemma FinishTwice(id: string)
    ensures FinishMessage(FinishMessage(INITIAL_CORE, id, ""), id, "").out ==
            [Started(id), Completed(id), Completed(id)]
    ensures var core := FinishMessage(FinishMessage(INITIAL_CORE, id, ""), id, "");
            !core.plainStarted && core.emittedAny && core.active == []
  {
    var first := FinishMessage(INITIAL_CORE, id, "");
    assert Trim("") == "";
    assert first.out == [Started(id), Completed(id)] && id in first.completed;
    var begun := Emit(INITIAL_CORE, Started(id));
    assert begun.active == [id] && [id][1..] == [];
    assert Remove([id], id) == [];
    assert first.active == [];
  }

  lemma CodexDone(config: Config, core: Core, record: Value)
    requires record == JObj(map["type" := JStr("message.completed"), "text" := JStr("")])
    ensures CodexEvent(config, core, record) == FinishMessage(core, config.SyntheticId(), "")
  {
    hide IsDone, EndsWith, FinishMessage;
    CompletionType();
    assert StringOrEmpty(record, "type") == "message.completed";
    assert InferCodexId(record) == None;
  }

  lemma CompletionType()
    ensures IsDone("message.completed") && !EndsWith("message.completed", "output_text.delta")
    ensures "message.completed" !in ["turn.started", "item.started", "item.completed"]
  {
    var t := "message.completed";
    assert t[0..] == t;
    assert t[0..][0] != "output_text.delta"[0];
    assert t[0] != "turn.started"[0] && t[0] != "item.started"[0] && t[0] != "item.completed"[0];
  }
}
