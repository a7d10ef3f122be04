/** How a stdout text is cut into chunks does not matter to codex and gemini, and when it does to claude. */
module ChunkInvariance {
  import opened Basics
  import opened Text
  import opened Json
  import opened StreamModel

  /** What a run amounts to: the events in order, the messages they left behind, and whether a call threw. */
  datatype Observation = Observation(core: Core, threw: bool)

  function Observe(r: Outcome<Processor>): Observation {
    Observation(r.state.core, r.Threw?)
  }

  /** The trimmed non-blank lines of a text, its last unterminated line included. */
  function MeaningfulLines(s: string): seq<string>
    decreases |s|
  {
    var i := NewlineIndex(s);
    var line := Trim(if i < 0 then s else s[..i]);
    (if line == "" then [] else [line]) + if i < 0 then [] else MeaningfulLines(s[i + 1..])
  }

  function HandleLines(config: Config, core: Core, lines: seq<string>): Outcome<Core>
    decreases |lines|
  {
    if lines == [] then Ok(core)
    else
      match HandleLine(config, core, lines[0])
      case Ok(next) => HandleLines(config, next, lines[1..])
      case Threw(next) => Threw(next)
  }

  /** The independent reading of a stream: no chunks and no buffer, one line after the other, then the close. */
  function Reference(config: Config, stdout: string): Observation {
    match HandleLines(config, INITIAL_CORE, MeaningfulLines(stdout))
    case Ok(core) => Observation(Close(config, core, stdout), false)
    case Threw(core) => Observation(core, true)
  }

  /** Draining a text and then more of it is draining both at once. */
  lemma {:induction false} DrainAppend(config: Config, core: Core, a: string, b: string)
    ensures var r := Drain(config, core, a);
            Drain(config, core, a + b) ==
            if r.Ok? then Drain(config, r.state.core, r.state.buffer + b)
            else Threw(Processor(r.state.core, r.state.buffer + b))
    decreases |a|
  {
    var i := NewlineIndex(a);
    NewlineIndexAppend(a, b);
    if i >= 0 {
      assert (a + b)[..i] == a[..i];
      assert (a + b)[i + 1..] == a[i + 1..] + b;
      var line := Trim(a[..i]);
      if line == "" {
        DrainAppend(config, core, a[i + 1..], b);
      } else {
        var handled := HandleLine(config, core, line);
        if handled.Ok? {
          DrainAppend(config, handled.state, a[i + 1..], b);
        }
      }
    }
  }

  lemma DrainNothing(config: Config, core: Core, buffer: string)
    requires '\n' !in buffer
    ensures Drain(config, core, buffer) == Ok(Processor(core, buffer))
  {
    assert NewlineIndex(buffer) < 0;
  }

  /** Feeding chunks is draining their concatenation. */
  lemma {:induction false} FeedAllIsDrain(config: Config, p: Processor, chunks: seq<string>)
    requires config.provider != Claude
    requires '\n' !in p.buffer
    ensures var fed, drained := FeedAll(config, p, chunks), Drain(config, p.core, p.buffer + Flatten(chunks));
            && Observe(fed) == Observe(drained)
            && (fed.Ok? ==> fed == drained)
    decreases |chunks|
  {
    hide Drain, NewlineIndex;
    if chunks == [] {
      assert p.buffer + Flatten(chunks) == p.buffer;
      DrainNothing(config, p.core, p.buffer);
    } else {
      var first, rest := p.buffer + chunks[0], Flatten(chunks[1..]);
      DrainAppend(config, p.core, first, rest);
      var next := Drain(config, p.core, first);
      assert HandleStdout(config, p, chunks[0]) == next;
      assert p.buffer + Flatten(chunks) == first + rest;
      if next.Ok? {
        FeedAllIsDrain(config, next.state, chunks[1..]);
        assert FeedAll(config, p, chunks) == FeedAll(config, next.state, chunks[1..]);
      } else {
        assert FeedAll(config, p, chunks) == next;
      }
    }
  }

  /** Draining a text and handling the rest of the buffer is handling its lines. */
  lemma {:induction false} DrainIsLines(config: Config, core: Core, s: string)
    ensures var r, lines := Drain(config, core, s), HandleLines(config, core, MeaningfulLines(s));
            if r.Threw? then lines == Threw(r.state.core)
            else if Trim(r.state.buffer) == "" then lines == Ok(r.state.core)
            else lines == HandleLine(config, r.state.core, Trim(r.state.buffer))
    decreases |s|
  {
    hide HandleLine, Trim, NewlineIndex;
    var i := NewlineIndex(s);
    var line := Trim(if i < 0 then s else s[..i]);
    if i < 0 {
      assert MeaningfulLines(s) == if line == "" then [] else [line];
      if line != "" {
        var handled := HandleLine(config, core, line);
        assert HandleLines(config, core, [line]) == handled by {
          assert [line][1..] == [];
        }
      }
    } else if line == "" {
      assert MeaningfulLines(s) == MeaningfulLines(s[i + 1..]);
      DrainIsLines(config, core, s[i + 1..]);
    } else {
      var handled := HandleLine(config, core, line);
      assert MeaningfulLines(s)[0] == line && MeaningfulLines(s)[1..] == MeaningfulLines(s[i + 1..]);
      if handled.Ok? {
        DrainIsLines(config, handled.state, s[i + 1..]);
      }
    }
  }

  /** The events of a whole process are those of the lines of its stdout, whatever the chunks. */
  lemma StreamIsLineByLine(config: Config, chunks: seq<string>)
    requires config.provider != Claude
    ensures Observe(RunProcess(config, chunks)) == Reference(config, Flatten(chunks))
  {
    FeedAllIsDrain(config, INITIAL, chunks);
    assert "" + Flatten(chunks) == Flatten(chunks);
    DrainIsLines(config, INITIAL_CORE, Flatten(chunks));
  }

  lemma ChunkInvariance(config: Config, chunks: seq<string>, others: seq<string>)
    requires config.provider != Claude
    requires Flatten(chunks) == Flatten(others)
    ensures Observe(RunProcess(config, chunks)) == Observe(RunProcess(config, others))
  {
    StreamIsLineByLine(config, chunks);
    StreamIsLineByLine(config, others);
  }

  /** A stream throws exactly when one of its lines is a bare JSON null, and then for codex only. */
  lemma {:induction false} ThrowsOnNullLine(config: Config, core: Core, lines: seq<string>)
    ensures HandleLines(config, core, lines).Threw? <==>
            config.provider == Codex && exists i :: 0 <= i < |lines| && config.parse(lines[i]) == Some(JNull)
    decreases |lines|
  {
    if lines != [] {
      var handled := HandleLine(config, core, lines[0]);
      if handled.Ok? {
        ThrowsOnNullLine(config, handled.state, lines[1..]);
        if i :| 0 <= i < |lines| && config.parse(lines[i]) == Some(JNull) && config.provider == Codex {
          assert lines[1..][i - 1] == lines[i];
        }
        if i :| 0 <= i < |lines[1..]| && config.parse(lines[1..][i]) == Some(JNull) {
          assert lines[i + 1] == lines[1..][i];
        }
      }
    }
  }

  // ---- Claude --------------------------------------------------------------

  /** What one chunk adds to the streamed text. */
  function Kept(chunk: string): string {
    if Trim(StripAnsi(chunk)) == "" then "" else StripAnsi(chunk)
  }

  function KeptText(chunks: seq<string>): string {
    if chunks == [] then "" else Kept(chunks[0]) + KeptText(chunks[1..])
  }

  function VisibleText(chunks: seq<string>): string {
    if chunks == [] then "" else StripAnsi(chunks[0]) + VisibleText(chunks[1..])
  }

  /** A chunk whose visible text is non-empty white space: the stream loses it. */
  predicate IsDropped(chunk: string) {
    StripAnsi(chunk) != "" && Trim(StripAnsi(chunk)) == ""
  }

  lemma ClaudeChunkAdds(config: Config, core: Core, chunk: string)
    ensures var next := ClaudeChunk(config, core, chunk);
            && StreamedText(next, config.SyntheticId()) == StreamedText(core, config.SyntheticId()) + Kept(chunk)
            && next.plainStarted
            && next.completed == core.completed
  {
    var id := config.SyntheticId();
    var begun := if core.plainStarted then core else Emit(core.(plainStarted := true), Started(id));
    assert StreamedText(begun, id) == StreamedText(core, id);
  }

  lemma {:induction false} ClaudeFeed(config: Config, p: Processor, chunks: seq<string>)
    requires config.provider == Claude
    ensures var r := FeedAll(config, p, chunks);
            && r.Ok?
            && StreamedText(r.state.core, config.SyntheticId()) ==
               StreamedText(p.core, config.SyntheticId()) + KeptText(chunks)
            && r.state.core.plainStarted == (p.core.plainStarted || chunks != [])
            && r.state.core.completed == p.core.completed
            && (chunks == [] ==> r.state == p)
    decreases |chunks|
  {
    hide StripAnsi;
    hide ClaudeChunk;
    hide StreamedText;
    var before := StreamedText(p.core, config.SyntheticId());
    if chunks == [] {
      assert before + "" == before;
    } else {
      ClaudeChunkAdds(config, p.core, chunks[0]);
      var next := p.(core := ClaudeChunk(config, p.core, chunks[0]));
      assert HandleStdout(config, p, chunks[0]) == Ok(next);
      ClaudeFeed(config, next, chunks[1..]);
      assert FeedAll(config, p, chunks) == FeedAll(config, next, chunks[1..]);
      assert before + (Kept(chunks[0]) + KeptText(chunks[1..])) == before + Kept(chunks[0]) + KeptText(chunks[1..]);
    }
  }

  /** The streamed text of a whole claude process is what its chunks keep. */
  lemma ClaudeStreams(config: Config, chunks: seq<string>)
    requires config.provider == Claude
    ensures var r := RunProcess(config, chunks);
            r.Ok? && StreamedText(r.state.core, config.SyntheticId()) == KeptText(chunks)
  {
    ClaudeFeed(config, INITIAL, chunks);
    if chunks == [] {
      assert StripAnsi("") == "" && Trim("") == "";
      assert RunProcess(config, chunks) == Finalize(config, INITIAL, "");
      assert Close(config, INITIAL_CORE, "") == INITIAL_CORE;
    } else {
      var core := FeedAll(config, INITIAL, chunks).state.core;
      assert Close(config, core, Flatten(chunks)) == Emit(core, Completed(config.SyntheticId()));
    }
  }

  lemma {:induction false} KeptTextExact(chunks: seq<string>)
    ensures |KeptText(chunks)| <= |VisibleText(chunks)|
    ensures KeptText(chunks) == VisibleText(chunks) <==> forall chunk :: chunk in chunks ==> !IsDropped(chunk)
  {
    if chunks != [] {
      KeptTextExact(chunks[1..]);
      var kept, visible := KeptText(chunks[1..]), VisibleText(chunks[1..]);
      if IsDropped(chunks[0]) {
        assert |KeptText(chunks)| < |VisibleText(chunks)|;
      } else {
        var first := StripAnsi(chunks[0]);
        assert Kept(chunks[0]) == first;
        assert first + kept == first + visible <==> kept == visible by {
          if first + kept == first + visible {
            assert kept == (first + kept)[|first|..] == (first + visible)[|first|..] == visible;
          }
        }
        assert forall chunk :: chunk in chunks <==> chunk == chunks[0] || chunk in chunks[1..];
      }
    }
  }

  /** Claude streams what each chunk shows by itself exactly when no chunk shows white space alone. */
  lemma ClaudeTextExact(config: Config, chunks: seq<string>)
    requires config.provider == Claude
    ensures StreamedText(RunProcess(config, chunks).state.core, config.SyntheticId()) == VisibleText(chunks) <==>
            forall chunk :: chunk in chunks ==> !IsDropped(chunk)
  {
    ClaudeStreams(config, chunks);
    KeptTextExact(chunks);
  }

  /** A text without escape characters is visible as it is. */
  lemma {:induction false} PlainIsVisible(s: string)
    requires '\U{001B}' !in s
    ensures StripAnsi(s) == s
  {
    if s != "" {
      assert s[0] in s;
      PlainIsVisible(s[1..]);
      assert s == [s[0]] + s[1..];
    }
  }

  lemma {:induction false} PlainChunks(chunks: seq<string>)
    requires forall chunk :: chunk in chunks ==> '\U{001B}' !in chunk
    ensures VisibleText(chunks) == Flatten(chunks)
  {
    if chunks != [] {
      PlainIsVisible(chunks[0]);
      PlainChunks(chunks[1..]);
    }
  }

  const CUT := ["a", " ", "b"]
  const WHOLE := ["a b"]

  lemma CutsOfOneText()
    ensures Flatten(CUT) == Flatten(WHOLE)
  {
    assert CUT[1..] == [" ", "b"] && CUT[1..][1..] == ["b"];
    assert Flatten(["b"]) == "b" + "" == "b";
    assert Flatten([" ", "b"]) == " " + "b" == " b";
  }

  lemma OnlyTheCutDropsAChunk()
    ensures IsDropped(CUT[1]) && !IsDropped(WHOLE[0])
  {
    PlainIsVisible(" ");
    TrimBlank(" ");
    PlainIsVisible("a b");
    TrimBlank("a b");
    assert !IsSpace("a b"[0]);
  }

  /** Two cuts of one text that claude streams differently. */
  lemma ClaudeDependsOnChunks(config: Config)
    requires config.provider == Claude
    ensures Flatten(CUT) == Flatten(WHOLE)
    ensures StreamedText(RunProcess(config, WHOLE).state.core, config.SyntheticId()) == Flatten(WHOLE)
    ensures StreamedText(RunProcess(config, CUT).state.core, config.SyntheticId()) != Flatten(CUT)
  {
    hide RunProcess;
    hide StripAnsi;
    CutsOfOneText();
    OnlyTheCutDropsAChunk();
    ClaudeTextExact(config, CUT);
    ClaudeTextExact(config, WHOLE);
    PlainChunks(CUT);
    PlainChunks(WHOLE);
    assert CUT[1] in CUT;
  }
}
