/** The text streamed from gemini's stdout and the text parsed from it afterwards are the same text. */
module BatchRefinement {
  import opened Basics
  import opened Text
  import opened Json
  import opened StreamModel
  import opened ChunkInvariance
  import opened MessageLifecycle

  // ---- Lines ---------------------------------------------------------------

  lemma LinesDropFirst(c: char, s: string)
    requires IsSpace(c)
    ensures MeaningfulLines([c] + s) == MeaningfulLines(s)
  {
    var t := [c] + s;
    assert t[1..] == s;
    var i := NewlineIndex(s);
    if c == '\n' {
      assert NewlineIndex(t) == 0 && t[..0] == "" && t[0 + 1..] == s;
      TrimBlank("");
    } else if i < 0 {
      TrimDropsFirst(c, s);
    } else {
      TrimDropsFirst(c, s[..i]);
      assert t[..i + 1] == [c] + s[..i];
      assert t[i + 2..] == s[i + 1..];
    }
  }

  lemma {:induction false} LinesDropLast(s: string, c: char)
    requires IsSpace(c)
    ensures MeaningfulLines(s + [c]) == MeaningfulLines(s)
    decreases |s|
  {
    var t := s + [c];
    var i := NewlineIndex(s);
    NewlineIndexAppend(s, [c]);
    if i >= 0 {
      assert t[..i] == s[..i];
      assert t[i + 1..] == s[i + 1..] + [c];
      LinesDropLast(s[i + 1..], c);
    } else if c == '\n' {
      assert NewlineIndex([c]) == 0;
      assert t[..|s|] == s && t[|s| + 1..] == "";
      TrimBlank("");
      assert MeaningfulLines("") == [];
    } else {
      assert [c][1..] == "";
      assert NewlineIndex([c]) < 0;
      TrimDropsLast(s, c);
    }
  }

  lemma {:induction false} LinesTrimStart(s: string)
    ensures MeaningfulLines(TrimStart(s)) == MeaningfulLines(s)
  {
    hide MeaningfulLines, IsSpace;
    if s != "" && IsSpace(s[0]) {
      LinesTrimStart(s[1..]);
      assert s == [s[0]] + s[1..];
      LinesDropFirst(s[0], s[1..]);
    }
  }

  lemma {:induction false} LinesTrimEnd(s: string)
    ensures MeaningfulLines(TrimEnd(s)) == MeaningfulLines(s)
  {
    hide MeaningfulLines, IsSpace;
    if s != "" && IsSpace(s[|s| - 1]) {
      var n := |s| - 1;
      LinesTrimEnd(s[..n]);
      assert s == s[..n] + [s[n]];
      LinesDropLast(s[..n], s[n]);
    }
  }

  lemma LinesOfTrimmed(s: string)
    ensures MeaningfulLines(Trim(s)) == MeaningfulLines(s)
  {
    hide MeaningfulLines, TrimStart, TrimEnd;
    LinesTrimStart(s);
    LinesTrimEnd(TrimStart(s));
  }

  /** The values of the lines that parse. */
  function ParseAll(parse: string -> Option<Value>, lines: seq<string>): seq<Value> {
    if lines == [] then []
    else (if parse(lines[0]).Some? then [parse(lines[0]).value] else []) + ParseAll(parse, lines[1..])
  }

  lemma ParseAllStep(parse: string -> Option<Value>, line: string, rest: seq<string>)
    ensures ParseAll(parse, [line] + rest) ==
            (if parse(line).Some? then [parse(line).value] else []) + ParseAll(parse, rest)
  {
    assert ([line] + rest)[1..] == rest;
  }

  lemma ParsedLinesStep(parse: string -> Option<Value>, line: string, rest: seq<string>)
    ensures var trimmed := Trim(line);
            ParsedLines(parse, [line] + rest) ==
            (if trimmed != "" && parse(trimmed).Some? then [parse(trimmed).value] else []) + ParsedLines(parse, rest)
  {
    hide Trim;
    assert ([line] + rest)[1..] == rest;
    assert [] + ParsedLines(parse, rest) == ParsedLines(parse, rest);
  }

  /** The first line of a text as the batch parser cuts it. */
  function BatchLine(s: string): string {
    var i := NewlineIndex(s);
    if i < 0 then s else if i > 0 && s[i - 1] == '\r' then s[..i - 1] else s[..i]
  }

  lemma SplitStep(s: string)
    ensures var i := NewlineIndex(s);
            SplitLines(s) == [BatchLine(s)] + if i < 0 then [] else SplitLines(s[i + 1..])
  {
  }

  lemma MeaningfulStep(s: string)
    ensures var i, line := NewlineIndex(s), Trim(BatchLine(s));
            MeaningfulLines(s) ==
            (if line == "" then [] else [line]) + if i < 0 then [] else MeaningfulLines(s[i + 1..])
  {
    hide Trim;
    var i := NewlineIndex(s);
    if i > 0 && s[i - 1] == '\r' {
      assert s[..i] == BatchLine(s) + ['\r'];
      TrimDropsLast(BatchLine(s), '\r');
    }
  }

  /** Splitting at `\r?\n` and trimming sees the same lines as splitting at `\n` and trimming. */
  lemma {:induction false} BatchSeesTheLines(parse: string -> Option<Value>, s: string)
    ensures ParsedLines(parse, SplitLines(s)) == ParseAll(parse, MeaningfulLines(s))
    decreases |s|
  {
    hide Trim, NewlineIndex, ParsedLines, ParseAll, SplitLines, MeaningfulLines, BatchLine;
    var i, line := NewlineIndex(s), Trim(BatchLine(s));
    var split, lines := if i < 0 then [] else SplitLines(s[i + 1..]), if i < 0 then [] else MeaningfulLines(s[i + 1..]);
    if i < 0 {
      NoLines(parse);
    } else {
      BatchSeesTheLines(parse, s[i + 1..]);
    }
    SplitStep(s);
    MeaningfulStep(s);
    ParsedLinesStep(parse, BatchLine(s), split);
    ParseAllStep(parse, line, lines);
    assert [] + lines == lines && [] + ParseAll(parse, lines) == ParseAll(parse, lines);
  }

  lemma NoLines(parse: string -> Option<Value>)
    ensures ParsedLines(parse, []) == [] && ParseAll(parse, []) == []
  {
  }

  // ---- The streamed text ---------------------------------------------------

  lemma EventAppends(config: Config, core: Core, record: Value)
    requires config.provider == Gemini && IsObject(record)
    ensures StreamedText(GeminiEvent(config, core, record), config.SyntheticId()) ==
            GeminiAppend(StreamedText(core, config.SyntheticId()), record)
  {
    hide MessageSuffix, IsAssistantMessage, Remove;
    var id := config.SyntheticId();
    var begun := EnsureStarted(core, id);
    assert StreamedText(begun, id) == StreamedText(core, id);
    var text := StreamedText(core, id);
    assert text + "" == text;
    if StringOrEmpty(record, "content") == "" {
      assert MessageSuffix(text, "") == "" by { EmptySuffix(text); }
    }
  }

  lemma EmptySuffix(text: string)
    ensures MessageSuffix(text, "") == ""
  {
  }

  lemma {:induction false} LinesAppend(config: Config, core: Core, lines: seq<string>)
    requires config.provider == Gemini
    ensures var r := HandleLines(config, core, lines);
            && r.Ok?
            && StreamedText(r.state, config.SyntheticId()) ==
               GeminiOutput(StreamedText(core, config.SyntheticId()), ParseAll(config.parse, lines))
    decreases |lines|
  {
    hide GeminiEvent, GeminiAppend, StreamedText;
    if lines != [] {
      var parsed := config.parse(lines[0]);
      var next := HandleLine(config, core, lines[0]).state;
      var rest := ParseAll(config.parse, lines[1..]);
      LinesAppend(config, next, lines[1..]);
      if parsed.Some? {
        var before := StreamedText(core, config.SyntheticId());
        if IsObject(parsed.value) {
          EventAppends(config, core, parsed.value);
        } else {
          NotAMessage(before, parsed.value);
        }
        OutputStep(before, parsed.value, rest);
      } else {
        assert [] + rest == rest;
      }
    }
  }

  lemma OutputStep(output: string, v: Value, rest: seq<Value>)
    ensures GeminiOutput(output, [v] + rest) == GeminiOutput(GeminiAppend(output, v), rest)
  {
    assert ([v] + rest)[1..] == rest;
  }

  lemma NotAMessage(text: string, v: Value)
    requires !IsObject(v)
    ensures GeminiAppend(text, v) == text
  {
  }

  ghost predicate HasMessage(values: seq<Value>) {
    exists i :: 0 <= i < |values| && IsAssistantMessage(values[i])
  }

  /** Something is emitted exactly when an assistant message occurs. */
  lemma {:induction false} EmitsOnMessage(config: Config, core: Core, lines: seq<string>)
    requires config.provider == Gemini
    requires Lifecycle(core)
    ensures HandleLines(config, core, lines).state.emittedAny <==>
            core.emittedAny || HasMessage(ParseAll(config.parse, lines))
    decreases |lines|
  {
    hide Lifecycle, HasMessage, GeminiEvent, CompletedAtMostOnce;
    if lines != [] {
      LineKeeps(config, core, lines[0]);
      var parsed := config.parse(lines[0]);
      var next := HandleLine(config, core, lines[0]).state;
      var rest := ParseAll(config.parse, lines[1..]);
      EmitsOnMessage(config, next, lines[1..]);
      if parsed.Some? {
        OneEmits(config, core, parsed.value);
        MessageFirst(parsed.value, rest);
      } else {
        assert [] + rest == rest;
      }
    } else {
      NoMessage();
    }
  }

  lemma NoMessage()
    ensures !HasMessage([])
  {
  }

  lemma MessageFirst(v: Value, rest: seq<Value>)
    ensures HasMessage([v] + rest) <==> IsAssistantMessage(v) || HasMessage(rest)
  {
    hide IsAssistantMessage;
    var values := [v] + rest;
    if IsAssistantMessage(v) { assert IsAssistantMessage(values[0]); }
    if i :| 0 <= i < |rest| && IsAssistantMessage(rest[i]) { assert IsAssistantMessage(values[i + 1]); }
    if i :| 0 < i < |values| && IsAssistantMessage(values[i]) { assert IsAssistantMessage(rest[i - 1]); }
  }

  lemma OneEmits(config: Config, core: Core, record: Value)
    requires Lifecycle(core)
    ensures IsAssistantMessage(record) ==> IsObject(record)
    ensures GeminiEvent(config, core, record).emittedAny <==> core.emittedAny || IsAssistantMessage(record)
  {
    hide Remove;
    if !core.emittedAny {
      NothingKnownAtFirst(core);
      assert !Known(core, config.SyntheticId());
    }
  }

  lemma {:induction false} CompletingKeepsText(core: Core, ids: seq<string>)
    ensures CompleteEach(core, ids).streamed == core.streamed
    decreases |ids|
  {
    if ids != [] {
      CompletingKeepsText(if ids[0] in core.completed then core else Emit(core, Completed(ids[0])), ids[1..]);
    }
  }

  /** The streamed message of a gemini process: what its lines add up to, or else the parsed text. */
  lemma StreamedMessage(config: Config, chunks: seq<string>)
    requires config.provider == Gemini
    ensures var stdout := Flatten(chunks);
            var values := ParseAll(config.parse, MeaningfulLines(stdout));
            DeltaText(RunProcess(config, chunks).state.core.out, config.SyntheticId()) ==
            if HasMessage(values) then GeminiOutput("", values) else FinalText(Gemini, config.parse, stdout)
  {
    hide Lifecycle, FinalText, GeminiOutput, HasMessage, DeltaText, AllCompleted, CompletedAtMostOnce, ParseAll, Drain;
    var stdout, id := Flatten(chunks), config.SyntheticId();
    var lines := MeaningfulLines(stdout);
    EmptyLifecycle();
    StreamIsLineByLine(config, chunks);
    LinesAppend(config, INITIAL_CORE, lines);
    EmitsOnMessage(config, INITIAL_CORE, lines);
    LinesNotPlain(config, INITIAL_CORE, lines);
    LinesKeep(config, INITIAL_CORE, lines);
    var core := HandleLines(config, INITIAL_CORE, lines).state;
    var closed := Close(config, core, stdout);
    assert RunProcess(config, chunks).state.core == closed;
    CloseCompletesAll(config, core, stdout);
    DeltasAreText(closed, id);
    if HasMessage(ParseAll(config.parse, lines)) {
      CompletingKeepsText(core, core.active);
    } else {
      DeltasAreText(core, id);
      NothingSaid(core, id);
      assert StreamedText(closed, id) == FinalText(Gemini, config.parse, stdout);
    }
  }

  lemma NothingSaid(core: Core, id: string)
    requires Lifecycle(core) && !core.emittedAny
    ensures id !in core.streamed
  {
    assert IdAgrees(core, id);
  }

  lemma DeltasAreText(core: Core, id: string)
    requires Lifecycle(core)
    ensures DeltaText(core.out, id) == StreamedText(core, id)
  {
    assert IdAgrees(core, id);
    if id !in core.streamed {
      NoDeltasBeforeStart(core.out, id);
    }
  }

  /** What the batch parser returns for plain output with an assistant message. */
  lemma BatchOfMessages(parse: string -> Option<Value>, stdout: string)
    requires StripAnsi(stdout) == stdout
    requires HasMessage(ParseAll(parse, MeaningfulLines(stdout)))
    ensures var whole := WholeDocumentText(Gemini, parse, Trim(stdout));
            FinalText(Gemini, parse, stdout) ==
            if whole != "" then whole else Trim(GeminiOutput("", ParseAll(parse, MeaningfulLines(stdout))))
  {
    hide WholeDocumentText, GeminiOutput, Trim, StripAnsi, SplitLines, ParsedLines, IsStreamJson, IsAssistantMessage,
         GenericText, PreferredTexts, Dedupe, JoinParagraphs;
    var values := ParseAll(parse, MeaningfulLines(stdout));
    LinesOfTrimmed(stdout);
    BatchSeesTheLines(parse, Trim(stdout));
    var i :| 0 <= i < |values| && IsAssistantMessage(values[i]);
    MessageIsStreamJson(values[i]);
    assert MeaningfulLines("") == [] by { TrimBlank(""); }
  }

  lemma MessageIsStreamJson(v: Value)
    requires IsAssistantMessage(v)
    ensures IsStreamJson(v)
  {
  }

  /** On plain output the parsed text is the streamed one, unless the output is itself one JSON value with a text. */
  lemma StreamMatchesBatch(config: Config, chunks: seq<string>)
    requires config.provider == Gemini
    requires StripAnsi(Flatten(chunks)) == Flatten(chunks)
    requires HasMessage(ParseAll(config.parse, MeaningfulLines(Flatten(chunks))))
    ensures var whole := WholeDocumentText(Gemini, config.parse, Trim(Flatten(chunks)));
            FinalText(Gemini, config.parse, Flatten(chunks)) ==
            if whole != "" then whole
            else Trim(DeltaText(RunProcess(config, chunks).state.core.out, config.SyntheticId()))
  {
    hide *;
    StreamedMessage(config, chunks);
    BatchOfMessages(config.parse, Flatten(chunks));
  }

  /** So they agree if and only if the output is no JSON value with a text, or that is the text of its messages. */
  lemma StreamAgrees(config: Config, chunks: seq<string>)
    requires config.provider == Gemini
    requires StripAnsi(Flatten(chunks)) == Flatten(chunks)
    requires HasMessage(ParseAll(config.parse, MeaningfulLines(Flatten(chunks))))
    ensures var whole := WholeDocumentText(Gemini, config.parse, Trim(Flatten(chunks)));
            var messages := GeminiOutput("", ParseAll(config.parse, MeaningfulLines(Flatten(chunks))));
            FinalText(Gemini, config.parse, Flatten(chunks)) ==
            Trim(DeltaText(RunProcess(config, chunks).state.core.out, config.SyntheticId())) <==>
            whole == "" || whole == Trim(messages)
  {
    hide *;
    StreamMatchesBatch(config, chunks);
    StreamedMessage(config, chunks);
  }

  const TWO_TEXTS := JObj(map["type" := JStr("message"), "role" := JStr("assistant"),
                              "content" := JStr("a"), "response" := JStr("b")])

  /** A single line that carries a response beside its content: streamed as "a", parsed as "b". */
  lemma WholeDocumentDiverges(config: Config)
    requires config.provider == Gemini
    requires config.parse("m") == Some(TWO_TEXTS)
    ensures DeltaText(RunProcess(config, ["m"]).state.core.out, config.SyntheticId()) == "a"
    ensures FinalText(Gemini, config.parse, "m") == "b"
  {
    hide RunProcess, DeltaText, FinalText, MeaningfulLines, GeminiAppend, HasMessage;
    ParsedAsB(config.parse);
    TwoTexts();
    LetterLine();
    assert Flatten(["m"]) == "m";
    StreamedMessage(config, ["m"]);
    NoLines(config.parse);
    ParseAllStep(config.parse, "m", []);
    assert ["m"] + [] == ["m"] && [TWO_TEXTS] + [] == [TWO_TEXTS];
    MessageFirst(TWO_TEXTS, []);
    OutputStep("", TWO_TEXTS, []);
    assert GeminiOutput("a", []) == "a";
  }

  lemma ParsedAsB(parse: string -> Option<Value>)
    requires parse("m") == Some(TWO_TEXTS)
    ensures FinalText(Gemini, parse, "m") == "b"
  {
    hide GenericText, GeminiText, SplitLines, ParsedLines, Trim, GeminiStreamText, PreferredTexts;
    TwoTexts();
    LetterLine();
    PlainIsVisible("m");
  }

  lemma TwoTexts()
    ensures IsAssistantMessage(TWO_TEXTS) && GeminiAppend("", TWO_TEXTS) == "a" && GeminiText(TWO_TEXTS) == "b"
  {
    LetterLine();
  }

  lemma LetterLine()
    ensures MeaningfulLines("m") == ["m"] && Trim("m") == "m" && Trim("b") == "b"
  {
    assert "m"[1..] == "";
  }

  /** Without an assistant message the stream carries the parsed text itself. */
  lemma NoMessageStreamsFinalText(config: Config, chunks: seq<string>)
    requires config.provider == Gemini
    requires !HasMessage(ParseAll(config.parse, MeaningfulLines(Flatten(chunks))))
    ensures DeltaText(RunProcess(config, chunks).state.core.out, config.SyntheticId()) ==
            FinalText(Gemini, config.parse, Flatten(chunks))
  {
    StreamedMessage(config, chunks);
  }

  // ---- Snapshots -----------------------------------------------------------

  predicate Comparable(a: string, b: string) {
    a <= b || b <= a
  }

  /** A snapshot is contained after its repair, and a second repair adds nothing, exactly when the texts are
      comparable. */
  lemma SuffixRepairs(current: string, next: string)
    ensures var repaired := current + MessageSuffix(current, next);
            && (next <= repaired <==> Comparable(current, next))
            && (MessageSuffix(repaired, next) == "" <==> Comparable(current, next))
  {
    hide SharedPrefix;
    var repaired := current + MessageSuffix(current, next);
    if next <= current {
      assert repaired == current || current == "";
    } else if current <= next {
      assert repaired == next;
    } else {
      TextsPart(current, next);
      var k := SharedPrefix(current, next);
      assert repaired[k] == current[k];
      assert !(next <= repaired) && !(repaired <= next);
      TextsPart(repaired, next);
    }
  }

  /** Incomparable texts part at the end of their shared prefix. */
  lemma TextsPart(current: string, next: string)
    requires !Comparable(current, next)
    ensures var k := SharedPrefix(current, next); k < |current| && k < |next| && current[k] != next[k]
  {
    hide SharedPrefix;
    assert current[..|current|] == current && next[..|next|] == next;
  }

  lemma {:induction false} OutputSplits(output: string, a: seq<Value>, b: seq<Value>)
    ensures GeminiOutput(output, a + b) == GeminiOutput(GeminiOutput(output, a), b)
    decreases |a|
  {
    hide GeminiAppend;
    if a == [] {
      assert a + b == b;
    } else {
      assert (a + b)[1..] == a[1..] + b;
      OutputSplits(GeminiAppend(output, a[0]), a[1..], b);
    }
  }

  lemma {:induction false} OutputGrows(output: string, values: seq<Value>)
    ensures output <= GeminiOutput(output, values)
    decreases |values|
  {
    if values != [] {
      OutputGrows(GeminiAppend(output, values[0]), values[1..]);
    }
  }

  predicate IsSnapshot(v: Value) {
    IsAssistantMessage(v) && Get(v, "delta") != Some(JBool(true))
  }

  /** The final text contains a snapshot as its beginning exactly when the text before it was comparable with it. */
  lemma SnapshotsKept(values: seq<Value>, i: nat)
    requires i < |values| && IsSnapshot(values[i])
    ensures StringOrEmpty(values[i], "content") <= GeminiOutput("", values) <==>
            Comparable(GeminiOutput("", values[..i]), StringOrEmpty(values[i], "content"))
  {
    hide MessageSuffix, IsAssistantMessage, GeminiOutput, Comparable;
    hide Trim, StringOrEmpty;
    var before, content := GeminiOutput("", values[..i]), StringOrEmpty(values[i], "content");
    var after := GeminiAppend(before, values[i]);
    assert values == values[..i] + ([values[i]] + values[i + 1..]);
    OutputSplits("", values[..i], [values[i]] + values[i + 1..]);
    OutputStep(before, values[i], values[i + 1..]);
    var final := GeminiOutput("", values);
    assert final == GeminiOutput(after, values[i + 1..]);
    OutputGrows(after, values[i + 1..]);
    SuffixRepairs(before, content);
    PrefixesCompare(before, content, after, final);
  }

  lemma PrefixesCompare(before: string, content: string, after: string, final: string)
    requires before <= after <= final
    requires content <= after <==> Comparable(before, content)
    ensures content <= final <==> Comparable(before, content)
  {
    if content <= final {
      if |content| <= |before| {
        assert content == final[..|content|] == before[..|content|];
      } else {
        assert before == final[..|before|] == content[..|before|];
      }
    }
  }
}
