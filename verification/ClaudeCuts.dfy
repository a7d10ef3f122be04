/** When claude's stream depends on how its stdout is cut: a chunk of white space is dropped, and a colour sequence that
    runs over the end of a chunk is not recognised. */
module ClaudeCuts {
  import opened Basics
  import opened Json
  import opened Text
  import opened StreamModel
  import opened ChunkInvariance

  const ESCAPE := '\U{001B}'

  // ---- Colour sequences ----------------------------------------------------

  /** A colour sequence begins in `a` and ends beyond it. */
  ghost predicate Cuts(a: string, b: string) {
    exists i :: 0 <= i < |a| && Overruns(a, b, i)
  }

  predicate Overruns(a: string, b: string, i: nat)
    requires i <= |a|
  {
    AnsiLength(a[i..] + b) > |a| - i
  }

  /** Some chunk ends within a colour sequence of the whole text. */
  ghost predicate CutsSequence(chunks: seq<string>) {
    chunks != [] && (Cuts(chunks[0], Flatten(chunks[1..])) || CutsSequence(chunks[1..]))
  }

  function Escapes(s: string): nat {
    if s == "" then 0 else (if s[0] == ESCAPE then 1 else 0) + Escapes(s[1..])
  }

  lemma {:induction false} EscapesAdd(a: string, b: string)
    ensures Escapes(a + b) == Escapes(a) + Escapes(b)
  {
    if a == "" {
      assert a + b == b;
    } else {
      assert (a + b)[1..] == a[1..] + b;
      EscapesAdd(a[1..], b);
    }
  }

  lemma {:induction false} NoEscapes(s: string)
    requires ESCAPE !in s
    ensures Escapes(s) == 0
  {
    if s != "" {
      NoEscapes(s[1..]);
    }
  }

  lemma {:induction false} RunAppend(a: string, b: string)
    ensures ParameterRun(a) < |a| ==> ParameterRun(a + b) == ParameterRun(a)
    ensures ParameterRun(a) == |a| ==> ParameterRun(a + b) == |a| + ParameterRun(b)
    ensures forall i :: 0 <= i < ParameterRun(a) ==> IsAnsiParameter(a[i])
  {
    if a == "" {
      assert a + b == b;
    } else {
      assert (a + b)[1..] == a[1..] + b;
      RunAppend(a[1..], b);
    }
  }

  /** Whether a sequence starts here depends only on the text up to its end. */
  lemma LengthAppend(a: string, b: string)
    requires a != ""
    ensures AnsiLength(a) > 0 ==> AnsiLength(a + b) == AnsiLength(a)
    ensures 0 < AnsiLength(a + b) <= |a| ==> AnsiLength(a) == AnsiLength(a + b)
  {
    hide ParameterRun;
    if |a| >= 2 {
      assert (a + b)[2..] == a[2..] + b;
      RunAppend(a[2..], b);
    }
  }

  /** The first `n` characters are a colour sequence: an escape, a bracket, digits and semicolons, and an m. */
  ghost predicate IsSequence(s: string, n: nat) {
    && 3 <= n <= |s| && s[0] == ESCAPE && s[1] == '[' && s[n - 1] == 'm'
    && forall i :: 2 <= i < n - 1 ==> '0' <= s[i] <= '9' || s[i] == ';'
  }

  lemma {:induction false} RunExact(s: string)
    ensures forall i :: 0 <= i < ParameterRun(s) ==> IsAnsiParameter(s[i])
    ensures ParameterRun(s) < |s| ==> !IsAnsiParameter(s[ParameterRun(s)])
  {
    if s != "" && IsAnsiParameter(s[0]) {
      RunExact(s[1..]);
      assert forall i :: 0 < i <= ParameterRun(s[1..]) ==> s[i] == s[1..][i - 1];
    }
  }

  lemma {:induction false} RunEnds(s: string, n: nat)
    requires n < |s| && !IsAnsiParameter(s[n]) && forall i :: 0 <= i < n ==> IsAnsiParameter(s[i])
    ensures ParameterRun(s) == n
  {
    if n > 0 {
      RunEnds(s[1..], n - 1);
    }
  }

  /** What counts as a colour sequence. */
  lemma SequenceExact(s: string, n: nat)
    requires n > 0
    ensures AnsiLength(s) == n <==> IsSequence(s, n)
  {
    hide ParameterRun;
    if |s| >= 2 {
      var rest := s[2..];
      RunExact(rest);
      assert forall i :: 2 <= i < |s| ==> s[i] == rest[i - 2];
      if IsSequence(s, n) {
        RunEnds(rest, n - 3);
      }
      if AnsiLength(s) == n {
        forall i | 2 <= i < n - 1 ensures '0' <= s[i] <= '9' || s[i] == ';' {
          assert IsAnsiParameter(rest[i - 2]);
        }
      }
    }
  }

  /** Only its first character is an escape. */
  lemma SequenceShape(s: string)
    requires AnsiLength(s) > 0
    ensures ESCAPE !in s[1..AnsiLength(s)]
  {
    hide ParameterRun;
    RunAppend(s[2..], "");
    var n := AnsiLength(s);
    forall i | 1 <= i < n ensures s[i] != ESCAPE {
      if 2 <= i < n - 1 {
        assert s[i] == s[2..][i - 2];
      }
    }
  }

  /** Text without an escape is left alone, whatever follows. */
  lemma {:induction false} StripSkips(a: string, b: string)
    requires ESCAPE !in a
    ensures StripAnsi(a + b) == a + StripAnsi(b)
  {
    hide AnsiLength;
    if a == "" {
      assert a + b == b;
    } else {
      assert (a + b)[0] == a[0] && a[0] in a;
      assert (a + b)[1..] == a[1..] + b;
      StripSkips(a[1..], b);
      assert a + StripAnsi(b) == [a[0]] + (a[1..] + StripAnsi(b));
    }
  }

  lemma CutsRest(a: string, b: string, n: nat)
    requires 0 < n <= |a|
    requires forall i :: 0 <= i < n ==> !Overruns(a, b, i)
    ensures Cuts(a, b) <==> Cuts(a[n..], b)
  {
    hide AnsiLength;
    if i :| 0 <= i < |a| && Overruns(a, b, i) {
      assert a[n..][i - n..] == a[i..];
      assert Overruns(a[n..], b, i - n);
    }
    if i :| 0 <= i < |a[n..]| && Overruns(a[n..], b, i) {
      assert a[n..][i..] == a[n + i..];
      assert Overruns(a, b, n + i);
    }
  }

  /** Stripping two parts removes no more escapes than stripping them together, and fewer exactly when the border cuts a
      sequence; when it does not, it is the same stripping. */
  lemma {:induction false} StripParts(a: string, b: string)
    ensures !Cuts(a, b) ==> StripAnsi(a + b) == StripAnsi(a) + StripAnsi(b)
    ensures Escapes(StripAnsi(a + b)) <= Escapes(StripAnsi(a)) + Escapes(StripAnsi(b))
    ensures Cuts(a, b) ==> Escapes(StripAnsi(a + b)) < Escapes(StripAnsi(a)) + Escapes(StripAnsi(b))
    decreases |a|
  {
    hide AnsiLength, Escapes, StripAnsi;
    if a == "" {
      assert a + b == b;
      StripEmpty();
      assert "" + StripAnsi(b) == StripAnsi(b);
    } else {
      var n := AnsiLength(a + b);
      LengthAppend(a, b);
      StripStep(a + b);
      StripStep(a);
      assert a[0..] == a;
      if n > |a| {
        assert Overruns(a, b, 0);
        CutHere(a, b);
      } else if n > 0 {
        assert (a + b)[n..] == a[n..] + b;
        InsideNothingStarts(a, b);
        CutsRest(a, b, n);
        StripParts(a[n..], b);
      } else {
        assert (a + b)[0] == a[0] && (a + b)[1..] == a[1..] + b;
        assert !Overruns(a, b, 0);
        CutsRest(a, b, 1);
        StripParts(a[1..], b);
        OneMore(a[0], StripAnsi(a[1..]), StripAnsi(b), StripAnsi(a[1..] + b));
      }
    }
  }

  lemma StripEmpty()
    ensures StripAnsi("") == "" && Escapes("") == 0
  {
  }

  lemma StripStep(s: string)
    requires s != ""
    ensures StripAnsi(s) == if AnsiLength(s) > 0 then StripAnsi(s[AnsiLength(s)..]) else [s[0]] + StripAnsi(s[1..])
  {
  }

  lemma OneMore(c: char, x: string, y: string, z: string)
    ensures Escapes([c] + z) - Escapes(z) == Escapes([c] + x) - Escapes(x)
    ensures z == x + y ==> [c] + z == ([c] + x) + y
  {
    hide Escapes;
    EscapesAdd([c], x);
    EscapesAdd([c], z);
    OneMoreInFront([c], x, y);
  }

  lemma OneMoreInFront(c: string, x: string, y: string)
    ensures c + (x + y) == (c + x) + y
  {
  }

  /** No sequence starts inside another. */
  lemma InsideNothingStarts(a: string, b: string)
    requires 0 < AnsiLength(a + b) <= |a|
    ensures forall i :: 0 <= i < AnsiLength(a + b) ==> !Overruns(a, b, i)
  {
    var n := AnsiLength(a + b);
    SequenceShape(a + b);
    assert a[0..] == a;
    forall i | 1 <= i < n ensures !Overruns(a, b, i) {
      assert (a[i..] + b)[0] == (a + b)[1..n][i - 1];
    }
  }

  /** A sequence that starts with `a` and ends in `b` survives in both parts. */
  lemma CutHere(a: string, b: string)
    requires a != "" && AnsiLength(a + b) > |a|
    ensures Escapes(StripAnsi(a + b)) < Escapes(StripAnsi(a)) + Escapes(StripAnsi(b))
  {
    hide AnsiLength, Escapes, StripAnsi;
    var s, n := a + b, AnsiLength(a + b);
    var k := n - |a|;
    LengthAppend(a, b);
    SequenceShape(s);
    assert s[1..n] == a[1..] + b[..k];
    assert ESCAPE !in a[1..] && ESCAPE !in b[..k] by {
      assert forall c :: c in a[1..] || c in b[..k] ==> c in s[1..n];
    }
    StripStep(s);
    assert s[n..] == b[k..];
    assert b == b[..k] + b[k..];
    StripSkips(b[..k], b[k..]);
    EscapesAdd(b[..k], StripAnsi(b[k..]));
    assert s[0] == a[0] == ESCAPE;
    StripStep(a);
    FirstCounts(StripAnsi(a[1..]));
  }

  lemma FirstCounts(rest: string)
    ensures Escapes([ESCAPE] + rest) > 0
  {
    EscapesAdd([ESCAPE], rest);
    assert Escapes([ESCAPE]) == 1 by {
      assert [ESCAPE][1..] == "";
    }
  }

  // ---- Many chunks ---------------------------------------------------------

  lemma {:induction false} StripChunks(chunks: seq<string>)
    ensures !CutsSequence(chunks) ==> StripAnsi(Flatten(chunks)) == VisibleText(chunks)
    ensures Escapes(StripAnsi(Flatten(chunks))) <= Escapes(VisibleText(chunks))
    ensures CutsSequence(chunks) ==> Escapes(StripAnsi(Flatten(chunks))) < Escapes(VisibleText(chunks))
  {
    hide Cuts, Escapes, StripAnsi;
    if chunks == [] {
      StripEmpty();
    } else {
      StripChunks(chunks[1..]);
      StripParts(chunks[0], Flatten(chunks[1..]));
      EscapesAdd(StripAnsi(chunks[0]), VisibleText(chunks[1..]));
    }
  }

  /** White space has no escapes, so dropping it does not change their number. */
  lemma {:induction false} KeptEscapes(chunks: seq<string>)
    ensures Escapes(KeptText(chunks)) == Escapes(VisibleText(chunks))
  {
    hide Escapes, StripAnsi, Trim;
    if chunks != [] {
      KeptEscapes(chunks[1..]);
      var visible := StripAnsi(chunks[0]);
      EscapesAdd(visible, VisibleText(chunks[1..]));
      EscapesAdd(Kept(chunks[0]), KeptText(chunks[1..]));
      if Trim(visible) == "" {
        BlankHasNoEscapes(visible);
        StripEmpty();
      }
    }
  }

  lemma BlankHasNoEscapes(s: string)
    requires Trim(s) == ""
    ensures Escapes(s) == 0
  {
    hide Trim;
    TrimBlank(s);
    NoEscapes(s);
  }

  /** Where all is white space, nothing is kept. */
  lemma {:induction false} BlankKeepsNothing(chunks: seq<string>)
    requires Blank(VisibleText(chunks))
    ensures KeptText(chunks) == ""
  {
    hide StripAnsi, Trim;
    if chunks != [] {
      var visible, rest := StripAnsi(chunks[0]), VisibleText(chunks[1..]);
      assert forall i :: 0 <= i < |visible| ==> (visible + rest)[i] == visible[i];
      assert forall i :: 0 <= i < |rest| ==> (visible + rest)[|visible| + i] == rest[i];
      assert Blank(visible) && Blank(rest);
      TrimBlank(visible);
      BlankKeepsNothing(chunks[1..]);
    }
  }

  lemma WholeChunk(text: string)
    ensures Flatten([text]) == text && KeptText([text]) == Kept(text)
  {
    assert [text][1..] == [];
    assert text + "" == text && Kept(text) + "" == Kept(text);
  }

  /** What the text of the whole output needs for a cut of it not to matter. */
  ghost predicate CutsHarmlessly(chunks: seq<string>) {
    && !CutsSequence(chunks)
    && (Trim(StripAnsi(Flatten(chunks))) == "" || forall chunk :: chunk in chunks ==> !IsDropped(chunk))
  }

  lemma KeptIsWhole(chunks: seq<string>)
    ensures KeptText(chunks) == Kept(Flatten(chunks)) <==> CutsHarmlessly(chunks)
  {
    hide StripAnsi, Trim, CutsSequence, Escapes, IsDropped, VisibleText;
    var whole := StripAnsi(Flatten(chunks));
    StripChunks(chunks);
    KeptEscapes(chunks);
    KeptTextExact(chunks);
    if Trim(whole) == "" {
      BlankHasNoEscapes(whole);
      StripEmpty();
      TrimBlank(whole);
      if !CutsSequence(chunks) {
        BlankKeepsNothing(chunks);
      }
    }
  }

  /** Claude streams a text the same in chunks as in one piece if and only if no chunk ends within a colour sequence,
      and no chunk shows white space alone unless the whole text does. */
  lemma ClaudeCutMatters(config: Config, chunks: seq<string>)
    requires config.provider == Claude
    ensures StreamedText(RunProcess(config, chunks).state.core, config.SyntheticId()) ==
            StreamedText(RunProcess(config, [Flatten(chunks)]).state.core, config.SyntheticId()) <==>
            CutsHarmlessly(chunks)
  {
    hide RunProcess, CutsHarmlessly, Kept;
    ClaudeStreams(config, chunks);
    ClaudeStreams(config, [Flatten(chunks)]);
    WholeChunk(Flatten(chunks));
    KeptIsWhole(chunks);
  }

  /** So any two harmless cuts of one text are streamed the same. */
  lemma HarmlessCutsAgree(config: Config, chunks: seq<string>, others: seq<string>)
    requires config.provider == Claude && Flatten(chunks) == Flatten(others)
    requires CutsHarmlessly(chunks) && CutsHarmlessly(others)
    ensures StreamedText(RunProcess(config, chunks).state.core, config.SyntheticId()) ==
            StreamedText(RunProcess(config, others).state.core, config.SyntheticId())
  {
    hide RunProcess, CutsHarmlessly;
    ClaudeCutMatters(config, chunks);
    ClaudeCutMatters(config, others);
  }

  // ---- Two inputs ----------------------------------------------------------

  const RED := [ESCAPE] + "[31m"
  const RED_CUT := [[ESCAPE] + "[3", "1ma"]

  /** A colour sequence over two chunks: in one piece only "a" is streamed, in two the sequence is streamed with it. */
  lemma ClaudeStreamsCutSequence(config: Config)
    requires config.provider == Claude
    ensures Flatten(RED_CUT) == RED + "a"
    ensures StreamedText(RunProcess(config, [RED + "a"]).state.core, config.SyntheticId()) == "a"
    ensures StreamedText(RunProcess(config, RED_CUT).state.core, config.SyntheticId()) == RED + "a"
  {
    hide RunProcess, StripAnsi, Trim;
    RedIsCut();
    RedText();
    ClaudeStreams(config, RED_CUT);
    ClaudeStreams(config, [RED + "a"]);
    WholeChunk(RED + "a");
    RedKept();
  }

  lemma RedText()
    ensures Flatten(RED_CUT) == RED + "a"
  {
    assert RED_CUT[1..] == ["1ma"];
    assert Flatten(["1ma"]) == "1ma" + "";
  }

  lemma RedIsCut()
    ensures StripAnsi(RED + "a") == "a"
    ensures StripAnsi(RED_CUT[0]) == RED_CUT[0] && StripAnsi(RED_CUT[1]) == RED_CUT[1]
  {
    var s := RED + "a";
    assert s[2..] == "31ma" && "31ma"[1..] == "1ma" && "1ma"[1..] == "ma";
    assert ParameterRun("ma") == 0 && ParameterRun("1ma") == 1 && ParameterRun("31ma") == 2;
    assert AnsiLength(s) == 5 && s[5..] == "a";
    PlainIsVisible("a");
    PlainIsVisible("1ma");
    PlainIsVisible("[3");
    var first := RED_CUT[0];
    assert first[2..] == "3" && "3"[1..] == "" && ParameterRun("3") == 1;
    assert AnsiLength(first) == 0 && first[1..] == "[3";
  }

  lemma RedKept()
    ensures Trim("a") != "" && Trim(RED_CUT[0]) != "" && Trim(RED_CUT[1]) != ""
    ensures KeptText(RED_CUT) == Kept(RED_CUT[0]) + Kept(RED_CUT[1])
  {
    TrimBlank("a");
    TrimBlank(RED_CUT[0]);
    TrimBlank(RED_CUT[1]);
    assert !IsSpace("a"[0]) && !IsSpace(RED_CUT[0][0]) && !IsSpace(RED_CUT[1][0]);
    hide Kept;
    assert RED_CUT[1..] == ["1ma"] && ["1ma"][1..] == [];
    WholeChunk("1ma");
  }
}
