/** What the batch parser makes of the records of an output. */
module FinalTexts {
  import opened Basics
  import opened Text
  import opened Json
  import opened StreamModel
  import opened StreamTrace

  // ---- Trimming ------------------------------------------------------------

  /** Neither end is white space. */
  predicate IsTrimmed(s: string) {
    s != "" ==> !IsSpace(s[0]) && !IsSpace(s[|s| - 1])
  }

  lemma {:induction false} TrimStartSplits(s: string)
    ensures exists a :: Blank(a) && s == a + TrimStart(s)
  {
    if s != "" && IsSpace(s[0]) {
      TrimStartSplits(s[1..]);
      var a :| Blank(a) && s[1..] == a + TrimStart(s[1..]);
      var longer := [s[0]] + a;
      assert Blank(longer) && s == longer + TrimStart(s);
    } else {
      assert Blank("") && s == "" + TrimStart(s);
    }
  }

  lemma {:induction false} TrimEndSplits(s: string)
    ensures exists b :: Blank(b) && s == TrimEnd(s) + b
    ensures TrimEnd(s) != "" ==> !IsSpace(TrimEnd(s)[|TrimEnd(s)| - 1])
  {
    if s != "" && IsSpace(s[|s| - 1]) {
      var n := |s| - 1;
      TrimEndSplits(s[..n]);
      var b :| Blank(b) && s[..n] == TrimEnd(s[..n]) + b;
      var longer := b + [s[n]];
      assert Blank(longer) && s == TrimEnd(s) + longer;
    } else {
      assert Blank("") && s == TrimEnd(s) + "";
    }
  }

  /** A trimmed text is what is between white space at either end, and has none at its own ends. */
  lemma TrimExact(s: string)
    ensures IsTrimmed(Trim(s))
    ensures exists a, b :: Blank(a) && Blank(b) && s == a + Trim(s) + b
  {
    var t := TrimStart(s);
    TrimStartSplits(s);
    TrimEndSplits(t);
    var a :| Blank(a) && s == a + t;
    var b :| Blank(b) && t == TrimEnd(t) + b;
    assert s == a + Trim(s) + b;
    TrimStartHead(s);
    if t != "" {
      TrimEndNonBlank(t);
    }
  }

  lemma TrimmedStays(s: string)
    requires IsTrimmed(s)
    ensures Trim(s) == s
  {
  }

  // ---- Distinct texts ------------------------------------------------------

  /** Of each further text the trimmed form is kept, unless it is empty or kept already. */
  lemma {:induction false} DedupeGrows(values: seq<string>, v: string, seen: set<string>)
    ensures Dedupe(values + [v], seen) ==
            Dedupe(values, seen) +
            if Trim(v) == "" || Trim(v) in seen || Trim(v) in Dedupe(values, seen) then [] else [Trim(v)]
    decreases |values|
  {
    hide Trim;
    if values == [] {
      assert values + [v] == [v] && [v][1..] == [];
    } else {
      var t := Trim(values[0]);
      assert (values + [v])[0] == values[0] && (values + [v])[1..] == values[1..] + [v];
      DedupeGrows(values[1..], v, seen);
      DedupeGrows(values[1..], v, seen + {t});
    }
  }

  /** The kept texts are distinct and trimmed, and are those that some value shows. */
  lemma {:induction false} DedupeDistinct(values: seq<string>)
    ensures Distinct(Dedupe(values, {}))
    ensures forall t :: t in Dedupe(values, {}) ==> t != "" && IsTrimmed(t)
    ensures forall t :: t in Dedupe(values, {}) <==> t != "" && exists v :: v in values && Trim(v) == t
    decreases |values|
  {
    hide Trim, IsTrimmed;
    if values != [] {
      var before, last := values[..|values| - 1], values[|values| - 1];
      DedupeDistinct(before);
      DedupeGrows(before, last, {});
      assert values == before + [last];
      TrimExact(last);
      if Trim(last) !in Dedupe(before, {}) {
        DistinctPush(Dedupe(before, {}), Trim(last));
      }
    }
  }

  lemma {:induction false} JoinTrimmed(parts: seq<string>)
    requires parts != [] && forall t :: t in parts ==> t != "" && IsTrimmed(t)
    ensures JoinParagraphs(parts) != "" && IsTrimmed(JoinParagraphs(parts))
  {
    assert parts[0] in parts;
    if |parts| > 1 {
      assert forall t :: t in parts[1..] ==> t in parts;
      JoinTrimmed(parts[1..]);
    }
  }

  // ---- Records -------------------------------------------------------------

  /** The text of a codex record: its agent message, else the text of a completion, else the first text to be found in
      it. */
  lemma CodexRecordText(v: Value)
    ensures PreferredText(Codex, v) ==
            if HasAgentItem(v) && !Blank(StringOrEmpty(Get(v, "item").value, "text")) then
              Trim(StringOrEmpty(Get(v, "item").value, "text"))
            else if (TypeEnds(v, "output_text.done") || TypeEnds(v, "message.completed")) &&
                    !Blank(StringOrEmpty(v, "text")) then
              Trim(StringOrEmpty(v, "text"))
            else GenericText(v)
  {
    hide Trim, GenericText, EndsWith, Blank;
    NoTypeEnds();
    TrimBlank(StringOrEmpty(v, "text"));
    if HasAgentItem(v) {
      TrimBlank(StringOrEmpty(Get(v, "item").value, "text"));
    }
  }

  const TEXT_KEYS := ["content", "message", "output", "result", "text"]

  function TextUnder(v: Value, key: string): string {
    if Get(v, key).Some? then GenericText(Get(v, key).value) else ""
  }

  lemma {:induction false} FirstGenericIsFirst(v: Value, keys: seq<string>)
    requires v.JObj?
    ensures if exists k :: 0 <= k < |keys| && TextUnder(v, keys[k]) != "" then
              exists k :: 0 <= k < |keys| && TextUnder(v, keys[k]) != "" &&
                          (forall j :: 0 <= j < k ==> TextUnder(v, keys[j]) == "") &&
                          FirstGeneric(v, keys) == TextUnder(v, keys[k])
            else FirstGeneric(v, keys) == ""
    decreases |keys|
  {
    hide GenericText;
    if keys != [] {
      var rest := keys[1..];
      FirstGenericIsFirst(v, rest);
      assert forall k :: 0 <= k < |rest| ==> rest[k] == keys[k + 1];
      if TextUnder(v, keys[0]) == "" {
        if k :| 0 <= k < |keys| && TextUnder(v, keys[k]) != "" {
          assert rest[k - 1] == keys[k];
          var m :| 0 <= m < |rest| && TextUnder(v, rest[m]) != "" &&
                   (forall j :: 0 <= j < m ==> TextUnder(v, rest[j]) == "") &&
                   FirstGeneric(v, rest) == TextUnder(v, rest[m]);
          forall j | 0 <= j < m + 1 ensures TextUnder(v, keys[j]) == "" {
            if j > 0 { assert keys[j] == rest[j - 1]; }
          }
          assert keys[m + 1] == rest[m];
        }
      }
    }
  }

  /** The text to be found in a value: a string is its own, a list has those of its items, each once, and an object that
      of the first of five properties that has any. */
  lemma GenericTextFound(v: Value)
    ensures v.JStr? ==> GenericText(v) == Trim(v.s)
    ensures v.JArr? ==> GenericText(v) == JoinParagraphs(Dedupe(seq(|v.items|, i requires 0 <= i < |v.items| =>
                                                                                 GenericText(v.items[i])), {}))
    ensures v.JObj? ==>
              if exists k :: 0 <= k < 5 && TextUnder(v, TEXT_KEYS[k]) != "" then
                exists k :: 0 <= k < 5 && TextUnder(v, TEXT_KEYS[k]) != "" &&
                            (forall j :: 0 <= j < k ==> TextUnder(v, TEXT_KEYS[j]) == "") &&
                            GenericText(v) == TextUnder(v, TEXT_KEYS[k])
              else GenericText(v) == ""
    ensures !v.JStr? && !v.JArr? && !v.JObj? ==> GenericText(v) == ""
  {
    if v.JArr? {
      ItemTexts(v, v.items);
    } else if v.JObj? {
      FirstGenericIsFirst(v, TEXT_KEYS);
    }
  }

  lemma {:induction false} ItemTexts(v: Value, items: seq<Value>)
    requires v.JArr? && forall item :: item in items ==> item in v.items
    ensures GenericTexts(v, items) == seq(|items|, i requires 0 <= i < |items| => GenericText(items[i]))
    decreases |items|
  {
    hide GenericText;
    if items != [] {
      ItemTexts(v, items[1..]);
      assert items == [items[0]] + items[1..];
    }
  }

  /** The first text field of a gemini answer that is not blank, in their order, is its text. */
  lemma GeminiRecordText(v: Value)
    requires IsObject(v)
    ensures var fields := GeminiFields(v);
            if exists k :: 0 <= k < 4 && ShowsText(fields[k]) then
              exists k :: 0 <= k < 4 && ShowsText(fields[k]) && (forall j :: 0 <= j < k ==> !ShowsText(fields[j])) &&
                          PreferredText(Gemini, v) == Trim(fields[k].value.s)
            else
              PreferredText(Gemini, v) ==
              match Get(v, "candidates")
              case Some(JArr(candidates)) =>
                if JoinParagraphs(CandidateTexts(candidates)) != "" then
                  JoinParagraphs(CandidateTexts(candidates))
                else GenericText(v)
              case _ => GenericText(v)
  {
    hide Trim, GenericText, CandidateTexts, FirstNonBlank, Blank;
    var fields := GeminiFields(v);
    FirstNonBlankIsFirst(fields);
    if k :| 0 <= k < 4 && ShowsText(fields[k]) && (forall j :: 0 <= j < k ==> !ShowsText(fields[j])) &&
            FirstNonBlank(fields) == Trim(fields[k].value.s) {
      TrimBlank(fields[k].value.s);
    }
  }

  predicate ShowsText(field: Option<Value>) {
    field.Some? && field.value.JStr? && Trim(field.value.s) != ""
  }

  /** `response`, `text`, `output.text` and `result.response`. */
  function GeminiFields(v: Value): (fields: seq<Option<Value>>)
    ensures |fields| == 4
  {
    [Get(v, "response"), Get(v, "text"),
     if Get(v, "output").Some? then Get(Get(v, "output").value, "text") else None,
     if Get(v, "result").Some? then Get(Get(v, "result").value, "response") else None]
  }

  lemma {:induction false} FirstNonBlankIsFirst(values: seq<Option<Value>>)
    ensures if exists k :: 0 <= k < |values| && ShowsText(values[k]) then
              exists k :: 0 <= k < |values| && ShowsText(values[k]) &&
                          (forall j :: 0 <= j < k ==> !ShowsText(values[j])) &&
                          FirstNonBlank(values) == Trim(values[k].value.s)
            else FirstNonBlank(values) == ""
  {
    hide Trim;
    if values != [] && !ShowsText(values[0]) {
      var rest := values[1..];
      FirstNonBlankIsFirst(rest);
      assert forall k :: 0 <= k < |rest| ==> rest[k] == values[k + 1];
      if k :| 0 <= k < |values| && ShowsText(values[k]) {
        assert rest[k - 1] == values[k];
        var m :| 0 <= m < |rest| && ShowsText(rest[m]) && (forall j :: 0 <= j < m ==> !ShowsText(rest[j])) &&
                 FirstNonBlank(rest) == Trim(rest[m].value.s);
        forall j | 0 <= j < m + 1 ensures !ShowsText(values[j]) {
          if j > 0 { assert values[j] == rest[j - 1]; }
        }
        assert values[m + 1] == rest[m];
      }
    }
  }

  lemma {:induction false} PreferredAt(provider: Provider, values: seq<Value>)
    ensures PreferredTexts(provider, values) ==
            seq(|values|, i requires 0 <= i < |values| => PreferredText(provider, values[i]))
  {
    hide PreferredText;
    if values != [] {
      PreferredAt(provider, values[1..]);
      assert values == [values[0]] + values[1..];
    }
  }

  /** The texts of the records, each once, in the order in which they first come. */
  function RecordTexts(provider: Provider, parse: string -> Option<Value>, cleaned: string): seq<string> {
    var values := ParsedLines(parse, SplitLines(cleaned));
    Dedupe(seq(|values|, i requires 0 <= i < |values| => PreferredText(provider, values[i])), {})
  }

  /** The parsed text of an output: the text of the whole document, else what a gemini stream says, else the distinct
      texts of its records, else the output as it is. Searching the whole document a second time never helps. */
  lemma ParsedText(provider: Provider, parse: string -> Option<Value>, stdout: string)
    requires provider != Claude
    ensures var cleaned := Trim(StripAnsi(stdout));
            var streamed := GeminiStreamText(ParsedLines(parse, SplitLines(cleaned)));
            FinalText(provider, parse, stdout) ==
            if cleaned == "" then ""
            else if WholeDocumentText(provider, parse, cleaned) != "" then WholeDocumentText(provider, parse, cleaned)
            else if provider == Gemini && streamed.Some? then streamed.value
            else if RecordTexts(provider, parse, cleaned) != [] then
              JoinParagraphs(RecordTexts(provider, parse, cleaned))
            else cleaned
    ensures provider == Codex ==> (FinalText(provider, parse, stdout) == "" <==> Blank(StripAnsi(stdout)))
  {
    hide Trim, StripAnsi, GenericText, CodexText, GeminiText, ParsedLines, SplitLines, Dedupe, JoinParagraphs,
         IsTrimmed, GeminiStreamText;
    var cleaned := Trim(StripAnsi(stdout));
    TrimBlank(StripAnsi(stdout));
    var values, texts := ParsedLines(parse, SplitLines(cleaned)), RecordTexts(provider, parse, cleaned);
    PreferredAt(provider, values);
    DedupeDistinct(PreferredTexts(provider, values));
    assert texts == Dedupe(PreferredTexts(provider, values), {});
    if texts == [] {
      NothingJoined();
    } else {
      JoinTrimmed(texts);
      TrimmedStays(JoinParagraphs(texts));
    }
  }

  lemma NothingJoined()
    ensures Trim(JoinParagraphs([])) == ""
  {
  }
}
