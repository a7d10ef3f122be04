/** The JavaScript string operations that the streaming code relies on. */
module Text {

  /** The characters removed by `String.prototype.trim`. */
  predicate IsSpace(c: char) {
    || '\t' <= c <= '\r'
    || c == ' '
    || c == '\U{00A0}'
    || c == '\U{1680}'
    || '\U{2000}' <= c <= '\U{200A}'
    || c == '\U{2028}'
    || c == '\U{2029}'
    || c == '\U{202F}'
    || c == '\U{205F}'
    || c == '\U{3000}'
    || c == '\U{FEFF}'
  }

  ghost predicate Blank(s: string) {
    forall i :: 0 <= i < |s| ==> IsSpace(s[i])
  }

  function TrimStart(s: string): string {
    if s != "" && IsSpace(s[0]) then TrimStart(s[1..]) else s
  }

  function TrimEnd(s: string): string {
    if s != "" && IsSpace(s[|s| - 1]) then TrimEnd(s[..|s| - 1]) else s
  }

  function Trim(s: string): string {
    TrimEnd(TrimStart(s))
  }

  /** The place of the first newline, or -1. */
  function NewlineIndex(s: string): (i: int)
    ensures -1 <= i < |s|
    ensures i >= 0 ==> s[i] == '\n' && '\n' !in s[..i]
    ensures i < 0 ==> '\n' !in s
  {
    if s == "" then -1
    else if s[0] == '\n' then 0
    else
      var i := NewlineIndex(s[1..]);
      if i < 0 then -1 else i + 1
  }

  /** Whether the left text begins with the right one. */
  predicate StartsWith(left: string, right: string) {
    right <= left
  }

  predicate EndsWith(s: string, suffix: string) {
    |suffix| <= |s| && s[|s| - |suffix|..] == suffix
  }

  function Flatten(chunks: seq<string>): string {
    if chunks == [] then "" else chunks[0] + Flatten(chunks[1..])
  }

  /** The parts with an empty line between them. */
  function JoinParagraphs(parts: seq<string>): string {
    if parts == [] then ""
    else if |parts| == 1 then parts[0]
    else parts[0] + "\n\n" + JoinParagraphs(parts[1..])
  }

  // ---- Facts about trimming ------------------------------------------------

  lemma {:induction false} TrimStartBlank(s: string)
    ensures TrimStart(s) == "" <==> Blank(s)
  {
    if s != "" && IsSpace(s[0]) {
      TrimStartBlank(s[1..]);
      assert Blank(s) <==> Blank(s[1..]) by {
        if Blank(s[1..]) {
          forall i | 0 <= i < |s| ensures IsSpace(s[i]) {
            if i > 0 { assert s[i] == s[1..][i - 1]; }
          }
        }
        if Blank(s) {
          forall i | 0 <= i < |s[1..]| ensures IsSpace(s[1..][i]) {
            assert s[1..][i] == s[i + 1];
          }
        }
      }
    }
  }

  lemma {:induction false} TrimEndNonBlank(s: string)
    requires s != "" && !IsSpace(s[0])
    ensures TrimEnd(s) != "" && TrimEnd(s)[0] == s[0]
  {
    if IsSpace(s[|s| - 1]) {
      TrimEndNonBlank(s[..|s| - 1]);
    }
  }

  lemma {:induction false} TrimStartHead(s: string)
    ensures TrimStart(s) != "" ==> !IsSpace(TrimStart(s)[0])
  {
    if s != "" && IsSpace(s[0]) {
      TrimStartHead(s[1..]);
    }
  }

  /** Exactly the texts made of white space alone are empty once trimmed. */
  lemma TrimBlank(s: string)
    ensures Trim(s) == "" <==> Blank(s)
  {
    TrimStartBlank(s);
    TrimStartHead(s);
    if TrimStart(s) != "" {
      TrimEndNonBlank(TrimStart(s));
    }
  }

  /** A white-space character at either end does not change the trimmed text. */
  lemma TrimDropsFirst(c: char, s: string)
    requires IsSpace(c)
    ensures Trim([c] + s) == Trim(s)
  {
    assert ([c] + s)[1..] == s;
  }

  lemma {:induction false} TrimStartAppend(s: string, c: char)
    requires IsSpace(c)
    ensures TrimStart(s + [c]) == if Blank(s) then "" else TrimStart(s) + [c]
  {
    TrimStartBlank(s);
    if s == "" {
      assert (s + [c])[1..] == "";
    } else if IsSpace(s[0]) {
      TrimStartAppend(s[1..], c);
      TrimStartBlank(s[1..]);
      assert (s + [c])[1..] == s[1..] + [c];
      assert (s + [c])[0] == s[0];
    } else {
      assert (s + [c])[0] == s[0];
    }
  }

  lemma TrimDropsLast(s: string, c: char)
    requires IsSpace(c)
    ensures Trim(s + [c]) == Trim(s)
  {
    TrimStartAppend(s, c);
    TrimStartBlank(s);
    if !Blank(s) {
      var t := TrimStart(s) + [c];
      assert t[..|t| - 1] == TrimStart(s);
      assert t[|t| - 1] == c;
    }
  }

  // ---- Facts about newlines ------------------------------------------------

  lemma {:induction false} NewlineIndexAppend(a: string, b: string)
    ensures NewlineIndex(a) >= 0 ==> NewlineIndex(a + b) == NewlineIndex(a)
    ensures NewlineIndex(a) < 0 ==>
              NewlineIndex(a + b) == if NewlineIndex(b) < 0 then -1 else |a| + NewlineIndex(b)
  {
    if a == "" {
      assert a + b == b;
    } else {
      assert (a + b)[0] == a[0];
      assert (a + b)[1..] == a[1..] + b;
      NewlineIndexAppend(a[1..], b);
    }
  }

  lemma {:induction false} FlattenAppend(a: seq<string>, b: seq<string>)
    ensures Flatten(a + b) == Flatten(a) + Flatten(b)
  {
    if a == [] {
      assert a + b == b;
    } else {
      assert (a + b)[0] == a[0];
      assert (a + b)[1..] == a[1..] + b;
      FlattenAppend(a[1..], b);
    }
  }
}
