/** Every message of a run is logged once between two terminal events, and at the terminal event nothing is forgotten.
    */
module RunLogLaws {
  import opened Basics
  import opened Text
  import opened RunLog

  predicate Owns(run: RunId, key: string) {
    StartsWith(key, Prefix(run))
  }

  lemma KeyIsOwned(run: RunId, messageId: string)
    ensures Owns(run, Key(run, messageId))
  {
  }

  function SlashIndex(s: string): nat {
    if s == "" || s[0] == '/' then 0 else 1 + SlashIndex(s[1..])
  }

  lemma {:induction false} SlashAfter(a: string, c: string)
    requires '/' !in a
    ensures SlashIndex(a + "/" + c) == |a|
  {
    if a == "" {
      assert a + "/" + c == "/" + c;
    } else {
      assert (a + "/" + c)[1..] == a[1..] + "/" + c;
      assert a[0] in a;
      SlashAfter(a[1..], c);
    }
  }

  lemma FirstSlash(a: string, b: string, c: string, d: string)
    requires '/' !in a && '/' !in b
    requires a + "/" + c == b + "/" + d
    ensures a == b && c == d
  {
    var s, t := a + "/" + c, b + "/" + d;
    SlashAfter(a, c);
    SlashAfter(b, d);
    assert a == s[..|a|] && b == t[..|b|];
    assert c == s[|a| + 1..] && d == t[|b| + 1..];
  }

  /** Neither run's keys begin like the other's. */
  predicate Apart(run: RunId, other: RunId) {
    !StartsWith(Prefix(run), Prefix(other)) && !StartsWith(Prefix(other), Prefix(run))
  }

  predicate Separate(run: RunId, other: RunId) {
    run == other || Apart(run, other)
  }

  /** Some key belongs to both runs exactly when the runs are not apart. */
  lemma SharedKey(run: RunId, other: RunId)
    ensures (exists key :: Owns(run, key) && Owns(other, key)) <==> !Apart(run, other)
  {
    hide Prefix;
    var p, q := Prefix(run), Prefix(other);
    if key :| Owns(run, key) && Owns(other, key) {
      if |p| <= |q| {
        assert p == key[..|p|] == q[..|p|];
      } else {
        assert q == key[..|q|] == p[..|q|];
      }
    }
    if !Apart(run, other) {
      var longer := if |p| <= |q| then q else p;
      assert Owns(run, longer) && Owns(other, longer);
    }
  }

  lemma OneOwner(key: string, run: RunId, other: RunId)
    requires Separate(run, other) && Owns(run, key) && Owns(other, key)
    ensures run == other
  {
    hide Prefix, Apart, Owns;
    SharedKey(run, other);
  }

  lemma ApartDiffer(run: RunId, other: RunId)
    requires Apart(run, other)
    ensures run != other
  {
  }

  /** Slugs and run ids are made without slashes, and then different runs are apart. */
  predicate WellNamed(run: RunId) {
    '/' !in run.projectSlug && '/' !in run.runId
  }

  lemma SlashFreeApart(run: RunId, other: RunId)
    requires WellNamed(run) && WellNamed(other) && run != other
    ensures Apart(run, other)
  {
    if !Apart(run, other) {
      SharedKey(run, other);
      var key :| Owns(run, key) && Owns(other, key);
      var c, d := key[|Prefix(run)|..], key[|Prefix(other)|..];
      assert key == Prefix(run) + c && key == Prefix(other) + d;
      var cc, dd := run.runId + "/" + c, other.runId + "/" + d;
      assert key == run.projectSlug + "/" + cc && key == other.projectSlug + "/" + dd;
      FirstSlash(run.projectSlug, other.projectSlug, cc, dd);
      FirstSlash(run.runId, other.runId, c, d);
    }
  }

  // ---- What belongs to a run -----------------------------------------------

  function BuffersOf(buffers: seq<Entry>, run: RunId): seq<Entry> {
    if buffers == [] then []
    else (if Owns(run, buffers[0].key) then [buffers[0]] else []) + BuffersOf(buffers[1..], run)
  }

  function LoggedOf(s: State, run: RunId): set<string> {
    set k | k in s.logged && Owns(run, k)
  }

  /** The keys of the chat blocks in a run's log file, in order. */
  function ChatKeys(log: seq<Block>, run: RunId): seq<string> {
    if log == [] then []
    else
      var last := log[|log| - 1];
      ChatKeys(log[..|log| - 1], run) + if last.Chat? && last.run == run then [last.key] else []
  }

  /** The blocks of a run's log file. */
  function BlocksOf(log: seq<Block>, run: RunId): seq<Block> {
    if log == [] then []
    else
      var last := log[|log| - 1];
      BlocksOf(log[..|log| - 1], run) + if last.run == run then [last] else []
  }

  lemma BlocksPush(log: seq<Block>, block: Block, run: RunId)
    ensures BlocksOf(log + [block], run) == BlocksOf(log, run) + if block.run == run then [block] else []
    ensures ChatKeys(log + [block], run) ==
            ChatKeys(log, run) + if block.Chat? && block.run == run then [block.key] else []
  {
    assert (log + [block])[..|log|] == log;
  }

  // ---- Once ----------------------------------------------------------------

  /** Since the log had `base` blocks, the run's chat blocks have different keys, and those are its logged ids. */
  ghost predicate OnceSince(s: State, base: nat, run: RunId) {
    && base <= |s.log|
    && Distinct(ChatKeys(s.log[base..], run))
    && forall k :: k in ChatKeys(s.log[base..], run) <==> k in LoggedOf(s, run)
  }

  lemma AppendKeepsOnce(s: State, base: nat, run: RunId, block: Block)
    requires OnceSince(s, base, run) && block.Line?
    ensures OnceSince(Append(s, block), base, run)
  {
    assert Append(s, block).log[base..] == s.log[base..] + [block];
    BlocksPush(s.log[base..], block, run);
  }

  /** Logging once, for this run or another, never repeats a key. */
  lemma LogOnceKeepsOnce(s: State, base: nat, run: RunId, writer: RunId, key: string, content: string, partial: bool)
    requires OnceSince(s, base, run) && Separate(run, writer) && Owns(writer, key)
    ensures OnceSince(LogOnce(s, writer, key, content, partial), base, run)
  {
    hide Trim, Owns, Apart, Distinct, ChatKeys, BlocksOf;
    var next := LogOnce(s, writer, key, content, partial);
    if next != s {
      var block := Chat(writer, key, Trim(content), partial);
      var keys := ChatKeys(s.log[base..], run);
      assert next.log[base..] == s.log[base..] + [block];
      BlocksPush(s.log[base..], block, run);
      if Owns(run, key) {
        OneOwner(key, run, writer);
      }
      LoggedPush(s, next, run, key);
      if run == writer {
        DistinctPush(keys, key);
        assert forall k :: k in keys + [key] <==> k in keys || k == key;
      } else {
        assert keys + [] == keys;
      }
    }
  }

  lemma LoggedPush(s: State, next: State, run: RunId, key: string)
    requires next.logged == s.logged + {key}
    ensures LoggedOf(next, run) == LoggedOf(s, run) + if Owns(run, key) then {key} else {}
  {
    hide Owns;
  }

  lemma {:induction false} FlushKeepsOnce(s: State, base: nat, run: RunId, writer: RunId, buffers: seq<Entry>)
    requires OnceSince(s, base, run) && Separate(run, writer)
    ensures OnceSince(Flush(s, writer, buffers), base, run)
    decreases |buffers|
  {
    hide OnceSince, LogOnce, Apart;
    if buffers != [] {
      var e := buffers[0];
      if StartsWith(e.key, Prefix(writer)) {
        LogOnceKeepsOnce(s, base, run, writer, e.key, e.content, true);
        FlushKeepsOnce(LogOnce(s, writer, e.key, e.content, true), base, run, writer, buffers[1..]);
      } else {
        FlushKeepsOnce(s, base, run, writer, buffers[1..]);
      }
    }
  }

  lemma {:induction false} SyncKeepsOnce(s: State, base: nat, run: RunId, writer: RunId, messages: seq<Message>)
    requires OnceSince(s, base, run) && Separate(run, writer)
    ensures OnceSince(Sync(s, writer, messages), base, run)
    decreases |messages|
  {
    hide OnceSince, LogOnce, Apart;
    if messages != [] {
      var m := messages[0];
      if m.completed {
        KeyIsOwned(writer, m.id);
        LogOnceKeepsOnce(s, base, run, writer, Key(writer, m.id), m.content, false);
        SyncKeepsOnce(LogOnce(s, writer, Key(writer, m.id), m.content, false), base, run, writer, messages[1..]);
      } else {
        SyncKeepsOnce(s, base, run, writer, messages[1..]);
      }
    }
  }

  lemma ClearKeepsOthersOnce(s: State, base: nat, run: RunId, writer: RunId)
    requires OnceSince(s, base, run) && Apart(run, writer)
    ensures OnceSince(Clear(s, writer), base, run)
  {
    hide Prefix;
    forall k | k in LoggedOf(s, run) ensures !Owns(writer, k) {
      if Owns(writer, k) {
        OneOwner(k, run, writer);
      }
    }
    assert LoggedOf(Clear(s, writer), run) == LoggedOf(s, run);
  }

  lemma ApplyKeepsOnce(s: State, base: nat, run: RunId, op: Op)
    requires OnceSince(s, base, run) && Separate(run, op.run)
    requires op.Terminal? ==> op.run != run
    ensures OnceSince(Apply(s, op), base, run)
  {
    hide OnceSince, LogOnce, Apart, IndexOf, Content, Prefix;
    match op
    case MessageStarted(writer, id) => BuffersDoNotMatter(s, Apply(s, op), base, run);
    case MessageDelta(writer, id, text) => BuffersDoNotMatter(s, Apply(s, op), base, run);
    case MessageCompleted(writer, id) =>
      var key := Key(writer, id);
      KeyIsOwned(writer, id);
      LogOnceKeepsOnce(s, base, run, writer, key, Content(s.buffers, key), false);
      var logged := LogOnce(s, writer, key, Content(s.buffers, key), false);
      BuffersDoNotMatter(s, s.(buffers := DropKey(s.buffers, key)), base, run);
      LogOnceKeepsBuffers(s, writer, key, Content(s.buffers, key), false);
      BuffersDoNotMatter(logged, logged.(buffers := DropKey(s.buffers, key)), base, run);
    case Plain(writer, line) =>
      if line.Some? {
        AppendKeepsOnce(s, base, run, Line(writer, line.value));
      }
    case Terminal(writer, ending) =>
      AppendKeepsOnce(s, base, run, Line(writer, ending));
      var noted := Append(s, Line(writer, ending));
      FlushKeepsOnce(noted, base, run, writer, noted.buffers);
      ClearKeepsOthersOnce(Flush(noted, writer, noted.buffers), base, run, writer);
    case SaveMessages(writer, messages) => SyncKeepsOnce(s, base, run, writer, messages);
  }

  lemma LogOnceKeepsBuffers(s: State, run: RunId, key: string, content: string, partial: bool)
    ensures LogOnce(s, run, key, content, partial).buffers == s.buffers
  {
  }

  lemma BuffersDoNotMatter(s: State, t: State, base: nat, run: RunId)
    requires OnceSince(s, base, run) && t.log == s.log && t.logged == s.logged
    ensures OnceSince(t, base, run)
  {
    assert LoggedOf(t, run) == LoggedOf(s, run);
  }

  /** However chat events and snapshots interleave, and whatever other runs do, as long as the run has not ended no
      message id has more than one log block. */
  lemma {:induction false} OnceOnly(s: State, base: nat, run: RunId, ops: seq<Op>)
    requires OnceSince(s, base, run)
    requires forall i :: 0 <= i < |ops| ==> Separate(run, ops[i].run) && (ops[i].Terminal? ==> ops[i].run != run)
    ensures OnceSince(Run(s, ops), base, run)
    decreases |ops|
  {
    hide OnceSince, Apart, Apply;
    if ops != [] {
      assert ops[0] == ops[0];
      ApplyKeepsOnce(s, base, run, ops[0]);
      forall i | 0 <= i < |ops[1..]|
        ensures Separate(run, ops[1..][i].run) && (ops[1..][i].Terminal? ==> ops[1..][i].run != run)
      {
        assert ops[1..][i] == ops[i + 1];
      }
      OnceOnly(Apply(s, ops[0]), base, run, ops[1..]);
    }
  }

  // ---- The terminal event --------------------------------------------------

  lemma {:induction false} FlushGrows(s: State, run: RunId, buffers: seq<Entry>)
    ensures s.logged <= Flush(s, run, buffers).logged && Flush(s, run, buffers).buffers == s.buffers
    ensures s.log <= Flush(s, run, buffers).log
    decreases |buffers|
  {
    hide Trim, Prefix;
    if buffers != [] {
      var e := buffers[0];
      FlushGrows(if StartsWith(e.key, Prefix(run)) then LogOnce(s, run, e.key, e.content, true) else s,
                 run, buffers[1..]);
    }
  }

  /** After the flush every non-blank buffered message of the run is logged. */
  lemma {:induction false} FlushLogs(s: State, run: RunId, buffers: seq<Entry>, e: Entry)
    requires e in buffers && Owns(run, e.key) && Trim(e.content) != ""
    ensures e.key in Flush(s, run, buffers).logged
    decreases |buffers|
  {
    hide Trim, Prefix;
    var head := buffers[0];
    var next := if StartsWith(head.key, Prefix(run)) then LogOnce(s, run, head.key, head.content, true) else s;
    if e == head {
      FlushGrows(next, run, buffers[1..]);
    } else {
      FlushLogs(next, run, buffers[1..], e);
    }
  }

  lemma {:induction false} DropPrefixDrops(buffers: seq<Entry>, run: RunId)
    ensures BuffersOf(DropPrefix(buffers, Prefix(run)), run) == []
  {
    hide Prefix;
    if buffers != [] {
      DropPrefixDrops(buffers[1..], run);
      var rest := DropPrefix(buffers[1..], Prefix(run));
      if !Owns(run, buffers[0].key) {
        assert ([buffers[0]] + rest)[1..] == rest;
      } else {
        assert [] + rest == rest;
      }
    }
  }

  /** At the terminal event the run's chat blocks are still distinct, every non-blank buffered message is among them,
      and nothing of the run is left behind. */
  lemma TerminalForgetsNothing(s: State, base: nat, run: RunId, ending: string)
    requires OnceSince(s, base, run)
    ensures var t := Apply(s, Terminal(run, ending));
            && base <= |t.log|
            && Distinct(ChatKeys(t.log[base..], run))
            && (forall e :: e in s.buffers && Owns(run, e.key) && Trim(e.content) != "" ==>
                              e.key in ChatKeys(t.log[base..], run))
            && BuffersOf(t.buffers, run) == [] && LoggedOf(t, run) == {}
            && OnceSince(t, |t.log|, run)
  {
    hide Trim, Prefix, LogOnce;
    var noted := Append(s, Line(run, ending));
    AppendKeepsOnce(s, base, run, Line(run, ending));
    FlushKeepsOnce(noted, base, run, run, noted.buffers);
    var flushed := Flush(noted, run, noted.buffers);
    var t := Apply(s, Terminal(run, ending));
    FlushGrows(noted, run, noted.buffers);
    forall e | e in s.buffers && Owns(run, e.key) && Trim(e.content) != ""
      ensures e.key in ChatKeys(t.log[base..], run)
    {
      FlushLogs(noted, run, noted.buffers, e);
      assert e.key in LoggedOf(flushed, run);
    }
    DropPrefixDrops(flushed.buffers, run);
    assert LoggedOf(t, run) == {};
    assert t.log[|t.log|..] == [];
  }

  // ---- Other runs ----------------------------------------------------------

  /** Nothing that belongs to `run` differs. */
  ghost predicate SameFor(s: State, t: State, run: RunId) {
    && BuffersOf(s.buffers, run) == BuffersOf(t.buffers, run)
    && LoggedOf(s, run) == LoggedOf(t, run)
    && BlocksOf(s.log, run) == BlocksOf(t.log, run)
  }

  lemma LogOnceElsewhere(s: State, run: RunId, writer: RunId, key: string, content: string, partial: bool)
    requires Apart(run, writer) && Owns(writer, key)
    ensures SameFor(s, LogOnce(s, writer, key, content, partial), run)
    ensures LogOnce(s, writer, key, content, partial).buffers == s.buffers
  {
    hide Trim, Prefix;
    if Owns(run, key) {
      OneOwner(key, run, writer);
    }
    BlocksPush(s.log, Chat(writer, key, Trim(content), partial), run);
  }

  lemma {:induction false} FlushElsewhere(s: State, run: RunId, writer: RunId, buffers: seq<Entry>)
    requires Apart(run, writer)
    ensures SameFor(s, Flush(s, writer, buffers), run)
    decreases |buffers|
  {
    hide LogOnce, Apart, Prefix;
    if buffers != [] {
      var e := buffers[0];
      if StartsWith(e.key, Prefix(writer)) {
        LogOnceElsewhere(s, run, writer, e.key, e.content, true);
        FlushElsewhere(LogOnce(s, writer, e.key, e.content, true), run, writer, buffers[1..]);
      } else {
        FlushElsewhere(s, run, writer, buffers[1..]);
      }
    }
  }

  lemma {:induction false} SyncElsewhere(s: State, run: RunId, writer: RunId, messages: seq<Message>)
    requires Apart(run, writer)
    ensures SameFor(s, Sync(s, writer, messages), run)
    decreases |messages|
  {
    hide LogOnce, Apart;
    if messages != [] {
      var m := messages[0];
      if m.completed {
        KeyIsOwned(writer, m.id);
        LogOnceElsewhere(s, run, writer, Key(writer, m.id), m.content, false);
        SyncElsewhere(LogOnce(s, writer, Key(writer, m.id), m.content, false), run, writer, messages[1..]);
      } else {
        SyncElsewhere(s, run, writer, messages[1..]);
      }
    }
  }

  lemma {:induction false} BuffersSplit(a: seq<Entry>, b: seq<Entry>, run: RunId)
    ensures BuffersOf(a + b, run) == BuffersOf(a, run) + BuffersOf(b, run)
  {
    hide Prefix;
    if a == [] {
      assert a + b == b;
    } else {
      assert (a + b)[1..] == a[1..] + b;
      BuffersSplit(a[1..], b, run);
    }
  }

  lemma PutElsewhere(buffers: seq<Entry>, run: RunId, key: string, content: string)
    requires !Owns(run, key)
    ensures BuffersOf(Put(buffers, key, content), run) == BuffersOf(buffers, run)
  {
    hide Prefix;
    var i := IndexOf(buffers, key);
    if i >= 0 {
      assert buffers == buffers[..i] + ([buffers[i]] + buffers[i + 1..]);
      assert Put(buffers, key, content) == buffers[..i] + ([Entry(key, content)] + buffers[i + 1..]);
      BuffersSplit(buffers[..i], [buffers[i]] + buffers[i + 1..], run);
      BuffersSplit(buffers[..i], [Entry(key, content)] + buffers[i + 1..], run);
      assert ([buffers[i]] + buffers[i + 1..])[1..] == ([Entry(key, content)] + buffers[i + 1..])[1..];
    } else {
      BuffersSplit(buffers, [Entry(key, content)], run);
    }
  }

  lemma {:induction false} DropElsewhere(buffers: seq<Entry>, run: RunId, key: string)
    requires !Owns(run, key)
    ensures BuffersOf(DropKey(buffers, key), run) == BuffersOf(buffers, run)
  {
    hide Prefix;
    if buffers != [] {
      DropElsewhere(buffers[1..], run, key);
      var rest := DropKey(buffers[1..], key);
      assert ([buffers[0]] + rest)[1..] == rest && [] + rest == rest;
    }
  }

  lemma {:induction false} ClearElsewhere(buffers: seq<Entry>, run: RunId, writer: RunId)
    requires Apart(run, writer)
    ensures BuffersOf(DropPrefix(buffers, Prefix(writer)), run) == BuffersOf(buffers, run)
  {
    hide Apart, Prefix;
    ApartDiffer(run, writer);
    if buffers != [] {
      ClearElsewhere(buffers[1..], run, writer);
      var rest := DropPrefix(buffers[1..], Prefix(writer));
      assert ([buffers[0]] + rest)[1..] == rest && [] + rest == rest;
      if Owns(run, buffers[0].key) && Owns(writer, buffers[0].key) {
        OneOwner(buffers[0].key, run, writer);
      }
    }
  }

  /** A call for one run changes nothing of another: neither buffers, nor logged ids, nor its log file. */
  lemma OtherRunsUnchanged(s: State, run: RunId, op: Op)
    requires Apart(run, op.run)
    ensures SameFor(s, Apply(s, op), run)
  {
    hide Apart, Prefix, Content, LogOnce, IndexOf, Put;
    var writer := op.run;
    ApartDiffer(run, writer);
    if op.MessageStarted? || op.MessageDelta? || op.MessageCompleted? {
      var key := Key(writer, op.messageId);
      KeyIsOwned(writer, op.messageId);
      if Owns(run, key) {
        OneOwner(key, run, writer);
      }
      var content := Content(s.buffers, key);
      if op.MessageCompleted? {
        LogOnceElsewhere(s, run, writer, key, content, false);
        DropElsewhere(s.buffers, run, key);
      } else if op.MessageStarted? {
        PutElsewhere(s.buffers, run, key, content);
      } else {
        PutElsewhere(s.buffers, run, key, content + op.text);
      }
    } else if op.Plain? {
      if op.line.Some? {
        BlocksPush(s.log, Line(writer, op.line.value), run);
      }
    } else if op.Terminal? {
      var noted := Append(s, Line(writer, op.ending));
      BlocksPush(s.log, Line(writer, op.ending), run);
      FlushElsewhere(noted, run, writer, noted.buffers);
      FlushGrows(noted, writer, noted.buffers);
      var flushed := Flush(noted, writer, noted.buffers);
      ClearElsewhere(flushed.buffers, run, writer);
      forall k | k in flushed.logged && Owns(run, k) ensures !Owns(writer, k) {
        if Owns(writer, k) {
          OneOwner(k, run, writer);
        }
      }
      assert LoggedOf(Clear(flushed, writer), run) == LoggedOf(flushed, run);
    } else {
      SyncElsewhere(s, run, writer, op.messages);
    }
  }

  /** No call for one run changes anything of the other. */
  ghost predicate Unaffected(run: RunId, writer: RunId) {
    forall s: State, op: Op :: op.run == writer ==> SameFor(s, Apply(s, op), run)
  }

  /** A run is unaffected by every call for another run if and only if the two are apart. */
  lemma IsolationExact(run: RunId, writer: RunId)
    requires run != writer
    ensures Unaffected(run, writer) <==> Apart(run, writer)
  {
    hide Apart, SameFor, Apply, Prefix, Owns;
    if Apart(run, writer) {
      forall s: State, op: Op | op.run == writer ensures SameFor(s, Apply(s, op), run) {
        OtherRunsUnchanged(s, run, op);
      }
    } else {
      var messageId := SharedMessage(run, writer);
      var op := MessageStarted(writer, messageId);
      StartShows(run, op);
      assert !SameFor(EMPTY, Apply(EMPTY, op), run);
    }
  }

  /** A message of one run whose key belongs to the other too. */
  lemma SharedMessage(run: RunId, writer: RunId) returns (messageId: string)
    requires !Apart(run, writer)
    ensures messageId != "" && Owns(run, Key(writer, messageId))
  {
    hide Prefix;
    var p, q := Prefix(run), Prefix(writer);
    if StartsWith(p, q) {
      messageId := p[|q|..] + "x";
      assert Key(writer, messageId) == p + "x";
    } else {
      messageId := "x";
      assert Key(writer, messageId)[..|p|] == q[..|p|] == p;
    }
  }

  lemma StartShows(run: RunId, op: Op)
    requires op.MessageStarted? && op.messageId != "" && Owns(run, Key(op.run, op.messageId))
    ensures !SameFor(EMPTY, Apply(EMPTY, op), run)
  {
    hide Prefix, Key;
    var e := Entry(Key(op.run, op.messageId), "");
    assert Apply(EMPTY, op).buffers == [e];
    assert [e][1..] == [];
  }

  /** What a slash does: the end of run "a" erases what run "a/b" has buffered, and logs it as its own. */
  lemma SlashErases(projectSlug: string, a: string, b: string, messageId: string, text: string, ending: string)
    requires Trim(text) != ""
    ensures var run, inner := RunId(projectSlug, a), RunId(projectSlug, a + "/" + b);
            var e := Entry(Key(inner, messageId), text);
            var after := Apply(State([e], {}, []), Terminal(run, ending));
            && BuffersOf([e], inner) == [e] && BuffersOf(after.buffers, inner) == []
            && after.log == [Line(run, ending), Chat(run, e.key, Trim(text), true)]
  {
    hide Trim, Prefix;
    var run, inner := RunId(projectSlug, a), RunId(projectSlug, a + "/" + b);
    var e := Entry(Key(inner, messageId), text);
    KeyIsOwned(inner, messageId);
    InnerKey(projectSlug, a, b, messageId);
    assert [e][1..] == [];
    var noted := Append(State([e], {}, []), Line(run, ending));
    assert StartsWith(e.key, Prefix(run));
    assert Flush(noted, run, [e]) == Flush(LogOnce(noted, run, e.key, text, true), run, []);
    assert DropPrefix([e], Prefix(run)) == [] + DropPrefix([], Prefix(run)) == [];
  }

  lemma InnerKey(projectSlug: string, a: string, b: string, messageId: string)
    ensures Owns(RunId(projectSlug, a), Key(RunId(projectSlug, a + "/" + b), messageId))
  {
    assert Key(RunId(projectSlug, a + "/" + b), messageId) ==
           Prefix(RunId(projectSlug, a)) + (b + "/" + messageId);
  }
}
