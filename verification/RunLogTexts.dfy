/** What the chat blocks of a run log say: the texts of their messages, told from the calls alone. */
module RunLogTexts {
  import opened Basics
  import opened Text
  import opened RunLog

  /** Whether the call is about the message with this key. */
  predicate Concerns(op: Op, key: string) {
    (op.MessageStarted? || op.MessageDelta? || op.MessageCompleted?) && op.messageId != "" &&
    Key(op.run, op.messageId) == key
  }

  function OrEmpty(text: Option<string>): string {
    if text.Some? then text.value else ""
  }

  /** What one more call makes of the text of a message. */
  function Grown(text: Option<string>, op: Op, key: string): Option<string> {
    if Concerns(op, key) then
      if op.MessageCompleted? then None
      else Some(OrEmpty(text) + if op.MessageDelta? then op.text else "")
    else if op.Terminal? && StartsWith(key, Prefix(op.run)) then None
    else text
  }

  /** The text of a message that was begun and since then neither completed nor ended with its run: its deltas. */
  function Streamed(ops: seq<Op>, key: string): Option<string> {
    if ops == [] then None else Grown(Streamed(ops[..|ops| - 1], key), ops[|ops| - 1], key)
  }

  /** What the call after these may log under a key: the text of a message that it completes, what there is of it when
      its run ends, or the text of a completed message that it saves. */
  ghost predicate Says(ops: seq<Op>, op: Op, block: Block)
    requires block.Chat?
  {
    var streamed := Streamed(ops, block.key);
    match op
    case MessageCompleted(run, id) =>
      id != "" && block.key == Key(run, id) && block.run == run && !block.partial &&
      streamed.Some? && block.content == Trim(streamed.value)
    case Terminal(run, _) =>
      block.run == run && StartsWith(block.key, Prefix(run)) && block.partial &&
      streamed.Some? && block.content == Trim(streamed.value)
    case SaveMessages(run, messages) =>
      block.run == run && !block.partial &&
      exists m :: m in messages && m.completed && block.key == Key(run, m.id) && block.content == Trim(m.content)
    case _ => false
  }

  // ---- The buffers -----------------------------------------------------------

  ghost predicate DistinctKeys(buffers: seq<Entry>) {
    forall i, j :: 0 <= i < j < |buffers| ==> buffers[i].key != buffers[j].key
  }

  function Lookup(buffers: seq<Entry>, key: string): Option<string> {
    if IndexOf(buffers, key) >= 0 then Some(Content(buffers, key)) else None
  }

  lemma LookupMember(buffers: seq<Entry>, e: Entry)
    requires DistinctKeys(buffers) && e in buffers
    ensures Lookup(buffers, e.key) == Some(e.content)
  {
  }

  lemma LookupIs(buffers: seq<Entry>, key: string, i: nat)
    requires DistinctKeys(buffers) && i < |buffers| && buffers[i].key == key
    ensures Lookup(buffers, key) == Some(buffers[i].content)
  {
  }

  lemma PutLooks(buffers: seq<Entry>, key: string, content: string, other: string)
    requires DistinctKeys(buffers)
    ensures DistinctKeys(Put(buffers, key, content))
    ensures Lookup(Put(buffers, key, content), other) == if other == key then Some(content) else Lookup(buffers, other)
  {
    var next, i := Put(buffers, key, content), IndexOf(buffers, other);
    assert DistinctKeys(next);
    if other == key {
      LookupIs(next, key, if IndexOf(buffers, key) >= 0 then IndexOf(buffers, key) else |buffers|);
    } else if i >= 0 {
      LookupIs(next, other, i);
      assert next[i] == buffers[i];
    } else {
      assert IndexOf(next, other) < 0;
    }
  }

  lemma {:induction false} DropKeyLooks(buffers: seq<Entry>, key: string, other: string)
    requires DistinctKeys(buffers)
    ensures DistinctKeys(DropKey(buffers, key))
    ensures forall e :: e in DropKey(buffers, key) ==> e in buffers
    ensures Lookup(DropKey(buffers, key), other) == if other == key then None else Lookup(buffers, other)
  {
    if buffers != [] {
      DropKeyLooks(buffers[1..], key, other);
      HeadLooks(buffers, other);
      var rest := DropKey(buffers[1..], key);
      if buffers[0].key != key {
        assert DropKey(buffers, key) == [buffers[0]] + rest;
        KeptHead(buffers, rest);
        HeadLooks([buffers[0]] + rest, other);
        assert ([buffers[0]] + rest)[1..] == rest;
      } else {
        assert [] + rest == rest;
        if other == key { NotAgain(buffers); }
      }
    }
  }

  lemma {:induction false} DropPrefixLooks(buffers: seq<Entry>, prefix: string, other: string)
    requires DistinctKeys(buffers)
    ensures DistinctKeys(DropPrefix(buffers, prefix))
    ensures forall e :: e in DropPrefix(buffers, prefix) ==> e in buffers
    ensures Lookup(DropPrefix(buffers, prefix), other) ==
            if StartsWith(other, prefix) then None else Lookup(buffers, other)
  {
    if buffers != [] {
      DropPrefixLooks(buffers[1..], prefix, other);
      HeadLooks(buffers, other);
      var rest := DropPrefix(buffers[1..], prefix);
      if !StartsWith(buffers[0].key, prefix) {
        assert DropPrefix(buffers, prefix) == [buffers[0]] + rest;
        KeptHead(buffers, rest);
        HeadLooks([buffers[0]] + rest, other);
        assert ([buffers[0]] + rest)[1..] == rest;
      } else {
        assert [] + rest == rest;
      }
    }
  }

  lemma HeadLooks(buffers: seq<Entry>, key: string)
    requires buffers != []
    ensures Lookup(buffers, key) ==
            if buffers[0].key == key then Some(buffers[0].content) else Lookup(buffers[1..], key)
  {
  }

  lemma KeptHead(buffers: seq<Entry>, rest: seq<Entry>)
    requires DistinctKeys(buffers) && buffers != [] && DistinctKeys(rest)
    requires forall e :: e in rest ==> e in buffers[1..]
    ensures DistinctKeys([buffers[0]] + rest)
    ensures forall e :: e in [buffers[0]] + rest ==> e in buffers
  {
    forall i | 0 <= i < |rest| ensures rest[i].key != buffers[0].key {
      assert rest[i] in buffers[1..];
    }
  }

  lemma NotAgain(buffers: seq<Entry>)
    requires DistinctKeys(buffers) && buffers != []
    ensures Lookup(buffers[1..], buffers[0].key) == None
  {
  }

  lemma LogOnceBuffers(s: State, run: RunId, key: string, content: string, partial: bool)
    ensures LogOnce(s, run, key, content, partial).buffers == s.buffers
  {
  }

  lemma {:induction false} FlushBuffers(s: State, run: RunId, buffers: seq<Entry>)
    ensures Flush(s, run, buffers).buffers == s.buffers
    decreases |buffers|
  {
    hide LogOnce;
    if buffers != [] {
      LogOnceBuffers(s, run, buffers[0].key, buffers[0].content, true);
      FlushBuffers(if StartsWith(buffers[0].key, Prefix(run)) then
                     LogOnce(s, run, buffers[0].key, buffers[0].content, true) else s, run, buffers[1..]);
    }
  }

  lemma {:induction false} SyncBuffers(s: State, run: RunId, messages: seq<Message>)
    ensures Sync(s, run, messages).buffers == s.buffers
    decreases |messages|
  {
    hide LogOnce;
    if messages != [] {
      var m := messages[0];
      LogOnceBuffers(s, run, Key(run, m.id), m.content, false);
      SyncBuffers(if m.completed then LogOnce(s, run, Key(run, m.id), m.content, false) else s, run, messages[1..]);
    }
  }

  /** A call changes the buffered text of a message as its kind says. */
  lemma ApplyLooks(s: State, op: Op, key: string)
    requires DistinctKeys(s.buffers)
    ensures DistinctKeys(Apply(s, op).buffers)
    ensures Lookup(Apply(s, op).buffers, key) == Grown(Lookup(s.buffers, key), op, key)
  {
    hide DistinctKeys, Put, DropKey, DropPrefix, Flush, Sync, LogOnce, Prefix, IndexOf;
    match op
    case MessageStarted(run, id) =>
      var content := Content(s.buffers, Key(run, id));
      assert content + "" == content;
      PutLooks(s.buffers, Key(run, id), content, key);
    case MessageDelta(run, id, text) =>
      PutLooks(s.buffers, Key(run, id), Content(s.buffers, Key(run, id)) + text, key);
    case MessageCompleted(run, id) =>
      LogOnceBuffers(s, run, Key(run, id), Content(s.buffers, Key(run, id)), false);
      DropKeyLooks(s.buffers, Key(run, id), key);
    case Plain(_, _) =>
    case Terminal(run, ending) =>
      FlushBuffers(Append(s, Line(run, ending)), run, s.buffers);
      DropPrefixLooks(s.buffers, Prefix(run), key);
    case SaveMessages(run, messages) => SyncBuffers(s, run, messages);
  }

  lemma {:induction false} RunSnoc(s: State, ops: seq<Op>, op: Op)
    ensures Run(s, ops + [op]) == Apply(Run(s, ops), op)
    decreases |ops|
  {
    hide Apply;
    if ops == [] {
      assert ops + [op] == [op] && [op][1..] == [];
    } else {
      assert (ops + [op])[0] == ops[0] && (ops + [op])[1..] == ops[1..] + [op];
      RunSnoc(Apply(s, ops[0]), ops[1..], op);
    }
  }

  /** The buffer holds exactly the messages that are being streamed, each with the deltas since it was begun. */
  lemma {:induction false} BuffersStream(ops: seq<Op>, key: string)
    ensures var s := Run(EMPTY, ops);
            DistinctKeys(s.buffers) && Lookup(s.buffers, key) == Streamed(ops, key)
    decreases |ops|
  {
    hide Apply, Lookup, DistinctKeys, Grown;
    if ops == [] {
      NothingBuffered(key);
    } else {
      var before, last := ops[..|ops| - 1], ops[|ops| - 1];
      assert ops == before + [last];
      BuffersStream(before, key);
      RunSnoc(EMPTY, before, last);
      ApplyLooks(Run(EMPTY, before), last, key);
    }
  }

  lemma NothingBuffered(key: string)
    ensures DistinctKeys(EMPTY.buffers) && Lookup(EMPTY.buffers, key) == None
  {
  }

  // ---- The log ---------------------------------------------------------------

  /** The log only grows, and every chat block that is new is one that the call may log. */
  ghost predicate Logs(ops: seq<Op>, op: Op, before: seq<Block>, after: seq<Block>) {
    before <= after && forall i :: |before| <= i < |after| && after[i].Chat? ==> Says(ops, op, after[i])
  }

  lemma LogsOne(ops: seq<Op>, op: Op, before: seq<Block>, s: State, run: RunId, key: string, content: string,
                partial: bool)
    requires Logs(ops, op, before, s.log) && Says(ops, op, Chat(run, key, Trim(content), partial))
    ensures Logs(ops, op, before, LogOnce(s, run, key, content, partial).log)
  {
    hide Says, Trim;
  }

  lemma {:induction false} FlushSays(ops: seq<Op>, op: Op, before: seq<Block>, s: State, run: RunId,
                                     buffers: seq<Entry>)
    requires op.Terminal? && op.run == run && Logs(ops, op, before, s.log)
    requires forall e :: e in buffers ==> Streamed(ops, e.key) == Some(e.content)
    ensures Logs(ops, op, before, Flush(s, run, buffers).log)
    decreases |buffers|
  {
    hide LogOnce, Logs, Trim, Prefix;
    if buffers != [] {
      var e := buffers[0];
      assert e in buffers;
      if StartsWith(e.key, Prefix(run)) {
        LogsOne(ops, op, before, s, run, e.key, e.content, true);
      }
      var next := if StartsWith(e.key, Prefix(run)) then LogOnce(s, run, e.key, e.content, true) else s;
      FlushSays(ops, op, before, next, run, buffers[1..]);
    }
  }

  lemma {:induction false} SyncSays(ops: seq<Op>, op: Op, before: seq<Block>, s: State, run: RunId,
                                    messages: seq<Message>)
    requires op.SaveMessages? && op.run == run && (forall m :: m in messages ==> m in op.messages)
    requires Logs(ops, op, before, s.log)
    ensures Logs(ops, op, before, Sync(s, run, messages).log)
    decreases |messages|
  {
    hide LogOnce, Logs, Trim, Key;
    if messages != [] {
      var m := messages[0];
      assert m in messages;
      if m.completed {
        LogsOne(ops, op, before, s, run, Key(run, m.id), m.content, false);
      }
      SyncSays(ops, op, before, if m.completed then LogOnce(s, run, Key(run, m.id), m.content, false) else s, run,
               messages[1..]);
    }
  }

  /** Every chat block that a call adds says what its message said, trimmed. */
  lemma CallLogsTexts(ops: seq<Op>, op: Op)
    ensures Logs(ops, op, Run(EMPTY, ops).log, Run(EMPTY, ops + [op]).log)
  {
    hide LogOnce, Logs, Trim, Prefix, Lookup, IndexOf, Says, Streamed, Flush, Sync, Key;
    var s := Run(EMPTY, ops);
    RunSnoc(EMPTY, ops, op);
    NothingNew(ops, op, s.log);
    match op
    case MessageStarted(_, _) =>
    case MessageDelta(_, _, _) =>
    case MessageCompleted(run, id) =>
      var key := Key(run, id);
      BuffersStream(ops, key);
      if id != "" && IndexOf(s.buffers, key) >= 0 {
        CompletionSays(ops, run, id, s.buffers);
        LogsOne(ops, op, s.log, s, run, key, Content(s.buffers, key), false);
      }
    case Plain(run, line) =>
      if line.Some? { LineAdds(ops, op, s.log, Line(run, line.value)); }
    case Terminal(run, ending) =>
      LineAdds(ops, op, s.log, Line(run, ending));
      forall e | e in s.buffers ensures Streamed(ops, e.key) == Some(e.content) {
        BuffersStream(ops, e.key);
        LookupMember(s.buffers, e);
      }
      FlushSays(ops, op, s.log, Append(s, Line(run, ending)), run, s.buffers);
    case SaveMessages(run, messages) =>
      SyncSays(ops, op, s.log, s, run, messages);
  }

  lemma NothingNew(ops: seq<Op>, op: Op, log: seq<Block>)
    ensures Logs(ops, op, log, log)
  {
  }

  lemma LineAdds(ops: seq<Op>, op: Op, log: seq<Block>, line: Block)
    requires line.Line?
    ensures Logs(ops, op, log, log + [line])
  {
  }

  lemma CompletionSays(ops: seq<Op>, run: RunId, id: string, buffers: seq<Entry>)
    requires id != "" && IndexOf(buffers, Key(run, id)) >= 0
    requires Lookup(buffers, Key(run, id)) == Streamed(ops, Key(run, id))
    ensures Says(ops, MessageCompleted(run, id), Chat(run, Key(run, id), Trim(Content(buffers, Key(run, id))), false))
  {
  }

  /** A completed message whose text is not blank and whose id is not logged is logged with its deltas, trimmed. */
  lemma CompletionLogged(ops: seq<Op>, run: RunId, id: string)
    requires id != ""
    ensures var key, before := Key(run, id), Run(EMPTY, ops);
            Run(EMPTY, ops + [MessageCompleted(run, id)]).log ==
            before.log +
            if Streamed(ops, key).Some? && Trim(Streamed(ops, key).value) != "" && key !in before.logged then
              [Chat(run, key, Trim(Streamed(ops, key).value), false)]
            else []
  {
    hide Streamed, IndexOf, Trim, Key;
    var s := Run(EMPTY, ops);
    RunSnoc(EMPTY, ops, MessageCompleted(run, id));
    BuffersStream(ops, Key(run, id));
    assert s.log + [] == s.log;
  }

  /** Every chat block of the log says what its message said up to the call that logged it. */
  lemma {:induction false} LoggedTexts(ops: seq<Op>, i: nat)
    requires i < |Run(EMPTY, ops).log| && Run(EMPTY, ops).log[i].Chat?
    ensures exists k :: 0 <= k < |ops| && Says(ops[..k], ops[k], Run(EMPTY, ops).log[i])
    decreases |ops|
  {
    hide Apply, Says;
    if ops != [] {
      var before, last := ops[..|ops| - 1], ops[|ops| - 1];
      assert ops == before + [last];
      CallLogsTexts(before, last);
      if i < |Run(EMPTY, before).log| {
        LoggedTexts(before, i);
        var k :| 0 <= k < |before| && Says(before[..k], before[k], Run(EMPTY, before).log[i]);
        assert ops[..k] == before[..k] && ops[k] == before[k];
      } else {
        assert ops[..|before|] == before;
      }
    }
  }

  // ---- Lines and snapshots ---------------------------------------------------

  function LinesOf(log: seq<Block>): seq<Block> {
    if log == [] then []
    else LinesOf(log[..|log| - 1]) + if log[|log| - 1].Line? then [log[|log| - 1]] else []
  }

  /** The lines that calls ask for: one for every event that has one, and the ending of every run. */
  function LinesSaid(ops: seq<Op>): seq<Block> {
    if ops == [] then []
    else
      LinesSaid(ops[..|ops| - 1]) +
      match ops[|ops| - 1]
      case Plain(run, Some(text)) => [Line(run, text)]
      case Terminal(run, ending) => [Line(run, ending)]
      case _ => []
  }

  lemma LinesPush(log: seq<Block>, block: Block)
    ensures LinesOf(log + [block]) == LinesOf(log) + if block.Line? then [block] else []
  {
    assert (log + [block])[..|log|] == log;
  }

  lemma LogOnceNoLine(s: State, run: RunId, key: string, content: string, partial: bool)
    ensures LinesOf(LogOnce(s, run, key, content, partial).log) == LinesOf(s.log)
  {
    hide Trim;
    LinesPush(s.log, Chat(run, key, Trim(content), partial));
  }

  lemma {:induction false} FlushNoLine(s: State, run: RunId, buffers: seq<Entry>)
    ensures LinesOf(Flush(s, run, buffers).log) == LinesOf(s.log)
    decreases |buffers|
  {
    hide LogOnce, LinesOf, Prefix;
    if buffers != [] {
      var e := buffers[0];
      LogOnceNoLine(s, run, e.key, e.content, true);
      FlushNoLine(if StartsWith(e.key, Prefix(run)) then LogOnce(s, run, e.key, e.content, true) else s, run,
                  buffers[1..]);
    }
  }

  lemma {:induction false} SyncNoLine(s: State, run: RunId, messages: seq<Message>)
    ensures LinesOf(Sync(s, run, messages).log) == LinesOf(s.log)
    decreases |messages|
  {
    hide LogOnce, LinesOf, Key;
    if messages != [] {
      var m := messages[0];
      LogOnceNoLine(s, run, Key(run, m.id), m.content, false);
      SyncNoLine(if m.completed then LogOnce(s, run, Key(run, m.id), m.content, false) else s, run, messages[1..]);
    }
  }

  /** The lines of the log are exactly those asked for, in their order. */
  lemma {:induction false} LinesExactly(ops: seq<Op>)
    ensures LinesOf(Run(EMPTY, ops).log) == LinesSaid(ops)
    decreases |ops|
  {
    hide LogOnce, LinesOf, Flush, Sync, Key, Prefix, IndexOf;
    if ops == [] {
      NoLines();
    } else {
      var before, last := ops[..|ops| - 1], ops[|ops| - 1];
      var s := Run(EMPTY, before);
      assert ops == before + [last];
      LinesExactly(before);
      RunSnoc(EMPTY, before, last);
      assert LinesOf(s.log) + [] == LinesOf(s.log);
      match last
      case MessageCompleted(run, id) =>
        LogOnceNoLine(s, run, Key(run, id), Content(s.buffers, Key(run, id)), false);
      case Plain(run, line) =>
        if line.Some? { LinesPush(s.log, Line(run, line.value)); }
      case Terminal(run, ending) =>
        LinesPush(s.log, Line(run, ending));
        FlushNoLine(Append(s, Line(run, ending)), run, s.buffers);
      case SaveMessages(run, messages) => SyncNoLine(s, run, messages);
      case _ =>
    }
  }

  lemma NoLines()
    ensures LinesOf([]) == []
  {
  }

  lemma {:induction false} SyncGrows(s: State, run: RunId, messages: seq<Message>)
    ensures s.logged <= Sync(s, run, messages).logged
    decreases |messages|
  {
    hide Key, Trim;
    if messages != [] {
      var m := messages[0];
      SyncGrows(if m.completed then LogOnce(s, run, Key(run, m.id), m.content, false) else s, run, messages[1..]);
    }
  }

  /** After a snapshot every completed message in it that is not blank is logged. */
  lemma {:induction false} SnapshotLogs(s: State, run: RunId, messages: seq<Message>, m: Message)
    requires m in messages && m.completed && Trim(m.content) != ""
    ensures Key(run, m.id) in Sync(s, run, messages).logged
    decreases |messages|
  {
    hide Key, Trim;
    var first := messages[0];
    var next := if first.completed then LogOnce(s, run, Key(run, first.id), first.content, false) else s;
    if first == m {
      SyncGrows(next, run, messages[1..]);
    } else {
      assert m in messages[1..];
      SnapshotLogs(next, run, messages[1..], m);
    }
  }
}
