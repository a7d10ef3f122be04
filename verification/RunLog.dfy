/** The run log of `core/runRepository.ts`: buffered chat messages, the ids already logged, and what reaches the log. */
module RunLog {
  import opened Basics
  import opened Text

  datatype RunId = RunId(projectSlug: string, runId: string)

  /** A message being streamed; only its text matters here. */
  datatype Entry = Entry(key: string, content: string)

  /** What is appended to a run's log file: a chat block, or a line about the run. */
  datatype Block =
    | Chat(run: RunId, key: string, content: string, partial: bool)
    | Line(run: RunId, text: string)

  datatype Message = Message(id: string, completed: bool, content: string)

  /** `buffers` is an insertion-ordered map. */
  datatype State = State(buffers: seq<Entry>, logged: set<string>, log: seq<Block>)

  datatype Op =
    | MessageStarted(run: RunId, messageId: string)
    | MessageDelta(run: RunId, messageId: string, text: string)
    | MessageCompleted(run: RunId, messageId: string)
    | Plain(run: RunId, line: Option<string>)
    | Terminal(run: RunId, ending: string)
    | SaveMessages(run: RunId, messages: seq<Message>)

  function Prefix(run: RunId): string {
    run.projectSlug + "/" + run.runId + "/"
  }

  function Key(run: RunId, messageId: string): string {
    Prefix(run) + messageId
  }

  function IndexOf(buffers: seq<Entry>, key: string): (i: int)
    ensures -1 <= i < |buffers|
    ensures i >= 0 ==> buffers[i].key == key
    ensures i < 0 ==> forall j :: 0 <= j < |buffers| ==> buffers[j].key != key
  {
    if buffers == [] then -1
    else if buffers[0].key == key then 0
    else
      var i := IndexOf(buffers[1..], key);
      if i < 0 then -1 else i + 1
  }

  function Content(buffers: seq<Entry>, key: string): string {
    if IndexOf(buffers, key) >= 0 then buffers[IndexOf(buffers, key)].content else ""
  }

  function Put(buffers: seq<Entry>, key: string, content: string): seq<Entry> {
    if IndexOf(buffers, key) >= 0 then buffers[IndexOf(buffers, key) := Entry(key, content)]
    else buffers + [Entry(key, content)]
  }

  function DropKey(buffers: seq<Entry>, key: string): seq<Entry> {
    if buffers == [] then []
    else (if buffers[0].key == key then [] else [buffers[0]]) + DropKey(buffers[1..], key)
  }

  function DropPrefix(buffers: seq<Entry>, prefix: string): seq<Entry> {
    if buffers == [] then []
    else (if StartsWith(buffers[0].key, prefix) then [] else [buffers[0]]) + DropPrefix(buffers[1..], prefix)
  }

  /** Logs a text under a key, unless it is blank or the key is logged already. */
  function LogOnce(s: State, run: RunId, key: string, content: string, partial: bool): State {
    if Trim(content) == "" || key in s.logged then s
    else s.(log := s.log + [Chat(run, key, Trim(content), partial)], logged := s.logged + {key})
  }

  function Complete(s: State, run: RunId, key: string): State {
    var logged := if IndexOf(s.buffers, key) >= 0 then LogOnce(s, run, key, Content(s.buffers, key), false) else s;
    logged.(buffers := DropKey(s.buffers, key))
  }

  /** `flushBufferedChatLogs` over the buffers it iterates. */
  function Flush(s: State, run: RunId, buffers: seq<Entry>): State
    decreases |buffers|
  {
    if buffers == [] then s
    else
      var e := buffers[0];
      Flush(if StartsWith(e.key, Prefix(run)) then LogOnce(s, run, e.key, e.content, true) else s, run, buffers[1..])
  }

  function Clear(s: State, run: RunId): State {
    s.(buffers := DropPrefix(s.buffers, Prefix(run)),
       logged := set k | k in s.logged && !StartsWith(k, Prefix(run)))
  }

  function Sync(s: State, run: RunId, messages: seq<Message>): State
    decreases |messages|
  {
    if messages == [] then s
    else
      var m := messages[0];
      Sync(if m.completed then LogOnce(s, run, Key(run, m.id), m.content, false) else s, run, messages[1..])
  }

  function Append(s: State, block: Block): State {
    s.(log := s.log + [block])
  }

  function Apply(s: State, op: Op): State {
    match op
    case MessageStarted(run, id) =>
      if id == "" then s else s.(buffers := Put(s.buffers, Key(run, id), Content(s.buffers, Key(run, id))))
    case MessageDelta(run, id, text) =>
      if id == "" then s else s.(buffers := Put(s.buffers, Key(run, id), Content(s.buffers, Key(run, id)) + text))
    case MessageCompleted(run, id) => if id == "" then s else Complete(s, run, Key(run, id))
    case Plain(run, line) => if line.Some? then Append(s, Line(run, line.value)) else s
    case Terminal(run, ending) =>
      var noted := Append(s, Line(run, ending));
      Clear(Flush(noted, run, noted.buffers), run)
    case SaveMessages(run, messages) => Sync(s, run, messages)
  }

  function Run(s: State, ops: seq<Op>): State
    decreases |ops|
  {
    if ops == [] then s else Run(Apply(s, ops[0]), ops[1..])
  }

  const EMPTY := State([], {}, [])

  class RunRepository {
    var bufferedChatLogs: seq<Entry>
    var loggedChatMessageIds: set<string>
    var log: seq<Block>

    function Contents(): State
      reads this
    {
      State(bufferedChatLogs, loggedChatMessageIds, log)
    }

    constructor ()
      ensures Contents() == EMPTY
    {
      bufferedChatLogs, loggedChatMessageIds, log := [], {}, [];
    }

    method AppendChatEvent(op: Op)
      requires op.MessageStarted? || op.MessageDelta? || op.MessageCompleted?
      modifies this
      ensures Contents() == Apply(old(Contents()), op)
    {
      hide Trim, IndexOf;
      if op.messageId == "" {
        return;
      }
      var key := Key(op.run, op.messageId);
      var existing := Content(bufferedChatLogs, key);
      match op {
        case MessageStarted(_, _) =>
          bufferedChatLogs := Put(bufferedChatLogs, key, existing);
        case MessageDelta(_, _, text) =>
          bufferedChatLogs := Put(bufferedChatLogs, key, existing + text);
        case MessageCompleted(run, _) =>
          if IndexOf(bufferedChatLogs, key) >= 0 && Trim(existing) != "" && key !in loggedChatMessageIds {
            log := log + [Chat(run, key, Trim(existing), false)];
            loggedChatMessageIds := loggedChatMessageIds + {key};
          }
          bufferedChatLogs := DropKey(bufferedChatLogs, key);
      }
    }

    method SyncRunLogFromChatMessages(run: RunId, messages: seq<Message>)
      modifies this
      ensures Contents() == Apply(old(Contents()), SaveMessages(run, messages))
    {
      hide Trim;
      for i := 0 to |messages|
        invariant Sync(Contents(), run, messages[i..]) == Sync(old(Contents()), run, messages)
      {
        assert messages[i..][1..] == messages[i + 1..];
        var m, key := messages[i], Key(run, messages[i].id);
        if m.completed && Trim(m.content) != "" && key !in loggedChatMessageIds {
          log := log + [Chat(run, key, Trim(m.content), false)];
          loggedChatMessageIds := loggedChatMessageIds + {key};
        }
      }
    }

    method FlushBufferedChatLogs(run: RunId)
      modifies this
      ensures Contents() == Flush(old(Contents()), run, old(bufferedChatLogs))
    {
      hide Trim, Prefix;
      var buffers := bufferedChatLogs;
      for i := 0 to |buffers|
        invariant Flush(Contents(), run, buffers[i..]) == Flush(old(Contents()), run, buffers)
      {
        assert buffers[i..][1..] == buffers[i + 1..];
        var e := buffers[i];
        if StartsWith(e.key, Prefix(run)) && Trim(e.content) != "" && e.key !in loggedChatMessageIds {
          log := log + [Chat(run, e.key, Trim(e.content), true)];
          loggedChatMessageIds := loggedChatMessageIds + {e.key};
        }
      }
    }

    method ClearRunChatState(run: RunId)
      modifies this
      ensures Contents() == Clear(old(Contents()), run)
    {
      hide Prefix;
      var prefix := Prefix(run);
      bufferedChatLogs := DropPrefix(bufferedChatLogs, prefix);
      var ids := loggedChatMessageIds;
      while ids != {}
        invariant ids <= old(loggedChatMessageIds)
        invariant bufferedChatLogs == DropPrefix(old(bufferedChatLogs), prefix) && log == old(log)
        invariant forall k :: k in loggedChatMessageIds <==>
                    k in old(loggedChatMessageIds) && (k in ids || !StartsWith(k, prefix))
        decreases ids
      {
        var k :| k in ids;
        ids := ids - {k};
        if StartsWith(k, prefix) {
          loggedChatMessageIds := loggedChatMessageIds - {k};
        }
      }
    }

    method AppendRunEvent(op: Op)
      requires op.Plain? || op.Terminal?
      modifies this
      ensures Contents() == Apply(old(Contents()), op)
    {
      match op {
        case Plain(run, line) =>
          if line.Some? {
            log := log + [Line(run, line.value)];
          }
        case Terminal(run, ending) =>
          log := log + [Line(run, ending)];
          FlushBufferedChatLogs(run);
          ClearRunChatState(run);
      }
    }
  }
}
