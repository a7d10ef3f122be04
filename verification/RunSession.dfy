/** The single-slot run session of `controller/runSessionManager.ts`: its state and what each call does to it. */
module RunSession {
  import opened Basics
  import opened Text

  datatype Status = Running | Paused | Aborting
  datatype ReviewMode = DeepFeedback | Realtime
  datatype Request = Request(projectSlug: string, runId: string, round: nat, reviewMode: ReviewMode)
  datatype FinishedStatus = Finished | Aborted

  /** Why an execution controller was aborted: `RunAbortedError` or `RunInterventionAbortError`. */
  datatype AbortReason = ByAbort | ByMessage(directive: string)

  /** An absent run id is the empty one: the code only ever tests it for truth.
      `resolver` numbers the promise handed out by the wait that is open. */
  datatype Session = Session(
    id: nat,
    status: Status,
    projectSlug: string,
    runId: string,
    reviewMode: ReviewMode,
    queued: seq<string>,
    signalAborted: bool,
    execution: Option<nat>,
    resolver: Option<nat>,
    pending: Option<Request>)

  datatype Notice = Notice(runId: string, status: FinishedStatus)
  datatype Resolution = Resolution(wait: nat, value: string)

  /** The manager, the execution controllers it was given, and what it has told the outside so far:
      run-finished notices, intervention prompts and settled promises. */
  datatype World = World(
    active: Option<Session>,
    nextSession: nat,
    nextWait: nat,
    executions: map<nat, AbortReason>,
    notices: seq<Notice>,
    prompts: seq<Request>,
    resolutions: seq<Resolution>)

  datatype Op =
    | Start(projectSlug: string, reviewMode: ReviewMode)
    | SetRunId(session: nat, runId: string)
    | Wait(session: nat, request: Request)
    | Bind(session: nat, execution: Option<nat>)
    | Abort(runId: string)
    | Submit(runId: string, message: string)
    | Drain(session: nat)
    | MarkRoundComplete(session: nat)
    | FinishAddressed(runId: string)
    | Finish(session: nat)

  datatype Refusal =
    | Busy(status: Status)
    | RunMismatch
    | NoSession
    | AlreadyWaiting
    | AlreadyAborting
    | NoRunToContinue
    | BlankMessage

  datatype Reply =
    | Done
    | Started(session: nat)
    | Waiting(wait: nat)
    | Queued
    | Resumed
    | Continuation
    | Drained(messages: seq<string>)
    | Refused(reason: Refusal)

  datatype Result = Result(world: World, reply: Reply)

  predicate Live(w: World, session: nat) {
    w.active.Some? && w.active.value.id == session
  }

  /** `assertAddressedRun` for a session that is there. */
  predicate Addresses(s: Session, runId: string) {
    runId == "" || s.runId == "" || s.runId == runId
  }

  function AbortExecution(executions: map<nat, AbortReason>, execution: Option<nat>, reason: AbortReason)
    : map<nat, AbortReason>
  {
    if execution.Some? && execution.value !in executions then executions[execution.value := reason] else executions
  }

  function Clear(w: World, status: FinishedStatus): World {
    w.(active := None,
       notices := if w.active.Some? && w.active.value.runId != ""
                  then w.notices + [Notice(w.active.value.runId, status)] else w.notices)
  }

  function EndStatus(s: Session): FinishedStatus {
    if s.status == Aborting then Aborted else Finished
  }

  /** What a call without a session answers. */
  function Absent(w: World, runId: string): Result {
    Result(w, Refused(if runId != "" then RunMismatch else NoSession))
  }

  function ApplyStart(w: World, projectSlug: string, reviewMode: ReviewMode): Result {
    match w.active
    case Some(s) => Result(w, Refused(Busy(s.status)))
    case None =>
      var s := Session(w.nextSession, Running, projectSlug, "", reviewMode, [], false, None, None, None);
      Result(w.(active := Some(s), nextSession := w.nextSession + 1), Started(s.id))
  }

  function ApplySetRunId(w: World, session: nat, runId: string): Result {
    if !Live(w, session) || w.active.value.status == Aborting || w.active.value.runId != "" then Result(w, Done)
    else Result(w.(active := Some(w.active.value.(runId := runId))), Done)
  }

  function ApplyWait(w: World, session: nat, request: Request): Result {
    if !Live(w, session) then Result(w, Refused(NoSession))
    else if w.active.value.resolver.Some? then Result(w, Refused(AlreadyWaiting))
    else
      var s := w.active.value;
      var paused := Session(session, Paused, request.projectSlug, request.runId, request.reviewMode,
                            s.queued, s.signalAborted, None, Some(w.nextWait), Some(request));
      Result(w.(active := Some(paused), nextWait := w.nextWait + 1, prompts := w.prompts + [request]),
             Waiting(w.nextWait))
  }

  function ApplyBind(w: World, session: nat, execution: Option<nat>): Result {
    if !Live(w, session) then Result(w, Refused(NoSession))
    else Result(w.(active := Some(w.active.value.(execution := execution))), Done)
  }

  function ApplyAbort(w: World, runId: string): Result {
    match w.active
    case None => Absent(w, runId)
    case Some(s) =>
      if !Addresses(s, runId) then Result(w, Refused(RunMismatch))
      else if s.status == Paused && s.resolver.None? then Result(Clear(w, Aborted), Done)
      else if s.resolver.Some? && s.pending.Some? then
        var aborting := s.(status := Aborting, execution := None, pending := None, resolver := None);
        Result(w.(active := Some(aborting), resolutions := w.resolutions + [Resolution(s.resolver.value, "/abort")]),
               Done)
      else
        Result(w.(active := Some(s.(status := Aborting, signalAborted := true)),
                  executions := AbortExecution(w.executions, s.execution, ByAbort)), Done)
  }

  function ApplySubmit(w: World, runId: string, message: string): Result {
    match w.active
    case None => Absent(w, runId)
    case Some(s) =>
      var trimmed := Trim(message);
      if !Addresses(s, runId) then Result(w, Refused(RunMismatch))
      else if s.status == Aborting then Result(w, Refused(AlreadyAborting))
      else if s.resolver.Some? && s.pending.Some? then
        var request := s.pending.value;
        var running := Session(s.id, Running, request.projectSlug, request.runId, request.reviewMode,
                               s.queued, s.signalAborted, None, None, None);
        Result(w.(active := Some(running), resolutions := w.resolutions + [Resolution(s.resolver.value, trimmed)]),
               Resumed)
      else if s.status == Paused then
        Result(w, if s.runId == "" then Refused(NoRunToContinue) else Continuation)
      else if trimmed == "" then Result(w, Refused(BlankMessage))
      else
        Result(w.(active := Some(s.(queued := s.queued + [trimmed])),
                  executions := if s.reviewMode == Realtime
                                then AbortExecution(w.executions, s.execution, ByMessage(trimmed)) else w.executions),
               Queued)
  }

  function ApplyDrain(w: World, session: nat): Result {
    if !Live(w, session) then Result(w, Drained([]))
    else Result(w.(active := Some(w.active.value.(queued := []))), Drained(w.active.value.queued))
  }

  function ApplyMarkRoundComplete(w: World, session: nat): Result {
    if !Live(w, session) || w.active.value.status == Aborting then Result(w, Done)
    else
      var paused := w.active.value.(status := Paused, execution := None, pending := None, resolver := None);
      Result(w.(active := Some(paused)), Done)
  }

  function ApplyFinishAddressed(w: World, runId: string): Result {
    match w.active
    case None => Absent(w, runId)
    case Some(s) =>
      if !Addresses(s, runId) then Result(w, Refused(RunMismatch)) else Result(Clear(w, EndStatus(s)), Done)
  }

  function ApplyFinish(w: World, session: nat): Result {
    if !Live(w, session) then Result(w, Done) else Result(Clear(w, EndStatus(w.active.value)), Done)
  }

  function Apply(w: World, op: Op): Result {
    match op
    case Start(projectSlug, reviewMode) => ApplyStart(w, projectSlug, reviewMode)
    case SetRunId(session, runId) => ApplySetRunId(w, session, runId)
    case Wait(session, request) => ApplyWait(w, session, request)
    case Bind(session, execution) => ApplyBind(w, session, execution)
    case Abort(runId) => ApplyAbort(w, runId)
    case Submit(runId, message) => ApplySubmit(w, runId, message)
    case Drain(session) => ApplyDrain(w, session)
    case MarkRoundComplete(session) => ApplyMarkRoundComplete(w, session)
    case FinishAddressed(runId) => ApplyFinishAddressed(w, runId)
    case Finish(session) => ApplyFinish(w, session)
  }

  function Run(w: World, ops: seq<Op>): World
    decreases |ops|
  {
    if ops == [] then w else Run(Apply(w, ops[0]).world, ops[1..])
  }

  const IDLE := World(None, 0, 0, map[], [], [], [])

  class RunSessionManager {
    var activeSession: Option<Session>
    var nextSession: nat
    var nextWait: nat
    var executions: map<nat, AbortReason>
    var notices: seq<Notice>
    var prompts: seq<Request>
    var resolutions: seq<Resolution>

    function State(): World
      reads this
    {
      World(activeSession, nextSession, nextWait, executions, notices, prompts, resolutions)
    }

    constructor ()
      ensures State() == IDLE
    {
      activeSession, nextSession, nextWait, executions := None, 0, 0, map[];
      notices, prompts, resolutions := [], [], [];
    }

    method StartRun(projectSlug: string, reviewMode: ReviewMode) returns (reply: Reply)
      modifies this
      ensures Result(State(), reply) == Apply(old(State()), Start(projectSlug, reviewMode))
    {
      if activeSession.Some? {
        return Refused(Busy(activeSession.value.status));
      }
      activeSession := Some(Session(nextSession, Running, projectSlug, "", reviewMode, [], false, None, None, None));
      nextSession := nextSession + 1;
      return Started(activeSession.value.id);
    }

    method AssignRunId(session: nat, runId: string)
      modifies this
      ensures Result(State(), Done) == Apply(old(State()), SetRunId(session, runId))
    {
      if activeSession.None? || activeSession.value.id != session {
        return;
      }
      if activeSession.value.status != Running && activeSession.value.status != Paused {
        return;
      }
      if activeSession.value.runId != "" {
        return;
      }
      activeSession := Some(activeSession.value.(runId := runId));
    }

    method WaitForIntervention(session: nat, request: Request) returns (reply: Reply)
      modifies this
      ensures Result(State(), reply) == Apply(old(State()), Wait(session, request))
    {
      if activeSession.None? || activeSession.value.id != session {
        return Refused(NoSession);
      }
      if activeSession.value.resolver.Some? {
        return Refused(AlreadyWaiting);
      }
      var current := activeSession.value;
      activeSession := Some(Session(session, Paused, request.projectSlug, request.runId, request.reviewMode,
                                    current.queued, current.signalAborted, None, Some(nextWait), Some(request)));
      prompts := prompts + [request];
      reply := Waiting(nextWait);
      nextWait := nextWait + 1;
    }

    method BindExecutionAbortController(session: nat, execution: Option<nat>) returns (reply: Reply)
      modifies this
      ensures Result(State(), reply) == Apply(old(State()), Bind(session, execution))
    {
      if activeSession.None? || activeSession.value.id != session {
        return Refused(NoSession);
      }
      activeSession := Some(activeSession.value.(execution := execution));
      return Done;
    }

    method EmitRunFinished(runId: string, status: FinishedStatus)
      modifies this`notices
      ensures notices == if runId != "" then old(notices) + [Notice(runId, status)] else old(notices)
    {
      if runId != "" {
        notices := notices + [Notice(runId, status)];
      }
    }

    method AbortController(execution: Option<nat>, reason: AbortReason)
      modifies this`executions
      ensures executions == AbortExecution(old(executions), execution, reason)
    {
      if execution.Some? && execution.value !in executions {
        executions := executions[execution.value := reason];
      }
    }

    method AbortRun(runId: string) returns (reply: Reply)
      modifies this
      ensures Result(State(), reply) == Apply(old(State()), Abort(runId))
    {
      if activeSession.None? {
        return Refused(if runId != "" then RunMismatch else NoSession);
      }
      var current := activeSession.value;
      if !Addresses(current, runId) {
        return Refused(RunMismatch);
      }
      if current.status == Paused && current.resolver.None? {
        activeSession := None;
        EmitRunFinished(current.runId, Aborted);
        return Done;
      }
      if current.resolver.Some? && current.pending.Some? {
        activeSession := Some(current.(status := Aborting, execution := None, pending := None, resolver := None));
        resolutions := resolutions + [Resolution(current.resolver.value, "/abort")];
        return Done;
      }
      AbortController(current.execution, ByAbort);
      activeSession := Some(current.(status := Aborting, signalAborted := true));
      return Done;
    }

    method SubmitIntervention(runId: string, message: string) returns (reply: Reply)
      modifies this
      ensures Result(State(), reply) == Apply(old(State()), Submit(runId, message))
    {
      hide Trim;
      if activeSession.None? {
        return Refused(if runId != "" then RunMismatch else NoSession);
      }
      var current := activeSession.value;
      if !Addresses(current, runId) {
        return Refused(RunMismatch);
      }
      if current.status == Aborting {
        return Refused(AlreadyAborting);
      }
      var trimmed := Trim(message);
      if current.resolver.Some? && current.pending.Some? {
        var request := current.pending.value;
        activeSession := Some(Session(current.id, Running, request.projectSlug, request.runId, request.reviewMode,
                                      current.queued, current.signalAborted, None, None, None));
        resolutions := resolutions + [Resolution(current.resolver.value, trimmed)];
        return Resumed;
      }
      if current.status == Paused {
        return if current.runId == "" then Refused(NoRunToContinue) else Continuation;
      }
      if trimmed == "" {
        return Refused(BlankMessage);
      }
      activeSession := Some(current.(queued := current.queued + [trimmed]));
      if current.reviewMode == Realtime {
        AbortController(current.execution, ByMessage(trimmed));
      }
      return Queued;
    }

    method DrainQueuedMessages(session: nat) returns (messages: seq<string>)
      modifies this
      ensures Result(State(), Drained(messages)) == Apply(old(State()), Drain(session))
    {
      if activeSession.None? || activeSession.value.id != session || activeSession.value.queued == [] {
        return [];
      }
      messages := activeSession.value.queued;
      activeSession := Some(activeSession.value.(queued := []));
    }

    method CompleteRound(session: nat)
      modifies this
      ensures Result(State(), Done) == Apply(old(State()), MarkRoundComplete(session))
    {
      if activeSession.None? || activeSession.value.id != session {
        return;
      }
      if activeSession.value.status == Aborting {
        return;
      }
      var current := activeSession.value;
      activeSession := Some(current.(status := Paused, execution := None, pending := None, resolver := None));
    }

    method FinishAddressedRun(runId: string) returns (reply: Reply)
      modifies this
      ensures Result(State(), reply) == Apply(old(State()), FinishAddressed(runId))
    {
      if activeSession.None? {
        return Refused(if runId != "" then RunMismatch else NoSession);
      }
      var current := activeSession.value;
      if !Addresses(current, runId) {
        return Refused(RunMismatch);
      }
      activeSession := None;
      EmitRunFinished(current.runId, if current.status == Aborting then Aborted else Finished);
      return Done;
    }

    method FinishSession(session: nat)
      modifies this
      ensures Result(State(), Done) == Apply(old(State()), Finish(session))
    {
      if activeSession.None? || activeSession.value.id != session {
        return;
      }
      var current := activeSession.value;
      activeSession := None;
      EmitRunFinished(current.runId, if current.status == Aborting then Aborted else Finished);
    }
  }
}
