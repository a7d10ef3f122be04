/** What a call to the run session manager brings about: the session's phase, the turn it cuts short, the answer. */
module RunSessionEffects {
  import opened Basics
  import opened Text
  import opened RunSession
  import opened RunSessionLaws

  // ---- Phases --------------------------------------------------------------

  /** Not in the slot; running a turn; waiting for an answer; paused after a round; aborting. */
  datatype Phase = Gone | Working | Asking | Resting | Stopping

  function PhaseOf(w: World, session: nat): Phase {
    if !Live(w, session) then Gone
    else
      match w.active.value.status
      case Running => Working
      case Paused => if w.active.value.resolver.Some? then Asking else Resting
      case Aborting => Stopping
  }

  predicate Finishes(w: World, op: Op, session: nat) {
    op == Finish(session) || (op.FinishAddressed? && w.active.Some? && Addresses(w.active.value, op.runId))
  }

  predicate Aborts(w: World, op: Op) {
    op.Abort? && w.active.Some? && Addresses(w.active.value, op.runId)
  }

  predicate Submits(w: World, op: Op) {
    op.Submit? && w.active.Some? && Addresses(w.active.value, op.runId)
  }

  predicate Waits(op: Op, session: nat) {
    op.Wait? && op.session == session
  }

  /** The session's life, phase by phase. */
  function Move(w: World, op: Op, session: nat): Phase {
    match PhaseOf(w, session)
    case Gone => if op.Start? && w.active.None? && session == w.nextSession then Working else Gone
    case Working =>
      if Finishes(w, op, session) then Gone
      else if Waits(op, session) then Asking
      else if Aborts(w, op) then Stopping
      else if op == MarkRoundComplete(session) then Resting
      else Working
    case Asking =>
      if Finishes(w, op, session) then Gone
      else if Submits(w, op) then Working
      else if Aborts(w, op) then Stopping
      else if op == MarkRoundComplete(session) then Resting
      else Asking
    case Resting =>
      if Finishes(w, op, session) || Aborts(w, op) then Gone
      else if Waits(op, session) then Asking
      else Resting
    case Stopping =>
      if Finishes(w, op, session) then Gone
      else if Waits(op, session) then Asking
      else Stopping
  }

  lemma PhasesMove(w: World, op: Op, session: nat)
    requires Linear(w)
    ensures PhaseOf(Apply(w, op).world, session) == Move(w, op, session)
  {
    hide Trim, Addresses, AbortExecution, EndStatus;
  }

  // ---- Turns that are cut short --------------------------------------------

  datatype Interruption = Interruption(execution: nat, reason: AbortReason)

  /** The turn that a call cuts short: an abort of a session that works or is stopping, and a message for a realtime
      session that works. */
  ghost function Interrupts(w: World, op: Op): Option<Interruption> {
    if w.active.None? || w.active.value.execution.None? then None
    else
      var phase, execution := PhaseOf(w, w.active.value.id), w.active.value.execution.value;
      if Aborts(w, op) && (phase == Working || phase == Stopping) then Some(Interruption(execution, ByAbort))
      else if Submits(w, op) && phase == Working && w.active.value.reviewMode == Realtime && !Blank(op.message) then
        Some(Interruption(execution, ByMessage(Trim(op.message))))
      else None
  }

  /** The executions are aborted as said, with the first reason they are given; no call touches any other. */
  lemma ExecutionsExactly(w: World, op: Op)
    requires Linear(w)
    ensures Apply(w, op).world.executions ==
            match Interrupts(w, op)
            case Some(i) => if i.execution in w.executions then w.executions else w.executions[i.execution := i.reason]
            case None => w.executions
  {
    hide Trim, Blank;
    if op.Submit? {
      TrimBlank(op.message);
    }
  }

  /** Over every sequence of calls, an execution keeps the reason it was first aborted with. */
  lemma {:induction false} FirstReasonStays(w: World, ops: seq<Op>, execution: nat)
    requires Linear(w) && execution in w.executions
    ensures execution in Run(w, ops).executions && Run(w, ops).executions[execution] == w.executions[execution]
    decreases |ops|
  {
    hide Linear, Apply, Interrupts;
    if ops != [] {
      ApplyKeepsLinear(w, ops[0]);
      ExecutionsExactly(w, ops[0]);
      FirstReasonStays(Apply(w, ops[0]).world, ops[1..], execution);
    }
  }

  /** The session's abort signal is raised by an abort of a session that works or is stopping, and stays raised. */
  lemma SignalExactly(w: World, op: Op, session: nat)
    requires Linear(w) && Live(w, session) && Live(Apply(w, op).world, session)
    ensures Apply(w, op).world.active.value.signalAborted <==>
            w.active.value.signalAborted ||
            (Aborts(w, op) && (PhaseOf(w, session) == Working || PhaseOf(w, session) == Stopping))
  {
    hide Trim;
  }

  /** The execution bound to a session: binding sets it, and every call that pauses, resumes or answers takes it off. */
  lemma BindingExactly(w: World, op: Op, session: nat)
    requires Linear(w) && Live(w, session) && Live(Apply(w, op).world, session)
    ensures var phase, next := PhaseOf(w, session), PhaseOf(Apply(w, op).world, session);
            Apply(w, op).world.active.value.execution ==
            if op.Bind? && op.session == session then op.execution
            else if phase != next && !(phase == Working && next == Stopping) then None
            else if op == MarkRoundComplete(session) && next == Resting then None
            else w.active.value.execution
  {
    hide Trim;
  }

  // ---- Whose run it is -----------------------------------------------------

  /** A new session has the project and the mode it was started with, and nothing else yet. */
  lemma StartsFresh(w: World, projectSlug: string, reviewMode: ReviewMode)
    requires w.active.None?
    ensures var s := Apply(w, Start(projectSlug, reviewMode)).world.active;
            && s.Some? && s.value.projectSlug == projectSlug && s.value.reviewMode == reviewMode && s.value.runId == ""
            && s.value.queued == [] && !s.value.signalAborted && s.value.execution.None? && s.value.resolver.None?
  {
  }

  /** Project, mode and run of a session change only when it asks, to those of the request, when the answer comes, back
      to those of the request that was asked, and when the run of a session that does not know it is named. */
  lemma IdentityExactly(w: World, op: Op, session: nat)
    requires Linear(w) && Live(w, session) && Live(Apply(w, op).world, session)
    ensures var s, t := w.active.value, Apply(w, op).world.active.value;
            var phase := PhaseOf(w, session);
            if Waits(op, session) && phase != Asking then
              t.pending == Some(op.request) && t.projectSlug == op.request.projectSlug && t.runId == op.request.runId &&
              t.reviewMode == op.request.reviewMode
            else if Submits(w, op) && phase == Asking then
              t.projectSlug == s.pending.value.projectSlug && t.runId == s.pending.value.runId &&
              t.reviewMode == s.pending.value.reviewMode
            else
              && t.projectSlug == s.projectSlug && t.reviewMode == s.reviewMode
              && t.runId == (if op.SetRunId? && op.session == session && s.runId == "" && phase != Stopping
                             then op.runId else s.runId)
              && (phase == Asking && PhaseOf(Apply(w, op).world, session) == Asking ==> t.pending == s.pending)
  {
    hide Trim;
  }

  predicate HasMode(w: World, session: nat, mode: ReviewMode) {
    Live(w, session) ==>
      w.active.value.reviewMode == mode &&
      (w.active.value.pending.Some? ==> w.active.value.pending.value.reviewMode == mode)
  }

  /** Over every sequence of calls: a session whose own requests all carry its mode keeps it. */
  lemma {:induction false} ModeKept(w: World, session: nat, ops: seq<Op>, mode: ReviewMode)
    requires Linear(w) && HasMode(w, session, mode) && session < w.nextSession
    requires forall op :: op in ops && Waits(op, session) ==> op.request.reviewMode == mode
    ensures HasMode(Run(w, ops), session, mode)
    decreases |ops|
  {
    hide Linear, Apply, Waits;
    if ops != [] {
      var next := Apply(w, ops[0]).world;
      assert ops[0] in ops;
      ApplyKeepsLinear(w, ops[0]);
      StepKeepsMode(w, session, ops[0], mode);
      assert forall op :: op in ops[1..] ==> op in ops;
      ModeKept(next, session, ops[1..], mode);
    }
  }

  lemma StepKeepsMode(w: World, session: nat, op: Op, mode: ReviewMode)
    requires Linear(w) && HasMode(w, session, mode) && session < w.nextSession
    requires Waits(op, session) ==> op.request.reviewMode == mode
    ensures HasMode(Apply(w, op).world, session, mode)
  {
    hide Trim, Addresses, AbortExecution;
  }

  // ---- Answers -------------------------------------------------------------

  /** What a submission is answered, by the phase of the session it finds. */
  lemma SubmissionAnswered(w: World, runId: string, message: string)
    requires Linear(w)
    ensures var reply := Apply(w, Submit(runId, message)).reply;
            if w.active.None? then reply == Refused(if runId != "" then RunMismatch else NoSession)
            else if !Addresses(w.active.value, runId) then reply == Refused(RunMismatch)
            else
              match PhaseOf(w, w.active.value.id)
              case Working => reply == if Blank(message) then Refused(BlankMessage) else Queued
              case Asking => reply == Resumed
              case Resting => reply == if w.active.value.runId == "" then Refused(NoRunToContinue) else Continuation
              case Stopping => reply == Refused(AlreadyAborting)
              case Gone => true
  {
    hide Trim, Blank;
    TrimBlank(message);
  }

  /** Users are prompted exactly by a wait that is granted, with its request. */
  lemma PromptsExactly(w: World, op: Op)
    requires Linear(w)
    ensures Apply(w, op).world.prompts ==
            if op.Wait? && Live(w, op.session) && PhaseOf(w, op.session) != Asking then w.prompts + [op.request]
            else w.prompts
    ensures Apply(w, op).reply.Waiting? <==> op.Wait? && Live(w, op.session) && PhaseOf(w, op.session) != Asking
    ensures Apply(w, op).reply.Waiting? ==>
              Apply(w, op).world.active.value.resolver == Some(Apply(w, op).reply.wait)
  {
    hide Trim;
  }
}
