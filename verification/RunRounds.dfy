/** What a run leaves of its session, step by step and in the end. */
module RunRounds {
  import opened RunSession
  import opened RunSessionLaws
  import opened RunSessionEffects
  import opened RunDriver

  /** The phase of the session after a step of its run: when the body returns the round is over, unless the session is
      aborting; a body or a push that throws ends the session, and so does the end of one that is aborting. */
  function DriverMove(sys: System, session: nat, step: Step): RunSessionEffects.Phase {
    var phase := PhaseOf(sys.world, session);
    match step
    case Other(op) => Move(sys.world, op, session)
    case Body(op) => Move(sys.world, op, session)
    case SetupEnds => phase
    case SetupThrows => phase
    case BodyReturns => if phase == Gone || phase == Stopping then phase else Resting
    case BodyThrows => Gone
    case PushReturns => if phase == Stopping then Gone else phase
    case PushThrows => Gone
  }

  lemma DriverMoves(sys: System, session: nat, step: Step)
    requires Linear(sys.world) && Enabled(sys, session, step)
    ensures PhaseOf(Next(sys, session, step).world, session) == DriverMove(sys, session, step)
    ensures Linear(Next(sys, session, step).world)
  {
    hide Apply, Linear;
    match step
    case Other(op) => PhasesMove(sys.world, op, session); ApplyKeepsLinear(sys.world, op);
    case Body(op) => PhasesMove(sys.world, op, session); ApplyKeepsLinear(sys.world, op);
    case BodyReturns =>
      PhasesMove(sys.world, MarkRoundComplete(session), session);
      ApplyKeepsLinear(sys.world, MarkRoundComplete(session));
    case SetupEnds =>
    case SetupThrows =>
    case BodyThrows => FinishMoves(sys.world, session);
    case PushReturns => FinishMoves(sys.world, session);
    case PushThrows => FinishMoves(sys.world, session);
  }

  lemma FinishMoves(w: World, session: nat)
    requires Linear(w)
    ensures PhaseOf(Apply(w, Finish(session)).world, session) == Gone && Linear(Apply(w, Finish(session)).world)
  {
    hide Apply, Linear;
    PhasesMove(w, Finish(session), session);
    ApplyKeepsLinear(w, Finish(session));
  }

  /** Nobody aborts or finishes a session from outside, and nothing throws. */
  predicate Calm(step: Step) {
    match step
    case Other(op) => !op.Abort? && !op.FinishAddressed?
    case SetupThrows => false
    case BodyThrows => false
    case PushThrows => false
    case _ => true
  }

  /** The phases of a session whose run is calm. */
  predicate Undisturbed(sys: System, session: nat) {
    match sys.phase
    case Setup => PhaseOf(sys.world, session) == Working
    case InBody => PhaseOf(sys.world, session) == Working || PhaseOf(sys.world, session) == Asking
    case SetupFailed => false
    case _ => PhaseOf(sys.world, session) == Resting
  }

  lemma CalmStep(sys: System, session: nat, step: Step)
    requires Linear(sys.world) && Enabled(sys, session, step) && Calm(step) && Undisturbed(sys, session)
    ensures Undisturbed(Next(sys, session, step), session) && Linear(Next(sys, session, step).world)
  {
    hide Apply, Linear, PhaseOf, Addresses;
    DriverMoves(sys, session, step);
  }

  lemma {:induction false} CalmRun(sys: System, session: nat, steps: seq<Step>)
    requires Linear(sys.world) && AllEnabled(sys, session, steps) && Undisturbed(sys, session)
    requires forall step :: step in steps ==> Calm(step)
    ensures Undisturbed(RunSteps(sys, session, steps), session)
    decreases |steps|
  {
    hide Linear, Undisturbed, Enabled, Next, Calm;
    if steps != [] {
      assert steps[0] in steps;
      CalmStep(sys, session, steps[0]);
      CalmRun(Next(sys, session, steps[0]), session, steps[1..]);
    }
  }

  /** A session that nobody aborts or finishes, in a run in which nothing throws, is resting in the slot once its run
      has settled, so that the next round can take it up. */
  lemma RoundKept(w: World, projectSlug: string, reviewMode: ReviewMode, steps: seq<Step>)
    requires Linear(w) && w.active.None? && (forall step :: step in steps ==> Calm(step))
    requires AllEnabled(System(After(w, Start(projectSlug, reviewMode)), Setup), w.nextSession, steps)
    ensures var end := RunSteps(System(After(w, Start(projectSlug, reviewMode)), Setup), w.nextSession, steps);
            end.phase == Settled ==> PhaseOf(end.world, w.nextSession) == Resting
  {
    hide Linear, RunSteps, AllEnabled, Calm;
    var op := Start(projectSlug, reviewMode);
    ApplyKeepsLinear(w, op);
    PhasesMove(w, op, w.nextSession);
    CalmRun(System(After(w, op), Setup), w.nextSession, steps);
  }

  /** A session whose body or last push throws is gone for good. */
  lemma {:induction false} ThrowEndsSession(sys: System, session: nat, steps: seq<Step>)
    requires Linear(sys.world) && session < sys.world.nextSession && AllEnabled(sys, session, steps)
    requires BodyThrows in steps || PushThrows in steps
    ensures PhaseOf(RunSteps(sys, session, steps).world, session) == Gone
    decreases |steps|
  {
    hide Linear, Enabled, Next, DriverMove;
    var step, next := steps[0], Next(sys, session, steps[0]);
    DriverMoves(sys, session, step);
    KeepsNextSession(sys, session, step);
    if step == BodyThrows || step == PushThrows {
      ThrowMoves(sys, session, step);
      GoneInDriver(next, session, steps[1..]);
    } else {
      assert forall s :: s in steps <==> s == step || s in steps[1..];
      ThrowEndsSession(next, session, steps[1..]);
    }
  }

  lemma ThrowMoves(sys: System, session: nat, step: Step)
    requires step == BodyThrows || step == PushThrows
    ensures DriverMove(sys, session, step) == Gone
  {
  }

  /** An abort while a turn runs, or while the session is aborting already, ends the session with its run, unless the
      session waits for an answer again before. */
  lemma {:induction false} AbortEndsSession(sys: System, session: nat, steps: seq<Step>)
    requires Linear(sys.world) && session < sys.world.nextSession && AllEnabled(sys, session, steps)
    requires PhaseOf(sys.world, session) in {Stopping, Gone} && sys.phase in {InBody, Returned}
    requires forall step :: step in steps && step.Body? ==> !step.op.Wait?
    ensures var end := RunSteps(sys, session, steps);
            end.phase == Settled ==> PhaseOf(end.world, session) == Gone
    decreases |steps|
  {
    hide Linear, Enabled, Next, Apply;
    if steps != [] {
      var step, next := steps[0], Next(sys, session, steps[0]);
      assert step in steps;
      DriverMoves(sys, session, step);
      KeepsNextSession(sys, session, step);
      StopsOrGone(sys, session, step);
      if next.phase == Settled {
        GoneInDriver(next, session, steps[1..]);
      } else {
        AbortEndsSession(next, session, steps[1..]);
      }
    }
  }

  lemma StopsOrGone(sys: System, session: nat, step: Step)
    requires Linear(sys.world) && session < sys.world.nextSession && Enabled(sys, session, step)
    requires PhaseOf(sys.world, session) in {Stopping, Gone} && sys.phase in {InBody, Returned}
    requires step.Body? ==> !step.op.Wait?
    ensures DriverMove(sys, session, step) in {Stopping, Gone}
    ensures Next(sys, session, step).phase in {InBody, Returned, Settled}
    ensures Next(sys, session, step).phase == Settled ==> DriverMove(sys, session, step) == Gone
  {
    hide Apply, Addresses, Linear;
  }
}
