/** The life of one session under `startRunInternal` of `routes/runsHandlers.ts`, split at every await. */
module RunDriver {
  import opened RunSession
  import opened RunSessionLaws

  /** Before the run body starts; inside `orchestrator.run`; after it returned, with the state push still awaited;
      after the `finally` block; or never started because a push or refresh before the body threw. */
  datatype Phase = Setup | InBody | Returned | Settled | SetupFailed

  datatype System = System(world: World, phase: Phase)

  datatype Step =
    | Other(op: Op)
    | SetupEnds
    | SetupThrows
    | Body(op: Op)
    | BodyReturns
    | BodyThrows
    | PushReturns
    | PushThrows

  /** The calls the orchestrator makes through the callbacks it was given. */
  predicate IsBodyCall(session: nat, op: Op) {
    (op.Wait? || op.Drain? || op.Bind?) && op.session == session
  }

  /** Everyone else: users, other sessions, and the poller, which may name the run. */
  predicate IsOtherCall(session: nat, op: Op) {
    IsSessionCall(op) ==> op.session != session || op.SetRunId?
  }

  predicate Enabled(sys: System, session: nat, step: Step) {
    match step
    case Other(op) => IsOtherCall(session, op)
    case SetupEnds => sys.phase == Setup
    case SetupThrows => sys.phase == Setup
    case Body(op) => sys.phase == InBody && IsBodyCall(session, op)
    case BodyReturns => sys.phase == InBody
    case BodyThrows => sys.phase == InBody
    case PushReturns => sys.phase == Returned
    case PushThrows => sys.phase == Returned
  }

  function After(w: World, op: Op): World {
    Apply(w, op).world
  }

  function Next(sys: System, session: nat, step: Step): System {
    match step
    case Other(op) => sys.(world := After(sys.world, op))
    case SetupEnds => sys.(phase := InBody)
    case SetupThrows => sys.(phase := SetupFailed)
    case Body(op) => sys.(world := After(sys.world, op))
    case BodyReturns => System(After(sys.world, MarkRoundComplete(session)), Returned)
    case BodyThrows => System(After(sys.world, Finish(session)), Settled)
    case PushReturns =>
      System(if sys.world.active.Some? && sys.world.active.value.status == Aborting
             then After(sys.world, Finish(session)) else sys.world, Settled)
    case PushThrows => System(After(sys.world, Finish(session)), Settled)
  }

  ghost predicate AllEnabled(sys: System, session: nat, steps: seq<Step>)
    decreases |steps|
  {
    steps == [] || (Enabled(sys, session, steps[0]) && AllEnabled(Next(sys, session, steps[0]), session, steps[1..]))
  }

  function RunSteps(sys: System, session: nat, steps: seq<Step>): System
    decreases |steps|
  {
    if steps == [] then sys else RunSteps(Next(sys, session, steps[0]), session, steps[1..])
  }

  /** Gone, or paused with nobody waiting: what a settled body leaves of its session. */
  predicate AtRest(w: World, session: nat) {
    Live(w, session) ==> w.active.value.status == Paused && w.active.value.resolver.None?
  }

  ghost predicate Inv(sys: System, session: nat) {
    && Linear(sys.world)
    && (sys.phase == Returned && Live(sys.world, session) ==>
          sys.world.active.value.resolver.None? && sys.world.active.value.status != Running)
    && (sys.phase == Settled ==> AtRest(sys.world, session))
  }

  lemma ClearedOrKept(w: World, op: Op, session: nat)
    requires Linear(w) && IsOtherCall(session, op) && session < w.nextSession
    ensures Live(After(w, op), session) ==> Live(w, session)
    ensures Live(After(w, op), session) && w.active.value.resolver.None? && w.active.value.status != Running ==>
              && After(w, op).active.value.resolver.None?
              && After(w, op).active.value.status == w.active.value.status
  {
    hide Text.Trim;
  }

  lemma StepKeepsInv(sys: System, session: nat, step: Step)
    requires Inv(sys, session) && session < sys.world.nextSession && Enabled(sys, session, step)
    ensures Inv(Next(sys, session, step), session)
    ensures session < Next(sys, session, step).world.nextSession
  {
    match step
    case Other(op) => ApplyKeepsLinear(sys.world, op); ClearedOrKept(sys.world, op, session);
    case Body(op) => ApplyKeepsLinear(sys.world, op);
    case BodyReturns => ApplyKeepsLinear(sys.world, MarkRoundComplete(session));
    case BodyThrows => ApplyKeepsLinear(sys.world, Finish(session));
    case PushReturns => ApplyKeepsLinear(sys.world, Finish(session));
    case PushThrows => ApplyKeepsLinear(sys.world, Finish(session));
    case SetupEnds =>
    case SetupThrows =>
  }

  lemma {:induction false} StepsKeepInv(sys: System, session: nat, steps: seq<Step>)
    requires Inv(sys, session) && session < sys.world.nextSession && AllEnabled(sys, session, steps)
    ensures Inv(RunSteps(sys, session, steps), session)
    decreases |steps|
  {
    if steps != [] {
      StepKeepsInv(sys, session, steps[0]);
      StepsKeepInv(Next(sys, session, steps[0]), session, steps[1..]);
    }
  }

  /** However the calls of users, of other sessions and of the poller interleave, a session whose run body has settled
      is gone or paused with nobody waiting, and stays so. */
  lemma NoWedgedSession(w: World, projectSlug: string, reviewMode: ReviewMode, steps: seq<Step>)
    requires Linear(w) && w.active.None?
    requires AllEnabled(System(After(w, Start(projectSlug, reviewMode)), Setup), w.nextSession, steps)
    ensures var end := RunSteps(System(After(w, Start(projectSlug, reviewMode)), Setup), w.nextSession, steps);
            end.phase == Settled ==> AtRest(end.world, w.nextSession)
  {
    ApplyKeepsLinear(w, Start(projectSlug, reviewMode));
    StepsKeepInv(System(After(w, Start(projectSlug, reviewMode)), Setup), w.nextSession, steps);
  }

  /** The driver's own steps leave every other session as it is. */
  lemma DriverTouchesOwnSessionOnly(sys: System, session: nat, step: Step)
    requires Enabled(sys, session, step) && !step.Other? && !Live(sys.world, session)
    ensures Next(sys, session, step).world == sys.world
  {
  }

  // ---- Set-up that throws --------------------------------------------------

  /** Somebody finishes the session by an address that is its own: no run id, its run's id, or any id while the session
      does not know its run. */
  predicate FinishesByAddress(sys: System, session: nat, step: Step) {
    && step.Other? && step.op.FinishAddressed?
    && Live(sys.world, session) && Addresses(sys.world.active.value, step.op.runId)
  }

  ghost predicate FinishedByAddress(sys: System, session: nat, steps: seq<Step>)
    decreases |steps|
  {
    steps != [] &&
    (FinishesByAddress(sys, session, steps[0]) || FinishedByAddress(Next(sys, session, steps[0]), session, steps[1..]))
  }

  /** A session that runs or is aborting, with nobody waiting. */
  predicate Busy(w: World, session: nat) {
    Live(w, session) && w.active.value.resolver.None? && w.active.value.status != Paused
  }

  predicate OutsideBody(sys: System) {
    sys.phase == Setup || sys.phase == SetupFailed
  }

  /** Before the body and instead of it, one step leaves the session busy or finishes it by its address. */
  lemma StepOutsideBody(sys: System, session: nat, step: Step)
    requires Linear(sys.world) && OutsideBody(sys) && Enabled(sys, session, step) && step != SetupEnds
    requires Busy(sys.world, session)
    ensures var next := Next(sys, session, step);
            && Linear(next.world) && OutsideBody(next)
            && (if FinishesByAddress(sys, session, step) then next.world.active.None? else Busy(next.world, session))
  {
    hide Text.Trim;
    if step.Other? {
      ApplyKeepsLinear(sys.world, step.op);
    }
  }

  /** A session that is gone is neither finished by its address nor live again. */
  lemma {:induction false} GoneInDriver(sys: System, session: nat, steps: seq<Step>)
    requires Linear(sys.world) && session < sys.world.nextSession && !Live(sys.world, session)
    requires AllEnabled(sys, session, steps)
    ensures !Live(RunSteps(sys, session, steps).world, session) && !FinishedByAddress(sys, session, steps)
    decreases |steps|
  {
    hide Linear;
    if steps != [] {
      var next := Next(sys, session, steps[0]);
      StepWhenGone(sys, session, steps[0]);
      GoneInDriver(next, session, steps[1..]);
    }
  }

  lemma StepWhenGone(sys: System, session: nat, step: Step)
    requires Linear(sys.world) && session < sys.world.nextSession && !Live(sys.world, session)
    requires Enabled(sys, session, step)
    ensures var next := Next(sys, session, step).world;
            Linear(next) && session < next.nextSession && !Live(next, session)
  {
    if step.Other? {
      ApplyKeepsLinear(sys.world, step.op);
      GoneForGood(sys.world, session, [step.op]);
      assert Run(sys.world, [step.op]) == After(sys.world, step.op) by {
        assert [step.op][1..] == [];
      }
    } else {
      DriverTouchesOwnSessionOnly(sys, session, step);
    }
  }

  lemma {:induction false} BusyUntilFinished(sys: System, session: nat, steps: seq<Step>)
    requires Linear(sys.world) && OutsideBody(sys) && Busy(sys.world, session) && session < sys.world.nextSession
    requires AllEnabled(sys, session, steps) && SetupEnds !in steps
    ensures var end := RunSteps(sys, session, steps).world;
            if FinishedByAddress(sys, session, steps) then !Live(end, session) else Busy(end, session)
    decreases |steps|
  {
    hide Linear, Next, Busy, FinishesByAddress, Enabled;
    if steps != [] {
      assert steps[0] != SetupEnds && SetupEnds !in steps[1..];
      var next := Next(sys, session, steps[0]);
      StepOutsideBody(sys, session, steps[0]);
      KeepsNextSession(sys, session, steps[0]);
      if FinishesByAddress(sys, session, steps[0]) {
        GoneInDriver(next, session, steps[1..]);
      } else {
        BusyUntilFinished(next, session, steps[1..]);
      }
    }
  }

  lemma KeepsNextSession(sys: System, session: nat, step: Step)
    requires Linear(sys.world)
    ensures Next(sys, session, step).world.nextSession >= sys.world.nextSession
  {
    match step
    case Other(op) => ApplyKeepsLinear(sys.world, op);
    case Body(op) => ApplyKeepsLinear(sys.world, op);
    case _ =>
  }

  /** Set-up ends in one way only. */
  lemma {:induction false} SetupEndsOnce(sys: System, session: nat, steps: seq<Step>)
    requires AllEnabled(sys, session, steps)
    ensures sys.phase != Setup ==> SetupThrows !in steps && SetupEnds !in steps
    ensures SetupThrows in steps ==> SetupEnds !in steps
    decreases |steps|
  {
    hide Apply, After;
    if steps != [] {
      SetupEndsOnce(Next(sys, session, steps[0]), session, steps[1..]);
      assert forall step :: step in steps <==> step == steps[0] || step in steps[1..];
    }
  }

  /** The guarantee does not reach a run whose set-up throws between `start` and the run body. Its session stays in the
      slot, running or aborting, if and only if nobody finishes it by its address; and for as long as it stays, every
      start is refused. */
  lemma SetupFailureWedges(w: World, projectSlug: string, reviewMode: ReviewMode, steps: seq<Step>)
    requires Linear(w) && w.active.None? && SetupThrows in steps
    requires AllEnabled(System(After(w, Start(projectSlug, reviewMode)), Setup), w.nextSession, steps)
    ensures var sys, session := System(After(w, Start(projectSlug, reviewMode)), Setup), w.nextSession;
            var end := RunSteps(sys, session, steps).world;
            && (Live(end, session) <==> !FinishedByAddress(sys, session, steps))
            && (Live(end, session) ==>
                  && end.active.value.status in {Running, Aborting}
                  && forall slug, mode :: Apply(end, Start(slug, mode)) ==
                                          Result(end, Refused(Refusal.Busy(end.active.value.status))))
  {
    ApplyKeepsLinear(w, Start(projectSlug, reviewMode));
    SetupEndsOnce(System(After(w, Start(projectSlug, reviewMode)), Setup), w.nextSession, steps);
    BusyUntilFinished(System(After(w, Start(projectSlug, reviewMode)), Setup), w.nextSession, steps);
  }
}
