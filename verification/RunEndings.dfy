/** How many endings a run reports: exactly when the failure handler adds one of its own, told from the steps. */
module RunEndings {
  import opened Basics
  import opened RunForwarding

  /** Whether the run's id is known after these steps. */
  predicate IsKnown(existing: bool, steps: seq<Step>) {
    existing || RunFound in steps
  }

  /** Whether an ending is left in the buffer after one more step: one stays until the poller or the failure handler
      takes the buffer, and one comes in when it is produced, or added, while the run is not known. */
  function StillWaits(known: bool, waits: bool, step: Step): bool {
    match step
    case Produce(e) => waits || (IsTerminal(e) && !known)
    case PollerTakes => false
    case BodyFails(aborted, _) => !known && (waits || !aborted)
    case _ => waits
  }

  function EndingWaits(existing: bool, steps: seq<Step>): bool {
    if steps == [] then false
    else
      var before := steps[..|steps| - 1];
      StillWaits(IsKnown(existing, before), EndingWaits(existing, before), steps[|steps| - 1])
  }

  /** The endings that a step adds: one that the orchestrator produces, and the handler's own, for a failure that is no
      abort while no ending waits. */
  function EndingsAdded(waits: bool, step: Step): nat {
    match step
    case Produce(e) => if IsTerminal(e) then 1 else 0
    case BodyFails(aborted, _) => if !aborted && !waits then 1 else 0
    case _ => 0
  }

  function Endings(existing: bool, steps: seq<Step>): nat {
    if steps == [] then 0
    else
      var before := steps[..|steps| - 1];
      Endings(existing, before) + EndingsAdded(EndingWaits(existing, before), steps[|steps| - 1])
  }

  function CountEndings(events: seq<Event>): nat {
    if events == [] then 0
    else CountEndings(events[..|events| - 1]) + if IsTerminal(events[|events| - 1]) then 1 else 0
  }

  lemma CountPush(events: seq<Event>, e: Event)
    ensures CountEndings(events + [e]) == CountEndings(events) + if IsTerminal(e) then 1 else 0
  {
    assert (events + [e])[..|events|] == events;
  }

  /** An ending is in the buffer. */
  ghost predicate HoldsEnding(s: State) {
    exists n: nat :: n in s.buffered && Terminal(s, n)
  }

  ghost predicate WellNumbered(s: State) {
    forall n: nat :: n in s.buffered ==> n < |s.produced|
  }

  lemma ProduceHolds(s: State, e: Event)
    requires WellNumbered(s)
    ensures WellNumbered(ProduceEvent(s, e))
    ensures HoldsEnding(ProduceEvent(s, e)) <==> HoldsEnding(s) || (IsTerminal(e) && !s.known)
  {
    var next := ProduceEvent(s, e);
    forall n: nat | n in s.buffered ensures n in next.buffered && (Terminal(next, n) <==> Terminal(s, n)) {
    }
    if IsTerminal(e) && !s.known {
      assert |s.produced| in next.buffered && Terminal(next, |s.produced|);
    }
  }

  lemma FailureHolds(s: State, aborted: bool, message: string)
    requires WellNumbered(s)
    ensures var next := FailBody(s, aborted, message);
            && WellNumbered(next)
            && (HoldsEnding(next) <==> !s.known && (HoldsEnding(s) || !aborted))
            && next.produced == s.produced + if aborted || HoldsEnding(s) then [] else [RunFailed(message)]
  {
    var next := FailBody(s, aborted, message);
    assert Synthesises(s, aborted) <==> !aborted && !HoldsEnding(s);
    assert s.produced + [] == s.produced;
    if !s.known {
      forall n: nat | n in s.buffered ensures n in next.buffered && (Terminal(next, n) <==> Terminal(s, n)) {
      }
      if Synthesises(s, aborted) {
        assert |s.produced| in next.buffered && Terminal(next, |s.produced|);
      }
    }
  }

  lemma StepHolds(s: State, step: Step)
    requires Enabled(s, step) && WellNumbered(s) && !step.Produce? && !step.BodyFails?
    ensures WellNumbered(Next(s, step)) && Next(s, step).produced == s.produced
    ensures HoldsEnding(Next(s, step)) <==> HoldsEnding(s) && step != PollerTakes
  {
    hide FailBody, ProduceEvent;
    forall n: nat ensures Terminal(Next(s, step), n) <==> Terminal(s, n) {
    }
  }

  /** The state agrees with what the steps tell. */
  ghost predicate Tells(existing: bool, steps: seq<Step>, s: State) {
    && WellNumbered(s)
    && (s.known <==> IsKnown(existing, steps))
    && (HoldsEnding(s) <==> EndingWaits(existing, steps))
    && CountEndings(s.produced) == Endings(existing, steps)
  }

  lemma EndingsSnoc(existing: bool, before: seq<Step>, last: Step)
    ensures EndingWaits(existing, before + [last]) ==
            StillWaits(IsKnown(existing, before), EndingWaits(existing, before), last)
    ensures Endings(existing, before + [last]) ==
            Endings(existing, before) + EndingsAdded(EndingWaits(existing, before), last)
  {
    hide IsKnown, StillWaits, EndingsAdded;
    assert (before + [last])[..|before|] == before;
  }

  lemma TellsProduce(existing: bool, before: seq<Step>, e: Event, s: State)
    requires Tells(existing, before, s)
    requires ProduceEvent(s, e).known <==> IsKnown(existing, before + [Produce(e)])
    ensures Tells(existing, before + [Produce(e)], ProduceEvent(s, e))
  {
    hide HoldsEnding, WellNumbered, IsKnown, EndingWaits, Endings, CountEndings;
    EndingsSnoc(existing, before, Produce(e));
    ProduceHolds(s, e);
    CountPush(s.produced, e);
    assert ProduceEvent(s, e).produced == s.produced + [e];
  }

  lemma TellsFailure(existing: bool, before: seq<Step>, aborted: bool, message: string, s: State)
    requires Tells(existing, before, s)
    requires FailBody(s, aborted, message).known <==> IsKnown(existing, before + [BodyFails(aborted, message)])
    ensures Tells(existing, before + [BodyFails(aborted, message)], FailBody(s, aborted, message))
  {
    hide HoldsEnding, WellNumbered, IsKnown, EndingWaits, Endings, CountEndings, FailBody;
    EndingsSnoc(existing, before, BodyFails(aborted, message));
    FailureHolds(s, aborted, message);
    CountPush(s.produced, RunFailed(message));
    assert s.produced + [] == s.produced;
  }

  lemma TellsNext(existing: bool, before: seq<Step>, last: Step, s: State)
    requires Tells(existing, before, s) && Enabled(s, last)
    requires Next(s, last).known <==> IsKnown(existing, before + [last])
    ensures Tells(existing, before + [last], Next(s, last))
  {
    hide HoldsEnding, WellNumbered, FailBody, ProduceEvent, Next, IsKnown, EndingWaits, Endings, CountEndings;
    LastStep(s, last);
    if last.Produce? {
      TellsProduce(existing, before, last.event, s);
    } else if last.BodyFails? {
      TellsFailure(existing, before, last.aborted, last.message, s);
    } else {
      EndingsSnoc(existing, before, last);
      StepHolds(s, last);
    }
  }

  lemma {:induction false} RunTells(existing: bool, steps: seq<Step>)
    requires AllEnabled(Initial(existing), steps)
    ensures Tells(existing, steps, Run(Initial(existing), steps))
    decreases |steps|
  {
    hide Next, Enabled, Tells;
    if steps == [] {
      NothingTold(existing);
    } else {
      var n := |steps| - 1;
      var before, last := steps[..n], steps[n];
      assert steps == before + [last];
      RunSplit(Initial(existing), before, [last]);
      RunTells(existing, before);
      var s := Run(Initial(existing), before);
      assert [last][1..] == [];
      assert Run(s, [last]) == Next(s, last);
      KnownIff(Initial(existing), steps);
      TellsNext(existing, before, last, s);
    }
  }

  lemma NothingTold(existing: bool)
    ensures Tells(existing, [], Initial(existing))
  {
  }

  lemma LastStep(s: State, step: Step)
    requires Enabled(s, step)
    ensures step.Produce? ==>
              Next(s, step) == ProduceEvent(s, step.event) && Next(s, step).produced == s.produced + [step.event]
    ensures step.BodyFails? ==> Next(s, step) == FailBody(s, step.aborted, step.message)
  {
    hide FailBody;
  }

  /** Over every run: a failure adds `run-failed`, with its message, unless it is an abort or an ending is left in the
      buffer; it adds nothing else. */
  lemma FailureAdds(existing: bool, steps: seq<Step>, aborted: bool, message: string)
    requires AllEnabled(Initial(existing), steps) && !Run(Initial(existing), steps).bodyFailed
    ensures var s := Run(Initial(existing), steps);
            Next(s, BodyFails(aborted, message)).produced ==
            s.produced + if !aborted && !EndingWaits(existing, steps) then [RunFailed(message)] else []
  {
    hide FailBody;
    RunTells(existing, steps);
    FailureHolds(Run(Initial(existing), steps), aborted, message);
  }

  /** So a body that fails without having ended the run is reported once. */
  lemma SilentFailureReported(existing: bool, steps: seq<Step>, message: string)
    requires AllEnabled(Initial(existing), steps) && !Run(Initial(existing), steps).bodyFailed && NoEnding(steps)
    ensures var s := Run(Initial(existing), steps);
            && CountEndings(s.produced) == 0
            && Next(s, BodyFails(false, message)).produced == s.produced + [RunFailed(message)]
            && CountEndings(Next(s, BodyFails(false, message)).produced) == 1
  {
    hide FailBody;
    FailedOnce(Initial(existing), steps);
    NoneWaits(existing, steps);
    FailureAdds(existing, steps, false, message);
    RunTells(existing, steps);
    CountPush(Run(Initial(existing), steps).produced, RunFailed(message));
  }

  lemma {:induction false} NoneWaits(existing: bool, steps: seq<Step>)
    requires NoEnding(steps) && !SomeFails(steps)
    ensures !EndingWaits(existing, steps) && Endings(existing, steps) == 0
  {
    if steps != [] {
      var n := |steps| - 1;
      assert forall step :: step in steps[..n] ==> step in steps;
      assert steps[n] in steps && !Fails(steps[n]);
      NoneWaits(existing, steps[..n]);
    }
  }

  /** The endings produced in a run, by the orchestrator and by the handler together, are those told from the steps. */
  lemma EndingsProduced(existing: bool, steps: seq<Step>)
    requires AllEnabled(Initial(existing), steps)
    ensures CountEndings(Run(Initial(existing), steps).produced) == Endings(existing, steps)
  {
    RunTells(existing, steps);
  }
}
