/** The control flow of `ReviewOrchestrator.run` in `core/orchestrator.ts`, from its main try block on. Providers,
    users and the parsers of provider answers are nondeterministic choices; storage and event sinks do not throw. */
module Orchestrator {
  import opened Basics
  import opened Turns

  datatype Error = AbortError | InterventionError | OtherError

  /** How a statement ends: normally, or by throwing. */
  datatype Signal = Normal | Raised(error: Error) {
    predicate IsFailure() {
      Raised?
    }

    function PropagateFailure(): Signal
      requires Raised?
    {
      this
    }
  }

  datatype Mode = DeepFeedback | Realtime
  datatype Status = Running | AwaitingUserInput | Completed | Aborted | Failed

  datatype Event =
    | Awaiting(unit: nat)
    | InputReceived(unit: nat)
    | RunCompleted
    | RunAborted
    | RunFailed

  /** What a paused user answers: "/abort", "/done" or "/stop", or anything else. */
  datatype Reply = SayAbort | SayDone | SayMore

  datatype Decision = Clarify | Accept | Redirect

  /** What users are asked: to go on after a deep cycle, to settle a blocked round, or what they meant. */
  datatype Question = AfterCycle | AfterBlock | ToClarify

  /** What users and the coordinator decide: an answer, the coordinator's answer to an intervention, or an
      intervention that closes the section by itself. */
  datatype Choice = Answered(question: Question, reply: Reply) | Decided(decision: Decision) | ForceClose

  function LastChoice(choices: seq<Choice>): Choice
    requires choices != []
  {
    choices[|choices| - 1]
  }

  predicate EndsIn(choices: seq<Choice>, choice: Choice) {
    choices != [] && LastChoice(choices) == choice
  }

  /** The choices so far let the rounds or cycles go on. */
  predicate GoesOn(choices: seq<Choice>) {
    choices == [] ||
    LastChoice(choices) in {Answered(AfterCycle, SayMore), Decided(Accept), Decided(Redirect), ForceClose}
  }

  /** What may be chosen next: users clarify only what the coordinator asked, it decides again once they have, and after
      any other answer but "go on" nothing is chosen any more. */
  predicate MayChoose(mode: Mode, choices: seq<Choice>, next: Choice) {
    && (mode == DeepFeedback <==> next.Answered? && next.question == AfterCycle)
    && match next
       case Answered(ToClarify, _) => EndsIn(choices, Decided(Clarify))
       case Decided(_) => GoesOn(choices) || EndsIn(choices, Answered(ToClarify, SayMore))
       case _ => GoesOn(choices)
  }

  ghost predicate Orderly(mode: Mode, choices: seq<Choice>) {
    choices == [] ||
    (Orderly(mode, choices[..|choices| - 1]) && MayChoose(mode, choices[..|choices| - 1], LastChoice(choices)))
  }

  /** What the last choice makes of a run: "/abort" aborts it, a question that nobody answers fails it, and any other
      last answer ends it in the way it says. Nothing else ends it normally but what `finished` stands for. */
  ghost predicate EndsBy(choices: seq<Choice>, signal: Signal, awaiting: bool, finished: bool) {
    if EndsIn(choices, Answered(AfterBlock, SayDone)) then signal == Normal && awaiting
    else if choices != [] && LastChoice(choices).Answered? && LastChoice(choices).reply == SayAbort then
      signal == Raised(AbortError)
    else if EndsIn(choices, Decided(Clarify)) then signal == Raised(OtherError)
    else if choices != [] && LastChoice(choices) in {Answered(AfterBlock, SayMore), Answered(ToClarify, SayDone),
                                                     Answered(AfterCycle, SayDone)} then
      signal == Normal && !awaiting
    else signal == Normal ==> finished && !awaiting
  }

  function Decisions(choices: seq<Choice>): nat {
    if choices == [] then 0
    else Decisions(choices[..|choices| - 1]) + if LastChoice(choices).Decided? then 1 else 0
  }

  /** The answers of users who let a deep run do `cycles` cycles. */
  function CycleAnswers(cycles: nat, done: bool): seq<Choice> {
    seq(cycles, i => Answered(AfterCycle, if done && i == cycles - 1 then SayDone else SayMore))
  }

  function CycleLog(cycles: nat): seq<Event> {
    if cycles == 0 then [] else CycleLog(cycles - 1) + [Awaiting(cycles), InputReceived(cycles)]
  }

  /** A turn after which the run may go on: it completed, or a failure or an intervention that is tolerated. */
  predicate Survived(mode: Mode, call: Call) {
    match call.result
    case TurnCompleted => true
    case TurnFailed => call.who.Reviewer? || (mode == Realtime && call.who == Drafter)
    case TurnIntervened => mode == Realtime && call.who != Researcher
    case _ => false
  }

  ghost predicate AllSurvived(mode: Mode, calls: seq<Call>) {
    forall i :: 0 <= i < |calls| ==> Survived(mode, calls[i])
  }

  ghost predicate OnlyLastFatal(mode: Mode, calls: seq<Call>) {
    calls == [] || AllSurvived(mode, calls[..|calls| - 1])
  }

  predicate IsTerminal(e: Event) {
    e.RunCompleted? || e.RunAborted? || e.RunFailed?
  }

  ghost predicate NoTerminal(events: seq<Event>) {
    forall i :: 0 <= i < |events| ==> !IsTerminal(events[i])
  }

  /** The log ends with its only terminal event, or has none, as the status says. */
  ghost predicate EndsAs(events: seq<Event>, status: Status) {
    match status
    case Running => false
    case AwaitingUserInput => NoTerminal(events)
    case Completed => events != [] && NoTerminal(events[..|events| - 1]) && events[|events| - 1] == RunCompleted
    case Aborted => events != [] && NoTerminal(events[..|events| - 1]) && events[|events| - 1] == RunAborted
    case Failed => events != [] && NoTerminal(events[..|events| - 1]) && events[|events| - 1] == RunFailed
  }

  /** The calls from `start` on are the deep-feedback cycles `first` to `last`, one after the other: each consists of
      its four fixed turns and one turn of every reviewer that is alive when it begins. */
  ghost predicate IsSchedule(calls: seq<Call>, reviewers: seq<nat>, start: nat, first: nat, last: nat)
    requires start <= |calls| && first <= last + 1
    decreases last + 1 - first
  {
    if first > last then start == |calls|
    else
      var alive := Alive(reviewers, calls[..start]);
      var next := start + 4 + |alive|;
      next <= |calls| && Slots(calls[start..next]) == CycleSlots(first, alive) &&
      IsSchedule(calls, reviewers, next, first + 1, last)
  }

  ghost predicate NoneFailed(calls: seq<Call>, reviewers: seq<nat>) {
    forall r :: r in reviewers ==> !HasFailed(calls, r)
  }

  /** The calls from `start` on are all turns of the coordinator, in one round. */
  ghost predicate OnlyAnswers(calls: seq<Call>, start: nat, round: nat) {
    forall i :: start <= i < |calls| ==> calls[i].who == Coordinator && calls[i].unit == round
  }

  function Last(calls: seq<Call>): Call
    requires calls != []
  {
    calls[|calls| - 1]
  }

  predicate EndsWithTurn(calls: seq<Call>, call: Call) {
    calls != [] && Last(calls) == call
  }

  class Run {
    const mode: Mode
    const rounds: int
    const interactive: bool
    const reviewers: seq<nat>

    var calls: seq<Call>
    var activeReviewers: seq<nat>
    var events: seq<Event>
    var status: Status

    // Local variables of the realtime loop that its handlers share.
    var round: nat
    var seeded: bool
    var hasLedger: bool
    var finalized: bool
    var completedRounds: nat
    ghost var passes: nat

    // What was chosen so far, and where the last pass began, with or without a turn of the coordinator.
    ghost var choices: seq<Choice>
    ghost var passStart: nat
    ghost var passGuided: bool

    // The outside: messages users have yet to submit, submitted ones that are not consumed, and how often users will
    // still keep a paused run going and the coordinator will still ask for a clarification.
    var unsubmitted: nat
    var queued: nat
    var repliesLeft: nat
    var clarificationsLeft: nat

    ghost predicate Valid()
      reads this
    {
      Distinct(reviewers) && activeReviewers == Alive(reviewers, calls) && FailedNeverCalledAgain(calls) &&
      OnlyLastFatal(mode, calls)
    }

    /** Every turn so far let the run go on. */
    ghost predicate Alright()
      reads this
    {
      AllSurvived(mode, calls)
    }

    /** A turn that an abort cuts short aborts the run. */
    ghost predicate AbortObeyed(signal: Signal)
      reads this
    {
      calls != [] && Last(calls).result == TurnAborted ==> signal == Raised(AbortError)
    }

    ghost predicate Choosing()
      reads this
    {
      Orderly(mode, choices) && GoesOn(choices)
    }

    /** The last pass was a whole round: no message redirected it. */
    ghost predicate EndsWithRound()
      reads this
    {
      passStart <= |calls| &&
      Slots(calls[passStart..]) ==
        RoundSlots(round, passGuided, hasLedger, Alive(reviewers, calls[..passStart]),
                   if finalized then Finalizer else Coordinator)
    }

    /** The last turn failed, and the run cannot do without it: it was a required one, or the last reviewer's. */
    ghost predicate FailedForGood()
      reads this
    {
      calls != [] && Last(calls).result == TurnFailed && (Last(calls).who.Reviewer? ==> activeReviewers == [])
    }

    /** Why a deep run with this log may fail: a turn failed for good or threw, or the callback that puts a question
        to the users did, and then the log ends with the question. */
    ghost predicate HasCause(log: seq<Event>)
      reads this
    {
      || FailedForGood()
      || (calls != [] && Last(calls).result == TurnThrew)
      || (interactive && log != [] && log[|log| - 1].Awaiting?)
    }

    /** An intervention that nothing catches: it cut short the research turn, or the turn that answers an earlier one.
        */
    ghost predicate Escaped()
      reads this
    {
      calls != [] &&
      Last(calls) in {Call(Researcher, 0, TurnIntervened), Call(Coordinator, round + 1, TurnIntervened)}
    }

    /** An intervention of the last turn, if any, is one that the round loop catches. */
    ghost predicate Caught()
      reads this
    {
      calls != [] && Last(calls).result == TurnIntervened ==> Last(calls).who != Researcher && Last(calls).unit <= round
    }

    /** Only realtime turns are intervened. */
    ghost predicate OnlyRealtime()
      reads this
    {
      calls != [] && Last(calls).result == TurnIntervened ==> mode == Realtime
    }

    function Messages(): nat
      reads this
    {
      unsubmitted + queued
    }

    constructor (mode: Mode, rounds: int, interactive: bool, reviewers: seq<nat>,
                 messages: nat, replies: nat, clarifications: nat)
      requires Distinct(reviewers)
      ensures Valid() && status == Running && events == [] && calls == [] && activeReviewers == reviewers
      ensures this.mode == mode && this.rounds == rounds && this.interactive == interactive &&
              this.reviewers == reviewers
      ensures Messages() == messages && choices == []
    {
      this.mode, this.rounds, this.interactive, this.reviewers := mode, rounds, interactive, reviewers;
      calls, activeReviewers, events, status := [], reviewers, [], Running;
      round, seeded, hasLedger, finalized, completedRounds, passes := 1, false, false, false, 0, 0;
      choices, passStart, passGuided := [], 0, false;
      unsubmitted, queued, repliesLeft, clarificationsLeft := messages, 0, replies, clarifications;
      new;
      EverybodyAlive(reviewers);
    }

    method EventSink(event: Event)
      requires NoTerminal(events) && !IsTerminal(event)
      modifies this`events
      ensures NoTerminal(events) && events == old(events) + [event]
    {
      events := events + [event];
    }

    // ---- Turns ---------------------------------------------------------------

    /** Users may submit messages while a turn runs; only a realtime turn is then cut short by them. */
    method ExecuteTurn(who: Role, unit: nat) returns (result: TurnResult)
      requires Valid() && Alright()
      requires who.Reviewer? ==> !HasFailed(calls, who.id)
      modifies this`calls, this`unsubmitted, this`queued
      ensures calls == old(calls) + [Call(who, unit, result)] && FailedNeverCalledAgain(calls)
      ensures OnlyLastFatal(mode, calls) && (Alright() <==> Survived(mode, Last(calls)))
      ensures Messages() == old(Messages()) && queued >= old(queued)
      ensures result == TurnIntervened ==> mode == Realtime && queued > 0
      ensures !(who.Reviewer? && result == TurnFailed) ==> Valid()
    {
      hide HasFailed, Distinct, AllSurvived, OnlyLastFatal, Alive, FailedNeverCalledAgain, Splice;
      var submitted: int := *;
      submitted := if submitted < 0 then 0 else if submitted > unsubmitted then unsubmitted else submitted;
      unsubmitted, queued := unsubmitted - submitted, queued + submitted;
      result := *;
      if result == TurnIntervened && (mode != Realtime || submitted == 0) {
        result := TurnAborted;
      }
      SurvivedPush(mode, calls, Call(who, unit, result));
      CallKeepsRule(calls, Call(who, unit, result));
      AlivePush(reviewers, calls, Call(who, unit, result));
      calls := calls + [Call(who, unit, result)];
    }

    /** A turn of the coordinator, researcher, drafter or finalizer that the run cannot do without. */
    method RequiredTurn(who: Role, unit: nat) returns (signal: Signal)
      requires Valid() && Alright() && !who.Reviewer?
      modifies this`calls, this`unsubmitted, this`queued
      ensures Valid() && calls != [] && calls == old(calls) + [Call(who, unit, Last(calls).result)]
      ensures Alright() <==> Survived(mode, Last(calls))
      ensures Messages() == old(Messages()) && queued >= old(queued)
      ensures signal == Raised(InterventionError) ==> mode == Realtime && queued > 0
      ensures signal == Raised(AbortError) <==> Last(calls).result == TurnAborted
      ensures signal == Raised(InterventionError) <==> Last(calls).result == TurnIntervened
      ensures signal == Raised(OtherError) <==> Last(calls).result == TurnFailed || Last(calls).result == TurnThrew
      ensures signal == Normal <==> Last(calls).result == TurnCompleted
    {
      hide HasFailed, Distinct, AllSurvived, OnlyLastFatal, Alive, FailedNeverCalledAgain;
      var result := ExecuteTurn(who, unit);
      match result {
        case TurnCompleted => return Normal;
        case TurnFailed => return Raised(OtherError);
        case TurnAborted => return Raised(AbortError);
        case TurnIntervened => return Raised(InterventionError);
        case TurnThrew => return Raised(OtherError);
      }
    }

    /** A reviewer whose turn fails is struck from the list; the run fails when none is left. */
    method ReviewerTurn(id: nat, unit: nat) returns (signal: Signal)
      requires Valid() && Alright() && !HasFailed(calls, id)
      modifies this`calls, this`unsubmitted, this`queued, this`activeReviewers
      ensures Valid() && calls != [] && calls == old(calls) + [Call(Reviewer(id), unit, Last(calls).result)]
      ensures Alright() <==> Survived(mode, Last(calls))
      ensures signal == Raised(AbortError) <==> Last(calls).result == TurnAborted
      ensures Messages() == old(Messages()) && queued >= old(queued)
      ensures signal == Raised(InterventionError) ==> mode == Realtime && queued > 0
      ensures signal == Raised(InterventionError) <==> Last(calls).result == TurnIntervened
      ensures signal == Raised(OtherError) <==>
              Last(calls).result == TurnThrew || (Last(calls).result == TurnFailed && activeReviewers == [])
    {
      hide HasFailed, Distinct, AllSurvived, OnlyLastFatal, Alive, FailedNeverCalledAgain;
      AlivePush(reviewers, calls, Call(Reviewer(id), unit, TurnFailed));
      var result := ExecuteTurn(Reviewer(id), unit);
      match result {
        case TurnCompleted => return Normal;
        case TurnFailed =>
          activeReviewers := Splice(activeReviewers, id);
          if |activeReviewers| < 1 {
            return Raised(OtherError);
          }
          return Normal;
        case TurnAborted => return Raised(AbortError);
        case TurnIntervened => return Raised(InterventionError);
        case TurnThrew => return Raised(OtherError);
      }
    }

    method ThrowIfAborted() returns (signal: Signal)
      ensures signal == Normal || signal == Raised(AbortError)
    {
      var aborted: bool := *;
      return if aborted then Raised(AbortError) else Normal;
    }

    /** `requestUserIntervention`: it may throw; users keep a run going only so often before they abort it or end it. */
    method AskUser(ghost question: Question) returns (signal: Signal, reply: Reply)
      requires Orderly(mode, choices) && MayChoose(mode, choices, Answered(question, SayDone))
      modifies this`repliesLeft, this`choices
      ensures signal == Normal || signal == Raised(OtherError)
      ensures choices == if signal == Normal then old(choices) + [Answered(question, reply)] else old(choices)
      ensures Orderly(mode, choices) && (signal == Normal ==> LastChoice(choices) == Answered(question, reply))
      ensures signal == Normal ==> Decisions(choices) == Decisions(old(choices))
      ensures repliesLeft <= old(repliesLeft)
      ensures signal == Normal && reply == SayMore ==> repliesLeft < old(repliesLeft)
    {
      hide Orderly, MayChoose, Decisions;
      Askable(mode, choices, question);
      reply := *;
      var throws: bool := *;
      if throws {
        return Raised(OtherError), reply;
      }
      if reply == SayMore {
        if repliesLeft == 0 {
          reply := SayDone;
        } else {
          repliesLeft := repliesLeft - 1;
        }
      }
      ChoicesPush(mode, choices, Answered(question, reply));
      choices := choices + [Answered(question, reply)];
      signal := Normal;
    }

    /** `extractInterventionCoordinatorDecision`; the coordinator asks back only so often. */
    method Decide() returns (decision: Decision)
      requires Orderly(mode, choices) && MayChoose(mode, choices, Decided(Accept))
      modifies this`clarificationsLeft, this`choices
      ensures choices == old(choices) + [Decided(decision)] && LastChoice(choices) == Decided(decision)
      ensures Orderly(mode, choices) && Decisions(choices) == Decisions(old(choices)) + 1
      ensures clarificationsLeft <= old(clarificationsLeft)
      ensures decision == Clarify ==> clarificationsLeft < old(clarificationsLeft)
    {
      hide Orderly, Decisions;
      decision := *;
      if decision == Clarify {
        if clarificationsLeft == 0 {
          decision := Accept;
        } else {
          clarificationsLeft := clarificationsLeft - 1;
        }
      }
      ChoicesPush(mode, choices, Decided(decision));
      choices := choices + [Decided(decision)];
    }

    /** `hasForceCloseDirective` of the users' messages. */
    method AskForceClose() returns (forced: bool)
      requires Orderly(mode, choices) && MayChoose(mode, choices, ForceClose)
      modifies this`choices
      ensures choices == if forced then old(choices) + [ForceClose] else old(choices)
      ensures Orderly(mode, choices) && (forced ==> LastChoice(choices) == ForceClose)
      ensures Decisions(choices) == Decisions(old(choices))
    {
      hide Orderly, Decisions;
      forced := *;
      if forced {
        ChoicesPush(mode, choices, ForceClose);
        choices := choices + [ForceClose];
      }
    }

    // ---- Deep feedback -------------------------------------------------------

    method DeepCycle(cycle: nat) returns (signal: Signal)
      requires Valid() && Alright()
      modifies this`calls, this`unsubmitted, this`queued, this`activeReviewers
      ensures Valid() && old(calls) <= calls && (signal == Normal ==> Alright())
      ensures signal == Raised(AbortError) <==> calls != old(calls) && Last(calls).result == TurnAborted
      ensures signal == Normal ==> Slots(calls[|old(calls)|..]) == CycleSlots(cycle, old(activeReviewers))
      ensures calls != [] && OnlyRealtime() && (signal == Raised(InterventionError) ==> mode == Realtime)
      ensures signal == Raised(OtherError) ==> FailedForGood() || Last(calls).result == TurnThrew
    {
      hide HasFailed, FailedNeverCalledAgain, Alive, Distinct, AllSurvived, OnlyLastFatal;
      ghost var start := |calls|;
      :- RequiredTurn(Coordinator, cycle);
      :- RequiredTurn(Drafter, cycle);
      var snapshot := activeReviewers;
      AliveMembers(reviewers, calls);
      assert snapshot[0..] == snapshot;
      ghost var opening := [Slot(Coordinator, cycle), Slot(Drafter, cycle)];
      for i := 0 to |snapshot|
        invariant Valid() && Alright() && calls != [] && old(calls) <= calls
        invariant Slots(calls[start..]) == opening + ReviewerSlots(cycle, snapshot[..i])
        invariant NoneFailed(calls, snapshot[i..])
      {
        ghost var before := calls;
        signal := ReviewerTurn(snapshot[i], cycle);
        SlotsPush(before[start..], Last(calls));
        assert calls[start..] == before[start..] + [Last(calls)];
        assert ReviewerSlots(cycle, snapshot[..i + 1]) ==
          ReviewerSlots(cycle, snapshot[..i]) + [Slot(Reviewer(snapshot[i]), cycle)];
        OthersStillAlive(before, Last(calls), snapshot, i);
        if signal.Raised? {
          return;
        }
      }
      assert snapshot[..|snapshot|] == snapshot;
      :- RequiredTurn(Coordinator, cycle);
      :- RequiredTurn(Finalizer, cycle);
      signal := Normal;
    }

    /** Users are asked after a cycle whether the run is to go on. */
    method AskToGoOn(cycle: nat) returns (signal: Signal, done: bool)
      requires NoTerminal(events) && Choosing() && mode == DeepFeedback
      modifies this`events, this`repliesLeft, this`choices
      ensures NoTerminal(events) && Orderly(mode, choices) && repliesLeft <= old(repliesLeft)
      ensures signal in {Normal, Raised(AbortError), Raised(OtherError)}
      ensures signal == Normal ==>
                events == old(events) + [Awaiting(cycle), InputReceived(cycle)] &&
                choices == old(choices) + [Answered(AfterCycle, if done then SayDone else SayMore)]
      ensures signal == Normal && !done ==> GoesOn(choices) && repliesLeft < old(repliesLeft)
      ensures signal == Normal && done ==> EndsIn(choices, Answered(AfterCycle, SayDone))
      ensures signal.Raised? ==> EndsBy(choices, signal, false, false) && events == old(events) + [Awaiting(cycle)]
      ensures signal == Raised(AbortError) ==> choices == old(choices) + [Answered(AfterCycle, SayAbort)]
      ensures signal == Raised(OtherError) ==> choices == old(choices)
    {
      hide Orderly;
      done := false;
      EventSink(Awaiting(cycle));
      var reply :- AskUser(AfterCycle);
      if reply == SayAbort {
        return Raised(AbortError), false;
      }
      EventSink(InputReceived(cycle));
      return Normal, reply == SayDone;
    }

    /** Without users the run does max(1, rounds) cycles; with them it goes on for as long as they say so. Either way it
        consists of whole cycles of turns that completed, but for those of reviewers. */
    method DeepFeedbackLoop() returns (signal: Signal)
      requires Valid() && Alright() && NoTerminal(events) && status == Running && OnlyRealtime()
      requires choices == [] && mode == DeepFeedback && (calls != [] ==> Last(calls).result == TurnCompleted)
      modifies this`calls, this`unsubmitted, this`queued, this`activeReviewers, this`events, this`repliesLeft,
               this`completedRounds, this`choices
      ensures Valid() && NoTerminal(events) && old(calls) <= calls
      ensures signal == Normal ==> IsSchedule(calls, reviewers, |old(calls)|, 1, completedRounds) && Alright()
      ensures signal == Normal && !interactive ==> completedRounds == if rounds > 1 then rounds else 1
      ensures !interactive ==> choices == [] && events == old(events)
      ensures signal == Normal && interactive ==>
                choices == CycleAnswers(completedRounds, true) && events == old(events) + CycleLog(completedRounds)
      ensures Orderly(mode, choices) && EndsBy(choices, signal, false, !interactive)
      ensures AbortObeyed(signal)
      ensures signal == Raised(OtherError) ==> HasCause(events)
      ensures OnlyRealtime() && (signal == Raised(InterventionError) ==> mode == Realtime)
    {
      hide HasFailed, FailedNeverCalledAgain, Alive, CycleSlots, Slots, Distinct, IsSchedule, FailedForGood, NoTerminal,
           Orderly, AllSurvived, OnlyLastFatal, EndsBy, CycleAnswers, CycleLog, MayChoose;
      var autoCycleLimit: nat := if rounds > 1 then rounds else 1;
      var cycle: nat := 1;
      NoCycleYet(calls, reviewers);
      NothingChosen(mode);
      NoCycleAnswered();
      while true
        invariant Valid() && Alright() && NoTerminal(events) && old(calls) <= calls && OnlyRealtime()
        invariant 1 <= cycle && (!interactive ==> cycle <= autoCycleLimit)
        invariant IsSchedule(calls, reviewers, |old(calls)|, 1, cycle - 1)
        invariant Orderly(mode, choices) && GoesOn(choices)
        invariant !interactive ==> choices == [] && events == old(events)
        invariant interactive ==>
                    choices == CycleAnswers(cycle - 1, false) && events == old(events) + CycleLog(cycle - 1)
        decreases if interactive then repliesLeft else autoCycleLimit - cycle
      {
        NotAborted(mode, calls);
        signal := ThrowIfAborted();
        if signal.Raised? {
          StillGoing(choices, signal, false, !interactive);
          return;
        }
        ghost var before := calls;
        signal := DeepCycle(cycle);
        if signal.Raised? {
          StillGoing(choices, signal, false, !interactive);
          return;
        }
        ScheduleGrows(before, calls, reviewers, |old(calls)|, 1, cycle - 1);
        NotAborted(mode, calls);
        completedRounds := cycle;
        if !interactive {
          if cycle >= autoCycleLimit {
            EndsFinished(choices);
            break;
          }
          cycle := cycle + 1;
          continue;
        }
        var done :- AskToGoOn(cycle);
        CycleAnswered(cycle);
        if done {
          EndsDone(choices);
          break;
        }
        cycle := cycle + 1;
      }
      signal := Normal;
    }

    // ---- Realtime ------------------------------------------------------------

    /** `consumeQueuedMessages`. */
    method Consume() returns (count: nat)
      modifies this`queued
      ensures count == old(queued) && queued == 0
    {
      count := queued;
      queued := 0;
    }

    /** Consumes what users have queued. When there is something, the round goes up and the coordinator redirects. */
    method RedirectIfQueued() returns (signal: Signal, redirected: bool)
      requires Valid() && Alright() && mode == Realtime && Caught()
      modifies this`calls, this`unsubmitted, this`queued, this`round, this`seeded
      ensures Valid() && Caught() && old(round) <= round && Messages() <= old(Messages())
      ensures redirected ==> round == old(round) + 1 && Messages() < old(Messages())
      ensures !redirected ==> signal == Normal && round == old(round) && calls == old(calls) && seeded == old(seeded)
      ensures redirected ==> seeded == (signal == Normal)
      ensures redirected && signal == Normal ==> EndsWithTurn(calls, Call(Coordinator, round, TurnCompleted))
      ensures signal == Normal || signal == Raised(InterventionError) ==> Alright()
      ensures AbortObeyed(signal)
      ensures redirected ==> calls != [] && calls == old(calls) + [Call(Coordinator, round, Last(calls).result)]
      ensures signal == Raised(InterventionError) ==> queued > 0
    {
      hide HasFailed, Distinct, AllSurvived, OnlyLastFatal, Alive, FailedNeverCalledAgain;
      var count := Consume();
      NotAborted(mode, calls);
      if count == 0 {
        return Normal, false;
      }
      redirected := true;
      round := round + 1;
      signal := RequiredTurn(Coordinator, round);
      seeded := signal == Normal;
    }

    /** The reviewers of one round, each followed by a look at the queue. */
    method ReviewRound() returns (signal: Signal, redirected: bool)
      requires Valid() && Alright() && mode == Realtime && Caught()
      modifies this`calls, this`unsubmitted, this`queued, this`round, this`seeded, this`activeReviewers
      ensures Valid() && Caught() && old(calls) <= calls && old(round) <= round && Messages() <= old(Messages())
      ensures redirected ==> round == old(round) + 1 && Messages() < old(Messages())
      ensures signal == Raised(InterventionError) ==> queued > 0
      ensures signal == Normal || signal == Raised(InterventionError) ==> Alright()
      ensures AbortObeyed(signal)
      ensures redirected && signal == Normal ==> seeded && EndsWithTurn(calls, Call(Coordinator, round, TurnCompleted))
      ensures !redirected ==> seeded == old(seeded)
      ensures signal == Normal && !redirected ==>
                round == old(round) &&
                Slots(calls[|old(calls)|..]) == ReviewerSlots(round, old(activeReviewers))
    {
      hide HasFailed, FailedNeverCalledAgain, Alive, Distinct, NoneFailed, AllSurvived, OnlyLastFatal;
      var snapshot := activeReviewers;
      AliveHaveNotFailed(reviewers, calls);
      assert snapshot[0..] == snapshot;
      ghost var start := |calls|;
      for i := 0 to |snapshot|
        invariant Valid() && Alright() && Caught() && old(calls) <= calls
        invariant round == old(round) && seeded == old(seeded)
        invariant Messages() <= old(Messages())
        invariant NoneFailed(calls, snapshot[i..])
        invariant Slots(calls[start..]) == ReviewerSlots(round, snapshot[..i])
      {
        ghost var before := calls;
        assert !HasFailed(calls, snapshot[i]) by { HeadNotFailed(calls, snapshot[i..]); }
        signal := ReviewerTurn(snapshot[i], round);
        if signal.Raised? {
          return signal, false;
        }
        OthersStillAlive(before, Last(calls), snapshot, i);
        ReviewerSlotsGrow(before, Last(calls), start, round, snapshot, i);
        signal, redirected := RedirectIfQueued();
        if redirected || signal.Raised? {
          return;
        }
      }
      assert snapshot[..|snapshot|] == snapshot;
      NotAborted(mode, calls);
      return Normal, false;
    }

    /** `handleRealtimeAwaitingUserInput` with `markAwaitingStatus`: the run is running again only when users say more
        than that they are done. */
    method AwaitUserInput() returns (signal: Signal)
      requires NoTerminal(events) && Choosing() && mode == Realtime
      modifies this`events, this`status, this`repliesLeft, this`choices
      ensures NoTerminal(events) && Orderly(mode, choices)
      ensures signal in {Normal, Raised(AbortError), Raised(OtherError)}
      ensures signal == Normal ==>
                events == old(events) + [Awaiting(round), InputReceived(round)] &&
                (status == Running || status == AwaitingUserInput) &&
                choices == old(choices) + [Answered(AfterBlock, if status == Running then SayMore else SayDone)]
      ensures signal != Normal ==> events == old(events) + [Awaiting(round)] && status == AwaitingUserInput
      ensures signal == Raised(AbortError) ==> choices == old(choices) + [Answered(AfterBlock, SayAbort)]
      ensures signal == Raised(OtherError) ==> choices == old(choices)
      ensures EndsBy(choices, signal, status == AwaitingUserInput, false)
      ensures !interactive ==> signal == Raised(OtherError)
    {
      hide Orderly;
      status := AwaitingUserInput;
      EventSink(Awaiting(round));
      if !interactive {
        return Raised(OtherError);
      }
      var reply :- AskUser(AfterBlock);
      if reply == SayAbort {
        return Raised(AbortError);
      }
      EventSink(InputReceived(round));
      if reply == SayMore {
        status := Running;
      }
      return Normal;
    }

    /** The first turns of a pass: the coordinator's, unless an earlier one stands in for it, and the drafter's. */
    method OpenRound() returns (signal: Signal)
      requires Valid() && Alright() && mode == Realtime && Caught()
      modifies this`calls, this`unsubmitted, this`queued, this`seeded, this`hasLedger
      ensures (signal == Normal || signal == Raised(InterventionError) ==> Alright()) && AbortObeyed(signal)
      ensures (old(hasLedger) ==> hasLedger) && (signal == Normal ==> !seeded)
      ensures Valid() && Caught() && Messages() == old(Messages()) && queued >= old(queued) && old(calls) <= calls
      ensures signal == Raised(InterventionError) ==> queued > 0
      ensures signal == Normal ==> Slots(calls[|old(calls)|..]) == OpeningSlots(round, !old(seeded), hasLedger)
    {
      hide HasFailed, FailedNeverCalledAgain, Alive, Distinct, AllSurvived, OnlyLastFatal;
      NotAborted(mode, calls);
      :- ThrowIfAborted();
      if !seeded {
        :- RequiredTurn(Coordinator, round);
      }
      seeded := false;
      var ledger: bool := *;
      hasLedger := hasLedger || ledger;
      if hasLedger {
        signal := TolerantTurn(Drafter, false);
      } else {
        signal := Normal;
      }
    }

    /** A turn of this round whose failure is tolerated; with `caught`, so is an error that it throws. */
    method TolerantTurn(who: Role, caught: bool) returns (signal: Signal)
      requires Valid() && Alright() && !who.Reviewer? && who != Researcher
      modifies this`calls, this`unsubmitted, this`queued
      ensures Valid() && Caught() && calls != [] && calls == old(calls) + [Call(who, round, Last(calls).result)]
      ensures Alright() <==> Survived(mode, Last(calls))
      ensures Messages() == old(Messages()) && queued >= old(queued)
      ensures signal == Raised(InterventionError) ==> mode == Realtime && queued > 0
      ensures signal == Raised(OtherError) <==> Last(calls).result == TurnThrew && !caught
      ensures signal == Raised(AbortError) <==> Last(calls).result == TurnAborted
      ensures signal == Raised(InterventionError) <==> Last(calls).result == TurnIntervened
    {
      hide HasFailed, Distinct, AllSurvived, OnlyLastFatal, Alive, FailedNeverCalledAgain;
      var result := ExecuteTurn(who, round);
      match result {
        case TurnCompleted => return Normal;
        case TurnFailed => return Normal;
        case TurnAborted => return Raised(AbortError);
        case TurnIntervened => return Raised(InterventionError);
        case TurnThrew => return if caught then Normal else Raised(OtherError);
      }
    }

    /** The end of a pass that nothing redirected: users are asked when a reviewer blocks, and their answer decides what
        becomes of the run; else the finalizer writes. */
    method CloseRound() returns (signal: Signal, blocked: bool)
      requires Valid() && Alright() && Choosing() && mode == Realtime && NoTerminal(events) && status == Running
      requires !finalized
      modifies this`calls, this`unsubmitted, this`queued, this`finalized, this`events, this`status, this`repliesLeft,
               this`choices
      ensures Valid() && Caught() && NoTerminal(events) && Messages() == old(Messages()) && Orderly(mode, choices)
      ensures signal == Raised(InterventionError) ==>
                queued > 0 && status == Running && choices == old(choices) && Alright()
      ensures calls != [] &&
              calls == old(calls) + [Call(if blocked then Coordinator else Finalizer, round, Last(calls).result)]
      ensures signal == Normal ==> status == Running || (blocked && status == AwaitingUserInput)
      ensures finalized <==> signal == Normal && !blocked
      ensures finalized ==> Last(calls).result == TurnCompleted
      ensures signal == Normal && blocked ==>
                choices == old(choices) + [Answered(AfterBlock, if status == Running then SayMore else SayDone)]
      ensures !blocked ==> choices == old(choices)
      ensures EndsBy(choices, signal, status == AwaitingUserInput, finalized) && AbortObeyed(signal)
    {
      hide HasFailed, FailedNeverCalledAgain, Alive, Distinct, NoTerminal, AllSurvived, OnlyLastFatal, Orderly;
      blocked := *;
      if blocked {
        :- TolerantTurn(Coordinator, true);
        signal := AwaitUserInput();
        return;
      }
      :- RequiredTurn(Finalizer, round);
      finalized := true;
      signal := Normal;
    }

    /** The opening of a round, with a look at the queue. */
    method BeginRound() returns (signal: Signal, again: bool)
      requires Valid() && Alright() && mode == Realtime && Caught()
      modifies this`calls, this`unsubmitted, this`queued, this`round, this`seeded, this`hasLedger
      ensures Valid() && Caught() && old(calls) <= calls && old(round) <= round && Messages() <= old(Messages())
      ensures again ==> round == old(round) + 1 && Messages() < old(Messages())
      ensures signal == Normal || signal == Raised(InterventionError) ==> Alright()
      ensures signal == Raised(InterventionError) ==> queued > 0
      ensures again && signal == Normal ==> seeded && EndsWithTurn(calls, Call(Coordinator, round, TurnCompleted))
      ensures (old(hasLedger) ==> hasLedger) && AbortObeyed(signal)
      ensures signal == Normal && !again ==>
                round == old(round) && Slots(calls[|old(calls)|..]) == OpeningSlots(round, !old(seeded), hasLedger)
    {
      hide HasFailed, FailedNeverCalledAgain, Alive, Distinct, Slots, OpeningSlots, AllSurvived, OnlyLastFatal;
      signal := OpenRound();
      if signal.Raised? {
        return signal, false;
      }
      signal, again := RedirectIfQueued();
    }

    /** The reviewers of a round and its end. */
    method FinishRound() returns (signal: Signal, again: bool)
      requires Valid() && Alright() && Choosing() && Caught() && mode == Realtime && NoTerminal(events)
      requires status == Running && !finalized
      modifies this`calls, this`unsubmitted, this`queued, this`round, this`seeded, this`activeReviewers,
               this`finalized, this`events, this`status, this`repliesLeft, this`completedRounds, this`choices
      ensures Valid() && Caught() && NoTerminal(events) && old(calls) <= calls && old(round) <= round &&
              Messages() <= old(Messages()) && Orderly(mode, choices)
      ensures again ==> signal == Normal && round == old(round) + 1 && Messages() < old(Messages())
      ensures again ==> seeded && EndsWithTurn(calls, Call(Coordinator, round, TurnCompleted))
      ensures signal == Raised(InterventionError) ==> queued > 0
      ensures again || signal == Raised(InterventionError) ==>
                status == Running && !finalized && choices == old(choices) && Alright()
      ensures signal == Normal && !again ==>
                round == old(round) == completedRounds && calls != old(calls) &&
                Slots(calls[|old(calls)|..]) == ReviewerSlots(round, old(activeReviewers)) +
                                                [Slot(if finalized then Finalizer else Coordinator, round)]
      ensures signal == Normal ==> status == Running || (!finalized && status == AwaitingUserInput)
      ensures finalized ==>
                signal == Normal && choices == old(choices) &&
                EndsWithTurn(calls, Call(Finalizer, round, TurnCompleted))
      ensures !again ==> EndsBy(choices, signal, status == AwaitingUserInput, finalized)
      ensures AbortObeyed(signal)
    {
      hide HasFailed, FailedNeverCalledAgain, Alive, Distinct, NoTerminal, Slots, ReviewerSlots, Orderly, AllSurvived,
           OnlyLastFatal, EndsBy, GoesOn;
      ghost var start := |calls|;
      signal, again := ReviewRound();
      if again || signal.Raised? {
        if signal.Raised? { StillGoing(choices, signal, false, false); }
        return signal, signal == Normal;
      }
      ghost var reviewed := calls;
      completedRounds := round;
      var blocked;
      signal, blocked := CloseRound();
      again := false;
      SlotsPush(reviewed[start..], Last(calls));
      assert calls[start..] == reviewed[start..] + [Last(calls)];
    }

    /** The try block of one pass of the round loop. `again` says that the loop continues. A pass that ends the loop
        normally ran the whole round and left the closing turn to the finalizer or, for a question, to the
        coordinator. */
    method Pass() returns (signal: Signal, again: bool)
      requires Valid() && Alright() && Choosing() && Caught() && mode == Realtime && NoTerminal(events)
      requires status == Running && !finalized
      modifies this`calls, this`unsubmitted, this`queued, this`round, this`seeded, this`activeReviewers,
               this`hasLedger, this`finalized, this`events, this`status, this`repliesLeft, this`completedRounds,
               this`passes, this`passStart, this`passGuided, this`choices
      ensures passes == old(passes) + 1 && passStart == |old(calls)| && passGuided == !old(seeded)
      ensures Valid() && Caught() && NoTerminal(events) && old(calls) <= calls && old(round) <= round &&
              Messages() <= old(Messages()) && Orderly(mode, choices)
      ensures again ==> signal == Normal && round == old(round) + 1 && Messages() < old(Messages())
      ensures again ==> seeded && EndsWithTurn(calls, Call(Coordinator, round, TurnCompleted))
      ensures signal == Raised(InterventionError) ==> queued > 0
      ensures again || signal == Raised(InterventionError) ==>
                status == Running && !finalized && choices == old(choices) && Alright()
      ensures signal == Normal && !again ==> round == old(round) == completedRounds && EndsWithRound()
      ensures signal == Normal ==> status == Running || (!finalized && status == AwaitingUserInput)
      ensures finalized ==>
                signal == Normal && choices == old(choices) &&
                EndsWithTurn(calls, Call(Finalizer, round, TurnCompleted))
      ensures !again ==> EndsBy(choices, signal, status == AwaitingUserInput, finalized)
      ensures AbortObeyed(signal)
    {
      hide HasFailed, FailedNeverCalledAgain, Alive, Distinct, NoTerminal, Slots, OpeningSlots, ReviewerSlots, Orderly,
           AllSurvived, OnlyLastFatal, EndsBy, GoesOn, RoundSlots;
      passes, passStart, passGuided := passes + 1, |calls|, !seeded;
      ghost var before := calls;
      signal, again := BeginRound();
      ghost var opening := calls;
      if again || signal.Raised? {
        if signal.Raised? { StillGoing(choices, signal, false, false); }
        return signal, signal == Normal;
      }
      signal, again := FinishRound();
      if signal == Normal && !again {
        RoundComplete(before, opening, calls, round, passGuided, hasLedger, Alive(reviewers, before),
                      if finalized then Finalizer else Coordinator);
      }
    }

    /** The coordinator asks back, and users who answer that they are done end the run. */
    method AskForClarification() returns (signal: Signal, done: bool)
      requires NoTerminal(events) && Orderly(mode, choices) && EndsIn(choices, Decided(Clarify)) && mode == Realtime
      modifies this`events, this`repliesLeft, this`choices
      ensures NoTerminal(events) && Orderly(mode, choices)
      ensures signal in {Normal, Raised(AbortError), Raised(OtherError)}
      ensures Decisions(choices) == Decisions(old(choices))
      ensures signal == Normal ==>
                choices == old(choices) + [Answered(ToClarify, if done then SayDone else SayMore)] &&
                EndsIn(choices, Answered(ToClarify, if done then SayDone else SayMore))
      ensures signal == Raised(AbortError) ==> choices == old(choices) + [Answered(ToClarify, SayAbort)]
      ensures signal.Raised? ==> EndsBy(choices, signal, false, false)
      ensures signal == Raised(OtherError) ==> choices == old(choices)
      ensures signal == Normal && done ==> events == old(events) + [Awaiting(round), InputReceived(round)]
      ensures signal.Raised? ==> events == old(events) + [Awaiting(round)]
      ensures !interactive ==> signal == Raised(OtherError)
    {
      hide Orderly;
      done := false;
      EventSink(Awaiting(round));
      if !interactive {
        return Raised(OtherError), false;
      }
      var reply :- AskUser(ToClarify);
      if reply == SayAbort {
        return Raised(AbortError), false;
      }
      if reply == SayDone {
        EventSink(InputReceived(round));
        return Normal, true;
      }
      var blank: bool := *;
      if !blank {
        EventSink(InputReceived(round));
      }
      signal := Normal;
    }

    /** `handleImmediateRealtimeIntervention`, which runs outside the try block of the pass: what it throws ends the
        run, another intervention included. */
    method HandleIntervention() returns (signal: Signal, done: bool)
      requires Valid() && Alright() && Choosing() && Caught() && mode == Realtime && NoTerminal(events)
      requires status == Running && queued > 0
      modifies this`calls, this`unsubmitted, this`queued, this`round, this`seeded, this`hasLedger,
               this`events, this`repliesLeft, this`clarificationsLeft, this`choices
      ensures Valid() && NoTerminal(events) && old(round) <= round && Messages() < old(Messages())
      ensures Orderly(mode, choices) && (signal == Normal ==> Alright()) && AbortObeyed(signal)
      ensures signal == Normal && !done ==> round == old(round) + 1
      ensures signal == Raised(InterventionError) <==> Escaped()
      ensures signal == Normal ==> Caught()
      ensures old(calls) <= calls && OnlyAnswers(calls, |old(calls)|, old(round) + 1)
      ensures signal == Normal && !done ==>
                (seeded ==> hasLedger) &&
                EndsIn(choices, if seeded then Decided(Redirect)
                                else if calls == old(calls) then ForceClose
                                else Decided(Accept))
      ensures signal == Normal && done ==> EndsIn(choices, Answered(ToClarify, SayDone))
      ensures signal.Raised? ==> EndsBy(choices, signal, false, false)
    {
      hide HasFailed, FailedNeverCalledAgain, Alive, Distinct, NoTerminal, OnlyAnswers, AllSurvived, OnlyLastFatal,
           Orderly;
      NoAnswerYet(calls, round + 1);
      NotAborted(mode, calls);
      var count := Consume();
      EventSink(InputReceived(round));
      var forceClose := AskForceClose();
      if forceClose {
        round := round + 1;
        seeded := false;
        return Normal, false;
      }
      signal, done := AnswerIntervention();
    }

    /** The coordinator's answers, until one of them lets the rounds go on: each answer that completes is one decision,
        and the last decision is what the next round begins with. */
    method AnswerIntervention() returns (signal: Signal, done: bool)
      requires Valid() && Alright() && Choosing() && Caught() && mode == Realtime && NoTerminal(events)
      modifies this`calls, this`unsubmitted, this`queued, this`round, this`seeded, this`hasLedger,
               this`events, this`repliesLeft, this`clarificationsLeft, this`choices
      ensures Valid() && NoTerminal(events) && old(round) <= round && Messages() <= old(Messages())
      ensures Orderly(mode, choices) && (signal == Normal ==> Alright()) && AbortObeyed(signal)
      ensures signal == Normal && !done ==> round == old(round) + 1
      ensures signal == Raised(InterventionError) <==> Escaped()
      ensures signal == Normal ==> Caught()
      ensures old(calls) <= calls && old(calls) != calls && OnlyAnswers(calls, |old(calls)|, old(round) + 1)
      ensures |calls| - |old(calls)| ==
              Decisions(choices) - Decisions(old(choices)) + if Last(calls).result == TurnCompleted then 0 else 1
      ensures signal == Normal && !done ==>
                (seeded ==> hasLedger) && EndsIn(choices, Decided(if seeded then Redirect else Accept))
      ensures signal == Normal && done ==> EndsIn(choices, Answered(ToClarify, SayDone))
      ensures signal.Raised? ==> EndsBy(choices, signal, false, false)
    {
      hide HasFailed, FailedNeverCalledAgain, Alive, Distinct, NoTerminal, OnlyAnswers, AllSurvived, OnlyLastFatal,
           Orderly, Decisions, EndsBy, MayChoose;
      NoAnswerYet(calls, round + 1);
      var again := true;
      done := false;
      signal := Normal;
      while again
        invariant Valid() && NoTerminal(events) && Messages() <= old(Messages())
        invariant old(calls) <= calls && OnlyAnswers(calls, |old(calls)|, old(round) + 1)
        invariant Orderly(mode, choices)
        invariant again ==>
                    signal == Normal && !done && round == old(round) && Caught() && Alright() &&
                    (GoesOn(choices) || EndsIn(choices, Answered(ToClarify, SayMore)))
        invariant again ==> |calls| - |old(calls)| == Decisions(choices) - Decisions(old(choices))
        invariant !again ==> calls != old(calls) && Answers(signal, done, old(round))
        invariant !again ==>
                    |calls| - |old(calls)| ==
                    Decisions(choices) - Decisions(old(choices)) + if Last(calls).result == TurnCompleted then 0 else 1
        decreases again, clarificationsLeft
      {
        ghost var before := calls;
        signal, done, again := AnswerOnce();
        OneMoreAnswer(before, Last(calls), |old(calls)|, old(round) + 1);
      }
    }

    /** What an answer of the coordinator to an intervention leads to, when it is the last one. */
    ghost predicate Answers(signal: Signal, done: bool, before: nat)
      reads this
    {
      && (signal == Normal ==> Alright() && Caught())
      && AbortObeyed(signal) && (signal == Raised(InterventionError) <==> Escaped())
      && before <= round && (signal == Normal && !done ==> round == before + 1)
      && (signal == Normal && !done ==>
            (seeded ==> hasLedger) && EndsIn(choices, Decided(if seeded then Redirect else Accept)))
      && (signal == Normal && done ==> EndsIn(choices, Answered(ToClarify, SayDone)))
      && (signal.Raised? ==> EndsBy(choices, signal, false, false))
    }

    /** One answer of the coordinator; `again` says that users have clarified what they meant. */
    method AnswerOnce() returns (signal: Signal, done: bool, again: bool)
      requires Valid() && Alright() && Caught() && mode == Realtime && NoTerminal(events) && Orderly(mode, choices)
      requires GoesOn(choices) || EndsIn(choices, Answered(ToClarify, SayMore))
      modifies this`calls, this`unsubmitted, this`queued, this`round, this`seeded, this`hasLedger,
               this`events, this`repliesLeft, this`clarificationsLeft, this`choices
      ensures Valid() && NoTerminal(events) && Messages() == old(Messages()) && Orderly(mode, choices)
      ensures calls != [] && calls == old(calls) + [Call(Coordinator, old(round) + 1, Last(calls).result)]
      ensures Decisions(choices) ==
              Decisions(old(choices)) + if Last(calls).result == TurnCompleted then 1 else 0
      ensures again ==>
                signal == Normal && !done && round == old(round) && Caught() && Alright() &&
                Last(calls).result == TurnCompleted && EndsIn(choices, Answered(ToClarify, SayMore)) &&
                clarificationsLeft < old(clarificationsLeft)
      ensures !again ==> Answers(signal, done, old(round))
    {
      hide HasFailed, FailedNeverCalledAgain, Alive, Distinct, NoTerminal, AllSurvived, OnlyLastFatal, Orderly,
           Decisions, EndsBy, MayChoose;
      done, again := false, false;
      signal := RequiredTurn(Coordinator, round + 1);
      if signal.Raised? {
        StillGoing(choices, signal, false, false);
        return;
      }
      assert MayChoose(mode, choices, Decided(Accept)) by { DecidesNext(mode, choices); }
      var decision := Decide();
      if decision == Clarify {
        signal, done := AskForClarification();
        again := signal == Normal && !done;
      } else {
        signal := ResumeRounds(decision == Redirect);
        if signal.Raised? { StillGoing(choices, signal, false, false); }
      }
    }

    /** The intervention is dealt with: the next round starts afresh, or from the coordinator's redirection. */
    method ResumeRounds(redirected: bool) returns (signal: Signal)
      requires NoTerminal(events)
      modifies this`round, this`seeded, this`hasLedger, this`events
      ensures NoTerminal(events)
      ensures signal == Normal ==>
                events == old(events) + [InputReceived(old(round))] && round == old(round) + 1 &&
                seeded == redirected && (redirected ==> hasLedger)
      ensures signal != Normal ==>
              redirected && signal == Raised(OtherError) && round == old(round) && events == old(events)
    {
      if redirected {
        var ledger: bool := *;
        if !ledger {
          return Raised(OtherError);
        }
        hasLedger := true;
      }
      EventSink(InputReceived(round));
      seeded := redirected;
      round := round + 1;
      signal := Normal;
    }

    /** The round loop ends: every pass but the last consumes a message and raises the round. It ends normally after a
        whole round or when users, asked what they meant, say that they are done. */
    method RoundLoop() returns (signal: Signal)
      requires Valid() && Alright() && Choosing() && Caught() && mode == Realtime && NoTerminal(events)
      requires status == Running && !finalized && passes == 0 && round == 1
      modifies this`calls, this`unsubmitted, this`queued, this`round, this`seeded, this`activeReviewers,
               this`hasLedger, this`finalized, this`events, this`status, this`repliesLeft, this`clarificationsLeft,
               this`completedRounds, this`passes, this`passStart, this`passGuided, this`choices
      ensures Valid() && NoTerminal(events) && Orderly(mode, choices)
      ensures 1 <= passes <= 1 + old(Messages()) && passes <= round
      ensures signal == Normal ==> status == Running || (status == AwaitingUserInput && !finalized)
      ensures EndsBy(choices, signal, status == AwaitingUserInput, finalized) && AbortObeyed(signal)
      ensures finalized ==>
                signal == Normal && GoesOn(choices) && EndsWithTurn(calls, Call(Finalizer, round, TurnCompleted))
      ensures signal == Normal && !EndsIn(choices, Answered(ToClarify, SayDone)) ==>
                completedRounds == round && EndsWithRound()
      ensures signal == Raised(InterventionError) <==> Escaped()
    {
      hide HasFailed, FailedNeverCalledAgain, Alive, Distinct, NoTerminal, Slots, RoundSlots, Orderly, AllSurvived,
           OnlyLastFatal, EndsWithRound;
      while true
        invariant Valid() && Caught() && NoTerminal(events) && status == Running && !finalized
        invariant Alright() && Choosing()
        invariant passes + Messages() <= old(Messages())
        invariant passes + 1 <= round
        decreases Messages()
      {
        var again;
        signal, again := Pass();
        if signal == Raised(InterventionError) {
          var done;
          signal, done := HandleIntervention();
          if signal.Raised? || done {
            return;
          }
          continue;
        }
        if signal.Raised? || !again {
          return;
        }
      }
    }

    // ---- The whole run -------------------------------------------------------

    /** What the main try block guarantees, whatever providers and users do: a deep run that comes through consists of
        its research turn, if any, and of whole cycles, as many as users let it do or max(1, rounds) without any, and it
        fails only with a cause; a realtime run makes at most one pass more than there are messages and, unless users
        end it when asked what they meant, its last pass is a whole round; an intervention is thrown out of the block if
        and only if it cut short the research turn or the turn that answers an earlier intervention. */
    twostate predicate CameThrough(notionRequest: bool, signal: Signal, log: seq<Event>)
      reads this
    {
      && (mode == DeepFeedback && signal == Normal ==>
            (if notionRequest then 1 else 0) <= |calls| && Alright() &&
            IsSchedule(calls, reviewers, if notionRequest then 1 else 0, 1, completedRounds) &&
            (!interactive ==> completedRounds == (if rounds > 1 then rounds else 1) && choices == [] && log == []) &&
            (interactive ==> choices == CycleAnswers(completedRounds, true) && log == CycleLog(completedRounds)))
      && (mode == DeepFeedback && signal == Raised(OtherError) ==> HasCause(log))
      && (mode == Realtime ==> passes <= 1 + old(Messages()) && (passes == 0 || passes <= round))
      && (mode == Realtime && signal == Normal && !EndsIn(choices, Answered(ToClarify, SayDone)) ==>
            completedRounds == round && EndsWithRound())
      && (finalized ==>
            mode == Realtime && signal == Normal && EndsWithTurn(calls, Call(Finalizer, round, TurnCompleted)))
      && (signal == Raised(InterventionError) <==> Escaped())
      && (Escaped() ==> mode == Realtime)
      && Orderly(mode, choices) && OnlyLastFatal(mode, calls) && AbortObeyed(signal)
    }

    /** What ends a run without an answer of its users: the final draft of a realtime run, and in a deep one without
        users the last cycle. */
    predicate Finished()
      reads this
    {
      if mode == DeepFeedback then !interactive else finalized
    }

    /** The main try block. */
    method Body(notionRequest: bool) returns (signal: Signal)
      requires Valid() && calls == [] && choices == [] && events == [] && status == Running && passes == 0 &&
               round == 1 && !finalized
      modifies this
      ensures Valid() && NoTerminal(events) && CameThrough(notionRequest, signal, events)
      ensures EndsBy(choices, signal, status == AwaitingUserInput, Finished())
      ensures finalized ==> GoesOn(choices)
      ensures signal == Normal ==> status == Running || (status == AwaitingUserInput && mode == Realtime && !finalized)
    {
      hide HasFailed, FailedNeverCalledAgain, Alive, Distinct, NoTerminal, IsSchedule, Orderly, AllSurvived,
           EndsWithRound;
      assert NoTerminal(events) by { NoEventYet(); }
      NothingChosen(mode);
      assert Alright() by { NoTurnYet(mode); }
      signal := ThrowIfAborted();
      if signal.Raised? {
        return;
      }
      if notionRequest {
        signal := RequiredTurn(Researcher, 0);
        if signal.Raised? {
          return;
        }
      }
      if mode == DeepFeedback {
        signal := DeepFeedbackLoop();
      } else {
        signal := RoundLoop();
      }
    }

    /** One ending per run: the stored status and the log agree, a terminal event is the last and only one, and the last
        choice of users or of the coordinator decides which ending it is, if any. */
    method Execute(notionRequest: bool) returns (signal: Signal)
      requires Valid() && calls == [] && choices == [] && events == [] && status == Running && passes == 0 &&
               round == 1 && !finalized
      modifies this
      ensures EndsAs(events, status)
      ensures CameThrough(notionRequest, signal, if status == AwaitingUserInput then events else events[..|events| - 1])
      ensures status == AwaitingUserInput || status == Completed <==> signal == Normal
      ensures status == Aborted <==> signal == Raised(AbortError)
      ensures status == AwaitingUserInput <==> EndsIn(choices, Answered(AfterBlock, SayDone))
      ensures mode == Realtime ==>
                (status == Completed <==> finalized || EndsIn(choices, Answered(AfterBlock, SayMore)) ||
                                          EndsIn(choices, Answered(ToClarify, SayDone)))
      ensures mode == DeepFeedback && interactive ==>
                (status == Completed <==> EndsIn(choices, Answered(AfterCycle, SayDone)))
      ensures choices != [] && LastChoice(choices).Answered? && LastChoice(choices).reply == SayAbort ==>
                status == Aborted
      ensures EndsIn(choices, Decided(Clarify)) || Escaped() ==> status == Failed
      ensures FailedNeverCalledAgain(calls)
    {
      hide HasFailed, FailedNeverCalledAgain, Alive, Distinct, IsSchedule, Orderly, AllSurvived, OnlyLastFatal,
           Slots, RoundSlots, CycleAnswers, CycleLog, NoTerminal;
      signal := Body(notionRequest);
      LastOfMode(mode, choices);
      Conclude(signal);
    }

    /** The end of `run`: a run that awaits input is left as it is, any other gets its ending. */
    method Conclude(signal: Signal)
      requires NoTerminal(events) && (signal == Normal ==> status == Running || status == AwaitingUserInput)
      modifies this`events, this`status
      ensures EndsAs(events, status)
      ensures status == AwaitingUserInput <==> signal == Normal && old(status) == AwaitingUserInput
      ensures status == Completed <==> signal == Normal && old(status) == Running
      ensures status == Aborted <==> signal == Raised(AbortError)
      ensures old(events) == if status == AwaitingUserInput then events else events[..|events| - 1]
    {
      hide NoTerminal;
      ghost var before := events;
      if signal == Normal {
        if status == AwaitingUserInput {
          return;
        }
        status := Completed;
        events := events + [RunCompleted];
      } else if signal == Raised(AbortError) {
        status := Aborted;
        events := events + [RunAborted];
      } else {
        status := Failed;
        events := events + [RunFailed];
      }
      assert events[..|events| - 1] == before;
    }
  }

  // ---- Lemmas ----------------------------------------------------------------

  lemma SurvivedPush(mode: Mode, calls: seq<Call>, call: Call)
    requires AllSurvived(mode, calls)
    ensures OnlyLastFatal(mode, calls + [call])
    ensures AllSurvived(mode, calls + [call]) <==> Survived(mode, call)
  {
    var next := calls + [call];
    assert next[..|next| - 1] == calls && next[|calls|] == call;
  }

  /** What may be asked may be answered in any way. */
  lemma Askable(mode: Mode, choices: seq<Choice>, question: Question)
    requires MayChoose(mode, choices, Answered(question, SayDone))
    ensures forall reply :: MayChoose(mode, choices, Answered(question, reply))
  {
  }

  lemma ChoicesPush(mode: Mode, choices: seq<Choice>, choice: Choice)
    requires Orderly(mode, choices) && MayChoose(mode, choices, choice)
    ensures Orderly(mode, choices + [choice]) && LastChoice(choices + [choice]) == choice
    ensures Decisions(choices + [choice]) == Decisions(choices) + if choice.Decided? then 1 else 0
  {
    var next := choices + [choice];
    assert next[..|next| - 1] == choices;
  }

  lemma {:induction false} EverybodyAlive(reviewers: seq<nat>)
    ensures Alive(reviewers, []) == reviewers
  {
    if reviewers != [] {
      EverybodyAlive(reviewers[1..]);
      assert !HasFailed([], reviewers[0]);
    }
  }

  /** A reviewer's turn leaves those after it in the list as they are. */
  lemma OthersStillAlive(before: seq<Call>, call: Call, list: seq<nat>, i: nat)
    requires Distinct(list) && i < |list| && NoneFailed(before, list[i..]) && call.who == Reviewer(list[i])
    ensures NoneFailed(before + [call], list[i + 1..])
  {
    hide HasFailed;
    forall j | i < j < |list| ensures !HasFailed(before + [call], list[j]) {
      assert list[j] == list[i..][j - i];
      FailedPush(before, call, list[j]);
    }
  }

  lemma AliveHaveNotFailed(reviewers: seq<nat>, calls: seq<Call>)
    ensures NoneFailed(calls, Alive(reviewers, calls))
    ensures Distinct(reviewers) ==> Distinct(Alive(reviewers, calls))
  {
    AliveMembers(reviewers, calls);
  }

  lemma HeadNotFailed(calls: seq<Call>, reviewers: seq<nat>)
    requires reviewers != [] && NoneFailed(calls, reviewers)
    ensures !HasFailed(calls, reviewers[0])
  {
    assert reviewers[0] in reviewers;
  }

  /** A reviewer's turn adds its slot to those of the reviewers before it. */
  lemma ReviewerSlotsGrow(before: seq<Call>, call: Call, start: nat, unit: nat, list: seq<nat>, i: nat)
    requires start <= |before| && i < |list| && call.who == Reviewer(list[i]) && call.unit == unit
    requires Slots(before[start..]) == ReviewerSlots(unit, list[..i])
    ensures Slots((before + [call])[start..]) == ReviewerSlots(unit, list[..i + 1])
  {
    SlotsPush(before[start..], call);
    assert (before + [call])[start..] == before[start..] + [call];
    assert ReviewerSlots(unit, list[..i + 1]) == ReviewerSlots(unit, list[..i]) + [Slot(Reviewer(list[i]), unit)];
  }

  /** The turns of a round are those of its opening, of its reviewers and the closing one. */
  lemma RoundComplete(before: seq<Call>, opening: seq<Call>, calls: seq<Call>, round: nat, guided: bool, drafted: bool,
                      reviewers: seq<nat>, closer: Role)
    requires before <= opening <= calls
    requires Slots(opening[|before|..]) == OpeningSlots(round, guided, drafted)
    requires Slots(calls[|opening|..]) == ReviewerSlots(round, reviewers) + [Slot(closer, round)]
    ensures calls[..|before|] == before
    ensures Slots(calls[|before|..]) == RoundSlots(round, guided, drafted, reviewers, closer)
  {
    hide Slots, OpeningSlots, ReviewerSlots;
    SlotsSplit(calls, |before|, |opening|);
    assert calls[|before|..|opening|] == opening[|before|..];
    var reviewed := ReviewerSlots(round, reviewers);
    assert OpeningSlots(round, guided, drafted) + (reviewed + [Slot(closer, round)]) ==
           OpeningSlots(round, guided, drafted) + reviewed + [Slot(closer, round)];
  }

  lemma SlotsPush(calls: seq<Call>, call: Call)
    ensures Slots(calls + [call]) == Slots(calls) + [Slot(call.who, call.unit)]
  {
  }

  lemma NotAborted(mode: Mode, calls: seq<Call>)
    requires AllSurvived(mode, calls)
    ensures calls != [] ==> Survived(mode, Last(calls))
  {
  }

  lemma CycleAnswered(cycle: nat)
    requires cycle >= 1
    ensures CycleAnswers(cycle - 1, false) + [Answered(AfterCycle, SayMore)] == CycleAnswers(cycle, false)
    ensures CycleAnswers(cycle - 1, false) + [Answered(AfterCycle, SayDone)] == CycleAnswers(cycle, true)
    ensures CycleLog(cycle) == CycleLog(cycle - 1) + [Awaiting(cycle), InputReceived(cycle)]
  {
  }

  lemma EndsFinished(choices: seq<Choice>)
    requires GoesOn(choices)
    ensures EndsBy(choices, Normal, false, true)
  {
  }

  lemma EndsDone(choices: seq<Choice>)
    requires EndsIn(choices, Answered(AfterCycle, SayDone))
    ensures EndsBy(choices, Normal, false, false)
  {
  }

  lemma NoCycleAnswered()
    ensures CycleAnswers(0, false) == [] && CycleLog(0) == []
  {
  }

  lemma LastOfMode(mode: Mode, choices: seq<Choice>)
    requires Orderly(mode, choices)
    ensures choices != [] ==>
              (mode == DeepFeedback <==> LastChoice(choices).Answered? && LastChoice(choices).question == AfterCycle)
  {
  }

  lemma NoEventYet()
    ensures NoTerminal([])
  {
  }

  lemma NoTurnYet(mode: Mode)
    ensures AllSurvived(mode, [])
  {
  }

  lemma NothingChosen(mode: Mode)
    ensures Orderly(mode, [])
  {
  }

  lemma DecidesNext(mode: Mode, choices: seq<Choice>)
    requires mode == Realtime && (GoesOn(choices) || EndsIn(choices, Answered(ToClarify, SayMore)))
    ensures MayChoose(mode, choices, Decided(Accept))
  {
  }

  /** A run whose rounds go on ends only by throwing or by finishing. */
  lemma StillGoing(choices: seq<Choice>, signal: Signal, awaiting: bool, finished: bool)
    requires signal.Raised? && (GoesOn(choices) || EndsIn(choices, Answered(ToClarify, SayMore)))
    ensures EndsBy(choices, signal, awaiting, finished)
  {
  }

  lemma NoCycleYet(calls: seq<Call>, reviewers: seq<nat>)
    ensures IsSchedule(calls, reviewers, |calls|, 1, 0)
  {
  }

  /** A further cycle continues a schedule. */
  lemma {:induction false} ScheduleGrows(before: seq<Call>, after: seq<Call>, reviewers: seq<nat>,
                                         start: nat, first: nat, last: nat)
    requires start <= |before| && first <= last + 1 && before <= after
    requires IsSchedule(before, reviewers, start, first, last)
    requires Slots(after[|before|..]) == CycleSlots(last + 1, Alive(reviewers, before))
    ensures IsSchedule(after, reviewers, start, first, last + 1)
    decreases last + 1 - first
  {
    hide Slots, CycleSlots, Alive;
    assert after[..start] == before[..start];
    if first > last {
      assert before[..start] == before;
      CycleLength(last + 1, Alive(reviewers, before));
      SlotsLength(after[start..]);
      assert after[start..|after|] == after[start..];
    } else {
      var next := start + 4 + |Alive(reviewers, before[..start])|;
      assert after[start..next] == before[start..next];
      ScheduleGrows(before, after, reviewers, next, first + 1, last);
    }
  }

  /** What a schedule costs: each cycle takes four turns and one per reviewer, of which there are never more than at the
      beginning and never fewer than at the end. */
  lemma {:induction false} ScheduleBudget(calls: seq<Call>, reviewers: seq<nat>, start: nat, first: nat, last: nat)
    requires start <= |calls| && first <= last + 1 && IsSchedule(calls, reviewers, start, first, last)
    ensures |calls| - start <= (last + 1 - first) * (4 + |Alive(reviewers, calls[..start])|)
    ensures |calls| - start >= (last + 1 - first) * (4 + |Alive(reviewers, calls)|)
    decreases last + 1 - first
  {
    hide Slots, CycleSlots, Alive;
    if first <= last {
      var next := start + 4 + |Alive(reviewers, calls[..start])|;
      ScheduleBudget(calls, reviewers, next, first + 1, last);
      AliveShrinks(reviewers, calls[..start], calls[..next]);
      AliveShrinks(reviewers, calls[..start], calls);
      var rest, one := last - first, 4 + |Alive(reviewers, calls[..start])|;
      assert (last + 1 - first) * one == rest * one + one;
      TimesGrows(rest, 4 + |Alive(reviewers, calls[..next])|, one);
      assert (last + 1 - first) * (4 + |Alive(reviewers, calls)|) ==
             rest * (4 + |Alive(reviewers, calls)|) + 4 + |Alive(reviewers, calls)|;
    }
  }

  lemma TimesGrows(n: nat, a: nat, b: nat)
    requires a <= b
    ensures n * a <= n * b
  {
  }

  lemma NoAnswerYet(calls: seq<Call>, round: nat)
    ensures OnlyAnswers(calls, |calls|, round)
  {
  }

  lemma OneMoreAnswer(before: seq<Call>, call: Call, start: nat, round: nat)
    requires OnlyAnswers(before, start, round) && call.who == Coordinator && call.unit == round
    ensures OnlyAnswers(before + [call], start, round)
  {
  }

  lemma SlotsLength(calls: seq<Call>)
    ensures |Slots(calls)| == |calls|
  {
  }
}
