/** How `startRunInternal` of `routes/runsHandlers.ts` hands run events to the hub: orchestrator callbacks, the run-id
    poller and the failure handler share a buffer, and each of them is split at every await. */
module RunForwarding {
  import opened Basics

  datatype Event = RunFailed(message: string) | RunAborted(message: string) | Plain(message: string)

  /** The poller looks for the run, announces it (state refreshes), forwards what was buffered, and is done. It stops
      when the deadline passes, when looking for the run or announcing it throws, or when a ledger write throws. */
  datatype Poller = Polling | Announcing | Flushing | Done | Stopped

  /** Events are numbered as they are produced. `known` is whether `activeRunId` is set. `pollBatch` and `failBatch`
      are the events a party has taken out of the buffer and not forwarded yet; `inFlight` are those whose callback
      awaits the ledger write. */
  datatype State = State(
    known: bool,
    buffered: seq<nat>,
    inFlight: set<nat>,
    poller: Poller,
    pollBatch: seq<nat>,
    bodyFailed: bool,
    failBatch: seq<nat>,
    emitted: seq<nat>,
    produced: seq<Event>,
    lost: seq<nat>)

  /** A new run is polled for; an existing one is known from the beginning. */
  function Initial(existing: bool): State {
    State(existing, [], {}, if existing then Done else Polling, [], false, [], [], [], [])
  }

  datatype Step =
    | Produce(event: Event)
    | CallbackEmits(n: nat)
    | CallbackThrows(n: nat)
    | RunFound
    | PollingEnds
    | AnnouncementThrows
    | PollerTakes
    | PollerEmits
    | PollerThrows
    | PollerReturns
    | BodyFails(aborted: bool, message: string)
    | HandlerEmits
    | HandlerThrows

  predicate IsTerminal(e: Event) {
    e.RunFailed? || e.RunAborted?
  }

  predicate Enabled(s: State, step: Step) {
    match step
    case Produce(_) => true
    case CallbackEmits(n) => n in s.inFlight
    case CallbackThrows(n) => n in s.inFlight
    case RunFound => s.poller == Polling
    case PollingEnds => s.poller == Polling
    case AnnouncementThrows => s.poller == Announcing
    case PollerTakes => s.poller == Announcing
    case PollerEmits => s.poller == Flushing && s.pollBatch != []
    case PollerThrows => s.poller == Flushing && s.pollBatch != []
    case PollerReturns => s.poller == Flushing && s.pollBatch == []
    case BodyFails(_, _) => !s.bodyFailed
    case HandlerEmits => s.failBatch != []
    case HandlerThrows => s.failBatch != []
  }

  predicate Terminal(s: State, n: nat) {
    n < |s.produced| && IsTerminal(s.produced[n])
  }

  /** Whether the failure handler adds a `run-failed` of its own: it looks for a terminal event in the buffer alone. */
  predicate Synthesises(s: State, aborted: bool) {
    !aborted && forall n :: n in s.buffered ==> !Terminal(s, n)
  }

  function FailBody(s: State, aborted: bool, message: string): State {
    var n := |s.produced|;
    var pushed := if Synthesises(s, aborted)
                  then s.(buffered := s.buffered + [n], produced := s.produced + [RunFailed(message)]) else s;
    if s.known then pushed.(bodyFailed := true, failBatch := pushed.buffered, buffered := [])
    else pushed.(bodyFailed := true)
  }

  function ProduceEvent(s: State, e: Event): State {
    var noted, n := s.(produced := s.produced + [e]), |s.produced|;
    if s.known then noted.(inFlight := s.inFlight + {n}) else noted.(buffered := s.buffered + [n])
  }

  function Next(s: State, step: Step): State
    requires Enabled(s, step)
  {
    match step
    case Produce(e) => ProduceEvent(s, e)
    case CallbackEmits(n) => s.(inFlight := s.inFlight - {n}, emitted := s.emitted + [n])
    case CallbackThrows(n) => s.(inFlight := s.inFlight - {n}, lost := s.lost + [n])
    case RunFound => s.(known := true, poller := Announcing)
    case PollingEnds => s.(poller := Stopped)
    case AnnouncementThrows => s.(poller := Stopped)
    case PollerTakes => s.(poller := Flushing, pollBatch := s.buffered, buffered := [])
    case PollerEmits => s.(pollBatch := s.pollBatch[1..], emitted := s.emitted + [s.pollBatch[0]])
    case PollerThrows => s.(pollBatch := [], lost := s.lost + s.pollBatch, poller := Stopped)
    case PollerReturns => s.(poller := Done)
    case BodyFails(aborted, message) => FailBody(s, aborted, message)
    case HandlerEmits => s.(failBatch := s.failBatch[1..], emitted := s.emitted + [s.failBatch[0]])
    case HandlerThrows => s.(failBatch := [], lost := s.lost + s.failBatch)
  }

  ghost predicate AllEnabled(s: State, steps: seq<Step>)
    decreases |steps|
  {
    steps == [] || (Enabled(s, steps[0]) && AllEnabled(Next(s, steps[0]), steps[1..]))
  }

  function Run(s: State, steps: seq<Step>): State
    requires AllEnabled(s, steps)
    decreases |steps|
  {
    if steps == [] then s else Run(Next(s, steps[0]), steps[1..])
  }

  lemma {:induction false} RunSplit(s: State, a: seq<Step>, b: seq<Step>)
    requires AllEnabled(s, a + b)
    ensures AllEnabled(s, a) && AllEnabled(Run(s, a), b) && Run(s, a + b) == Run(Run(s, a), b)
    decreases |a|
  {
    hide Next, Enabled;
    if a == [] {
      assert a + b == b;
    } else {
      assert (a + b)[0] == a[0] && (a + b)[1..] == a[1..] + b;
      RunSplit(Next(s, a[0]), a[1..], b);
    }
  }

  // ---- Where events are ----------------------------------------------------

  function Count(events: seq<nat>, n: nat): nat {
    if events == [] then 0
    else Count(events[..|events| - 1], n) + if events[|events| - 1] == n then 1 else 0
  }

  /** In how many places an event is held. */
  function Held(s: State, n: nat): nat {
    Count(s.emitted, n) + Count(s.buffered, n) + (if n in s.inFlight then 1 else 0) +
    Count(s.pollBatch, n) + Count(s.failBatch, n) + Count(s.lost, n)
  }

  /** A produced event is in exactly one place, and no other is anywhere. */
  ghost predicate Balanced(s: State, n: nat) {
    Held(s, n) == if n < |s.produced| then 1 else 0
  }

  ghost predicate Conserved(s: State) {
    forall n :: Balanced(s, n)
  }

  /** Who may still hold events. */
  ghost predicate Placed(s: State) {
    && (s.known ==> s.poller != Polling)
    && (s.known && s.buffered != [] ==> s.poller == Announcing || s.poller == Stopped)
    && (s.poller == Announcing || s.poller == Flushing || s.poller == Done ==> s.known)
    && (s.pollBatch != [] ==> s.poller == Flushing)
    && (s.failBatch != [] ==> s.bodyFailed && s.known)
    && (s.bodyFailed && s.failBatch != [] ==> s.buffered == [])
  }

  lemma StepKeepsPlaces(s: State, step: Step)
    requires Placed(s) && Enabled(s, step)
    ensures Placed(Next(s, step))
  {
    hide Synthesises;
  }

  lemma {:induction false} CountAppend(a: seq<nat>, b: seq<nat>, n: nat)
    ensures Count(a + b, n) == Count(a, n) + Count(b, n)
  {
    if b == [] {
      assert a + b == a;
    } else {
      var k := |b| - 1;
      assert (a + b)[..|a + b| - 1] == a + b[..k];
      CountAppend(a, b[..k], n);
    }
  }

  lemma PushCounts(events: seq<nat>, pushed: nat, n: nat)
    ensures Count(events + [pushed], n) == Count(events, n) + if n == pushed then 1 else 0
  {
    assert (events + [pushed])[..|events|] == events;
  }

  lemma HeadCounts(batch: seq<nat>, n: nat)
    requires batch != []
    ensures Count(batch, n) == Count(batch[1..], n) + if n == batch[0] then 1 else 0
  {
    assert batch == [batch[0]] + batch[1..];
    CountAppend([batch[0]], batch[1..], n);
    assert [batch[0]][..0] == [];
  }

  lemma NoneCounted(n: nat)
    ensures Count([], n) == 0
  {
  }

  lemma {:induction false} CountedIsMember(events: seq<nat>, n: nat)
    ensures Count(events, n) > 0 <==> n in events
  {
    if events != [] {
      var k := |events| - 1;
      assert events == events[..k] + [events[k]];
      CountedIsMember(events[..k], n);
    }
  }

  lemma CallbackBalances(s: State, step: Step, n: nat)
    requires Conserved(s) && Enabled(s, step)
    requires step.Produce? || step.CallbackEmits? || step.CallbackThrows?
    ensures Balanced(Next(s, step), n)
  {
    hide Count, Conserved;
    assert Balanced(s, n) && Balanced(s, |s.produced|) by { Instance(s, n); Instance(s, |s.produced|); }
    match step
    case Produce(event) => PushCounts(s.buffered, |s.produced|, n);
    case CallbackEmits(m) => PushCounts(s.emitted, m, n);
    case CallbackThrows(m) => PushCounts(s.lost, m, n);
  }

  lemma Instance(s: State, n: nat)
    requires Conserved(s)
    ensures Balanced(s, n)
  {
  }

  lemma PollerBalances(s: State, step: Step, n: nat)
    requires Balanced(s, n) && Placed(s) && Enabled(s, step)
    requires step.PollerTakes? || step.PollerEmits? || step.PollerThrows?
    ensures Balanced(Next(s, step), n)
  {
    hide Count;
    NoneCounted(n);
    match step
    case PollerTakes =>
    case PollerEmits => HeadCounts(s.pollBatch, n); PushCounts(s.emitted, s.pollBatch[0], n);
    case PollerThrows => CountAppend(s.lost, s.pollBatch, n);
  }

  lemma FailureBalances(s: State, aborted: bool, message: string, n: nat)
    requires Balanced(s, n) && Placed(s) && !s.bodyFailed
    ensures Balanced(FailBody(s, aborted, message), n)
  {
    hide Count, Synthesises;
    NoneCounted(n);
    PushCounts(s.buffered, |s.produced|, n);
  }

  lemma HandlerBalances(s: State, step: Step, n: nat)
    requires Balanced(s, n) && Placed(s) && Enabled(s, step)
    requires step.BodyFails? || step.HandlerEmits? || step.HandlerThrows?
    ensures Balanced(Next(s, step), n)
  {
    hide Count, FailBody;
    match step
    case BodyFails(aborted, message) => FailureBalances(s, aborted, message, n);
    case HandlerEmits => HeadCounts(s.failBatch, n); PushCounts(s.emitted, s.failBatch[0], n);
    case HandlerThrows => NoneCounted(n); CountAppend(s.lost, s.failBatch, n);
  }

  lemma StepBalances(s: State, step: Step, n: nat)
    requires Conserved(s) && Placed(s) && Enabled(s, step)
    ensures Balanced(Next(s, step), n)
  {
    hide Count, FailBody, ProduceEvent;
    assert Balanced(s, n);
    if step.Produce? || step.CallbackEmits? || step.CallbackThrows? {
      CallbackBalances(s, step, n);
    } else if step.PollerTakes? || step.PollerEmits? || step.PollerThrows? {
      PollerBalances(s, step, n);
    } else if step.BodyFails? || step.HandlerEmits? || step.HandlerThrows? {
      HandlerBalances(s, step, n);
    }
  }

  lemma StepConserves(s: State, step: Step)
    requires Conserved(s) && Placed(s) && Enabled(s, step)
    ensures Conserved(Next(s, step)) && Placed(Next(s, step))
  {
    hide Placed, Balanced, Next, Enabled;
    forall n ensures Balanced(Next(s, step), n) {
      StepBalances(s, step, n);
    }
    StepKeepsPlaces(s, step);
  }

  /** At every moment of every run, each produced event is in exactly one place. */
  lemma {:induction false} RunConserves(s: State, steps: seq<Step>)
    requires Conserved(s) && Placed(s) && AllEnabled(s, steps)
    ensures Conserved(Run(s, steps)) && Placed(Run(s, steps))
    decreases |steps|
  {
    hide Placed, Conserved, Next, Enabled;
    if steps != [] {
      StepConserves(s, steps[0]);
      RunConserves(Next(s, steps[0]), steps[1..]);
    }
  }

  lemma InitiallyConserved(existing: bool)
    ensures Conserved(Initial(existing)) && Placed(Initial(existing))
  {
  }

  // ---- What is lost --------------------------------------------------------

  predicate Drops(step: Step) {
    step.CallbackThrows? || step.PollerThrows? || step.HandlerThrows?
  }

  ghost predicate SomeDrops(steps: seq<Step>) {
    exists step :: step in steps && Drops(step)
  }

  lemma StepLoses(s: State, step: Step)
    requires Enabled(s, step)
    ensures s.lost <= Next(s, step).lost
    ensures Next(s, step).lost == s.lost <==> !Drops(step)
  {
    hide Synthesises;
  }

  /** Nothing is lost unless a ledger write throws, and every throw loses something. */
  lemma {:induction false} LostOnlyByThrows(s: State, steps: seq<Step>)
    requires AllEnabled(s, steps)
    ensures s.lost <= Run(s, steps).lost
    ensures Run(s, steps).lost == s.lost <==> !SomeDrops(steps)
    decreases |steps|
  {
    hide Next, Enabled, Drops;
    if steps != [] {
      StepLoses(s, steps[0]);
      LostOnlyByThrows(Next(s, steps[0]), steps[1..]);
      assert forall step :: step in steps <==> step == steps[0] || step in steps[1..];
      assert SomeDrops(steps) <==> Drops(steps[0]) || SomeDrops(steps[1..]);
    }
  }

  // ---- Exactly once --------------------------------------------------------

  /** Nobody is at work: no callback, no batch, and the poller is done or has stopped. */
  predicate Quiet(s: State) {
    s.inFlight == {} && s.pollBatch == [] && s.failBatch == [] && (s.poller == Done || s.poller == Stopped)
  }

  /** Every produced event has reached the hub exactly once. */
  ghost predicate AllForwarded(s: State) {
    forall n: nat :: n < |s.produced| ==> Count(s.emitted, n) == 1
  }

  /** Exactly-once forwarding, under every interleaving: when nobody is at work, every produced event has reached the
      hub exactly once if and only if no ledger write threw and the buffer is empty. */
  lemma ForwardedExactly(existing: bool, steps: seq<Step>)
    requires AllEnabled(Initial(existing), steps) && Quiet(Run(Initial(existing), steps))
    ensures var end := Run(Initial(existing), steps);
            && (AllForwarded(end) <==> !SomeDrops(steps) && end.buffered == [])
            && (forall n :: Count(end.emitted, n) <= 1)
            && (forall n :: n in end.emitted ==> n < |end.produced|)
  {
    hide Run, AllEnabled, SomeDrops, Placed, Count;
    var end := Run(Initial(existing), steps);
    InitiallyConserved(existing);
    RunConserves(Initial(existing), steps);
    LostOnlyByThrows(Initial(existing), steps);
    forall n: nat
      ensures Count(end.emitted, n) + Count(end.buffered, n) + Count(end.lost, n) == if n < |end.produced| then 1 else 0
      ensures n in end.emitted ==> n < |end.produced|
    {
      assert Balanced(end, n);
      NoneCounted(n);
      CountedIsMember(end.emitted, n);
    }
    if end.lost != [] {
      var n := end.lost[0];
      CountedIsMember(end.lost, n);
      assert n < |end.produced| && Count(end.emitted, n) == 0;
    }
    if end.buffered != [] {
      var n := end.buffered[0];
      CountedIsMember(end.buffered, n);
      assert n < |end.produced| && Count(end.emitted, n) == 0;
    }
    if end.lost == [] && end.buffered == [] {
      forall n: nat | n < |end.produced| ensures Count(end.emitted, n) == 1 {
        NoneCounted(n);
      }
    }
  }

  // ---- The buffer ----------------------------------------------------------

  function Upto(n: nat): seq<nat> {
    seq(n, i => i)
  }

  /** Before the run is found everything produced is in the buffer, and nothing else has happened to it. */
  predicate Unfound(s: State) {
    && !s.known && (s.poller == Polling || s.poller == Stopped)
    && s.buffered == Upto(|s.produced|)
    && s.inFlight == {} && s.pollBatch == [] && s.failBatch == [] && s.emitted == [] && s.lost == []
  }

  lemma UnfoundStep(s: State, step: Step)
    requires Unfound(s) && Enabled(s, step) && step != RunFound
    ensures Unfound(Next(s, step))
    ensures step == PollingEnds ==> Next(s, step).poller == Stopped
    ensures s.poller == Stopped ==> Next(s, step).poller == Stopped
  {
    hide Synthesises;
    assert Upto(|s.produced|) + [|s.produced|] == Upto(|s.produced| + 1);
  }

  lemma {:induction false} UnfoundRun(s: State, steps: seq<Step>)
    requires Unfound(s) && AllEnabled(s, steps) && RunFound !in steps
    ensures Unfound(Run(s, steps))
    decreases |steps|
  {
    hide Unfound, Next, Enabled;
    if steps != [] {
      assert RunFound != steps[0] && RunFound !in steps[1..];
      UnfoundStep(s, steps[0]);
      UnfoundRun(Next(s, steps[0]), steps[1..]);
    }
  }

  /** Once polling has ended without finding the run, nothing is ever emitted. */
  lemma {:induction false} StoppedPollerSilences(s: State, steps: seq<Step>)
    requires Unfound(s) && AllEnabled(s, steps) && (s.poller == Stopped || PollingEnds in steps)
    ensures Unfound(Run(s, steps)) || RunFound in steps
    ensures s.poller == Stopped ==> RunFound !in steps
    decreases |steps|
  {
    hide Unfound, Next;
    if steps != [] {
      if RunFound !in steps {
        UnfoundRun(s, steps);
      } else if s.poller == Stopped {
        UnfoundStep(s, steps[0]);
        StoppedPollerSilences(Next(s, steps[0]), steps[1..]);
      }
    }
  }

  /** When the poller gives up, no event reaches the hub, then or later. */
  lemma {:induction false} DeadlineSilences(before: seq<Step>, after: seq<Step>)
    requires AllEnabled(Initial(false), before + ([PollingEnds] + after))
    ensures Run(Initial(false), before + ([PollingEnds] + after)).emitted == []
  {
    hide Next, Enabled;
    RunSplit(Initial(false), before, [PollingEnds] + after);
    var s := Run(Initial(false), before);
    assert ([PollingEnds] + after)[1..] == after;
    PollingBefore(Initial(false), before, s);
    UnfoundRun(Initial(false), before);
    UnfoundStep(s, PollingEnds);
    StoppedPollerSilences(Next(s, PollingEnds), after);
  }

  /** A poller that is still looking has not found the run. */
  lemma {:induction false} PollingBefore(s: State, steps: seq<Step>, end: State)
    requires AllEnabled(s, steps) && end == Run(s, steps) && Enabled(end, PollingEnds)
    ensures RunFound !in steps && Enabled(s, PollingEnds)
    decreases |steps|
  {
    hide Synthesises;
    if steps != [] {
      PollingBefore(Next(s, steps[0]), steps[1..], end);
      assert steps[0] != RunFound;
    }
  }

  predicate Fails(step: Step) {
    step.BodyFails?
  }

  ghost predicate SomeFails(steps: seq<Step>) {
    exists step :: step in steps && Fails(step)
  }

  lemma SomeFailsStep(steps: seq<Step>)
    requires steps != []
    ensures SomeFails(steps) <==> Fails(steps[0]) || SomeFails(steps[1..])
  {
    hide Fails;
    assert forall step :: step in steps <==> step == steps[0] || step in steps[1..];
  }

  /** Once the run is known, the buffer only shrinks: the poller or the failure handler takes all of it. */
  lemma {:induction false} KnownBuffer(s: State, steps: seq<Step>)
    requires s.known && s.poller != Polling && AllEnabled(s, steps)
    ensures Run(s, steps).known
    ensures Run(s, steps).buffered == if PollerTakes in steps || SomeFails(steps) then [] else s.buffered
    decreases |steps|
  {
    hide Synthesises;
    if steps != [] {
      hide SomeFails;
      SomeFailsStep(steps);
      KnownBuffer(Next(s, steps[0]), steps[1..]);
    } else {
      assert !SomeFails(steps);
    }
  }

  /** What the poller does when it announces the run: it takes the buffer, or the announcement throws. */
  lemma {:induction false} AnnouncementEnds(s: State, steps: seq<Step>)
    requires AllEnabled(s, steps) && s.poller != Polling
    ensures s.poller != Announcing ==> PollerTakes !in steps && AnnouncementThrows !in steps
    ensures s.poller == Announcing && Run(s, steps).poller != Announcing ==>
              (AnnouncementThrows in steps <==> PollerTakes !in steps)
    decreases |steps|
  {
    hide Synthesises;
    if steps != [] {
      AnnouncementEnds(Next(s, steps[0]), steps[1..]);
      assert forall step :: step in steps <==> step == steps[0] || step in steps[1..];
    }
  }

  /** When events are stranded in the buffer of a known run: exactly when something was produced before the run was
      found, announcing the run threw, and the body did not fail afterwards. Those are then all events produced until
      then. */
  lemma StrandedBuffer(before: seq<Step>, after: seq<Step>)
    requires AllEnabled(Initial(false), before + ([RunFound] + after))
    requires Run(Initial(false), before + ([RunFound] + after)).poller in {Done, Stopped}
    ensures AllEnabled(Initial(false), before)
    ensures var early, end := Run(Initial(false), before).produced, Run(Initial(false), before + ([RunFound] + after));
            && (end.buffered != [] <==> early != [] && AnnouncementThrows in after && !SomeFails(after))
            && (end.buffered != [] ==> end.buffered == Upto(|early|))
  {
    hide FailBody, ProduceEvent, SomeFails;
    RunSplit(Initial(false), before, [RunFound] + after);
    var s := Run(Initial(false), before);
    assert ([RunFound] + after)[1..] == after;
    PollingBefore(Initial(false), before, s);
    UnfoundRun(Initial(false), before);
    var found := Next(s, RunFound);
    KnownBuffer(found, after);
    AnnouncementEnds(found, after);
  }

  /** An existing run never buffers. */
  lemma ExistingNeverBuffers(steps: seq<Step>)
    requires AllEnabled(Initial(true), steps)
    ensures Run(Initial(true), steps).buffered == []
  {
    KnownBuffer(Initial(true), steps);
  }

  // ---- The second run-failed -----------------------------------------------

  lemma {:induction false} KnownIff(s: State, steps: seq<Step>)
    requires AllEnabled(s, steps)
    ensures Run(s, steps).known <==> s.known || RunFound in steps
    decreases |steps|
  {
    hide Synthesises;
    if steps != [] {
      KnownIff(Next(s, steps[0]), steps[1..]);
      assert RunFound in steps <==> steps[0] == RunFound || RunFound in steps[1..];
    }
  }

  lemma {:induction false} FailedOnce(s: State, steps: seq<Step>)
    requires AllEnabled(s, steps) && !Run(s, steps).bodyFailed
    ensures !SomeFails(steps) && !s.bodyFailed
    decreases |steps|
  {
    hide Synthesises;
    if steps != [] {
      FailedOnce(Next(s, steps[0]), steps[1..]);
      SomeFailsStep(steps);
    }
  }

  /** While the body runs, an event stays in the buffer until the poller takes it, and never comes back. */
  lemma {:induction false} StaysBuffered(s: State, steps: seq<Step>, n: nat)
    requires AllEnabled(s, steps) && !SomeFails(steps) && n < |s.produced|
    ensures n < |Run(s, steps).produced|
    ensures n in Run(s, steps).buffered <==> n in s.buffered && PollerTakes !in steps
    decreases |steps|
  {
    if steps != [] {
      hide SomeFails;
      SomeFailsStep(steps);
      StaysBuffered(Next(s, steps[0]), steps[1..], n);
      assert PollerTakes in steps <==> steps[0] == PollerTakes || PollerTakes in steps[1..];
    }
  }

  /** No terminal event is produced. */
  ghost predicate NoEnding(steps: seq<Step>) {
    forall step :: step in steps && step.Produce? ==> !IsTerminal(step.event)
  }

  lemma {:induction false} EndingsKept(s: State, steps: seq<Step>, n: nat)
    requires AllEnabled(s, steps) && !SomeFails(steps) && NoEnding(steps)
    ensures Terminal(Run(s, steps), n) <==> Terminal(s, n)
    decreases |steps|
  {
    if steps != [] {
      hide SomeFails;
      SomeFailsStep(steps);
      assert steps[0] in steps && NoEnding(steps[1..]);
      EndingsKept(Next(s, steps[0]), steps[1..], n);
    }
  }

  /** The orchestrator ends a run with an event of its own before it throws; the handler runs some steps later. It
      adds a second ending if and only if the first is not in the buffer any more: the run was known when the first
      was produced, or the poller has taken the buffer since. */
  lemma SecondRunFailed(existing: bool, before: seq<Step>, own: Event, after: seq<Step>, message: string)
    requires IsTerminal(own) && NoEnding(before) && NoEnding(after)
    requires AllEnabled(Initial(existing), before + ([Produce(own)] + after))
    requires !Run(Initial(existing), before + ([Produce(own)] + after)).bodyFailed
    ensures var s := Run(Initial(existing), before + ([Produce(own)] + after));
            Next(s, BodyFails(false, message)).produced ==
            if existing || RunFound in before || PollerTakes in after
            then s.produced + [RunFailed(message)] else s.produced
  {
    hide SomeFails, NoEnding;
    RunSplit(Initial(existing), before, [Produce(own)] + after);
    var s0 := Run(Initial(existing), before);
    assert ([Produce(own)] + after)[1..] == after;
    var s1 := Next(s0, Produce(own));
    var s, n := Run(s1, after), |s0.produced|;
    FailedOnce(s1, after);
    FailedOnce(Initial(existing), before);
    KnownIff(Initial(existing), before);
    NeverBuffered(existing, before);
    StaysBuffered(s1, after, n);
    assert n in s1.buffered <==> !s0.known;
    forall m: nat ensures Terminal(s, m) <==> m == n {
      EndingsKept(Initial(existing), before, m);
      EndingsKept(s1, after, m);
    }
    assert Synthesises(s, false) <==> n !in s.buffered;
  }

  /** The buffer holds numbers of produced events only. */
  lemma NeverBuffered(existing: bool, steps: seq<Step>)
    requires AllEnabled(Initial(existing), steps)
    ensures var s := Run(Initial(existing), steps); |s.produced| !in s.buffered
  {
    hide Run, AllEnabled, Placed;
    InitiallyConserved(existing);
    RunConserves(Initial(existing), steps);
    var s := Run(Initial(existing), steps);
    assert Balanced(s, |s.produced|);
    CountedIsMember(s.buffered, |s.produced|);
  }

  const FAILED_TWICE: seq<Step> :=
    [Produce(RunFailed("x")), RunFound, PollerTakes, PollerEmits, PollerReturns, BodyFails(false, "x"), HandlerEmits]

  /** A run that fails before its id is known, and is found while the state refreshes: the hub gets two `run-failed`. */
  lemma FailureReportedTwice()
    ensures AllEnabled(Initial(false), FAILED_TWICE)
    ensures Run(Initial(false), FAILED_TWICE).emitted == [0, 1]
    ensures Run(Initial(false), FAILED_TWICE).produced == [RunFailed("x"), RunFailed("x")]
  {
    var s0 := Initial(false);
    var s1 := Next(s0, FAILED_TWICE[0]);
    var s2 := Next(s1, RunFound);
    var s3 := Next(s2, PollerTakes);
    var s4 := Next(s3, PollerEmits);
    var s5 := Next(s4, PollerReturns);
    var s6 := Next(s5, BodyFails(false, "x"));
    var s7 := Next(s6, HandlerEmits);
    assert s3.pollBatch == [0] && s4.pollBatch == [] && s4.emitted == [0];
    assert s6.failBatch == [1] && s7.emitted == [0, 1];
    Chain([s0, s1, s2, s3, s4, s5, s6, s7], FAILED_TWICE);
  }

  /** A run given state by state. */
  lemma {:induction false} Chain(states: seq<State>, steps: seq<Step>)
    requires |states| == |steps| + 1
    requires forall i :: 0 <= i < |steps| ==> Enabled(states[i], steps[i]) && states[i + 1] == Next(states[i], steps[i])
    ensures AllEnabled(states[0], steps) && Run(states[0], steps) == states[|steps|]
  {
    hide Next, Enabled;
    if steps != [] {
      forall i | 0 <= i < |steps[1..]|
        ensures Enabled(states[1..][i], steps[1..][i]) && states[1..][i + 1] == Next(states[1..][i], steps[1..][i])
      {
        assert states[1..][i] == states[i + 1] && steps[1..][i] == steps[i + 1] && states[1..][i + 1] == states[i + 2];
      }
      Chain(states[1..], steps[1..]);
    }
  }
}
