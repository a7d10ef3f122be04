/** In which order the hub receives run events: exactly when an event overtakes an older one. */
module RunOrder {
  import opened Basics
  import opened RunForwarding

  /** The event that a step hands to the hub. */
  function EmittedBy(s: State, step: Step): (e: Option<nat>)
    requires Enabled(s, step)
  {
    match step
    case CallbackEmits(n) => Some(n)
    case PollerEmits => Some(s.pollBatch[0])
    case HandlerEmits => Some(s.failBatch[0])
    case _ => None
  }

  /** Produced, and neither with the hub nor lost: still in the buffer, in a batch, or in a callback's hands. */
  predicate Waiting(s: State, n: nat) {
    n in s.buffered || n in s.inFlight || n in s.pollBatch || n in s.failBatch
  }

  /** An older event waits when this one is emitted. */
  ghost predicate Overtakes(s: State, n: nat) {
    exists m: nat :: m < n && Waiting(s, m)
  }

  /** Everything older is with the hub, or lost. */
  ghost predicate InTurn(s: State, n: nat) {
    forall m: nat :: m < n ==> m in s.emitted || m in s.lost
  }

  ghost predicate Ascending(events: seq<nat>) {
    forall i, j :: 0 <= i < j < |events| ==> events[i] < events[j]
  }

  /** Each produced event is with the hub, lost or waiting, and only one of these. */
  lemma Whereabouts(s: State, n: nat)
    requires Conserved(s)
    ensures n < |s.produced| <==> n in s.emitted || n in s.lost || Waiting(s, n)
    ensures !(n in s.emitted && n in s.lost) && !(n in s.emitted && Waiting(s, n)) && !(n in s.lost && Waiting(s, n))
  {
    hide Count;
    assert Balanced(s, n);
    CountedIsMember(s.emitted, n);
    CountedIsMember(s.buffered, n);
    CountedIsMember(s.pollBatch, n);
    CountedIsMember(s.failBatch, n);
    CountedIsMember(s.lost, n);
  }

  lemma EmittedWasWaiting(s: State, step: Step)
    requires Enabled(s, step) && EmittedBy(s, step).Some?
    ensures Waiting(s, EmittedBy(s, step).value)
    ensures Next(s, step).emitted == s.emitted + [EmittedBy(s, step).value]
  {
  }

  /** An emission is out of turn if and only if an older event is still in the buffer, in a batch or in a callback's
      hands. */
  lemma OutOfTurn(s: State, step: Step)
    requires Conserved(s) && Enabled(s, step) && EmittedBy(s, step).Some?
    ensures InTurn(s, EmittedBy(s, step).value) <==> !Overtakes(s, EmittedBy(s, step).value)
  {
    hide Conserved, Waiting;
    var n := EmittedBy(s, step).value;
    EmittedWasWaiting(s, step);
    Whereabouts(s, n);
    forall m: nat | m < n ensures (m in s.emitted || m in s.lost) <==> !Waiting(s, m) {
      Whereabouts(s, m);
    }
  }

  // ---- Runs ----------------------------------------------------------------

  /** Some step emits an event before an older one that the hub receives later: `final` is all it receives. */
  ghost predicate SomeOvertakes(s: State, steps: seq<Step>, final: seq<nat>)
    requires AllEnabled(s, steps)
    decreases |steps|
  {
    steps != [] &&
    ((EmittedBy(s, steps[0]).Some? &&
      exists m: nat :: m < EmittedBy(s, steps[0]).value && Waiting(s, m) && m in final)
     || SomeOvertakes(Next(s, steps[0]), steps[1..], final))
  }

  lemma StepGrows(s: State, step: Step)
    requires Enabled(s, step)
    ensures s.emitted <= Next(s, step).emitted && s.lost <= Next(s, step).lost
    ensures |s.produced| <= |Next(s, step).produced|
  {
    hide Synthesises;
  }

  lemma {:induction false} RunGrows(s: State, steps: seq<Step>)
    requires AllEnabled(s, steps)
    ensures s.emitted <= Run(s, steps).emitted && s.lost <= Run(s, steps).lost
    ensures |s.produced| <= |Run(s, steps).produced|
    decreases |steps|
  {
    hide Next, Enabled;
    if steps != [] {
      StepGrows(s, steps[0]);
      RunGrows(Next(s, steps[0]), steps[1..]);
    }
  }

  ghost predicate AllAbove(events: seq<nat>, n: nat) {
    forall m :: m in events ==> n < m
  }

  lemma HeadFirst(n: nat, rest: seq<nat>)
    requires Ascending(rest) && AllAbove(rest, n)
    ensures Ascending([n] + rest)
  {
    var all := [n] + rest;
    forall i, j | 0 <= i < j < |all| ensures all[i] < all[j] {
      assert all[j] == rest[j - 1] && rest[j - 1] in rest;
      if i > 0 { assert all[i] == rest[i - 1]; }
    }
  }

  lemma HeadDropped(n: nat, rest: seq<nat>)
    requires Ascending([n] + rest)
    ensures Ascending(rest) && AllAbove(rest, n)
  {
    var all := [n] + rest;
    forall i, j | 0 <= i < j < |rest| ensures rest[i] < rest[j] {
      assert all[i + 1] < all[j + 1];
    }
    forall m | m in rest ensures n < m {
      var i :| 0 <= i < |rest| && rest[i] == m;
      assert all[0] < all[i + 1];
    }
  }

  /** What is emitted after this event and is older than it was waiting then. */
  lemma OlderLater(s: State, n: nat, end: State, later: seq<nat>)
    requires Conserved(s) && Conserved(end)
    requires n < |s.produced| && n !in s.emitted
    requires end.emitted == s.emitted + [n] + later && s.lost <= end.lost
    ensures !AllAbove(later, n) <==> exists m: nat :: m < n && Waiting(s, m) && m in end.emitted
  {
    hide Conserved, Waiting, Count;
    CountAppend(s.emitted + [n], later, n);
    PushCounts(s.emitted, n, n);
    AtMostOnce(end, n);
    CountedIsMember(later, n);
    forall m | m in later && m < n ensures Waiting(s, m) && m in end.emitted {
      Whereabouts(s, m);
      Whereabouts(end, m);
      CountAppend(s.emitted + [n], later, m);
      PushCounts(s.emitted, n, m);
      CountedIsMember(s.emitted, m);
      CountedIsMember(later, m);
      AtMostOnce(end, m);
    }
    forall m: nat | m < n && Waiting(s, m) && m in end.emitted ensures m in later {
      Whereabouts(s, m);
    }
    assert n !in later;
  }

  lemma AtMostOnce(s: State, n: nat)
    requires Conserved(s)
    ensures Count(s.emitted, n) <= 1
  {
    hide Count;
    assert Balanced(s, n);
  }

  lemma {:induction false} OrderFrom(s: State, steps: seq<Step>, end: State)
    requires Conserved(s) && Placed(s) && AllEnabled(s, steps) && end == Run(s, steps)
    ensures s.emitted <= end.emitted
    ensures Ascending(end.emitted[|s.emitted|..]) <==> !SomeOvertakes(s, steps, end.emitted)
    decreases |steps|
  {
    hide Conserved, Placed, Waiting, Ascending, Next, Enabled;
    RunGrows(s, steps);
    if steps == [] {
      NothingAscends();
      assert end.emitted[|s.emitted|..] == [];
    } else {
      var next := Next(s, steps[0]);
      assert end == Run(next, steps[1..]);
      StepConserves(s, steps[0]);
      RunConserves(next, steps[1..]);
      OrderFrom(next, steps[1..], end);
      if EmittedBy(s, steps[0]).Some? {
        var n, later := EmittedBy(s, steps[0]).value, end.emitted[|next.emitted|..];
        EmittedWasWaiting(s, steps[0]);
        RunGrows(next, steps[1..]);
        Whereabouts(s, n);
        assert end.emitted[|s.emitted|..] == [n] + later;
        assert end.emitted == s.emitted + [n] + later;
        OlderLater(s, n, end, later);
        if Ascending([n] + later) {
          HeadDropped(n, later);
        } else if AllAbove(later, n) && Ascending(later) {
          HeadFirst(n, later);
        }
      } else {
        QuietStep(s, steps[0]);
      }
    }
  }

  lemma NothingAscends()
    ensures Ascending([])
  {
  }

  lemma QuietStep(s: State, step: Step)
    requires Enabled(s, step) && EmittedBy(s, step).None?
    ensures Next(s, step).emitted == s.emitted
  {
    hide Synthesises;
  }

  /** The hub receives the events of a run in the order of their production if and only if no step emits one while an
      older one, which the hub gets later, is waiting. */
  lemma OrderKept(existing: bool, steps: seq<Step>)
    requires AllEnabled(Initial(existing), steps)
    ensures var end := Run(Initial(existing), steps);
            Ascending(end.emitted) <==> !SomeOvertakes(Initial(existing), steps, end.emitted)
  {
    var end := Run(Initial(existing), steps);
    InitiallyConserved(existing);
    OrderFrom(Initial(existing), steps, end);
    assert end.emitted[0..] == end.emitted;
  }

  /** Every emission of a run is in turn. */
  ghost predicate AllInTurn(s: State, steps: seq<Step>)
    requires AllEnabled(s, steps)
    decreases |steps|
  {
    steps == [] ||
    ((EmittedBy(s, steps[0]).Some? ==> InTurn(s, EmittedBy(s, steps[0]).value)) &&
     AllInTurn(Next(s, steps[0]), steps[1..]))
  }

  lemma {:induction false} TurnsDecide(s: State, steps: seq<Step>, end: State)
    requires Conserved(s) && Placed(s) && AllEnabled(s, steps) && end == Run(s, steps)
    requires Conserved(end) && AllForwarded(end)
    ensures AllInTurn(s, steps) <==> !SomeOvertakes(s, steps, end.emitted)
    decreases |steps|
  {
    hide Conserved, Placed, Waiting, Next, Enabled, InTurn;
    if steps != [] {
      var next := Next(s, steps[0]);
      assert end == Run(next, steps[1..]);
      StepConserves(s, steps[0]);
      TurnsDecide(next, steps[1..], end);
      RunGrows(s, steps);
      forall m | Waiting(s, m) ensures m in end.emitted {
        Whereabouts(s, m);
        CountedIsMember(end.emitted, m);
      }
      if EmittedBy(s, steps[0]).Some? {
        OutOfTurn(s, steps[0]);
      }
    }
  }

  /** A run whose events all reach the hub keeps their order if and only if every emission is in turn. */
  lemma OrderOfForwarded(existing: bool, steps: seq<Step>)
    requires AllEnabled(Initial(existing), steps) && AllForwarded(Run(Initial(existing), steps))
    ensures Ascending(Run(Initial(existing), steps).emitted) <==> AllInTurn(Initial(existing), steps)
  {
    hide Conserved, Placed;
    InitiallyConserved(existing);
    RunConserves(Initial(existing), steps);
    TurnsDecide(Initial(existing), steps, Run(Initial(existing), steps));
    OrderKept(existing, steps);
  }

  // ---- Who overtakes -------------------------------------------------------

  /** The poller's batch is older than all else that waits, and the buffer older than what is in flight. */
  ghost predicate Lined(s: State) {
    && Ascending(s.pollBatch) && Ascending(s.buffered)
    && (forall n :: n in s.pollBatch || n in s.buffered || n in s.inFlight || n in s.failBatch ==> n < |s.produced|)
    && (forall m, n :: m in s.pollBatch && (n in s.inFlight || n in s.failBatch) ==> m < n)
    && (forall m, n :: m in s.buffered && n in s.inFlight ==> m < n)
    && (s.pollBatch != [] ==> s.buffered == [])
    && (s.failBatch != [] ==> s.buffered == [])
    && (!s.known ==> s.pollBatch == [] && s.failBatch == [] && s.inFlight == {})
    && (s.failBatch != [] ==> s.bodyFailed)
  }

  lemma AscendingPush(events: seq<nat>, n: nat)
    requires Ascending(events) && forall m :: m in events ==> m < n
    ensures Ascending(events + [n])
  {
    assert forall i :: 0 <= i < |events| ==> events[i] in events;
  }

  lemma ProduceLined(s: State, e: Event)
    requires Lined(s) && Placed(s)
    ensures Lined(ProduceEvent(s, e))
  {
    hide Ascending, Placed;
    AscendingPush(s.buffered, |s.produced|);
  }

  lemma FailureLined(s: State, aborted: bool, message: string)
    requires Lined(s) && Placed(s) && !s.bodyFailed
    ensures Lined(FailBody(s, aborted, message))
  {
    hide Ascending, Synthesises, Placed;
    NothingAscends();
    AscendingPush(s.buffered, |s.produced|);
  }

  lemma BatchHead(batch: seq<nat>)
    requires Ascending(batch) && batch != []
    ensures Ascending(batch[1..]) && forall m :: m in batch[1..] ==> m in batch && batch[0] < m
  {
    hide Ascending;
    assert batch == [batch[0]] + batch[1..];
    HeadDropped(batch[0], batch[1..]);
  }

  lemma PollerLined(s: State, step: Step)
    requires Lined(s) && Enabled(s, step) && Placed(s)
    requires step.PollerTakes? || step.PollerEmits? || step.PollerThrows?
    ensures Lined(Next(s, step))
  {
    hide Ascending, FailBody, ProduceEvent;
    NothingAscends();
    if step.PollerEmits? {
      BatchHead(s.pollBatch);
    }
  }

  lemma OthersLined(s: State, step: Step)
    requires Lined(s) && Enabled(s, step) && Placed(s)
    requires !step.Produce? && !step.BodyFails? && !step.PollerTakes? && !step.PollerEmits? && !step.PollerThrows?
    ensures Lined(Next(s, step))
  {
    hide Ascending, FailBody, ProduceEvent;
    NothingAscends();
    if step.HandlerEmits? {
      assert forall m :: m in s.failBatch[1..] ==> m in s.failBatch;
    }
  }

  lemma StepLined(s: State, step: Step)
    requires Lined(s) && Enabled(s, step) && Placed(s)
    ensures Lined(Next(s, step))
  {
    hide Lined, Placed, FailBody, ProduceEvent;
    match step
    case Produce(e) => ProduceLined(s, e);
    case BodyFails(aborted, message) => FailureLined(s, aborted, message);
    case PollerTakes => PollerLined(s, step);
    case PollerEmits => PollerLined(s, step);
    case PollerThrows => PollerLined(s, step);
    case _ => OthersLined(s, step);
  }

  lemma {:induction false} RunLined(s: State, steps: seq<Step>)
    requires Lined(s) && Placed(s) && AllEnabled(s, steps)
    ensures Lined(Run(s, steps))
    decreases |steps|
  {
    hide Lined, Placed, Next, Enabled;
    if steps != [] {
      StepLined(s, steps[0]);
      StepKeepsPlaces(s, steps[0]);
      RunLined(Next(s, steps[0]), steps[1..]);
    }
  }

  /** In every run the poller emits in turn: only callbacks and the failure handler overtake. */
  lemma PollerNeverOvertakes(existing: bool, steps: seq<Step>)
    requires AllEnabled(Initial(existing), steps) && Enabled(Run(Initial(existing), steps), PollerEmits)
    ensures var s := Run(Initial(existing), steps); !Overtakes(s, s.pollBatch[0])
  {
    hide Run, AllEnabled, Ascending;
    NothingAscends();
    InitiallyConserved(existing);
    assert Lined(Initial(existing));
    RunLined(Initial(existing), steps);
    var s := Run(Initial(existing), steps);
    BatchHead(s.pollBatch);
    forall m: nat | m < s.pollBatch[0] ensures !Waiting(s, m) {
      assert s.pollBatch == [s.pollBatch[0]] + s.pollBatch[1..];
      assert s.pollBatch[0] in s.pollBatch;
    }
  }

  // ---- Two runs ------------------------------------------------------------

  const HANDED_OVER: seq<Step> :=
    [Produce(Plain("a")), RunFound, Produce(Plain("b")), CallbackEmits(1), PollerTakes, PollerEmits]

  const ANNOUNCED := State(true, [0], {1}, Announcing, [], false, [], [], [Plain("a"), Plain("b")], [])
  const OVERTAKEN := State(true, [], {}, Flushing, [], false, [], [1, 0], [Plain("a"), Plain("b")], [])

  lemma UntilAnnounced()
    ensures AllEnabled(Initial(false), HANDED_OVER[..3]) && Run(Initial(false), HANDED_OVER[..3]) == ANNOUNCED
  {
    hide FailBody;
    var s1 := Next(Initial(false), HANDED_OVER[0]);
    var s2 := Next(s1, RunFound);
    Chain([Initial(false), s1, s2, ANNOUNCED], HANDED_OVER[..3]);
  }

  lemma SinceAnnounced()
    ensures AllEnabled(ANNOUNCED, HANDED_OVER[3..]) && Run(ANNOUNCED, HANDED_OVER[3..]) == OVERTAKEN
  {
    hide FailBody, ProduceEvent;
    var s4 := ANNOUNCED.(inFlight := {}, emitted := [1]);
    var s5 := s4.(poller := Flushing, pollBatch := [0], buffered := []);
    Chain([ANNOUNCED, s4, s5, OVERTAKEN], HANDED_OVER[3..]);
  }

  /** At the hand-over, an event that is produced while the run is being announced overtakes a buffered one. */
  lemma LaterEventOvertakes()
    ensures AllEnabled(Initial(false), HANDED_OVER)
    ensures Run(Initial(false), HANDED_OVER).emitted == [1, 0]
  {
    hide Next, Enabled;
    UntilAnnounced();
    SinceAnnounced();
    assert HANDED_OVER == HANDED_OVER[..3] + HANDED_OVER[3..];
    RunJoin(Initial(false), HANDED_OVER[..3], HANDED_OVER[3..]);
  }

  lemma {:induction false} RunJoin(s: State, a: seq<Step>, b: seq<Step>)
    requires AllEnabled(s, a) && AllEnabled(Run(s, a), b)
    ensures AllEnabled(s, a + b) && Run(s, a + b) == Run(Run(s, a), b)
    decreases |a|
  {
    hide Next, Enabled;
    if a == [] {
      assert a + b == b;
    } else {
      assert (a + b)[0] == a[0] && (a + b)[1..] == a[1..] + b;
      RunJoin(Next(s, a[0]), a[1..], b);
    }
  }

  const CONCURRENT: seq<Step> := [Produce(Plain("a")), Produce(Plain("b")), CallbackEmits(1), CallbackEmits(0)]

  /** In a known run, a callback overtakes another whose ledger write takes longer. */
  lemma CallbackOvertakes()
    ensures AllEnabled(Initial(true), CONCURRENT)
    ensures Run(Initial(true), CONCURRENT).emitted == [1, 0]
  {
    var s0 := Initial(true);
    var s1 := Next(s0, CONCURRENT[0]);
    var s2 := Next(s1, CONCURRENT[1]);
    assert s2.inFlight == {0, 1};
    var s3 := Next(s2, CallbackEmits(1));
    var s4 := Next(s3, CallbackEmits(0));
    Chain([s0, s1, s2, s3, s4], CONCURRENT);
  }
}
