/** The turns that `core/orchestrator.ts` runs, and which of them a run consists of. */
module Turns {
  import opened Basics

  datatype Role = Researcher | Coordinator | Drafter | Reviewer(id: nat) | Finalizer

  /** A turn completes, fails, is cut short by an abort or by a user's intervention, or ends with an error that
      binding its abort controller throws; the last three are thrown. */
  datatype TurnResult = TurnCompleted | TurnFailed | TurnAborted | TurnIntervened | TurnThrew

  /** One call of `executeTurn`: who, in which round or cycle, and how it ended. */
  datatype Call = Call(who: Role, unit: nat, result: TurnResult)

  datatype Slot = Slot(who: Role, unit: nat)

  function Slots(calls: seq<Call>): seq<Slot> {
    seq(|calls|, i requires 0 <= i < |calls| => Slot(calls[i].who, calls[i].unit))
  }

  function ReviewerSlots(unit: nat, reviewers: seq<nat>): seq<Slot> {
    seq(|reviewers|, i requires 0 <= i < |reviewers| => Slot(Reviewer(reviewers[i]), unit))
  }

  /** The turns of one deep-feedback cycle. */
  function CycleSlots(cycle: nat, reviewers: seq<nat>): seq<Slot> {
    [Slot(Coordinator, cycle), Slot(Drafter, cycle)] + ReviewerSlots(cycle, reviewers) +
    [Slot(Coordinator, cycle), Slot(Finalizer, cycle)]
  }

  /** The turns that open a realtime round, and all turns of a round that no message redirected: `closer` ends it. */
  function OpeningSlots(round: nat, guided: bool, drafted: bool): seq<Slot> {
    (if guided then [Slot(Coordinator, round)] else []) + (if drafted then [Slot(Drafter, round)] else [])
  }

  function RoundSlots(round: nat, guided: bool, drafted: bool, reviewers: seq<nat>, closer: Role): seq<Slot> {
    OpeningSlots(round, guided, drafted) + ReviewerSlots(round, reviewers) + [Slot(closer, round)]
  }

  predicate HasFailed(calls: seq<Call>, reviewer: nat) {
    exists i :: 0 <= i < |calls| && calls[i].who == Reviewer(reviewer) && calls[i].result == TurnFailed
  }

  /** The reviewers without a failed turn. */
  function Alive(reviewers: seq<nat>, calls: seq<Call>): seq<nat> {
    if reviewers == [] then []
    else (if HasFailed(calls, reviewers[0]) then [] else [reviewers[0]]) + Alive(reviewers[1..], calls)
  }

  /** The list without the first entry with this id. */
  function Splice(reviewers: seq<nat>, reviewer: nat): seq<nat> {
    if reviewers == [] then []
    else if reviewers[0] == reviewer then reviewers[1..]
    else [reviewers[0]] + Splice(reviewers[1..], reviewer)
  }

  /** No reviewer whose turn failed has a later turn. */
  ghost predicate FailedNeverCalledAgain(calls: seq<Call>) {
    forall i, j :: 0 <= i < j < |calls| && calls[i].who.Reviewer? && calls[i].result == TurnFailed ==>
      calls[j].who != calls[i].who
  }

  lemma {:induction false} AliveMembers(reviewers: seq<nat>, calls: seq<Call>)
    ensures forall r :: r in Alive(reviewers, calls) <==> r in reviewers && !HasFailed(calls, r)
    ensures Distinct(reviewers) ==> Distinct(Alive(reviewers, calls))
  {
    hide HasFailed;
    if reviewers != [] {
      AliveMembers(reviewers[1..], calls);
      var rest := Alive(reviewers[1..], calls);
      assert forall r :: r in reviewers <==> r == reviewers[0] || r in reviewers[1..];
      if Distinct(reviewers) {
        assert reviewers[0] !in reviewers[1..];
        assert forall i :: 0 <= i < |rest| ==> rest[i] in rest;
      }
    }
  }

  lemma {:induction false} AliveAgain(reviewers: seq<nat>, calls: seq<Call>, more: seq<Call>)
    requires forall r :: r in reviewers ==> (HasFailed(calls, r) <==> HasFailed(more, r))
    ensures Alive(reviewers, calls) == Alive(reviewers, more)
  {
    hide HasFailed;
    if reviewers != [] {
      AliveAgain(reviewers[1..], calls, more);
    }
  }

  /** Reviewers only ever leave. */
  lemma {:induction false} AliveShrinks(reviewers: seq<nat>, calls: seq<Call>, more: seq<Call>)
    requires calls <= more
    ensures |Alive(reviewers, more)| <= |Alive(reviewers, calls)|
  {
    if reviewers != [] {
      AliveShrinks(reviewers[1..], calls, more);
      if HasFailed(calls, reviewers[0]) {
        var i :| 0 <= i < |calls| && calls[i].who == Reviewer(reviewers[0]) && calls[i].result == TurnFailed;
        assert more[i] == calls[i];
      }
    }
  }

  lemma FailedPush(calls: seq<Call>, call: Call, reviewer: nat)
    ensures HasFailed(calls + [call], reviewer) <==>
            HasFailed(calls, reviewer) || (call.who == Reviewer(reviewer) && call.result == TurnFailed)
  {
    var next := calls + [call];
    if HasFailed(calls, reviewer) {
      var i :| 0 <= i < |calls| && calls[i].who == Reviewer(reviewer) && calls[i].result == TurnFailed;
      assert next[i] == calls[i];
    }
    if call.who == Reviewer(reviewer) && call.result == TurnFailed {
      assert next[|calls|] == call;
    }
  }

  /** A turn changes who is alive only when a reviewer fails, and then removes that one. */
  lemma {:induction false} AlivePush(reviewers: seq<nat>, calls: seq<Call>, call: Call)
    requires Distinct(reviewers)
    ensures Alive(reviewers, calls + [call]) ==
            if call.who.Reviewer? && call.result == TurnFailed then Splice(Alive(reviewers, calls), call.who.id)
            else Alive(reviewers, calls)
  {
    hide HasFailed;
    if reviewers != [] {
      AlivePush(reviewers[1..], calls, call);
      FailedPush(calls, call, reviewers[0]);
      var rest := Alive(reviewers[1..], calls);
      assert [] + rest == rest && [] + Alive(reviewers[1..], calls + [call]) == Alive(reviewers[1..], calls + [call]);
      if call.who == Reviewer(reviewers[0]) && call.result == TurnFailed {
        AliveMembers(reviewers[1..], calls);
        assert reviewers[0] !in reviewers[1..];
        SpliceAbsent(rest, reviewers[0]);
        assert ([reviewers[0]] + rest)[1..] == rest;
      } else if call.who.Reviewer? && call.result == TurnFailed {
        assert ([reviewers[0]] + rest)[1..] == rest && [] + rest == rest;
      }
    }
  }

  lemma {:induction false} SpliceAbsent(reviewers: seq<nat>, reviewer: nat)
    requires reviewer !in reviewers
    ensures Splice(reviewers, reviewer) == reviewers
  {
    if reviewers != [] {
      SpliceAbsent(reviewers[1..], reviewer);
    }
  }

  /** Calling nobody who has failed keeps the rule. */
  lemma CallKeepsRule(calls: seq<Call>, call: Call)
    requires FailedNeverCalledAgain(calls)
    requires call.who.Reviewer? ==> !HasFailed(calls, call.who.id)
    ensures FailedNeverCalledAgain(calls + [call])
  {
  }

  lemma SlotsJoin(calls: seq<Call>, more: seq<Call>)
    ensures Slots(calls + more) == Slots(calls) + Slots(more)
  {
  }

  /** The slots of a stretch of calls, split at `middle`. */
  lemma SlotsSplit(calls: seq<Call>, from: nat, middle: nat)
    requires from <= middle <= |calls|
    ensures Slots(calls[from..]) == Slots(calls[from..middle]) + Slots(calls[middle..])
  {
    SlotsJoin(calls[from..middle], calls[middle..]);
    assert calls[from..] == calls[from..middle] + calls[middle..];
  }

  /** A cycle, turn by turn: only its first and its last but one are the coordinator's, only its second drafts, only its
      last finalizes, and each reviewer has one turn between. */
  lemma CycleTurns(cycle: nat, reviewers: seq<nat>)
    ensures var slots, n := CycleSlots(cycle, reviewers), |reviewers|;
            |slots| == 4 + n && forall i :: 0 <= i < 4 + n ==>
              && slots[i].unit == cycle
              && (slots[i].who == Coordinator <==> i == 0 || i == 2 + n)
              && (slots[i].who == Drafter <==> i == 1)
              && (slots[i].who == Finalizer <==> i == 3 + n)
              && (slots[i].who.Reviewer? <==> 2 <= i < 2 + n)
              && (2 <= i < 2 + n ==> slots[i].who.id == reviewers[i - 2])
  {
  }

  /** A whole round, turn by turn: the closing turn is the last, before it is each reviewer's, and before them the
      drafter's if there is something to draft and the coordinator's if none stands in for it. */
  lemma RoundTurns(round: nat, guided: bool, drafted: bool, reviewers: seq<nat>, closer: Role)
    ensures var slots, n := RoundSlots(round, guided, drafted, reviewers, closer), |reviewers|;
            var opening := |slots| - 1 - n;
            && opening == (if guided then 1 else 0) + (if drafted then 1 else 0)
            && slots[opening + n] == Slot(closer, round)
            && (forall i :: 0 <= i < n ==> slots[opening + i] == Slot(Reviewer(reviewers[i]), round))
            && (drafted ==> slots[opening - 1] == Slot(Drafter, round))
            && (guided ==> slots[0] == Slot(Coordinator, round))
  {
  }

  lemma CycleLength(cycle: nat, reviewers: seq<nat>)
    ensures |CycleSlots(cycle, reviewers)| == 4 + |reviewers|
  {
  }
}
