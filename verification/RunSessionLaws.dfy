/** What every sequence of calls to the run session manager keeps. */
module RunSessionLaws {
  import opened Text
  import opened RunSession

  /** Resolver and pending request come together and only while paused; every promise is settled at most once. */
  ghost predicate Linear(w: World) {
    && (w.active.Some? ==> SessionLinear(w.active.value, w))
    && (forall i :: 0 <= i < |w.resolutions| ==> w.resolutions[i].wait < w.nextWait)
    && (forall i, j :: 0 <= i < j < |w.resolutions| ==> w.resolutions[i].wait != w.resolutions[j].wait)
  }

  ghost predicate SessionLinear(s: Session, w: World) {
    && s.id < w.nextSession
    && (s.resolver.Some? <==> s.pending.Some?)
    && (s.resolver.Some? ==>
          && s.status == Paused
          && s.resolver.value < w.nextWait
          && forall i :: 0 <= i < |w.resolutions| ==> w.resolutions[i].wait != s.resolver.value)
  }

  lemma ApplyKeepsLinear(w: World, op: Op)
    requires Linear(w)
    ensures Linear(Apply(w, op).world)
    ensures Apply(w, op).world.nextSession >= w.nextSession
  {
    hide Trim;
  }

  lemma {:induction false} RunKeepsLinear(w: World, ops: seq<Op>)
    requires Linear(w)
    ensures Linear(Run(w, ops))
    decreases |ops|
  {
    hide Linear, Apply;
    if ops != [] {
      ApplyKeepsLinear(w, ops[0]);
      RunKeepsLinear(Apply(w, ops[0]).world, ops[1..]);
    }
  }

  /** From the idle manager on, no sequence of calls settles one promise twice or leaves resolver and request apart. */
  lemma InterventionLinearity(ops: seq<Op>)
    ensures Linear(Run(IDLE, ops))
  {
    RunKeepsLinear(IDLE, ops);
  }

  /** While a wait is open a second one is refused, and the only calls that settle it are a submission and an abort
      that address the run; each settles exactly that wait. */
  lemma OpenWait(w: World, op: Op)
    requires Linear(w) && w.active.Some? && w.active.value.resolver.Some?
    ensures op.Wait? ==> Apply(w, op).world == w && Apply(w, op).reply.Refused?
    ensures Apply(w, op).world.resolutions ==
            if op.Submit? && Addresses(w.active.value, op.runId)
            then w.resolutions + [Resolution(w.active.value.resolver.value, Trim(op.message))]
            else if op.Abort? && Addresses(w.active.value, op.runId)
            then w.resolutions + [Resolution(w.active.value.resolver.value, "/abort")]
            else w.resolutions
  {
    hide Trim;
  }

  predicate IsAborting(w: World, session: nat) {
    Live(w, session) && w.active.value.status == Aborting
  }

  /** A session becomes aborting by an abort call alone, which either resolves the open wait with "/abort" or,
      when there is none, raises the session's abort signal and aborts the bound execution. */
  lemma EntryIntoAborting(w: World, op: Op, session: nat)
    requires Linear(w) && !IsAborting(w, session) && IsAborting(Apply(w, op).world, session)
    ensures op.Abort? && Live(w, session)
    ensures var before, after := w.active.value, Apply(w, op).world;
            if before.resolver.Some?
            then after.resolutions == w.resolutions + [Resolution(before.resolver.value, "/abort")]
            else after.active.value.signalAborted
                 && (before.execution.Some? ==> before.execution.value in after.executions)
  {
    hide Trim;
  }

  /** Aborting is not sticky: besides the two finishing calls, a wait of the session's own run turns it back to
      paused. */
  lemma AbortingLeftBy(w: World, op: Op, session: nat)
    requires Linear(w) && IsAborting(w, session)
    ensures !IsAborting(Apply(w, op).world, session) <==>
            || (op.Wait? && op.session == session)
            || (op.Finish? && op.session == session)
            || (op.FinishAddressed? && Addresses(w.active.value, op.runId))
  {
    hide Trim;
  }

  // ---- Stale calls ---------------------------------------------------------

  predicate IsSessionCall(op: Op) {
    op.SetRunId? || op.Wait? || op.Bind? || op.Drain? || op.MarkRoundComplete? || op.Finish?
  }

  /** A call with the id of a session that is no longer there changes nothing. */
  lemma StaleCallChangesNothing(w: World, op: Op)
    requires IsSessionCall(op) && !Live(w, op.session)
    ensures Apply(w, op).world == w
  {
  }

  /** A call that addresses another run is refused and changes nothing, once the session knows its run. */
  lemma MisaddressedCallRefused(w: World, op: Op)
    requires op.Abort? || op.Submit? || op.FinishAddressed?
    requires op.runId != ""
    requires w.active.Some? ==> w.active.value.runId != "" && w.active.value.runId != op.runId
    ensures Apply(w, op) == Result(w, Refused(RunMismatch))
  {
  }

  // ---- Messages ------------------------------------------------------------

  /** The messages that calls accepted as queued, in order. */
  function Accepted(w: World, ops: seq<Op>): seq<string>
    decreases |ops|
  {
    if ops == [] then []
    else
      var r := Apply(w, ops[0]);
      (if ops[0].Submit? && r.reply.Queued? then [Trim(ops[0].message)] else []) + Accepted(r.world, ops[1..])
  }

  /** The batches that calls drained, concatenated. */
  function DrainedMessages(w: World, ops: seq<Op>): seq<string>
    decreases |ops|
  {
    if ops == [] then []
    else
      var r := Apply(w, ops[0]);
      (if r.reply.Drained? then r.reply.messages else []) + DrainedMessages(r.world, ops[1..])
  }

  lemma {:induction false} GoneForGood(w: World, session: nat, ops: seq<Op>)
    requires Linear(w) && !Live(w, session) && session < w.nextSession
    ensures !Live(Run(w, ops), session)
    decreases |ops|
  {
    hide Linear;
    if ops != [] {
      ApplyKeepsLinear(w, ops[0]);
      assert !Live(Apply(w, ops[0]).world, session) by { hide Trim; }
      GoneForGood(Apply(w, ops[0]).world, session, ops[1..]);
    }
  }

  lemma OthersKeepTheQueue(w: World, op: Op, session: nat)
    requires Live(w, session) && Live(Apply(w, op).world, session)
    requires !op.Submit? && !op.Drain?
    ensures Apply(w, op).world.active.value.queued == w.active.value.queued && !Apply(w, op).reply.Drained?
  {
  }

  lemma OneCallConserves(w: World, op: Op, session: nat)
    requires Live(w, session) && Live(Apply(w, op).world, session)
    ensures var r := Apply(w, op);
            w.active.value.queued + (if op.Submit? && r.reply.Queued? then [Trim(op.message)] else []) ==
            (if r.reply.Drained? then r.reply.messages else []) + r.world.active.value.queued
  {
    hide Trim;
    var queued := w.active.value.queued;
    assert queued + [] == queued && [] + queued == queued;
    if op.Submit? {
      assert [] + Apply(w, op).world.active.value.queued == Apply(w, op).world.active.value.queued;
    } else if !op.Drain? {
      hide Apply;
      OthersKeepTheQueue(w, op, session);
    }
  }

  /** While a session is live, what was queued and accepted is what was drained and is still queued, in order. */
  lemma {:induction false} MessageConservation(w: World, session: nat, ops: seq<Op>)
    requires Linear(w) && Live(w, session) && Live(Run(w, ops), session)
    ensures w.active.value.queued + Accepted(w, ops) == DrainedMessages(w, ops) + Run(w, ops).active.value.queued
    decreases |ops|
  {
    hide Linear, Apply, Trim;
    var queued := w.active.value.queued;
    if ops == [] {
      assert queued + [] == [] + queued;
    } else {
      var r := Apply(w, ops[0]);
      ApplyKeepsLinear(w, ops[0]);
      LiveIdIsOld(w, session);
      if !Live(r.world, session) {
        GoneForGood(r.world, session, ops[1..]);
      }
      OneCallConserves(w, ops[0], session);
      MessageConservation(r.world, session, ops[1..]);
      var accepted := if ops[0].Submit? && r.reply.Queued? then [Trim(ops[0].message)] else [];
      var drained := if r.reply.Drained? then r.reply.messages else [];
      var end := Run(w, ops).active.value.queued;
      Regroup(queued, accepted, drained, r.world.active.value.queued, Accepted(r.world, ops[1..]),
              DrainedMessages(r.world, ops[1..]), end);
    }
  }

  lemma Regroup<T>(a: seq<T>, b: seq<T>, c: seq<T>, d: seq<T>, e: seq<T>, f: seq<T>, g: seq<T>)
    requires a + b == c + d && d + e == f + g
    ensures a + (b + e) == (c + f) + g
  {
    assert a + (b + e) == (a + b) + e == (c + d) + e == c + (d + e) == c + (f + g) == (c + f) + g;
  }

  lemma LiveIdIsOld(w: World, session: nat)
    requires Linear(w) && Live(w, session)
    ensures session < w.nextSession
  {
  }

  // ---- Accounting ----------------------------------------------------------

  predicate Clears(w: World, op: Op) {
    w.active.Some? && Apply(w, op).world.active.None?
  }

  predicate Starts(w: World, op: Op) {
    w.active.None? && Apply(w, op).world.active.Some?
  }

  /** The notice owed for a call: one for a cleared session that knows its run, aborted when the session was aborting
      or the call is an abort. */
  function OwedNotice(w: World, op: Op): seq<Notice> {
    if Clears(w, op) && w.active.value.runId != ""
    then [Notice(w.active.value.runId, if w.active.value.status == Aborting || op.Abort? then Aborted else Finished)]
    else []
  }

  function OwedNotices(w: World, ops: seq<Op>): seq<Notice>
    decreases |ops|
  {
    if ops == [] then [] else OwedNotice(w, ops[0]) + OwedNotices(Apply(w, ops[0]).world, ops[1..])
  }

  function CountStarts(w: World, ops: seq<Op>): nat
    decreases |ops|
  {
    if ops == [] then 0 else (if Starts(w, ops[0]) then 1 else 0) + CountStarts(Apply(w, ops[0]).world, ops[1..])
  }

  function CountClears(w: World, ops: seq<Op>): nat
    decreases |ops|
  {
    if ops == [] then 0 else (if Clears(w, ops[0]) then 1 else 0) + CountClears(Apply(w, ops[0]).world, ops[1..])
  }

  /** Only an abort of a session whose round is complete, and the two finishing calls, clear; one call never
      replaces a session by another. */
  lemma OneCallAccounts(w: World, op: Op)
    requires Linear(w)
    ensures Apply(w, op).world.notices == w.notices + OwedNotice(w, op)
    ensures Clears(w, op) && op.Abort? ==> w.active.value.status == Paused && w.active.value.resolver.None?
    ensures Starts(w, op) <==> op.Start? && w.active.None?
    ensures w.active.Some? && Apply(w, op).world.active.Some? ==> Live(Apply(w, op).world, w.active.value.id)
  {
    hide Trim;
    assert w.notices + [] == w.notices;
  }

  /** Notices are sent exactly as owed, and starts exceed clears by the session that is there. */
  lemma {:induction false} SessionAccounting(w: World, ops: seq<Op>)
    requires Linear(w)
    ensures Run(w, ops).notices == w.notices + OwedNotices(w, ops)
    ensures CountStarts(w, ops) - CountClears(w, ops) ==
            (if Run(w, ops).active.Some? then 1 else 0) - (if w.active.Some? then 1 else 0)
    decreases |ops|
  {
    hide Linear, Apply, OwedNotice;
    if ops == [] {
      assert w.notices + [] == w.notices;
    } else {
      ApplyKeepsLinear(w, ops[0]);
      OneCallAccounts(w, ops[0]);
      SessionAccounting(Apply(w, ops[0]).world, ops[1..]);
      assert w.notices + (OwedNotice(w, ops[0]) + OwedNotices(Apply(w, ops[0]).world, ops[1..])) ==
             (w.notices + OwedNotice(w, ops[0])) + OwedNotices(Apply(w, ops[0]).world, ops[1..]);
    }
  }
}
