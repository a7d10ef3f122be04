/** What the events of a hub mean, told from their history: which connection is in use, where a send goes, and what
    settles a call. */
module RpcHistory {
  import opened Basics
  import opened RpcHub

  // ---- Which connection is in use ------------------------------------------

  /** How many connections were attached; connections are numbered in that order. */
  function Attached(ops: seq<Op>): nat {
    if ops == [] then 0 else Attached(ops[..|ops| - 1]) + if ops[|ops| - 1].Attach? then 1 else 0
  }

  /** An event that ends the use of a connection of this device. */
  predicate EndsUse(op: Op, entry: nat, deviceId: string) {
    op == Attach(deviceId) || op == Detach(deviceId) || op == SocketCloses(entry)
  }

  /** The connection was attached for the device by event `i`, and nothing has ended its use since. */
  ghost predicate AttachedBy(ops: seq<Op>, i: nat, entry: nat, deviceId: string) {
    && i < |ops| && ops[i] == Attach(deviceId) && Attached(ops[..i]) == entry
    && forall j :: i < j < |ops| ==> !EndsUse(ops[j], entry, deviceId)
  }

  ghost predicate InUse(ops: seq<Op>, entry: nat, deviceId: string) {
    exists i :: 0 <= i < |ops| && AttachedBy(ops, i, entry, deviceId)
  }

  /** A connection of this device that takes its sends. */
  predicate Serves(h: Hub, entry: nat, deviceId: string) {
    IsCurrent(h, entry) && h.entries[entry].deviceId == deviceId
  }

  /** What one event does to the connections: an attach adds one, in use; a connection stays in use unless the event
      ends its use. */
  lemma StepServes(h: Hub, op: Op, entry: nat, deviceId: string)
    requires Valid(h) && Possible(h, op)
    ensures |Apply(h, op).entries| == |h.entries| + if op.Attach? then 1 else 0
    ensures Serves(Apply(h, op), entry, deviceId) <==>
            (Serves(h, entry, deviceId) && !EndsUse(op, entry, deviceId))
            || (op == Attach(deviceId) && entry == |h.entries|)
  {
    hide RejectAll;
    match op
    case Attach(d) => DropServes(h, d, entry, deviceId);
    case Detach(d) => DropServes(h, d, entry, deviceId);
    case SocketCloses(e) => DropServes(h, h.entries[e].deviceId, entry, deviceId);
    case _ =>
  }

  lemma DropServes(h: Hub, dropped: string, entry: nat, deviceId: string)
    requires Valid(h)
    ensures |DropEntry(h, dropped).entries| == |h.entries|
    ensures forall e :: 0 <= e < |h.entries| ==> DropEntry(h, dropped).entries[e].deviceId == h.entries[e].deviceId
    ensures DropEntry(h, dropped).devices == Without(h.devices, dropped)
    ensures Serves(DropEntry(h, dropped), entry, deviceId) <==> Serves(h, entry, deviceId) && deviceId != dropped
  {
    if dropped !in h.devices {
      assert Without(h.devices, dropped) == h.devices;
    }
  }

  lemma {:induction false} RunSnoc(h: Hub, ops: seq<Op>, op: Op)
    requires Valid(h) && AllPossible(h, ops + [op])
    ensures AllPossible(h, ops) && Valid(Run(h, ops)) && Possible(Run(h, ops), op)
    ensures Run(h, ops + [op]) == Apply(Run(h, ops), op)
    decreases |ops|
  {
    hide Valid, Apply, Possible;
    var all := ops + [op];
    ApplyKeepsValid(h, all[0]);
    if ops == [] {
      assert all[1..] == [];
    } else {
      assert all[1..] == ops[1..] + [op];
      RunSnoc(Apply(h, ops[0]), ops[1..], op);
    }
  }

  lemma AttachedSnoc(ops: seq<Op>, op: Op, entry: nat, deviceId: string)
    ensures Attached(ops + [op]) == Attached(ops) + if op.Attach? then 1 else 0
    ensures InUse(ops + [op], entry, deviceId) <==>
            (InUse(ops, entry, deviceId) && !EndsUse(op, entry, deviceId))
            || (op == Attach(deviceId) && entry == Attached(ops))
  {
    hide EndsUse, Attached;
    var all, n := ops + [op], |ops|;
    assert all[..n] == ops;
    assert Attached(all) == Attached(ops) + if op.Attach? then 1 else 0 by { AttachedLast(all); }
    if i :| 0 <= i < |all| && AttachedBy(all, i, entry, deviceId) {
      assert all[..i] == if i < n then ops[..i] else ops;
      if i < n {
        assert !EndsUse(all[n], entry, deviceId);
        assert forall j :: i < j < n ==> all[j] == ops[j];
        assert AttachedBy(ops, i, entry, deviceId);
      }
    }
    if InUse(ops, entry, deviceId) && !EndsUse(op, entry, deviceId) {
      var i :| 0 <= i < n && AttachedBy(ops, i, entry, deviceId);
      assert all[..i] == ops[..i];
      assert forall j :: i < j < |all| ==> all[j] == if j < n then ops[j] else op;
      assert AttachedBy(all, i, entry, deviceId);
    }
    if op == Attach(deviceId) && entry == Attached(ops) {
      assert AttachedBy(all, n, entry, deviceId);
    }
  }

  lemma AttachedLast(ops: seq<Op>)
    requires ops != []
    ensures Attached(ops) == Attached(ops[..|ops| - 1]) + if ops[|ops| - 1].Attach? then 1 else 0
  {
  }

  lemma NothingInUse(entry: nat, deviceId: string)
    ensures Attached([]) == 0 && !InUse([], entry, deviceId) && !Serves(EMPTY, entry, deviceId) && Valid(EMPTY)
  {
  }

  /** Over every sequence of events: a connection serves a device if and only if it was attached for it, and since then
      the device was neither attached again nor detached and the connection's socket did not close. */
  lemma {:induction false} ServesFromHistory(ops: seq<Op>, entry: nat, deviceId: string)
    requires Valid(EMPTY) && AllPossible(EMPTY, ops)
    ensures |Run(EMPTY, ops).entries| == Attached(ops)
    ensures Serves(Run(EMPTY, ops), entry, deviceId) <==> InUse(ops, entry, deviceId)
    decreases |ops|
  {
    hide Valid, Apply, Possible, Serves, InUse, EndsUse, Attached;
    NothingInUse(entry, deviceId);
    if ops != [] {
      var n := |ops| - 1;
      assert ops == ops[..n] + [ops[n]];
      RunSnoc(EMPTY, ops[..n], ops[n]);
      ServesFromHistory(ops[..n], entry, deviceId);
      StepServes(Run(EMPTY, ops[..n]), ops[n], entry, deviceId);
      AttachedSnoc(ops[..n], ops[n], entry, deviceId);
    }
  }

  // ---- Where a send goes ---------------------------------------------------

  /** A response or a disconnect of its connection finds the call. */
  predicate Listed(h: Hub, call: nat) {
    && call < |h.calls| && h.calls[call].entry < |h.entries|
    && h.calls[call].requestId in h.entries[h.calls[call].entry].pending
    && h.entries[h.calls[call].entry].pending[h.calls[call].requestId] == call
  }

  /** A send to a device that a connection serves creates one call, on that connection, which is listed and unsettled,
      or settled with the failure when sending throws. */
  lemma SendCreates(h: Hub, deviceId: string, requestId: string, throws: bool, entry: nat)
    requires Valid(h) && Serves(h, entry, deviceId)
    ensures var next, call := Apply(h, Send(deviceId, requestId, throws)), |h.calls|;
            && |next.calls| == call + 1 && next.calls[..call] == h.calls
            && next.calls[call] == Call(requestId, entry, !throws, if throws then [SendFailed] else [])
            && (Listed(next, call) <==> !throws)
  {
  }

  /** A send to a device that nothing serves creates none, and no other event does. */
  lemma NoOtherCalls(h: Hub, op: Op)
    requires Valid(h) && Possible(h, op)
    requires op.Send? ==> forall entry: nat :: !Serves(h, entry, op.deviceId)
    ensures |Apply(h, op).calls| == |h.calls|
    ensures op.Send? ==> Apply(h, op) == h
  {
    if op.Send? && op.deviceId in h.devices {
      assert Serves(h, h.devices[op.deviceId], op.deviceId);
    }
  }

  // ---- What settles a call -------------------------------------------------

  /** The event ends the use of the connection while it serves its device. */
  predicate Drops(h: Hub, op: Op, entry: nat) {
    IsCurrent(h, entry) && EndsUse(op, entry, h.entries[entry].deviceId)
  }

  /** How an event settles a call that is there. */
  function SettledHow(h: Hub, op: Op, call: nat): Option<Settlement>
    requires call < |h.calls|
  {
    if op == TimerFires(call) then Some(TimedOut)
    else if !Listed(h, call) then None
    else if op == Response(h.calls[call].entry, h.calls[call].requestId) then Some(Answered)
    else if Drops(h, op, h.calls[call].entry) then Some(Disconnected)
    else None
  }

  lemma DropSettles(h: Hub, deviceId: string, call: nat)
    requires Valid(h) && call < |h.calls|
    ensures var entry := h.calls[call].entry;
            DropEntry(h, deviceId).calls[call] ==
            if Listed(h, call) && Serves(h, entry, deviceId) then Settle(h.calls[call], Disconnected) else h.calls[call]
  {
    if deviceId in h.devices {
      var entry := h.devices[deviceId];
      if call in h.entries[entry].pending.Values {
        WaitingIsListed(h, entry, call);
      }
      if Listed(h, call) && Serves(h, h.calls[call].entry, deviceId) {
        assert h.entries[entry].pending[h.calls[call].requestId] == call;
        assert call in h.entries[entry].pending.Values;
      }
    }
  }

  /** Every call that is there is settled as said, and otherwise left alone: its timer times it out, a response with its
      id on its connection answers it, and the end of its connection's use disconnects it, the latter two when listed.
      */
  lemma SettlesExactly(h: Hub, op: Op, call: nat)
    requires Valid(h) && Possible(h, op) && call < |h.calls|
    ensures call < |Apply(h, op).calls|
    ensures Apply(h, op).calls[call] ==
            match SettledHow(h, op, call)
            case Some(how) => Settle(h.calls[call], how)
            case None => h.calls[call]
  {
    hide RejectAll, DropEntry;
    match op
    case Attach(d) => DropSettles(h, d, call); SameEnd(h, op, call);
    case Detach(d) => DropSettles(h, d, call); SameEnd(h, op, call);
    case SocketCloses(e) => DropSettles(h, h.entries[e].deviceId, call); SameEnd(h, op, call);
    case Response(e, id) =>
      if id in h.entries[e].pending {
        assert EntryValid(h, e);
        assert InFlight(h, e, id, h.entries[e].pending[id]);
      }
    case _ =>
  }

  /** The connection whose use a detach, an attach or a close ends is the one that serves the device. */
  lemma SameEnd(h: Hub, op: Op, call: nat)
    requires Valid(h) && Possible(h, op) && call < |h.calls| && (op.Attach? || op.Detach? || op.SocketCloses?)
    ensures var deviceId := if op.SocketCloses? then h.entries[op.entry].deviceId else op.deviceId;
            Drops(h, op, h.calls[call].entry) <==>
            Serves(h, h.calls[call].entry, deviceId) && (op.SocketCloses? ==> IsCurrent(h, op.entry))
  {
  }

  // ---- What is listed ------------------------------------------------------

  /** The event takes an id off the list of a connection, or gives it to a younger call. */
  predicate Unlists(h: Hub, op: Op, entry: nat, requestId: string) {
    || op == Response(entry, requestId)
    || Drops(h, op, entry)
    || (op.Send? && Serves(h, entry, op.deviceId) && op.requestId == requestId)
    || (op.TimerFires? && op.call < |h.calls| && h.calls[op.call].entry == entry &&
        h.calls[op.call].requestId == requestId)
  }

  /** A call that is there stays listed exactly as long as no event takes its id off its connection's list. */
  lemma ListedExactly(h: Hub, op: Op, call: nat)
    requires Valid(h) && Possible(h, op) && call < |h.calls|
    ensures Listed(Apply(h, op), call) <==>
            Listed(h, call) && !Unlists(h, op, h.calls[call].entry, h.calls[call].requestId)
  {
    hide RejectAll, DropEntry;
    SettlesExactly(h, op, call);
    match op
    case Attach(d) => DropLists(h, d, call); SameEnd(h, op, call);
    case Detach(d) => DropLists(h, d, call); SameEnd(h, op, call);
    case SocketCloses(e) => DropLists(h, h.entries[e].deviceId, call); SameEnd(h, op, call);
    case _ =>
  }

  lemma DropLists(h: Hub, deviceId: string, call: nat)
    requires Valid(h) && call < |h.calls|
    ensures var next := DropEntry(h, deviceId);
            && call < |next.calls| && |next.entries| == |h.entries|
            && (Listed(next, call) <==> Listed(h, call) && !Serves(h, h.calls[call].entry, deviceId))
  {
    DropSettles(h, deviceId, call);
  }
}
