/** The RPC correlation of `ws/deviceHub.ts`: connections, pending maps, timers and the promises of the calls. */
module RpcHub {
  import opened Basics

  /** How the promise of a call was settled; `Disconnected` is the one rejection. */
  datatype Settlement = Answered | TimedOut | SendFailed | Disconnected

  /** One `sendRpc` promise. `settled` lists every settlement it was given, so that giving two would show. */
  datatype Call = Call(requestId: string, entry: nat, timerArmed: bool, settled: seq<Settlement>)

  /** One connection; its `pending` map goes from request ids to calls. */
  datatype Entry = Entry(deviceId: string, pending: map<string, nat>)

  /** Entries and calls are numbered in the order of their creation. */
  datatype Hub = Hub(devices: map<string, nat>, entries: seq<Entry>, calls: seq<Call>)

  datatype Op =
    | Attach(deviceId: string)
    | Detach(deviceId: string)
    | SocketCloses(entry: nat)
    | Send(deviceId: string, requestId: string, throws: bool)
    | Response(entry: nat, requestId: string)
    | TimerFires(call: nat)

  predicate Possible(h: Hub, op: Op) {
    match op
    case SocketCloses(entry) => entry < |h.entries|
    case Response(entry, _) => entry < |h.entries|
    case TimerFires(call) => call < |h.calls| && h.calls[call].timerArmed
    case _ => true
  }

  // ---- The invariant -------------------------------------------------------

  predicate IsCurrent(h: Hub, entry: nat) {
    entry < |h.entries| && h.entries[entry].deviceId in h.devices && h.devices[h.entries[entry].deviceId] == entry
  }

  /** A call has an armed timer until it is settled, and is settled at most once. */
  predicate CallValid(c: Call) {
    |c.settled| <= 1 && (c.timerArmed <==> c.settled == [])
  }

  /** An unsettled call of this connection with this id. */
  predicate InFlight(h: Hub, entry: nat, requestId: string, call: nat) {
    call < |h.calls| && h.calls[call].entry == entry && h.calls[call].requestId == requestId &&
      h.calls[call].settled == []
  }

  ghost predicate Valid(h: Hub) {
    && (forall d :: d in h.devices ==> h.devices[d] < |h.entries| && h.entries[h.devices[d]].deviceId == d)
    && (forall c :: 0 <= c < |h.calls| ==> CallValid(h.calls[c]) && h.calls[c].entry < |h.entries|)
    && (forall e :: 0 <= e < |h.entries| ==> EntryValid(h, e))
  }

  ghost predicate EntryValid(h: Hub, e: nat)
    requires e < |h.entries|
  {
    && (forall id :: id in h.entries[e].pending ==> InFlight(h, e, id, h.entries[e].pending[id]))
    && (!IsCurrent(h, e) ==> h.entries[e].pending == map[])
  }

  // ---- What each event does ------------------------------------------------

  function Settle(c: Call, how: Settlement): Call {
    c.(timerArmed := false, settled := c.settled + [how])
  }

  function Without<V>(m: map<string, V>, key: string): map<string, V> {
    map k | k in m && k != key :: m[k]
  }

  /** `rejectAll` of the entry. */
  ghost function RejectAll(h: Hub, entry: nat): (r: Hub)
    requires entry < |h.entries|
    ensures |r.calls| == |h.calls| && |r.entries| == |h.entries|
  {
    var waiting := h.entries[entry].pending.Values;
    h.(entries := h.entries[entry := h.entries[entry].(pending := map[])],
       calls := seq(|h.calls|, i requires 0 <= i < |h.calls| =>
                  if i in waiting then Settle(h.calls[i], Disconnected) else h.calls[i]))
  }

  ghost function DropEntry(h: Hub, deviceId: string): (r: Hub)
    requires Valid(h)
    ensures |r.calls| == |h.calls| && |r.entries| == |h.entries|
  {
    if deviceId !in h.devices then h
    else RejectAll(h.(devices := Without(h.devices, deviceId)), h.devices[deviceId])
  }

  function Unlist(h: Hub, entry: nat, requestId: string): Hub
    requires entry < |h.entries|
  {
    h.(entries := h.entries[entry := h.entries[entry].(pending := Without(h.entries[entry].pending, requestId))])
  }

  ghost function ApplyAttach(h: Hub, deviceId: string): (r: Hub)
    requires Valid(h)
    ensures |r.calls| == |h.calls| && |r.entries| == |h.entries| + 1
  {
    var free := DropEntry(h, deviceId);
    free.(devices := free.devices[deviceId := |free.entries|], entries := free.entries + [Entry(deviceId, map[])])
  }

  ghost function ApplyClose(h: Hub, entry: nat): (r: Hub)
    requires Valid(h) && entry < |h.entries|
    ensures |r.calls| == |h.calls| && |r.entries| == |h.entries|
  {
    var deviceId := h.entries[entry].deviceId;
    if deviceId in h.devices && h.devices[deviceId] == entry then DropEntry(h, deviceId) else h
  }

  ghost function ApplySend(h: Hub, deviceId: string, requestId: string, throws: bool): (r: Hub)
    requires Valid(h)
    ensures |r.calls| >= |h.calls| && |r.entries| == |h.entries|
  {
    if deviceId !in h.devices then h
    else
      var entry := h.devices[deviceId];
      var call := Call(requestId, entry, true, []);
      var pending := h.entries[entry].pending[requestId := |h.calls|];
      var listed := h.(calls := h.calls + [call], entries := h.entries[entry := h.entries[entry].(pending := pending)]);
      if throws then Unlist(listed, entry, requestId).(calls := h.calls + [Settle(call, SendFailed)]) else listed
  }

  ghost function ApplyResponse(h: Hub, entry: nat, requestId: string): (r: Hub)
    requires Valid(h) && entry < |h.entries|
    ensures |r.calls| == |h.calls| && |r.entries| == |h.entries|
  {
    var pending := h.entries[entry].pending;
    if requestId !in pending then h
    else
      assert EntryValid(h, entry);
      assert InFlight(h, entry, requestId, pending[requestId]);
      var call := pending[requestId];
      Unlist(h, entry, requestId).(calls := h.calls[call := Settle(h.calls[call], Answered)])
  }

  ghost function ApplyTimer(h: Hub, call: nat): (r: Hub)
    requires Valid(h) && call < |h.calls|
    ensures |r.calls| == |h.calls| && |r.entries| == |h.entries|
  {
    var c := h.calls[call];
    Unlist(h, c.entry, c.requestId).(calls := h.calls[call := Settle(c, TimedOut)])
  }

  ghost function Apply(h: Hub, op: Op): Hub
    requires Valid(h) && Possible(h, op)
  {
    match op
    case Attach(deviceId) => ApplyAttach(h, deviceId)
    case Detach(deviceId) => DropEntry(h, deviceId)
    case SocketCloses(entry) => ApplyClose(h, entry)
    case Send(deviceId, requestId, throws) => ApplySend(h, deviceId, requestId, throws)
    case Response(entry, requestId) => ApplyResponse(h, entry, requestId)
    case TimerFires(call) => ApplyTimer(h, call)
  }

  const EMPTY := Hub(map[], [], [])

  lemma WaitingIsListed(h: Hub, entry: nat, call: nat)
    requires Valid(h) && entry < |h.entries| && call in h.entries[entry].pending.Values
    ensures call < |h.calls| && h.calls[call].settled == [] && h.calls[call].entry == entry
    ensures h.calls[call].requestId in h.entries[entry].pending &&
            h.entries[entry].pending[h.calls[call].requestId] == call
  {
    var id :| id in h.entries[entry].pending && h.entries[entry].pending[id] == call;
    assert EntryValid(h, entry);
    assert InFlight(h, entry, id, call);
  }

  lemma DropKeepsValid(h: Hub, deviceId: string)
    requires Valid(h)
    ensures Valid(DropEntry(h, deviceId)) && deviceId !in DropEntry(h, deviceId).devices
    ensures |DropEntry(h, deviceId).entries| == |h.entries|
  {
    if deviceId in h.devices {
      var entry := h.devices[deviceId];
      var next := DropEntry(h, deviceId);
      forall c | 0 <= c < |next.calls| ensures CallValid(next.calls[c]) {
        assert CallValid(h.calls[c]);
        if c in h.entries[entry].pending.Values {
          WaitingIsListed(h, entry, c);
        }
      }
      forall e | 0 <= e < |next.entries| ensures EntryValid(next, e) {
        assert EntryValid(h, e);
        forall id | id in next.entries[e].pending ensures InFlight(next, e, id, next.entries[e].pending[id]) {
          var call := h.entries[e].pending[id];
          assert InFlight(h, e, id, call);
          if call in h.entries[entry].pending.Values {
            WaitingIsListed(h, entry, call);
          }
        }
      }
    }
  }

  lemma AttachKeepsValid(h: Hub, deviceId: string)
    requires Valid(h)
    ensures Valid(ApplyAttach(h, deviceId))
  {
    hide DropEntry;
    DropKeepsValid(h, deviceId);
    var free, next := DropEntry(h, deviceId), ApplyAttach(h, deviceId);
    forall e | 0 <= e < |next.entries| ensures EntryValid(next, e) {
      if e < |free.entries| {
        assert EntryValid(free, e);
        forall id | id in next.entries[e].pending ensures InFlight(next, e, id, next.entries[e].pending[id]) {
          assert InFlight(free, e, id, free.entries[e].pending[id]);
        }
      }
    }
  }

  lemma SendKeepsValid(h: Hub, deviceId: string, requestId: string, throws: bool)
    requires Valid(h)
    ensures Valid(ApplySend(h, deviceId, requestId, throws))
  {
    if deviceId in h.devices {
      var next := ApplySend(h, deviceId, requestId, throws);
      forall e | 0 <= e < |next.entries| ensures EntryValid(next, e) {
        assert EntryValid(h, e);
        forall id | id in next.entries[e].pending ensures InFlight(next, e, id, next.entries[e].pending[id]) {
          if id in h.entries[e].pending {
            assert InFlight(h, e, id, h.entries[e].pending[id]);
          }
        }
      }
    }
  }

  /** Taking a request id out of its entry and settling one call that stood there, or nowhere, keeps the rest. */
  lemma SettleKeepsValid(h: Hub, call: nat, how: Settlement)
    requires Valid(h) && call < |h.calls| && h.calls[call].settled == [] && h.calls[call].entry < |h.entries|
    ensures var c := h.calls[call];
            Valid(Unlist(h, c.entry, c.requestId).(calls := h.calls[call := Settle(c, how)]))
  {
    var c := h.calls[call];
    var next := Unlist(h, c.entry, c.requestId).(calls := h.calls[call := Settle(c, how)]);
    forall e | 0 <= e < |next.entries| ensures EntryValid(next, e) {
      assert EntryValid(h, e);
      forall id | id in next.entries[e].pending ensures InFlight(next, e, id, next.entries[e].pending[id]) {
        assert InFlight(h, e, id, h.entries[e].pending[id]);
      }
    }
  }

  lemma ApplyKeepsValid(h: Hub, op: Op)
    requires Valid(h) && Possible(h, op)
    ensures Valid(Apply(h, op))
  {
    hide Valid, RejectAll, Unlist;
    match op
    case Attach(deviceId) => AttachKeepsValid(h, deviceId);
    case Detach(deviceId) => DropKeepsValid(h, deviceId);
    case SocketCloses(entry) => DropKeepsValid(h, h.entries[entry].deviceId);
    case Send(deviceId, requestId, throws) => SendKeepsValid(h, deviceId, requestId, throws);
    case Response(entry, requestId) => ResponseKeepsValid(h, entry, requestId);
    case TimerFires(call) => TimerKeepsValid(h, call);
  }

  lemma ResponseKeepsValid(h: Hub, entry: nat, requestId: string)
    requires Valid(h) && entry < |h.entries|
    ensures Valid(ApplyResponse(h, entry, requestId))
  {
    var pending := h.entries[entry].pending;
    if requestId in pending {
      assert EntryValid(h, entry);
      assert InFlight(h, entry, requestId, pending[requestId]);
      SettleKeepsValid(h, pending[requestId], Answered);
    }
  }

  lemma TimerKeepsValid(h: Hub, call: nat)
    requires Valid(h) && call < |h.calls| && h.calls[call].timerArmed
    ensures Valid(ApplyTimer(h, call))
  {
    assert CallValid(h.calls[call]);
    SettleKeepsValid(h, call, TimedOut);
  }

  // ---- Runs ----------------------------------------------------------------

  ghost predicate AllPossible(h: Hub, ops: seq<Op>)
    requires Valid(h)
    decreases |ops|
  {
    ops == [] ||
    (Possible(h, ops[0]) && (ApplyKeepsValid(h, ops[0]); AllPossible(Apply(h, ops[0]), ops[1..])))
  }

  ghost function Run(h: Hub, ops: seq<Op>): Hub
    requires Valid(h) && AllPossible(h, ops)
    decreases |ops|
  {
    if ops == [] then h else ApplyKeepsValid(h, ops[0]); Run(Apply(h, ops[0]), ops[1..])
  }

  /** Over every sequence of events, even with reused ids: a call is settled at most once, an unsettled one has an armed
      timer, pending maps hold unsettled calls only, and a connection that was replaced or closed has none pending. */
  lemma {:induction false} RpcSettlement(h: Hub, ops: seq<Op>)
    requires Valid(h) && AllPossible(h, ops)
    ensures Valid(Run(h, ops))
    decreases |ops|
  {
    hide Valid, Apply;
    if ops != [] {
      ApplyKeepsValid(h, ops[0]);
      RpcSettlement(Apply(h, ops[0]), ops[1..]);
    }
  }

  /** What one event may do to a settled call and to a connection that is no longer current: nothing. */
  lemma StepIsFinal(h: Hub, op: Op)
    requires Valid(h) && Possible(h, op)
    ensures |Apply(h, op).calls| >= |h.calls| && |Apply(h, op).entries| >= |h.entries|
    ensures forall c :: 0 <= c < |h.calls| && h.calls[c].settled != [] ==> Apply(h, op).calls[c] == h.calls[c]
    ensures forall e :: 0 <= e < |h.entries| && !IsCurrent(h, e) ==> !IsCurrent(Apply(h, op), e)
  {
    forall c | 0 <= c < |h.calls| && h.calls[c].settled != [] ensures Apply(h, op).calls[c] == h.calls[c] {
      assert CallValid(h.calls[c]);
      forall e | 0 <= e < |h.entries| && c in h.entries[e].pending.Values ensures false {
        WaitingIsListed(h, e, c);
      }
      if op.Response? && op.requestId in h.entries[op.entry].pending {
        assert h.entries[op.entry].pending[op.requestId] in h.entries[op.entry].pending.Values;
      }
    }
  }

  /** A settled call keeps its one settlement for ever. */
  lemma {:induction false} SettledForGood(h: Hub, ops: seq<Op>, call: nat)
    requires Valid(h) && AllPossible(h, ops)
    requires call < |h.calls| && h.calls[call].settled != []
    ensures call < |Run(h, ops).calls| && Run(h, ops).calls[call] == h.calls[call]
    decreases |ops|
  {
    if ops != [] {
      hide Valid, Apply;
      ApplyKeepsValid(h, ops[0]);
      StepIsFinal(h, ops[0]);
      SettledForGood(Apply(h, ops[0]), ops[1..], call);
    }
  }

  /** A connection that was replaced or closed stays out of use, with nothing pending, for ever. */
  lemma {:induction false} ReplacedForGood(h: Hub, ops: seq<Op>, entry: nat)
    requires Valid(h) && AllPossible(h, ops)
    requires entry < |h.entries| && !IsCurrent(h, entry)
    ensures var end := Run(h, ops);
            entry < |end.entries| && !IsCurrent(end, entry) && end.entries[entry].pending == map[]
    decreases |ops|
  {
    if ops == [] {
      assert EntryValid(h, entry);
    } else {
      hide Valid, Apply, EntryValid;
      ApplyKeepsValid(h, ops[0]);
      StepIsFinal(h, ops[0]);
      ReplacedForGood(Apply(h, ops[0]), ops[1..], entry);
    }
  }

  // ---- Distinct ids --------------------------------------------------------

  /** An unsettled call that its connection does not list: no response and no disconnect can reach it. */
  predicate Orphan(h: Hub, call: nat) {
    && call < |h.calls|
    && h.calls[call].settled == []
    && h.calls[call].entry < |h.entries|
    && !(h.calls[call].requestId in h.entries[h.calls[call].entry].pending &&
         h.entries[h.calls[call].entry].pending[h.calls[call].requestId] == call)
  }

  ghost predicate NoOrphans(h: Hub) {
    forall c :: 0 <= c < |h.calls| ==> !Orphan(h, c)
  }

  /** Whether a send uses an id that is still in flight on its connection. */
  ghost predicate ReusesId(h: Hub, op: Op) {
    op.Send? && op.deviceId in h.devices && exists c :: InFlight(h, h.devices[op.deviceId], op.requestId, c)
  }

  lemma DropLeavesNoOrphans(h: Hub, deviceId: string)
    requires Valid(h) && NoOrphans(h)
    ensures NoOrphans(DropEntry(h, deviceId))
  {
    if deviceId in h.devices {
      var entry, next := h.devices[deviceId], DropEntry(h, deviceId);
      forall c | 0 <= c < |next.calls| ensures !Orphan(next, c) {
        assert !Orphan(h, c);
        if h.calls[c].settled == [] && h.calls[c].entry == entry {
          assert c in h.entries[entry].pending.Values;
        }
      }
    }
  }

  lemma SettleLeavesNoOrphans(h: Hub, call: nat, how: Settlement)
    requires Valid(h) && NoOrphans(h) && call < |h.calls| && h.calls[call].settled == []
    ensures var c := h.calls[call];
            NoOrphans(Unlist(h, c.entry, c.requestId).(calls := h.calls[call := Settle(c, how)]))
  {
    var c := h.calls[call];
    var next := Unlist(h, c.entry, c.requestId).(calls := h.calls[call := Settle(c, how)]);
    assert !Orphan(h, call);
    forall other | 0 <= other < |next.calls| ensures !Orphan(next, other) {
      assert !Orphan(h, other);
    }
  }

  /** Without orphans, a send leaves none exactly when its id is not in flight on the connection. */
  lemma SendOrphansOnReuse(h: Hub, deviceId: string, requestId: string, throws: bool)
    requires Valid(h) && NoOrphans(h)
    ensures NoOrphans(ApplySend(h, deviceId, requestId, throws)) <==> !ReusesId(h, Send(deviceId, requestId, throws))
  {
    if deviceId in h.devices {
      var entry, next := h.devices[deviceId], ApplySend(h, deviceId, requestId, throws);
      if c: nat :| InFlight(h, entry, requestId, c) {
        assert next.calls[c] == h.calls[c];
        assert Orphan(next, c);
      } else {
        forall c | 0 <= c < |next.calls| ensures !Orphan(next, c) {
          if c < |h.calls| {
            assert !Orphan(h, c);
            assert !InFlight(h, entry, requestId, c);
          }
        }
      }
    }
  }

  lemma ApplyLeavesNoOrphans(h: Hub, op: Op)
    requires Valid(h) && Possible(h, op) && NoOrphans(h)
    ensures NoOrphans(Apply(h, op)) <==> !ReusesId(h, op)
  {
    match op
    case Attach(deviceId) =>
      DropLeavesNoOrphans(h, deviceId);
      AttachAddsNoOrphan(h, deviceId);
    case Detach(deviceId) => DropLeavesNoOrphans(h, deviceId);
    case SocketCloses(entry) => DropLeavesNoOrphans(h, h.entries[entry].deviceId);
    case Send(deviceId, requestId, throws) => SendOrphansOnReuse(h, deviceId, requestId, throws);
    case Response(entry, requestId) =>
      if requestId in h.entries[entry].pending {
        assert EntryValid(h, entry);
        assert InFlight(h, entry, requestId, h.entries[entry].pending[requestId]);
        SettleLeavesNoOrphans(h, h.entries[entry].pending[requestId], Answered);
      }
    case TimerFires(call) =>
      assert CallValid(h.calls[call]);
      SettleLeavesNoOrphans(h, call, TimedOut);
  }

  lemma AttachAddsNoOrphan(h: Hub, deviceId: string)
    requires Valid(h) && NoOrphans(DropEntry(h, deviceId))
    ensures NoOrphans(ApplyAttach(h, deviceId))
  {
    hide DropEntry;
    var free, next := DropEntry(h, deviceId), ApplyAttach(h, deviceId);
    DropKeepsValid(h, deviceId);
    forall c | 0 <= c < |next.calls| ensures !Orphan(next, c) {
      assert !Orphan(free, c);
    }
  }

  ghost predicate NeverReuses(h: Hub, ops: seq<Op>)
    requires Valid(h) && AllPossible(h, ops)
    decreases |ops|
  {
    ops == [] ||
    (!ReusesId(h, ops[0]) && (ApplyKeepsValid(h, ops[0]); NeverReuses(Apply(h, ops[0]), ops[1..])))
  }

  /** At no moment of the run is there an orphan. */
  ghost predicate NeverOrphans(h: Hub, ops: seq<Op>)
    requires Valid(h) && AllPossible(h, ops)
    decreases |ops|
  {
    NoOrphans(h) &&
    (ops == [] || (ApplyKeepsValid(h, ops[0]); NeverOrphans(Apply(h, ops[0]), ops[1..])))
  }

  /** Every unsettled call stays reachable throughout a run if and only if no send reuses an id that is in flight. */
  lemma {:induction false} DistinctIdsListEveryCall(h: Hub, ops: seq<Op>)
    requires Valid(h) && NoOrphans(h) && AllPossible(h, ops)
    ensures NeverOrphans(h, ops) <==> NeverReuses(h, ops)
    decreases |ops|
  {
    hide Valid, NoOrphans, Apply, ReusesId;
    if ops != [] {
      ApplyKeepsValid(h, ops[0]);
      ApplyLeavesNoOrphans(h, ops[0]);
      if NoOrphans(Apply(h, ops[0])) {
        DistinctIdsListEveryCall(Apply(h, ops[0]), ops[1..]);
      }
    }
  }

  /** With distinct ids in flight, a response settles exactly the call that carried its id, and touches no other. */
  lemma ResponseSettlesItsCall(h: Hub, entry: nat, requestId: string, call: nat)
    requires Valid(h) && NoOrphans(h) && entry < |h.entries| && call < |h.calls|
    ensures ApplyResponse(h, entry, requestId).calls[call] ==
            if InFlight(h, entry, requestId, call) then Settle(h.calls[call], Answered) else h.calls[call]
  {
    assert !Orphan(h, call);
    assert EntryValid(h, entry);
    if requestId in h.entries[entry].pending {
      assert InFlight(h, entry, requestId, h.entries[entry].pending[requestId]);
    }
  }

  /** A call orphaned by a reused id stays so, and nothing but its own timer settles it. */
  lemma OrphanOnlyTimesOut(h: Hub, op: Op, call: nat)
    requires Valid(h) && Possible(h, op) && Orphan(h, call)
    ensures if op == TimerFires(call) then Apply(h, op).calls[call] == Settle(h.calls[call], TimedOut)
            else Apply(h, op).calls[call] == h.calls[call] && Orphan(Apply(h, op), call)
  {
    var c := h.calls[call];
    forall e | 0 <= e < |h.entries| && call in h.entries[e].pending.Values ensures false {
      WaitingIsListed(h, e, call);
    }
    if op.Response? && op.requestId in h.entries[op.entry].pending {
      assert h.entries[op.entry].pending[op.requestId] in h.entries[op.entry].pending.Values;
    }
  }

  /** The timer of an orphan takes the younger call with its id out of the pending map: that one is orphaned too. */
  lemma OrphanTimerOrphansTheYounger(h: Hub, call: nat, younger: nat)
    requires Valid(h) && Orphan(h, call)
    requires younger < |h.calls| && !Orphan(h, younger)
    requires InFlight(h, h.calls[call].entry, h.calls[call].requestId, younger)
    ensures Orphan(ApplyTimer(h, call), younger)
  {
  }
}
