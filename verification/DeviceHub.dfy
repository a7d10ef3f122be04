/** The hub of `ws/deviceHub.ts` in its own form: maps changed by calls, listeners and timers. */
module DeviceHub {
  import opened Basics
  import opened RpcHub

  class Hub {
    var devices: map<string, nat>
    var entries: seq<Entry>
    var calls: seq<Call>

    ghost function State(): RpcHub.Hub
      reads this
    {
      RpcHub.Hub(devices, entries, calls)
    }

    ghost predicate IsValid()
      reads this
    {
      Valid(State())
    }

    constructor ()
      ensures State() == EMPTY && IsValid()
    {
      devices, entries, calls := map[], [], [];
    }

    /** Clears the timers and rejects the promises of everything pending on a connection. */
    method RejectPending(entry: nat)
      requires entry < |entries|
      requires forall id :: id in entries[entry].pending ==> entries[entry].pending[id] < |calls|
      requires forall id, other :: id in entries[entry].pending && other in entries[entry].pending && id != other ==>
                 entries[entry].pending[id] != entries[entry].pending[other]
      modifies this`entries, this`calls
      ensures State() == RejectAll(old(State()), entry)
    {
      ghost var waiting := entries[entry].pending.Values;
      while entries[entry].pending != map[]
        invariant entry < |entries| && |entries| == |old(entries)| && |calls| == |old(calls)|
        invariant entries == old(entries)[entry := old(entries)[entry].(pending := entries[entry].pending)]
        invariant forall id :: id in entries[entry].pending ==>
                    id in old(entries)[entry].pending && entries[entry].pending[id] == old(entries)[entry].pending[id]
        invariant forall c :: 0 <= c < |calls| ==>
                    calls[c] == if c in waiting && c !in entries[entry].pending.Values
                                then Settle(old(calls)[c], Disconnected) else old(calls)[c]
        decreases entries[entry].pending.Keys
      {
        var pending := entries[entry].pending;
        var id :| id in pending;
        var call := pending[id];
        assert call in pending.Values && call in waiting;
        calls := calls[call := Settle(calls[call], Disconnected)];
        entries := entries[entry := entries[entry].(pending := Without(pending, id))];
        assert entries[entry].pending.Keys == pending.Keys - {id};
        forall c | 0 <= c < |calls|
          ensures c in entries[entry].pending.Values <==> c in pending.Values && c != call
        {
          if c in pending.Values && c != call {
            var other :| other in pending && pending[other] == c;
            assert other in entries[entry].pending;
          }
          if c in entries[entry].pending.Values {
            var other :| other in entries[entry].pending && entries[entry].pending[other] == c;
            assert other in pending && other != id;
          }
        }
      }
      assert calls == RejectAll(old(State()), entry).calls;
      assert entries == RejectAll(old(State()), entry).entries;
    }

    method DetachDevice(deviceId: string)
      requires IsValid()
      modifies this
      ensures IsValid() && State() == Apply(old(State()), Detach(deviceId))
    {
      ApplyKeepsValid(State(), Detach(deviceId));
      if deviceId in devices {
        var entry := devices[deviceId];
        PendingCallsDiffer(State(), entry);
        devices := Without(devices, deviceId);
        RejectPending(entry);
      }
    }

    method AttachDevice(deviceId: string)
      requires IsValid()
      modifies this
      ensures IsValid() && State() == Apply(old(State()), Attach(deviceId))
    {
      hide Valid, RejectAll, Without;
      ApplyKeepsValid(State(), Attach(deviceId));
      if deviceId in devices {
        DetachDevice(deviceId);
      }
      entries := entries + [Entry(deviceId, map[])];
      devices := devices[deviceId := |entries| - 1];
    }

    method OnClose(entry: nat)
      requires IsValid() && entry < |entries|
      modifies this
      ensures IsValid() && State() == Apply(old(State()), SocketCloses(entry))
    {
      ApplyKeepsValid(State(), SocketCloses(entry));
      var deviceId := entries[entry].deviceId;
      if deviceId in devices && devices[deviceId] == entry {
        PendingCallsDiffer(State(), entry);
        devices := Without(devices, deviceId);
        RejectPending(entry);
      }
    }

    /** `sent` is the number of the call, or none when the device is offline and the answer is immediate. */
    method SendRpc(deviceId: string, requestId: string, throws: bool) returns (sent: Option<nat>)
      requires IsValid()
      modifies this
      ensures IsValid() && State() == Apply(old(State()), Send(deviceId, requestId, throws))
      ensures sent == if deviceId in devices then Some(|old(calls)|) else None
    {
      ApplyKeepsValid(State(), Send(deviceId, requestId, throws));
      if deviceId !in devices {
        return None;
      }
      var entry, call := devices[deviceId], |calls|;
      calls := calls + [Call(requestId, entry, true, [])];
      entries := entries[entry := entries[entry].(pending := entries[entry].pending[requestId := call])];
      if throws {
        entries := entries[entry := entries[entry].(pending := Without(entries[entry].pending, requestId))];
        calls := calls[call := Settle(calls[call], SendFailed)];
        assert calls == old(calls) + [Settle(Call(requestId, entry, true, []), SendFailed)];
      }
      assert State() == Apply(old(State()), Send(deviceId, requestId, throws));
      return Some(call);
    }

    method OnResponse(entry: nat, requestId: string)
      requires IsValid() && entry < |entries|
      modifies this
      ensures IsValid() && State() == Apply(old(State()), Response(entry, requestId))
    {
      ApplyKeepsValid(State(), Response(entry, requestId));
      if requestId in entries[entry].pending {
        var call := entries[entry].pending[requestId];
        assert EntryValid(State(), entry);
        assert InFlight(State(), entry, requestId, call);
        entries := entries[entry := entries[entry].(pending := Without(entries[entry].pending, requestId))];
        calls := calls[call := Settle(calls[call], Answered)];
      }
    }

    method OnTimer(call: nat)
      requires IsValid() && call < |calls| && calls[call].timerArmed
      modifies this
      ensures IsValid() && State() == Apply(old(State()), TimerFires(call))
    {
      ApplyKeepsValid(State(), TimerFires(call));
      var entry, requestId := calls[call].entry, calls[call].requestId;
      entries := entries[entry := entries[entry].(pending := Without(entries[entry].pending, requestId))];
      calls := calls[call := Settle(calls[call], TimedOut)];
    }
  }

  /** Two request ids never stand for one call. */
  lemma PendingCallsDiffer(h: RpcHub.Hub, entry: nat)
    requires Valid(h) && entry < |h.entries|
    ensures var pending := h.entries[entry].pending;
            && (forall id :: id in pending ==> pending[id] < |h.calls|)
            && (forall id, other :: id in pending && other in pending && id != other ==> pending[id] != pending[other])
  {
    var pending := h.entries[entry].pending;
    assert EntryValid(h, entry);
    forall id, other | id in pending && other in pending && id != other ensures pending[id] != pending[other] {
      assert InFlight(h, entry, id, pending[id]) && InFlight(h, entry, other, pending[other]);
    }
  }
}
