/** The client-side tractor-target queue of `EntityNetworkAdapter`: the server broadcasts
    the new target with `UpdateTractorClientRpc`; each tick `HandleQueuedTractor` applies
    it once the target's husk exists locally, or drops it once the target is gone. */
module TractorQueues {
  import opened Wrappers
  import opened NetworkModes

  /** The fields `tractorID` and `queuedTractor`. */
  datatype TractorQueue = TractorQueue(tractorID: Option<nat>, queued: bool)

  /** What the spawn registry (`SpawnManager.SpawnedObjects`) holds under an id: whether the
      network object is still alive, has an `EntityNetworkAdapter`, and that adapter a husk. */
  datatype SpawnedObject = SpawnedObject(alive: bool, hasAdapter: bool, huskPresent: bool)

  predicate HasHusk(o: SpawnedObject)
  {
    o.alive && o.hasAdapter && o.huskPresent
  }

  /** The pair `SetTractorID` sends: `(ID.HasValue ? ID.Value : 0, !ID.HasValue)`. */
  function EncodeTarget(id: Option<nat>): (nat, bool)
  {
    if id.Some? then (id.value, false) else (0, true)
  }

  /** The target `UpdateTractorClientRpc` stores for a received pair. */
  function DecodeTarget(id: nat, setNull: bool): Option<nat>
  {
    if setNull then None else Some(id)
  }

  /** The client stores exactly the target the server set. */
  lemma TargetRoundTrip(id: Option<nat>)
    ensures DecodeTarget(EncodeTarget(id).0, EncodeTarget(id).1) == id
  {
  }

  /** `UpdateTractorClientRpc(id, setNull)` on the queue. */
  function Receive(q: TractorQueue, mode: NetworkMode, id: nat, setNull: bool): (r: TractorQueue)
    ensures mode != Client ==> r == q
    ensures mode == Client ==> r.queued && r.tractorID == DecodeTarget(id, setNull)
  {
    if mode != Client then q else TractorQueue(DecodeTarget(id, setNull), true)
  }

  /** The queue after one `HandleQueuedTractor`, and the target it applied (with
      `SetTractorTarget`), if it applied one. */
  datatype Resolution = Resolution(queue: TractorQueue, applied: Option<Option<nat>>)

  predicate Active(q: TractorQueue, mode: NetworkMode, huskIsShellCore: bool)
  {
    q.queued && huskIsShellCore && mode == Client
  }

  /** `HandleQueuedTractor` on the queue. */
  function Resolve(q: TractorQueue, mode: NetworkMode, huskIsShellCore: bool,
                   registry: map<nat, SpawnedObject>): (r: Resolution)
    ensures !Active(q, mode, huskIsShellCore) ==> r == Resolution(q, None)
    ensures Active(q, mode, huskIsShellCore) && q.tractorID.Some? && q.tractorID.value !in registry ==>
              r == Resolution(TractorQueue(None, false), None)
    ensures (Active(q, mode, huskIsShellCore) && q.tractorID.Some? && q.tractorID.value in registry
             && !HasHusk(registry[q.tractorID.value])) ==> r == Resolution(q, None)
    ensures (Active(q, mode, huskIsShellCore) && (q.tractorID.None? || (q.tractorID.value in registry
             && HasHusk(registry[q.tractorID.value])))) ==>
              r == Resolution(q.(queued := false), Some(q.tractorID))
  {
    if !Active(q, mode, huskIsShellCore) then Resolution(q, None)
    else if q.tractorID.Some? && q.tractorID.value !in registry then Resolution(TractorQueue(None, false), None)
    else if q.tractorID.Some? && !HasHusk(registry[q.tractorID.value]) then Resolution(q, None)
    else Resolution(q.(queued := false), Some(q.tractorID))
  }

  /** What a client sees over time: broadcasts from the server and its own ticks. */
  datatype Event =
    | Broadcast(id: nat, setNull: bool)
    | Tick(registry: map<nat, SpawnedObject>, huskIsShellCore: bool)

  /** The queue after a run of events and the targets applied along the way, in order. */
  datatype Trace = Trace(queue: TractorQueue, applied: seq<Option<nat>>)

  function Run(q: TractorQueue, mode: NetworkMode, events: seq<Event>): Trace
    decreases |events|
  {
    if |events| == 0 then Trace(q, [])
    else
      match events[0]
      case Broadcast(id, setNull) => Run(Receive(q, mode, id, setNull), mode, events[1..])
      case Tick(registry, shell) =>
        var r := Resolve(q, mode, shell, registry);
        var rest := Run(r.queue, mode, events[1..]);
        Trace(rest.queue, (if r.applied.Some? then [r.applied.value] else []) + rest.applied)
  }

  lemma {:induction false} RunAppend(q: TractorQueue, mode: NetworkMode, a: seq<Event>, b: seq<Event>)
    ensures Run(q, mode, a + b).queue == Run(Run(q, mode, a).queue, mode, b).queue
    ensures Run(q, mode, a + b).applied == Run(q, mode, a).applied + Run(Run(q, mode, a).queue, mode, b).applied
    decreases |a|
  {
    if |a| == 0 {
      assert a + b == b;
    } else {
      assert (a + b)[0] == a[0] && (a + b)[1..] == a[1..] + b;
      match a[0]
      case Broadcast(id, setNull) => RunAppend(Receive(q, mode, id, setNull), mode, a[1..], b);
      case Tick(registry, shell) =>
        var r := Resolve(q, mode, shell, registry);
        RunAppend(r.queue, mode, a[1..], b);
        var now: seq<Option<nat>> := if r.applied.Some? then [r.applied.value] else [];
        var first := Run(r.queue, mode, a[1..]);
        assert now + (first.applied + Run(first.queue, mode, b).applied)
            == (now + first.applied) + Run(first.queue, mode, b).applied;
    }
  }

  predicate OnlyTicks(events: seq<Event>)
  {
    forall k :: 0 <= k < |events| ==> events[k].Tick?
  }

  /** Ticks with nothing queued apply nothing. */
  lemma {:induction false} IdleTicks(q: TractorQueue, mode: NetworkMode, ticks: seq<Event>)
    requires OnlyTicks(ticks) && !q.queued
    ensures Run(q, mode, ticks) == Trace(q, [])
    decreases |ticks|
  {
    if |ticks| > 0 {
      IdleTicks(q, mode, ticks[1..]);
    }
  }

  /** Between broadcasts, the queued target is applied at most once and nothing else is. */
  lemma {:induction false} TicksApplyQueuedOnce(q: TractorQueue, mode: NetworkMode, ticks: seq<Event>)
    requires OnlyTicks(ticks)
    ensures Run(q, mode, ticks).applied == [] || (q.queued && Run(q, mode, ticks).applied == [q.tractorID])
    decreases |ticks|
  {
    if |ticks| > 0 {
      var r := Resolve(q, mode, ticks[0].huskIsShellCore, ticks[0].registry);
      if r.applied.Some? {
        IdleTicks(r.queue, mode, ticks[1..]);
      } else if r.queue == q {
        TicksApplyQueuedOnce(q, mode, ticks[1..]);
      } else {
        IdleTicks(r.queue, mode, ticks[1..]);
      }
    }
  }

  /** On a client, after the last broadcast only the target it named can ever be applied,
      and at most once: an earlier, still unresolved broadcast is overwritten and never
      applied. */
  lemma LatestBroadcastWins(q: TractorQueue, before: seq<Event>, id: nat, setNull: bool, after: seq<Event>)
    requires OnlyTicks(after)
    ensures var applied := Run(q, Client, before + [Broadcast(id, setNull)] + after).applied;
            var earlier := Run(q, Client, before).applied;
            applied == earlier || applied == earlier + [DecodeTarget(id, setNull)]
  {
    var q1 := Run(q, Client, before).queue;
    RunAppend(q, Client, before + [Broadcast(id, setNull)], after);
    RunAppend(q, Client, before, [Broadcast(id, setNull)]);
    assert Run(q1, Client, [Broadcast(id, setNull)]) == Trace(Receive(q1, Client, id, setNull), []);
    TicksApplyQueuedOnce(Receive(q1, Client, id, setNull), Client, after);
  }

  /** Server and host adapters never queue or apply a broadcast target. */
  lemma {:induction false} ServerNeverApplies(q: TractorQueue, mode: NetworkMode, events: seq<Event>)
    requires mode != Client
    ensures Run(q, mode, events) == Trace(q, [])
    decreases |events|
  {
    if |events| > 0 {
      ServerNeverApplies(q, mode, events[1..]);
    }
  }
}
