/**
 The HTTP face of the race server: `getAll`, `getById` and `launch` hand
 the service's answers back unchanged, so they are the service's own
 functions here. What the controller adds is the live stream: it checks
 the id, registers a forwarding listener, pushes a snapshot of the drone
 as the first message, and on teardown removes the listener.

 A subscriber is a bus token; what the stream sends it is the token's
 `received` log. `Forwarding` is the stream's promise: the snapshot,
 then every event published for the drone since the subscription, in
 order and unchanged.
 */
module Controller {
  import opened Common
  import opened Registry
  import opened Legs
  import opened EventBus
  import opened Simulation
  import opened Race

  /** The first message of a stream: the drone's current state as an event. */
  function Snapshot(d: Drone): (e: DroneEvent)
    ensures e.stop == d.currentStop
    ensures e.finished <==> d.status == Finished
    ensures e.etaToNextMs.None?
    ensures e.startedAt == d.startedAt && e.finishedAt == d.finishedAt
  {
    DroneEvent(d.currentStop, d.status == Finished, None, d.startedAt, d.finishedAt)
  }

  /**
   Token `t` listens to `id` and has received `first` followed by every
   event published for `id` from position `mark` on.
   */
  predicate Forwarding(b: Bus, t: Token, id: string, first: DroneEvent, mark: nat) {
    && Listening(b, t, id)
    && t in b.received
    && id in b.published
    && mark <= |b.published[id]|
    && b.received[t] == [first] + b.published[id][mark..]
  }

  /**
   `stream(id)`. An unknown id fails with `NotFound` and leaves nothing
   behind. Otherwise the listener is registered first and the snapshot is
   then pushed to it, so the snapshot is its first message and every
   later event follows it. Nothing but the bus changes.
   */
  function Stream(s: Service, id: string): (r: Result<(Service, Token)>)
    requires Shape(s)
    ensures r.Failure? <==> id !in CatalogIds
    ensures r.Failure? ==> r.error == NotFound(id)
    ensures r.Success? ==> Find(s.drones, id).Some?
    ensures r.Success? ==>
      var (s', t) := r.value;
      && Shape(s')
      && s'.drones == s.drones && s'.timers == s.timers
      && s'.bus.published == s.bus.published
      && t !in s.bus.received
      && Forwarding(s'.bus, t, id, Snapshot(s.drones[Find(s.drones, id).value]), |s.bus.published[id]|)
  {
    FindInShape(s, id);
    match Find(s.drones, id)
    case None => Failure(NotFound(id))
    case Some(i) =>
      CatalogKeys();
      var (b1, t) := On(s.bus, id).value;
      var b2 := Deliver(b1, t, Snapshot(s.drones[i]));
      Subscribe(s.bus, id, Snapshot(s.drones[i]));
      Success((s.(bus := b2), t))
  }

  /** Registering and then pushing `first` makes a forwarding subscription from the current end of the log. */
  lemma Subscribe(b: Bus, id: string, first: DroneEvent)
    requires Valid(b) && id in b.published
    ensures On(b, id).Success?
    ensures
      var (b1, t) := On(b, id).value;
      var b2 := Deliver(b1, t, first);
      && Valid(b2)
      && b2.published == b.published
      && t !in b.received
      && Forwarding(b2, t, id, first, |b.published[id]|)
  {
    assert b.published[id][|b.published[id]|..] == [];
  }

  /** The unsubscribe handle run when the client goes away. */
  function Teardown(s: Service, t: Token): (s': Service)
    requires Shape(s)
    ensures Shape(s')
    ensures s'.drones == s.drones && s'.timers == s.timers
    ensures forall id :: !Listening(s'.bus, t, id)
  {
    s.(bus := Off(s.bus, t))
  }

  // ---------- the snapshot against the event log ----------

  /**
   The snapshot tells a late subscriber what the last published event
   told the early ones: a finished drone's snapshot is that terminal
   event; a running drone's has its stop and is not finished; an idle
   drone has published nothing and its snapshot is stop 1 with no
   timestamps.
   */
  lemma SnapshotAgreesWithLog(s: Service, i: nat)
    requires Inv(s) && i < |s.drones|
    ensures
      var d := s.drones[i];
      var log := s.bus.published[d.id];
      var e := Snapshot(d);
      && (d.status == Finished ==> log != [] && e == Last(log))
      && (d.status == Running ==> log != [] && e.stop == Last(log).stop && e.finished == Last(log).finished)
      && (d.status == Idle ==> log == [] && e == DroneEvent(FirstStop, false, None, None, None))
  {
    CatalogFacts();
    assert s.drones[i].id == CatalogIds[i];
    assert DroneInv(s.drones[i], s.timers[i], s.bus.published[CatalogIds[i]]);
  }

  // ---------- forwarding is kept by every step ----------

  /** An emit for the drone extends the subscriber's messages by that event; others leave them alone. */
  lemma EmitKeepsForwarding(b: Bus, t: Token, id: string, first: DroneEvent, mark: nat, id2: string, e: DroneEvent)
    requires Valid(b) && Forwarding(b, t, id, first, mark)
    ensures Forwarding(Emit(b, id2, e), t, id, first, mark)
    ensures id2 == id ==> Emit(b, id2, e).received[t] == b.received[t] + [e]
  {
    if id2 == id {
      var log := b.published[id];
      assert (log + [e])[mark..] == log[mark..] + [e];
    }
  }

  /** A new subscription, to any drone, leaves an existing one as it was. */
  lemma StreamKeepsForwarding(s: Service, id2: string, t: Token, id: string, first: DroneEvent, mark: nat)
    requires Shape(s) && Forwarding(s.bus, t, id, first, mark)
    ensures Stream(s, id2).Success? ==> Forwarding(Stream(s, id2).value.0.bus, t, id, first, mark)
  {
  }

  /** Tearing down one subscription leaves every other one as it was. */
  lemma TeardownKeepsOthers(s: Service, u: Token, t: Token, id: string, first: DroneEvent, mark: nat)
    requires Shape(s) && u != t && Forwarding(s.bus, t, id, first, mark)
    ensures Forwarding(Teardown(s, u).bus, t, id, first, mark)
  {
  }

  /** A launch keeps every subscription forwarding; its start event reaches the drone's subscribers. */
  lemma LaunchKeepsForwarding(s: Service, id2: string, now: int, draw: Draw, t: Token, id: string, first: DroneEvent, mark: nat)
    requires Shape(s) && ValidDraw(draw) && Forwarding(s.bus, t, id, first, mark)
    ensures Launch(s, id2, now, draw).Success? ==> Forwarding(Launch(s, id2, now, draw).value.0.bus, t, id, first, mark)
  {
    FindInShape(s, id2);
    CatalogFacts();
    if id2 in CatalogIds {
      var i := Find(s.drones, id2).value;
      var d := s.drones[i];
      if d.status == Running {
        assert Launch(s, id2, now, draw) == Success((s, d));
      } else {
        DrawnLegs(draw);
        var legs := Partition(RandomInt(MinTotalMs, MaxTotalMs, draw.offset), draw.weights);
        assert Launch(s, id2, now, draw) == Success(Relaunch(s, i, now, draw));
        assert Relaunch(s, i, now, draw).0.bus == Emit(s.bus, id2, StartEvent(legs, now));
        EmitKeepsForwarding(s.bus, t, id, first, mark, id2, StartEvent(legs, now));
      }
    }
  }

  /** A timer firing keeps every subscription forwarding. */
  lemma FireKeepsForwarding(s: Service, i: nat, now: int, t: Token, id: string, first: DroneEvent, mark: nat)
    requires Shape(s) && i < |s.drones| && Forwarding(s.bus, t, id, first, mark)
    ensures Forwarding(Fire(s, i, now).bus, t, id, first, mark)
  {
    match s.timers[i]
    case None =>
    case Some(tm) =>
      var d := s.drones[i];
      if tm.run.nextStop > LastStop {
        assert Fire(s, i, now) == Finish(s, i, now);
        EmitKeepsForwarding(s.bus, t, id, first, mark, d.id, DroneEvent(LastStop, true, None, d.startedAt, Some(now)));
      } else {
        assert Fire(s, i, now) == Advance(s, i, tm);
        EmitKeepsForwarding(s.bus, t, id, first, mark, d.id, DroneEvent(tm.run.nextStop, false, Some(NextTimer(tm).delay), None, None));
      }
  }

  /** Any number of firings keeps every subscription forwarding. */
  lemma {:induction false} FireNKeepsForwarding(s: Service, i: nat, nows: seq<int>, t: Token, id: string, first: DroneEvent, mark: nat)
    requires Shape(s) && i < |s.drones| && Forwarding(s.bus, t, id, first, mark)
    ensures Forwarding(FireN(s, i, nows).bus, t, id, first, mark)
    decreases |nows|
  {
    if nows != [] {
      FireKeepsForwarding(s, i, nows[0], t, id, first, mark);
      FireNKeepsForwarding(Fire(s, i, nows[0]), i, nows[1..], t, id, first, mark);
    }
  }

  /** Subscribing changes nothing the invariant speaks about. */
  lemma StreamInv(s: Service, id: string)
    requires Inv(s)
    ensures Stream(s, id).Success? ==> Inv(Stream(s, id).value.0)
  {
  }

  /**
   What a subscriber `t` holds after the drone in slot `i` of `s2`, just
   launched, is fired ten times: `first`, then the start event, then the
   progress events of the run, and nothing else — the same events the
   drone published after position `mark`, of which there are eleven.
   */
  predicate WatchedRun(s2: Service, i: nat, now: int, nows: seq<int>, t: Token, first: DroneEvent, mark: nat)
    requires Shape(s2) && i < |s2.drones|
  {
    && |nows| == NumStops
    && s2.timers[i].Some? && |s2.timers[i].value.run.legs| > 0
    && var id := s2.drones[i].id;
    && var legs := s2.timers[i].value.run.legs;
    && var s3 := FireN(s2, i, nows);
    && t in s3.bus.received
    && id in s3.bus.published
    && |s3.bus.published[id]| == mark + NumStops + 1
    && s3.bus.received[t] == [first, StartEvent(legs, now)] + s3.bus.published[id][mark + 1..]
    && ProgressEvents(s3.bus.published[id][mark + 1..], FirstStop, legs, Some(now), nows[NumStops - 1])
  }

  /** A subscription taken before a launch, through the whole run that follows it. */
  lemma WatchedFromStart(s2: Service, i: nat, now: int, p: seq<DroneEvent>, nows: seq<int>, t: Token, first: DroneEvent)
    requires Inv(s2) && i < |s2.drones| && |nows| == NumStops
    requires s2.drones[i].status == Running && s2.drones[i].currentStop == FirstStop
    requires s2.drones[i].startedAt == Some(now) && s2.timers[i].Some?
    requires s2.drones[i].totalMs == Some(Sum(s2.timers[i].value.run.legs))
    requires s2.bus.published[s2.drones[i].id] == p + [StartEvent(s2.timers[i].value.run.legs, now)]
    requires Forwarding(s2.bus, t, s2.drones[i].id, first, |p|)
    ensures WatchedRun(s2, i, now, nows, t, first, |p|)
  {
    var id := s2.drones[i].id;
    RaceFromStart(s2, i, now, p, nows);
    FireNKeepsForwarding(s2, i, nows, t, id, first, |p|);
    var legs := s2.timers[i].value.run.legs;
    var s3 := FireN(s2, i, nows);
    SnapshotThenLog(first, StartEvent(legs, now), s3.bus.published[id], |p|);
  }

  lemma SnapshotThenLog(first: DroneEvent, e: DroneEvent, log: seq<DroneEvent>, mark: nat)
    requires mark < |log| && log[mark..] == [e] + log[mark + 1..]
    ensures [first] + log[mark..] == [first, e] + log[mark + 1..]
  {
  }

  /**
   A client watching a whole race: it subscribes to an idle or finished
   drone, the drone is launched and its timer fires ten times. The client
   receives exactly twelve messages: the snapshot, then the same eleven
   events the race published, in the same order (the start event, the
   progress events for stops 2..10 and the terminal event).
   */
  lemma WatchedRace(s: Service, i: nat, now: int, draw: Draw, nows: seq<int>)
    requires Inv(s) && ValidDraw(draw) && i < |s.drones| && s.drones[i].status != Running
    requires |nows| == NumStops
    ensures Stream(s, s.drones[i].id).Success?
    ensures Launch(Stream(s, s.drones[i].id).value.0, s.drones[i].id, now, draw).Success?
    ensures
      var sub := Stream(s, s.drones[i].id).value;
      WatchedRun(Launch(sub.0, s.drones[i].id, now, draw).value.0, i, now, nows, sub.1,
                 Snapshot(s.drones[i]), |s.bus.published[s.drones[i].id]|)
  {
    var id := s.drones[i].id;
    CatalogFacts();
    assert id == CatalogIds[i];
    FindInShape(s, id);
    StreamInv(s, id);
    var sub := Stream(s, id).value;
    var s1 := sub.0;
    var first := Snapshot(s.drones[i]);
    var p := s.bus.published[id];
    assert s1.drones[i] == s.drones[i];
    LaunchFromRest(s1, i, now, draw);
    LaunchKeepsForwarding(s1, id, now, draw, sub.1, id, first, |p|);
    var r := Launch(s1, id, now, draw);
    WatchedFromStart(r.value.0, i, now, p, nows, sub.1, first);
  }
}
