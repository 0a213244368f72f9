/**
 The server and the `apps/web` client together: the client launches a
 drone, or connects to one already racing, opens its stream, and the
 server's timer fires through the rest of the race. The stream carries
 exactly the shape of messages the client's fold expects, so the client
 ends showing the drone finished.
 */
module Session {
  import opened Common
  import opened Registry
  import opened EventBus
  import opened Simulation
  import opened Race
  import opened Controller
  import AppsWebClient
  import Views

  /** A snapshot of an unfinished drone followed by a run's events is a whole-race stream. */
  lemma ProgressIsRaceStream(snap: DroneEvent, es: seq<DroneEvent>, c: nat, legs: seq<int>, startedAt: Option<int>, finishedAt: int)
    requires !snap.finished && ProgressEvents(es, c, legs, startedAt, finishedAt)
    ensures AppsWebClient.RaceStream([snap] + es, startedAt, finishedAt)
  {
    var m := [snap] + es;
    forall j | 0 <= j < |m| - 1 ensures !m[j].finished {
      if j > 0 {
        assert m[j] == es[j - 1];
      }
    }
    assert m[|m| - 1] == es[|es| - 1];
  }

  /**
   Launch, then subscribe, then ten firings: the subscriber receives the
   snapshot of the drone at stop 1, the progress events, and the terminal
   event last, with the launch time and the last firing's time.
   */
  lemma LaunchThenWatch(s: Service, i: nat, now: int, draw: Draw, nows: seq<int>)
    requires Inv(s) && ValidDraw(draw) && i < |s.drones| && s.drones[i].status != Running
    requires |nows| == NumStops
    ensures Launch(s, s.drones[i].id, now, draw).Success?
    ensures Stream(Launch(s, s.drones[i].id, now, draw).value.0, s.drones[i].id).Success?
    ensures
      var id := s.drones[i].id;
      var r := Launch(s, id, now, draw);
      var sub := Stream(r.value.0, id).value;
      var s3 := FireN(sub.0, i, nows);
      && sub.1 in s3.bus.received
      && AppsWebClient.RaceStream(s3.bus.received[sub.1], Some(now), nows[NumStops - 1])
  {
    var id := s.drones[i].id;
    CatalogFacts();
    assert id == CatalogIds[i];
    LaunchFromRest(s, i, now, draw);
    var r := Launch(s, id, now, draw);
    var s1 := r.value.0;
    FindInShape(s1, id);
    StreamInv(s1, id);
    var sub := Stream(s1, id).value;
    WatchRun(sub.0, i, nows, sub.1, Snapshot(s1.drones[i]));
  }

  /**
   A stream opened on a running drone at any point of its race: the
   remaining firings deliver the progress events from its current stop
   and the terminal event, after the snapshot.
   */
  lemma WatchRun(s2: Service, i: nat, nows: seq<int>, t: Token, snap: DroneEvent)
    requires Inv(s2) && i < |s2.drones| && s2.drones[i].status == Running
    requires |nows| == Remaining(s2.drones[i])
    requires !snap.finished
    requires Forwarding(s2.bus, t, s2.drones[i].id, snap, |s2.bus.published[s2.drones[i].id]|)
    ensures |nows| >= 1
    ensures
      var s3 := FireN(s2, i, nows);
      && t in s3.bus.received
      && AppsWebClient.RaceStream(s3.bus.received[t], s2.drones[i].startedAt, nows[|nows| - 1])
  {
    var id := s2.drones[i].id;
    var p := s2.bus.published[id];
    RunToFinish(s2, i, nows);
    FireNKeepsForwarding(s2, i, nows, t, id, snap, |p|);
    var s3 := FireN(s2, i, nows);
    ProgressIsRaceStream(snap, s3.bus.published[id][|p|..], s2.drones[i].currentStop, s2.timers[i].value.run.legs,
                         s2.drones[i].startedAt, nows[|nows| - 1]);
  }

  /**
   A client that connects while the drone is already racing: it receives
   the snapshot, which is not finished, then the rest of the race, and
   its fold ends showing the drone finished with the race's start time.
   */
  lemma LateClientSeesFinish(s: Service, i: nat, nows: seq<int>, list: seq<AppsWebClient.VM>)
    requires Inv(s) && i < |s.drones| && s.drones[i].status == Running
    requires |nows| == Remaining(s.drones[i])
    ensures Stream(s, s.drones[i].id).Success?
    ensures |nows| >= 1
    ensures
      var id := s.drones[i].id;
      var sub := Stream(s, id).value;
      var s3 := FireN(sub.0, i, nows);
      && sub.1 in s3.bus.received
      && var msgs := s3.bus.received[sub.1];
      && var shown := AppsWebClient.Consume(list, id, msgs);
      && shown.1 == |msgs|
      && forall k :: 0 <= k < |list| && list[k].id == id ==>
           && shown.0[k].status == Finished && shown.0[k].currentStop == Views.TotalStops
           && shown.0[k].startedAt == s.drones[i].startedAt
           && shown.0[k].finishedAt == Some(nows[|nows| - 1])
  {
    var id := s.drones[i].id;
    CatalogFacts();
    assert id == CatalogIds[i];
    FindInShape(s, id);
    StreamInv(s, id);
    var sub := Stream(s, id).value;
    WatchRun(sub.0, i, nows, sub.1, Snapshot(s.drones[i]));
    var s3 := FireN(sub.0, i, nows);
    AppsWebClient.ConsumeRace(list, id, s3.bus.received[sub.1], s.drones[i].startedAt, nows[|nows| - 1]);
  }

  /**
   The whole session: whatever the client showed before, after the launch
   and the race it shows the drone finished at the last stop, at 100%,
   started at the launch time and finished at the last firing, and it has
   closed the stream on the last message.
   */
  lemma ClientSeesFinish(s: Service, i: nat, now: int, draw: Draw, nows: seq<int>, list: seq<AppsWebClient.VM>)
    requires Inv(s) && ValidDraw(draw) && i < |s.drones| && s.drones[i].status != Running
    requires |nows| == NumStops
    ensures Launch(s, s.drones[i].id, now, draw).Success?
    ensures Stream(Launch(s, s.drones[i].id, now, draw).value.0, s.drones[i].id).Success?
    ensures
      var id := s.drones[i].id;
      var sub := Stream(Launch(s, id, now, draw).value.0, id).value;
      var s3 := FireN(sub.0, i, nows);
      && sub.1 in s3.bus.received
      && var msgs := s3.bus.received[sub.1];
      && var shown := AppsWebClient.Consume(list, id, msgs);
      && shown.1 == |msgs|
      && forall k :: 0 <= k < |list| && list[k].id == id ==>
           && shown.0[k].status == Finished && shown.0[k].currentStop == Views.TotalStops
           && shown.0[k].progressPct == 100.0
           && shown.0[k].startedAt == Some(now) && shown.0[k].finishedAt == Some(nows[NumStops - 1])
  {
    LaunchThenWatch(s, i, now, draw, nows);
    var id := s.drones[i].id;
    var sub := Stream(Launch(s, id, now, draw).value.0, id).value;
    var s3 := FireN(sub.0, i, nows);
    AppsWebClient.ConsumeRace(list, id, s3.bus.received[sub.1], Some(now), nows[NumStops - 1]);
  }
}
