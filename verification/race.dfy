/**
 Whole runs of the simulation: a launch followed by the firings of its
 leg timers, one per clock reading.
 */
module Race {
  import opened Common
  import opened Registry
  import opened Simulation

  /** The timer of slot `i` fires at each clock reading in turn. */
  function FireN(s: Service, i: nat, nows: seq<int>): (s': Service)
    requires Shape(s) && i < |s.drones|
    ensures Shape(s') && |s'.drones| == |s.drones|
    decreases |nows|
  {
    if nows == [] then s else FireN(Fire(s, i, nows[0]), i, nows[1..])
  }

  /** The delay of the timer that was pending at each of those firings. */
  function FiredDelays(s: Service, i: nat, nows: seq<int>): seq<int>
    requires Shape(s) && i < |s.drones|
    decreases |nows|
  {
    if nows == [] then []
    else
      (match s.timers[i] case Some(t) => [t.delay] case None => [])
      + FiredDelays(Fire(s, i, nows[0]), i, nows[1..])
  }

  /** Sum of the announced times to the next stop (absent counts as 0). */
  function EtaTotal(es: seq<DroneEvent>): int {
    if es == [] then 0 else es[0].etaToNextMs.GetOr(0) + EtaTotal(es[1..])
  }

  /** The legs from index `k` on (none past the end). */
  function Tail(legs: seq<int>, k: nat): int {
    if k < |legs| then Sum(legs[k..]) else 0
  }

  lemma TailStep(legs: seq<int>, k: nat)
    ensures LegDelay(legs, k) + Tail(legs, k + 1) == Tail(legs, k)
  {
    if k < |legs| {
      assert legs[k..][0] == legs[k];
      assert legs[k..][1..] == legs[k + 1..];
      assert Sum(legs[k..]) == legs[k] + Sum(legs[k + 1..]);
      if k + 1 == |legs| {
        assert legs[k + 1..] == [];
      }
    }
  }

  lemma EtaTotalCons(e: DroneEvent, es: seq<DroneEvent>)
    ensures EtaTotal([e] + es) == e.etaToNextMs.GetOr(0) + EtaTotal(es)
  {
    assert ([e] + es)[1..] == es;
  }

  /** Firing another slot never touches this one. */
  lemma {:induction false} FireNElsewhere(s: Service, i: nat, nows: seq<int>, j: nat)
    requires Shape(s) && i < |s.drones| && j < |s.drones| && j != i
    ensures FireN(s, i, nows).drones[j] == s.drones[j]
    ensures FireN(s, i, nows).timers[j] == s.timers[j]
    ensures FireN(s, i, nows).bus.published[s.drones[j].id] == s.bus.published[s.drones[j].id]
    decreases |nows|
  {
    if nows != [] {
      CatalogDistinct();
      var s1 := Fire(s, i, nows[0]);
      FireNElsewhere(s1, i, nows[1..], j);
    }
  }

  /**
   The events a running drone publishes from stop `c` on: one
   `{stop, finished: false, etaToNextMs}` per stop still to reach, with the
   stops rising by one and the time to the next stop taken from the legs,
   then the terminal event.
   */
  predicate ProgressEvents(es: seq<DroneEvent>, c: nat, legs: seq<int>, startedAt: Option<int>, finishedAt: int) {
    && c <= LastStop
    && |es| == LastStop + 1 - c
    && (forall j :: 0 <= j < |es| - 1 ==> es[j] == DroneEvent(c + 1 + j, false, Some(LegDelay(legs, c + j)), None, None))
    && es[|es| - 1] == DroneEvent(LastStop, true, None, startedAt, Some(finishedAt))
  }

  lemma ProgressEventsCons(es: seq<DroneEvent>, c: nat, legs: seq<int>, startedAt: Option<int>, finishedAt: int)
    requires c < LastStop && ProgressEvents(es, c + 1, legs, startedAt, finishedAt)
    ensures ProgressEvents([DroneEvent(c + 1, false, Some(LegDelay(legs, c)), None, None)] + es, c, legs, startedAt, finishedAt)
  {
    var e1 := DroneEvent(c + 1, false, Some(LegDelay(legs, c)), None, None);
    var es' := [e1] + es;
    forall j | 0 <= j < |es'| - 1
      ensures es'[j] == DroneEvent(c + 1 + j, false, Some(LegDelay(legs, c + j)), None, None)
    {
      if j > 0 {
        assert es'[j] == es[j - 1];
      }
    }
  }

  /** The announced times of a run add up to what is left of its legs. */
  lemma {:induction false} ProgressEventsEta(es: seq<DroneEvent>, c: nat, legs: seq<int>, startedAt: Option<int>, finishedAt: int)
    requires |legs| == LegCount && 1 <= c && ProgressEvents(es, c, legs, startedAt, finishedAt)
    ensures EtaTotal(es) == Tail(legs, c)
    decreases LastStop - c
  {
    if c == LastStop {
      assert es == [es[0]];
    } else {
      assert ProgressEvents(es[1..], c + 1, legs, startedAt, finishedAt) by {
        forall j | 0 <= j < |es[1..]| - 1
          ensures es[1..][j] == DroneEvent(c + 1 + 1 + j, false, Some(LegDelay(legs, c + 1 + j)), None, None)
        {
          assert es[1..][j] == es[j + 1];
        }
      }
      ProgressEventsEta(es[1..], c + 1, legs, startedAt, finishedAt);
      TailStep(legs, c);
    }
  }

  /** A log that extends `p + [e]` extends `p`, and its new part starts with `e`. */
  lemma PrefixStep(p: seq<DroneEvent>, e: DroneEvent, p1: seq<DroneEvent>, p2: seq<DroneEvent>)
    requires p1 == p + [e] && |p1| <= |p2| && p2[..|p1|] == p1
    ensures |p| <= |p2| && p2[..|p|] == p
    ensures p2[|p|..] == [e] + p2[|p1|..]
  {
    assert p2[..|p|] == p2[..|p1|][..|p|];
    assert p2[|p|] == p1[|p|];
    assert p2[|p|..][1..] == p2[|p1|..];
  }

  /**
   From any running state, the drone is at rest after exactly
   `Remaining` firings (one per stop still to reach, plus the zero-delay
   final step). Along the way it publishes the progress events from its
   current stop, ending with `{stop: 10, finished: true, startedAt,
   finishedAt}`; it ends finished at the last stop with no timer pending,
   and the fired delays add up to what is left of the legs.
   */
  lemma {:induction false} RunToFinish(s: Service, i: nat, nows: seq<int>)
    requires Inv(s) && i < |s.drones| && s.drones[i].status == Running
    requires |nows| == Remaining(s.drones[i])
    ensures
      var d := s.drones[i];
      var legs := s.timers[i].value.run.legs;
      var s' := FireN(s, i, nows);
      var p := s.bus.published[d.id];
      var p' := s'.bus.published[d.id];
      && |nows| >= 1
      && Inv(s')
      && s'.drones[i] == d.(status := Finished, currentStop := LastStop, finishedAt := Some(nows[|nows| - 1]))
      && s'.timers[i].None?
      && |p| <= |p'| && p'[..|p|] == p
      && ProgressEvents(p'[|p|..], d.currentStop, legs, d.startedAt, nows[|nows| - 1])
      && Sum(FiredDelays(s, i, nows)) == Tail(legs, d.currentStop - 1)
    decreases |nows|, 1
  {
    var d := s.drones[i];
    var legs := s.timers[i].value.run.legs;
    assert DroneInv(d, s.timers[i], s.bus.published[CatalogIds[i]]);
    if d.currentStop == LastStop {
      LastFiring(s, i, nows);
      TailStep(legs, d.currentStop - 1);
    } else {
      RunStep(s, i, nows);
    }
  }

  /** `RunToFinish` before the last stop: one advancing firing, then the rest of the run. */
  lemma {:induction false} RunStep(s: Service, i: nat, nows: seq<int>)
    requires Inv(s) && i < |s.drones| && s.drones[i].status == Running
    requires s.drones[i].currentStop < LastStop
    requires |nows| == Remaining(s.drones[i])
    ensures
      var d := s.drones[i];
      var legs := s.timers[i].value.run.legs;
      var s' := FireN(s, i, nows);
      var p := s.bus.published[d.id];
      var p' := s'.bus.published[d.id];
      && |nows| >= 1
      && Inv(s')
      && s'.drones[i] == d.(status := Finished, currentStop := LastStop, finishedAt := Some(nows[|nows| - 1]))
      && s'.timers[i].None?
      && |p| <= |p'| && p'[..|p|] == p
      && ProgressEvents(p'[|p|..], d.currentStop, legs, d.startedAt, nows[|nows| - 1])
      && Sum(FiredDelays(s, i, nows)) == Tail(legs, d.currentStop - 1)
    decreases |nows|, 0
  {
    var d := s.drones[i];
    var id := d.id;
    var c := d.currentStop;
    var legs := s.timers[i].value.run.legs;
    var s1 := Fire(s, i, nows[0]);
    var s' := FireN(s, i, nows);
    assert s' == FireN(s1, i, nows[1..]);
    FireAdvances(s, i, nows[0]);
    RunToFinish(s1, i, nows[1..]);
    LogStep(s.bus.published[id], DroneEvent(c + 1, false, Some(LegDelay(legs, c)), None, None),
            s1.bus.published[id], s'.bus.published[id], c, legs, d.startedAt, nows[|nows| - 1]);
    FiredDelaysStep(s, i, nows);
    TailStep(legs, c - 1);
  }

  /** A log one event longer, followed by the rest of a run, is the run from one stop earlier. */
  lemma LogStep(p: seq<DroneEvent>, e1: DroneEvent, p1: seq<DroneEvent>, p': seq<DroneEvent>,
                c: nat, legs: seq<int>, startedAt: Option<int>, finishedAt: int)
    requires c < LastStop && e1 == DroneEvent(c + 1, false, Some(LegDelay(legs, c)), None, None)
    requires p1 == p + [e1] && |p1| <= |p'| && p'[..|p1|] == p1
    requires ProgressEvents(p'[|p1|..], c + 1, legs, startedAt, finishedAt)
    ensures |p| <= |p'| && p'[..|p|] == p
    ensures ProgressEvents(p'[|p|..], c, legs, startedAt, finishedAt)
  {
    PrefixStep(p, e1, p1, p');
    ProgressEventsCons(p'[|p1|..], c, legs, startedAt, finishedAt);
  }

  /** The first firing contributes the pending timer's delay. */
  lemma FiredDelaysStep(s: Service, i: nat, nows: seq<int>)
    requires Shape(s) && i < |s.drones| && nows != [] && s.timers[i].Some?
    ensures Sum(FiredDelays(s, i, nows)) == s.timers[i].value.delay + Sum(FiredDelays(Fire(s, i, nows[0]), i, nows[1..]))
  {
    var rest := FiredDelays(Fire(s, i, nows[0]), i, nows[1..]);
    assert FiredDelays(s, i, nows) == [s.timers[i].value.delay] + rest;
    assert ([s.timers[i].value.delay] + rest)[1..] == rest;
  }

  /** `RunToFinish` at the last stop: the single firing that finishes the drone. */
  lemma LastFiring(s: Service, i: nat, nows: seq<int>)
    requires Inv(s) && i < |s.drones| && s.drones[i].status == Running
    requires s.drones[i].currentStop == LastStop && |nows| == 1
    ensures
      var d := s.drones[i];
      var legs := s.timers[i].value.run.legs;
      var s' := FireN(s, i, nows);
      var p := s.bus.published[d.id];
      var p' := s'.bus.published[d.id];
      && Inv(s')
      && s'.drones[i] == d.(status := Finished, currentStop := LastStop, finishedAt := Some(nows[0]))
      && s'.timers[i].None?
      && |p| <= |p'| && p'[..|p|] == p
      && ProgressEvents(p'[|p|..], d.currentStop, legs, d.startedAt, nows[0])
      && FiredDelays(s, i, nows) == [s.timers[i].value.delay]
  {
    var id := s.drones[i].id;
    var p := s.bus.published[id];
    FireFinishes(s, i, nows[0]);
    var s1 := Fire(s, i, nows[0]);
    var s' := FireN(s, i, nows);
    assert s' == FireN(s1, i, nows[1..]);
    assert nows[1..] == [];
    assert s' == s1;
    var p' := s'.bus.published[id];
    assert p'[|p|..] == [p'[|p|]];
  }

  /**
   How a race that starts from state `s1` ends after ten firings, `p`
   being the drone's log before its start event. The drone is finished at
   stop 10, started at `now` and finished at the last firing, with no
   timer pending and the invariant kept. Its log extends `p` by the start
   event at stop 1, stops 2..10 not finished, then the terminal event. The
   announced times, and equally the scheduled delays, add up to the total
   time.
   */
  predicate WholeRace(s1: Service, i: nat, now: int, p: seq<DroneEvent>, nows: seq<int>)
    requires Shape(s1) && i < |s1.drones|
  {
    && |nows| == NumStops
    && s1.timers[i].Some? && |s1.timers[i].value.run.legs| > 0
    && s1.drones[i].totalMs.Some?
    && var d1 := s1.drones[i];
    && var legs := s1.timers[i].value.run.legs;
    && var s2 := FireN(s1, i, nows);
    && var d2 := s2.drones[i];
    && var p2 := s2.bus.published[d1.id];
    && Inv(s2)
    && d2.status == Finished && d2.currentStop == LastStop
    && d2.startedAt == Some(now) && d2.finishedAt == Some(nows[NumStops - 1])
    && s2.timers[i].None?
    && |p| < |p2| && p2[..|p|] == p
    && p2[|p|..] == [StartEvent(legs, now)] + p2[|p| + 1..]
    && ProgressEvents(p2[|p| + 1..], FirstStop, legs, Some(now), nows[NumStops - 1])
    && EtaTotal(p2[|p|..]) == d1.totalMs.value
    && Sum(FiredDelays(s1, i, nows)) == d1.totalMs.value
  }

  /**
   A race from the moment of its launch: a drone just started at stop 1,
   whose log ends with the start event, fired ten times.
   */
  lemma {:induction false} RaceFromStart(s1: Service, i: nat, now: int, p: seq<DroneEvent>, nows: seq<int>)
    requires Inv(s1) && i < |s1.drones| && |nows| == NumStops
    requires s1.drones[i].status == Running && s1.drones[i].currentStop == FirstStop
    requires s1.drones[i].startedAt == Some(now) && s1.timers[i].Some?
    requires s1.drones[i].totalMs == Some(Sum(s1.timers[i].value.run.legs))
    requires s1.bus.published[s1.drones[i].id] == p + [StartEvent(s1.timers[i].value.run.legs, now)]
    ensures WholeRace(s1, i, now, p, nows)
  {
    var d1 := s1.drones[i];
    var id := d1.id;
    var legs := s1.timers[i].value.run.legs;
    var e0 := StartEvent(legs, now);
    var p1 := s1.bus.published[id];
    assert DroneInv(d1, s1.timers[i], p1) by {
      CatalogFacts();
      assert id == CatalogIds[i];
    }
    RunToFinish(s1, i, nows);
    var s2 := FireN(s1, i, nows);
    var p2 := s2.bus.published[id];
    PrefixStep(p, e0, p1, p2);
    ProgressEventsEta(p2[|p1|..], FirstStop, legs, Some(now), nows[NumStops - 1]);
    TailStep(legs, 0);
    assert legs[0..] == legs;
    EtaTotalCons(e0, p2[|p1|..]);
  }

  /**
   A whole race: launching an idle or finished drone, with a total time
   drawn in [10 s, 40 s], and firing its timer ten times (nine legs and
   the final zero-delay step) runs the race `WholeRace` describes, after
   the drone's earlier log.
   */
  lemma LaunchThenRun(s: Service, i: nat, now: int, draw: Draw, nows: seq<int>)
    requires Inv(s) && ValidDraw(draw) && i < |s.drones| && s.drones[i].status != Running
    requires |nows| == NumStops
    ensures Launch(s, s.drones[i].id, now, draw).Success?
    ensures
      var r := Launch(s, s.drones[i].id, now, draw);
      && r.value.1 == r.value.0.drones[i]
      && r.value.1.totalMs.Some? && MinTotalMs <= r.value.1.totalMs.value <= MaxTotalMs
      && WholeRace(r.value.0, i, now, s.bus.published[s.drones[i].id], nows)
  {
    var id := s.drones[i].id;
    LaunchFromRest(s, i, now, draw);
    var r := Launch(s, id, now, draw);
    CatalogFacts();
    assert id == CatalogIds[i];
    RaceFromStart(r.value.0, i, now, s.bus.published[id], nows);
  }
}
