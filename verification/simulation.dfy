/**
 The simulation controller of the race server: `launch` and the leg
 timer it drives, over an explicit service state.

 The service state holds the registry, one timer slot per drone and the
 event bus. A pending timer is the callback `runLeg(legIdx)` waiting for
 `delay` milliseconds, together with the closure's environment: the legs
 drawn at launch and the next stop to reach. `Fire` is that callback
 running; the clock reading is its `now` parameter. Callbacks run one at
 a time, so each `Launch` and each `Fire` is one atomic step.
 */
module Simulation {
  import opened Common
  import opened Registry
  import opened Legs
  import opened EventBus

  /** The environment captured by `runLeg`: the legs and the mutable `nextStop`. */
  datatype Run = Run(legs: seq<int>, nextStop: int)

  /** A pending timeout that will run leg `legIdx` after `delay` milliseconds. */
  datatype Timer = Timer(legIdx: nat, delay: int, run: Run)

  datatype Service = Service(drones: seq<Drone>, timers: seq<Option<Timer>>, bus: Bus)

  /** The random draws of one launch: the offset for `randomInt` and the leg weights. */
  datatype Draw = Draw(offset: int, weights: seq<real>)

  predicate ValidDraw(d: Draw) {
    && 0 <= d.offset < MaxTotalMs - MinTotalMs + 1
    && |d.weights| == LegCount
    && ValidWeights(d.weights)
  }

  /** The service as constructed: the catalog, no timers, no listeners. */
  function Init(): Service {
    Service(Catalog, [None, None, None, None], Empty(CatalogIdSet))
  }

  /** The shape every reachable state keeps: the catalog's slots, in order. */
  predicate Shape(s: Service) {
    && |s.drones| == |s.timers| == |CatalogIds|
    && (forall i :: 0 <= i < |s.drones| ==>
          s.drones[i].id == CatalogIds[i] && s.drones[i].name == Catalog[i].name && s.drones[i].model == Catalog[i].model)
    && Valid(s.bus)
    && s.bus.published.Keys == CatalogIdSet
  }

  /** The slot of a catalog id. */
  lemma FindInShape(s: Service, id: string)
    requires Shape(s)
    ensures Find(s.drones, id).Some? <==> id in CatalogIds
    ensures forall i :: 0 <= i < |CatalogIds| && CatalogIds[i] == id ==> Find(s.drones, id) == Some(i)
  {
    CatalogFacts();
  }

  /** `getAll`: every drone, in catalog order. */
  function GetAll(s: Service): (r: seq<Drone>)
    requires Shape(s)
    ensures |r| == |CatalogIds|
    ensures forall i :: 0 <= i < |r| ==> r[i].id == CatalogIds[i]
    ensures forall id :: id in CatalogIds <==> GetById(r, id).Success?
    ensures forall i :: 0 <= i < |r| ==> r[i] == s.drones[i]
    ensures forall id :: GetById(r, id) == GetById(s.drones, id)
  {
    CatalogFacts();
    s.drones
  }

  // ---------- timer scheduler ----------

  /** `stopTimer(id)`: clears the slot; a no-op when nothing is pending. */
  function StopTimer(s: Service, i: nat): (s': Service)
    requires i < |s.timers|
    ensures |s'.timers| == |s.timers| && s'.timers[i].None?
    ensures forall j :: 0 <= j < |s.timers| && j != i ==> s'.timers[j] == s.timers[j]
    ensures s.timers[i].None? ==> s' == s
    ensures s'.drones == s.drones && s'.bus == s.bus
  {
    s.(timers := s.timers[i := None])
  }

  /** `scheduleTimer(id, fn, delay)`: the new timer takes the slot. */
  function ScheduleTimer(s: Service, i: nat, t: Timer): (s': Service)
    requires i < |s.timers|
    ensures |s'.timers| == |s.timers| && s'.timers[i] == Some(t)
    ensures forall j :: 0 <= j < |s.timers| && j != i ==> s'.timers[j] == s.timers[j]
    ensures s'.drones == s.drones && s'.bus == s.bus
  {
    s.(timers := s.timers[i := Some(t)])
  }

  /** The delay `runLeg(legIdx)` schedules after announcing its stop. */
  function LegDelay(legs: seq<int>, k: nat): int {
    if k < |legs| then legs[k] else 0
  }

  // ---------- launch ----------

  /** The event announcing the start of a run. */
  function StartEvent(legs: seq<int>, now: int): DroneEvent
    requires |legs| > 0
  {
    DroneEvent(FirstStop, false, Some(legs[0]), Some(now), None)
  }

  /**
   `launch(id)`. A running drone is returned as it is and nothing changes.
   Otherwise any stale timer is cleared, the drone starts at the first
   stop, the total time and the legs are drawn, the start event is
   emitted and the first leg's timer is scheduled.
   */
  function Launch(s: Service, id: string, now: int, draw: Draw): (r: Result<(Service, Drone)>)
    requires Shape(s) && ValidDraw(draw)
    ensures r.Failure? <==> id !in CatalogIds
    ensures r.Failure? ==> r.error == NotFound(id)
    ensures r.Success? ==> Shape(r.value.0)
  {
    FindInShape(s, id);
    match Find(s.drones, id)
    case None => Failure(NotFound(id))
    case Some(i) =>
      if s.drones[i].status == Running then Success((s, s.drones[i]))
      else Success(Relaunch(s, i, now, draw))
  }

  /** The part of `launch` past the running check, for the drone in slot `i`. */
  function Relaunch(s: Service, i: nat, now: int, draw: Draw): (r: (Service, Drone))
    requires Shape(s) && ValidDraw(draw) && i < |s.drones|
    ensures Shape(r.0)
    ensures r.1 == r.0.drones[i] && r.1.id == s.drones[i].id
    ensures r.1.status == Running && r.1.currentStop == FirstStop
    ensures r.1.startedAt == Some(now) && r.1.finishedAt.None?
    ensures r.0.timers[i].Some?
  {
    var d := s.drones[i];
    var s1 := StopTimer(s, i);
    var totalMs := RandomInt(MinTotalMs, MaxTotalMs, draw.offset);
    var legs := Partition(totalMs, draw.weights);
    var d1 := d.(status := Running, currentStop := FirstStop, startedAt := Some(now),
                 finishedAt := None, totalMs := Some(totalMs));
    var bus := Emit(s1.bus, d.id, StartEvent(legs, now));
    var s2 := ScheduleTimer(s1.(drones := s1.drones[i := d1], bus := bus), i,
                            Timer(0, legs[0], Run(legs, FirstStop + 1)));
    (s2, d1)
  }

  // ---------- one timer firing ----------

  /**
   The pending timer of slot `i` fires: `runLeg(legIdx)`. Past the last
   stop the drone finishes; otherwise it advances one stop. An empty slot
   has nothing to fire.
   */
  function Fire(s: Service, i: nat, now: int): (s': Service)
    requires Shape(s) && i < |s.drones|
    ensures Shape(s')
    ensures |s'.drones| == |s.drones|
    ensures forall j :: 0 <= j < |s.drones| && j != i ==> s'.drones[j] == s.drones[j] && s'.timers[j] == s.timers[j]
    ensures forall id :: id in s.bus.published && id != s.drones[i].id ==> s'.bus.published[id] == s.bus.published[id]
    ensures s.timers[i].None? ==> s' == s
  {
    match s.timers[i]
    case None => s
    case Some(t) =>
      if t.run.nextStop > LastStop then Finish(s, i, now) else Advance(s, i, t)
  }

  /**
   The last `runLeg`: the drone finishes at `now`, the terminal event is
   emitted and the timer slot is cleared.
   */
  function Finish(s: Service, i: nat, now: int): (s': Service)
    requires Shape(s) && i < |s.drones|
    ensures Shape(s')
    ensures s'.drones == s.drones[i := s.drones[i].(status := Finished, finishedAt := Some(now))]
    ensures s'.timers == s.timers[i := None]
    ensures s'.bus == Emit(s.bus, s.drones[i].id, DroneEvent(LastStop, true, None, s.drones[i].startedAt, Some(now)))
  {
    var d1 := s.drones[i].(status := Finished, finishedAt := Some(now));
    var bus := Emit(s.bus, d1.id, DroneEvent(LastStop, true, None, d1.startedAt, d1.finishedAt));
    StopTimer(s.(drones := s.drones[i := d1], bus := bus), i)
  }

  /**
   A `runLeg` before the end: the drone reaches the next stop, the time to
   the following stop is emitted and exactly one next timer is scheduled.
   */
  function Advance(s: Service, i: nat, t: Timer): (s': Service)
    requires Shape(s) && i < |s.drones|
    ensures Shape(s')
    ensures s'.drones == s.drones[i := s.drones[i].(currentStop := t.run.nextStop)]
    ensures s'.timers == s.timers[i := Some(NextTimer(t))]
    ensures s'.bus == Emit(s.bus, s.drones[i].id, DroneEvent(t.run.nextStop, false, Some(NextTimer(t).delay), None, None))
  {
    var d1 := s.drones[i].(currentStop := t.run.nextStop);
    var bus := Emit(s.bus, d1.id, DroneEvent(d1.currentStop, false, Some(NextTimer(t).delay), None, None));
    ScheduleTimer(s.(drones := s.drones[i := d1], bus := bus), i, NextTimer(t))
  }

  /** The timer `runLeg(legIdx)` leaves behind: the next leg, after `eta`. */
  function NextTimer(t: Timer): Timer {
    Timer(t.legIdx + 1, LegDelay(t.run.legs, t.legIdx + 1), t.run.(nextStop := t.run.nextStop + 1))
  }

  // ---------- the state invariant ----------

  function Last(es: seq<DroneEvent>): DroneEvent
    requires es != []
  {
    es[|es| - 1]
  }

  /** A pending timer agrees with the stop the drone has reached. */
  predicate TimerInv(d: Drone, t: Timer) {
    && |t.run.legs| == LegCount
    && t.legIdx == d.currentStop - 1
    && t.run.nextStop == d.currentStop + 1
    && t.delay == LegDelay(t.run.legs, t.legIdx)
    && (forall k :: 0 <= k < |t.run.legs| ==> t.run.legs[k] >= 1)
    && d.totalMs == Some(Sum(t.run.legs))
  }

  /**
   What holds of each drone, its timer slot and its published events:
   the stop stays in 1..10; exactly the running drones have a pending
   timer; a finished drone sits at the last stop with both timestamps;
   the last event published agrees with the drone, and announces the
   pending timer's delay while it runs.
   */
  predicate DroneInv(d: Drone, t: Option<Timer>, log: seq<DroneEvent>) {
    && FirstStop <= d.currentStop <= LastStop
    && (d.status != Idle ==> d.startedAt.Some? && d.totalMs.Some? && MinTotalMs <= d.totalMs.value <= MaxTotalMs)
    && match d.status
       case Idle =>
         && t.None? && d.currentStop == FirstStop && d.totalMs.None?
         && d.startedAt.None? && d.finishedAt.None? && log == []
       case Running =>
         && t.Some? && TimerInv(d, t.value) && d.finishedAt.None?
         && log != [] && Last(log).stop == d.currentStop && !Last(log).finished
         && Last(log).etaToNextMs == Some(t.value.delay)
       case Finished =>
         && t.None? && d.currentStop == LastStop && d.finishedAt.Some?
         && log != [] && Last(log) == DroneEvent(LastStop, true, None, d.startedAt, d.finishedAt)
  }

  predicate Inv(s: Service) {
    && Shape(s)
    && forall i :: 0 <= i < |s.drones| ==> DroneInv(s.drones[i], s.timers[i], s.bus.published[CatalogIds[i]])
  }

  /** The freshly constructed service: d1..d4 idle at stop 1, nothing pending. */
  lemma InitInv()
    ensures Inv(Init())
    ensures GetAll(Init()) == Catalog
    ensures forall i :: 0 <= i < |Catalog| ==> Init().timers[i].None?
  {
    CatalogFacts();
    var s := Init();
    assert Shape(s);
    forall i | 0 <= i < |s.drones| ensures DroneInv(s.drones[i], s.timers[i], s.bus.published[CatalogIds[i]]) {
      assert CatalogIds[i] in CatalogIdSet;
    }
  }

  /** A slot-wise update of one drone keeps the invariant of the others. */
  lemma InvFromSlot(s: Service, s': Service, i: nat)
    requires Inv(s) && Shape(s') && i < |s.drones|
    requires forall j :: 0 <= j < |s.drones| && j != i ==> s'.drones[j] == s.drones[j] && s'.timers[j] == s.timers[j]
    requires forall j :: 0 <= j < |s.drones| && j != i ==> s'.bus.published[CatalogIds[j]] == s.bus.published[CatalogIds[j]]
    requires DroneInv(s'.drones[i], s'.timers[i], s'.bus.published[CatalogIds[i]])
    ensures Inv(s')
  {
  }

  /** The legs a valid draw yields: nine positive legs adding up to a total in range. */
  lemma DrawnLegs(draw: Draw)
    requires ValidDraw(draw)
    ensures var total := RandomInt(MinTotalMs, MaxTotalMs, draw.offset);
      var legs := Partition(total, draw.weights);
      && MinTotalMs <= total <= MaxTotalMs
      && |legs| == LegCount
      && Sum(legs) == total
      && forall k :: 0 <= k < |legs| ==> legs[k] >= 1
  {
    var total := RandomInt(MinTotalMs, MaxTotalMs, draw.offset);
    PartitionExact(total, draw.weights);
    PartitionPositive(total, draw.weights);
  }

  /**
   Launching a drone that is running changes nothing: the same state, the
   current drone returned, no event, no timer touched.
   */
  lemma LaunchWhileRunning(s: Service, i: nat, now: int, draw: Draw)
    requires Shape(s) && ValidDraw(draw) && i < |s.drones| && s.drones[i].status == Running
    ensures Launch(s, s.drones[i].id, now, draw) == Success((s, s.drones[i]))
  {
    FindInShape(s, s.drones[i].id);
  }

  /**
   Launching an idle or finished drone: it runs from stop 1, started now,
   with its finish time cleared and a total time in [10 s, 40 s]; exactly
   one event `{stop: 1, finished: false, etaToNextMs: legs[0], startedAt}`
   is published; the pending timer is leg 0 with that same delay; the
   returned drone is the registry's new state; every other slot is as it
   was; and the invariant is kept.
   */
  lemma LaunchFromRest(s: Service, i: nat, now: int, draw: Draw)
    requires Inv(s) && ValidDraw(draw) && i < |s.drones| && s.drones[i].status != Running
    ensures var r := Launch(s, s.drones[i].id, now, draw);
      && r.Success?
      && var (s', d') := r.value;
      && Inv(s')
      && d' == s'.drones[i]
      && d'.status == Running && d'.currentStop == FirstStop
      && d'.startedAt == Some(now) && d'.finishedAt.None?
      && MinTotalMs <= d'.totalMs.value <= MaxTotalMs
      && s'.timers[i].Some? && s'.timers[i].value.legIdx == 0
      && var legs := s'.timers[i].value.run.legs;
      && d'.totalMs == Some(Sum(legs))
      && s'.bus.published[CatalogIds[i]] == s.bus.published[CatalogIds[i]] + [StartEvent(legs, now)]
      && s'.timers[i].value.delay == legs[0]
      && (forall j :: 0 <= j < |s.drones| && j != i ==> s'.drones[j] == s.drones[j] && s'.timers[j] == s.timers[j])
  {
    var id := s.drones[i].id;
    FindInShape(s, id);
    CatalogFacts();
    assert Find(s.drones, id) == Some(i);
    assert Launch(s, id, now, draw) == Success(Relaunch(s, i, now, draw));
    RelaunchInv(s, i, now, draw);
  }

  /** The facts of `LaunchFromRest`, about the non-running branch on its own. */
  lemma RelaunchInv(s: Service, i: nat, now: int, draw: Draw)
    requires Inv(s) && ValidDraw(draw) && i < |s.drones| && s.drones[i].status != Running
    ensures var (s', d') := Relaunch(s, i, now, draw);
      && Inv(s')
      && d' == s'.drones[i]
      && d'.status == Running && d'.currentStop == FirstStop
      && d'.startedAt == Some(now) && d'.finishedAt.None?
      && MinTotalMs <= d'.totalMs.value <= MaxTotalMs
      && s'.timers[i].Some? && s'.timers[i].value.legIdx == 0
      && var legs := s'.timers[i].value.run.legs;
      && d'.totalMs == Some(Sum(legs))
      && s'.bus.published[CatalogIds[i]] == s.bus.published[CatalogIds[i]] + [StartEvent(legs, now)]
      && s'.timers[i].value.delay == legs[0]
      && (forall j :: 0 <= j < |s.drones| && j != i ==> s'.drones[j] == s.drones[j] && s'.timers[j] == s.timers[j])
  {
    RelaunchSlot(s, i, now, draw);
    var (s2, d1) := Relaunch(s, i, now, draw);
    assert DroneInv(s2.drones[i], s2.timers[i], s2.bus.published[CatalogIds[i]]);
    InvFromSlot(s, s2, i);
  }

  /** The slot `Relaunch` writes: the drone, its timer and its log. */
  lemma RelaunchSlot(s: Service, i: nat, now: int, draw: Draw)
    requires Shape(s) && ValidDraw(draw) && i < |s.drones|
    ensures var (s', d') := Relaunch(s, i, now, draw);
      && d' == s'.drones[i]
      && d' == s.drones[i].(status := Running, currentStop := FirstStop, startedAt := Some(now),
                            finishedAt := None, totalMs := d'.totalMs)
      && d'.totalMs.Some? && MinTotalMs <= d'.totalMs.value <= MaxTotalMs
      && s'.timers[i].Some?
      && var legs := s'.timers[i].value.run.legs;
      && s'.timers[i].value == Timer(0, legs[0], Run(legs, FirstStop + 1))
      && TimerInv(d', s'.timers[i].value)
      && s'.bus.published[CatalogIds[i]] == s.bus.published[CatalogIds[i]] + [StartEvent(legs, now)]
      && (forall j :: 0 <= j < |s.drones| && j != i ==> s'.drones[j] == s.drones[j] && s'.timers[j] == s.timers[j])
      && (forall j :: 0 <= j < |s.drones| && j != i ==> s'.bus.published[CatalogIds[j]] == s.bus.published[CatalogIds[j]])
  {
    CatalogDistinct();
    assert s.drones[i].id == CatalogIds[i];
    DrawnLegs(draw);
  }

  // ---------- firings ----------

  /** Firings left before a drone is at rest: none unless it runs. */
  function Remaining(d: Drone): nat {
    if d.status == Running && d.currentStop <= LastStop + 1 then LastStop + 1 - d.currentStop else 0
  }

  /**
   One firing of a running drone, before the last stop: the stop rises by
   exactly one, `{stop, finished: false, etaToNextMs}` is published with
   the next leg (0 after the last leg), and exactly one next timer is
   pending with that delay.
   */
  lemma FireAdvances(s: Service, i: nat, now: int)
    requires Inv(s) && i < |s.drones| && s.drones[i].status == Running && s.drones[i].currentStop < LastStop
    ensures var s' := Fire(s, i, now);
      var d := s.drones[i];
      var d' := s'.drones[i];
      var legs := s.timers[i].value.run.legs;
      && Inv(s')
      && d' == d.(currentStop := d.currentStop + 1)
      && s'.bus.published[d.id] == s.bus.published[d.id] + [DroneEvent(d'.currentStop, false, Some(LegDelay(legs, d.currentStop)), None, None)]
      && s'.timers[i] == Some(Timer(d.currentStop, LegDelay(legs, d.currentStop), Run(legs, d'.currentStop + 1)))
      && Remaining(d') + 1 == Remaining(d)
  {
    var t := s.timers[i].value;
    assert DroneInv(s.drones[i], s.timers[i], s.bus.published[CatalogIds[i]]);
    assert Fire(s, i, now) == Advance(s, i, t);
    AdvanceSlot(s, i, t);
    InvFromSlot(s, Advance(s, i, t), i);
  }

  /** The slot `Advance` writes, and that it keeps the drone's invariant. */
  lemma AdvanceSlot(s: Service, i: nat, t: Timer)
    requires Shape(s) && i < |s.drones| && s.drones[i].status == Running && s.drones[i].currentStop < LastStop
    requires DroneInv(s.drones[i], Some(t), s.bus.published[CatalogIds[i]])
    ensures var s' := Advance(s, i, t);
      var d := s.drones[i];
      var d' := s'.drones[i];
      var legs := t.run.legs;
      && d' == d.(currentStop := d.currentStop + 1)
      && s'.bus.published[d.id] == s.bus.published[d.id] + [DroneEvent(d'.currentStop, false, Some(LegDelay(legs, d.currentStop)), None, None)]
      && s'.timers[i] == Some(Timer(d.currentStop, LegDelay(legs, d.currentStop), Run(legs, d'.currentStop + 1)))
      && Remaining(d') + 1 == Remaining(d)
      && DroneInv(d', s'.timers[i], s'.bus.published[CatalogIds[i]])
      && (forall j :: 0 <= j < |s.drones| && j != i ==> s'.bus.published[CatalogIds[j]] == s.bus.published[CatalogIds[j]])
  {
    var d := s.drones[i];
    CatalogDistinct();
    assert d.id == CatalogIds[i];
    TimerInvNext(d, t);
    var s' := Advance(s, i, t);
    var e := DroneEvent(t.run.nextStop, false, Some(NextTimer(t).delay), None, None);
    assert s'.bus.published[d.id] == s.bus.published[d.id] + [e];
    assert Last(s'.bus.published[d.id]) == e;
  }

  /** The timer left behind by a leg agrees with the stop just reached. */
  lemma TimerInvNext(d: Drone, t: Timer)
    requires TimerInv(d, t) && d.currentStop < LastStop
    ensures TimerInv(d.(currentStop := d.currentStop + 1), NextTimer(t))
  {
  }

  /**
   The firing after the last stop: the drone finishes at `now`, the
   terminal event `{stop: 10, finished: true, startedAt, finishedAt}` is
   published and no timer is left pending.
   */
  lemma FireFinishes(s: Service, i: nat, now: int)
    requires Inv(s) && i < |s.drones| && s.drones[i].status == Running && s.drones[i].currentStop == LastStop
    ensures var s' := Fire(s, i, now);
      var d := s.drones[i];
      var d' := s'.drones[i];
      && Inv(s')
      && d' == d.(status := Finished, finishedAt := Some(now))
      && s'.bus.published[d.id] == s.bus.published[d.id] + [DroneEvent(LastStop, true, None, d.startedAt, Some(now))]
      && s'.timers[i].None?
      && s.timers[i].value.delay == 0
      && Remaining(d') == 0
  {
    var d := s.drones[i];
    assert d.id == CatalogIds[i];
    assert DroneInv(d, s.timers[i], s.bus.published[d.id]);
    CatalogFacts();
    var s' := Fire(s, i, now);
    assert s' == Finish(s, i, now);
    assert DroneInv(s'.drones[i], s'.timers[i], s'.bus.published[CatalogIds[i]]);
    InvFromSlot(s, s', i);
  }

  /** A timer firing keeps the invariant, whatever the drone's state. */
  lemma FireInv(s: Service, i: nat, now: int)
    requires Inv(s) && i < |s.drones|
    ensures Inv(Fire(s, i, now))
  {
    if s.timers[i].Some? {
      if s.drones[i].currentStop < LastStop {
        FireAdvances(s, i, now);
      } else {
        FireFinishes(s, i, now);
      }
    }
  }

  /** A launch keeps the invariant, whatever the drone's state. */
  lemma LaunchInv(s: Service, id: string, now: int, draw: Draw)
    requires Inv(s) && ValidDraw(draw)
    ensures Launch(s, id, now, draw).Success? ==> Inv(Launch(s, id, now, draw).value.0)
  {
    FindInShape(s, id);
    CatalogFacts();
    if id in CatalogIds {
      var i :| 0 <= i < |CatalogIds| && CatalogIds[i] == id;
      if s.drones[i].status == Running {
        LaunchWhileRunning(s, i, now, draw);
      } else {
        LaunchFromRest(s, i, now, draw);
      }
    }
  }
}
