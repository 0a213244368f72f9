/**
 The client under `apps/web`: it maps the server's list to view models
 with a normalised status, folds stream messages into its list (clamping
 the stop, closing the stream on the terminal message), and derives the
 leaderboard of finished drones, whether the race is over, and the
 winner.
 */
module AppsWebClient {
  import opened Common
  import opened Lists
  import opened Views

  type VM = DroneVM<Status>

  /** The stop a drone starts at, as the client knows it. */
  const FirstStopView: int := 1

  /** A drone as the server's list returns it; the stop may be absent. */
  datatype DroneDto = DroneDto(
    id: string,
    name: string,
    model: string,
    status: string,
    currentStop: Option<int>,
    startedAt: Option<int>,
    finishedAt: Option<int>)

  /** `normalizeStatus`: the three wire names map to their status, anything else to idle. */
  function NormalizeStatus(s: string): (st: Status)
    ensures s == "running" ==> st == Running
    ensures s == "finished" ==> st == Finished
    ensures s != "running" && s != "finished" ==> st == Idle
  {
    if s == "idle" then Idle
    else if s == "running" then Running
    else if s == "finished" then Finished
    else Idle
  }

  /** Reading back the wire name of a status gives that status. */
  lemma NormalizeRoundTrip(st: Status)
    ensures NormalizeStatus(StatusName(st)) == st
  {
  }

  /** The raw percentage clamped into [0, 100] on both sides. */
  function ClampedPct(stop: int): (pct: real)
    ensures 0.0 <= pct <= 100.0
    ensures FirstStopView <= stop <= TotalStops ==> pct == RawPct(stop)
    ensures stop <= FirstStopView ==> pct == 0.0
    ensures stop >= TotalStops ==> pct == 100.0
  {
    RawPctFacts(stop, stop);
    MinR(100.0, MaxR(0.0, RawPct(stop)))
  }

  /** `toVM`: stop 1 when the server omits it, a percentage in [0, 100]. */
  function ToVM(dto: DroneDto): (vm: VM)
    ensures vm.id == dto.id && vm.name == dto.name && vm.model == dto.model
    ensures vm.photo == "/images/" + dto.id + ".png"
    ensures vm.status == NormalizeStatus(dto.status)
    ensures dto.currentStop.None? ==> vm.currentStop == FirstStopView
    ensures dto.currentStop.Some? ==> vm.currentStop == dto.currentStop.value
    ensures 0.0 <= vm.progressPct <= 100.0 && vm.progressPct == ClampedPct(vm.currentStop)
    ensures vm.startedAt == dto.startedAt && vm.finishedAt == dto.finishedAt
  {
    var currentStop := dto.currentStop.GetOr(FirstStopView);
    DroneVM(dto.id, dto.name, dto.model, "/images/" + dto.id + ".png",
            NormalizeStatus(dto.status), currentStop, ClampedPct(currentStop),
            dto.startedAt, dto.finishedAt)
  }

  /**
   The patch `onmessage` derives from one stream message: the stop clamped
   into 1..10, finished exactly when the message says so (running
   otherwise, never idle), the finish time only on a finished message,
   the start time as sent.
   */
  function StreamPatch(data: DroneEvent): (p: Patch<Status>)
    ensures FirstStopView <= p.currentStop <= TotalStops
    ensures FirstStopView <= data.stop <= TotalStops ==> p.currentStop == data.stop
    ensures data.stop < FirstStopView ==> p.currentStop == FirstStopView
    ensures data.stop > TotalStops ==> p.currentStop == TotalStops
    ensures 0.0 <= p.progressPct <= 100.0 && p.progressPct == RawPct(p.currentStop)
    ensures p.status == Finished <==> data.finished
    ensures p.status != Idle
    ensures p.finishedAt == (if data.finished then data.finishedAt else None)
    ensures p.startedAt == data.startedAt
  {
    var stop := Max(FirstStopView, Min(TotalStops, data.stop));
    Patch(if data.finished then Finished else Running, stop, data.startedAt,
          if data.finished then data.finishedAt else None, ClampedPct(stop))
  }

  /** `onmessage`: the list after the message, and whether the stream is closed after it. */
  function OnMessage(list: seq<VM>, id: string, data: DroneEvent): (r: (seq<VM>, bool))
    ensures r.0 == UpdateDrone(list, id, StreamPatch(data))
    ensures r.1 <==> data.finished
  {
    (UpdateDrone(list, id, StreamPatch(data)), data.finished)
  }

  /**
   The messages an open stream hands to `onmessage`, in order: the list
   afterwards and how many messages were taken before the stream closed
   (all of them when none was finished).
   */
  function Consume(list: seq<VM>, id: string, msgs: seq<DroneEvent>): (r: (seq<VM>, nat))
    ensures r.1 <= |msgs|
    ensures forall j :: 0 <= j < r.1 - 1 ==> !msgs[j].finished
    ensures r.1 < |msgs| ==> r.1 > 0 && msgs[r.1 - 1].finished
    ensures |r.0| == |list|
    ensures forall i :: 0 <= i < |list| ==> r.0[i].id == list[i].id
    ensures forall i :: 0 <= i < |list| && list[i].id != id ==> r.0[i] == list[i]
    ensures r.1 == 0 <==> msgs == []
    ensures r.1 == 0 ==> r.0 == list
    ensures r.1 > 0 ==> forall i :: 0 <= i < |list| && list[i].id == id ==>
      r.0[i] == ApplyPatch(list[i], StreamPatch(msgs[r.1 - 1]))
    decreases |msgs|
  {
    if msgs == [] then (list, 0)
    else
      var (l1, closed) := OnMessage(list, id, msgs[0]);
      if closed then (l1, 1)
      else
        var (l2, n) := Consume(l1, id, msgs[1..]);
        (l2, n + 1)
  }

  /** What the stream of one whole race looks like: unfinished messages, then the terminal one. */
  predicate RaceStream(msgs: seq<DroneEvent>, startedAt: Option<int>, finishedAt: int) {
    && |msgs| >= 1
    && (forall j :: 0 <= j < |msgs| - 1 ==> !msgs[j].finished)
    && msgs[|msgs| - 1] == DroneEvent(TotalStops, true, None, startedAt, Some(finishedAt))
  }

  /**
   Following a whole race, the client takes every message, closes the
   stream on the last one, and ends showing the drone finished at the last
   stop, at 100%, with the race's timestamps; other drones are untouched.
   */
  lemma {:induction false} ConsumeRace(list: seq<VM>, id: string, msgs: seq<DroneEvent>, startedAt: Option<int>, finishedAt: int)
    requires RaceStream(msgs, startedAt, finishedAt)
    ensures Consume(list, id, msgs).1 == |msgs|
    ensures forall i :: 0 <= i < |list| && list[i].id == id ==>
      var d := Consume(list, id, msgs).0[i];
      && d.status == Finished && d.currentStop == TotalStops && d.progressPct == 100.0
      && d.startedAt == startedAt && d.finishedAt == Some(finishedAt)
    decreases |msgs|
  {
    if |msgs| > 1 {
      var l1 := OnMessage(list, id, msgs[0]).0;
      assert RaceStream(msgs[1..], startedAt, finishedAt) by {
        forall j | 0 <= j < |msgs[1..]| - 1 ensures !msgs[1..][j].finished {
          assert msgs[1..][j] == msgs[j + 1];
        }
      }
      ConsumeRace(l1, id, msgs[1..], startedAt, finishedAt);
    }
  }

  // ---------- leaderboard, race over, winner ----------

  /** Finished, with both timestamps. */
  predicate OnLeaderboard(d: VM) {
    d.status == Finished && d.startedAt.Some? && d.finishedAt.Some?
  }

  /** The finished drones, fastest first. */
  function FinishedByTime(ds: seq<VM>): seq<VM> {
    SortBy(Filter(ds, OnLeaderboard), ByDuration)
  }

  /** The `leaderboard` computed. */
  function Leaderboard(ds: seq<VM>): seq<LeaderboardItem> {
    Ranked(FinishedByTime(ds))
  }

  /**
   The leaderboard lists exactly the finished drones that have both
   timestamps, each as often as in the list, by ascending race time,
   ties in list order, ranked 1..n.
   */
  lemma LeaderboardSpec(ds: seq<VM>)
    ensures forall d :: multiset(FinishedByTime(ds))[d] == if OnLeaderboard(d) then multiset(ds)[d] else 0
    ensures forall i :: 0 <= i < |FinishedByTime(ds)| ==> OnLeaderboard(FinishedByTime(ds)[i])
    ensures forall i, j :: 0 <= i < j < |FinishedByTime(ds)| ==> Duration(FinishedByTime(ds)[i]) <= Duration(FinishedByTime(ds)[j])
    ensures forall z :: Filter(FinishedByTime(ds), TiedWith(z, ByDuration)) == Filter(Filter(ds, OnLeaderboard), TiedWith(z, ByDuration))
    ensures |Leaderboard(ds)| == |FinishedByTime(ds)|
    ensures forall i :: 0 <= i < |Leaderboard(ds)| ==>
      Leaderboard(ds)[i].rank == i + 1 && Leaderboard(ds)[i].id == FinishedByTime(ds)[i].id
  {
    var f := Filter(ds, OnLeaderboard);
    forall d ensures multiset(FinishedByTime(ds))[d] == if OnLeaderboard(d) then multiset(ds)[d] else 0 {
      FilterCount(ds, OnLeaderboard, d);
    }
    forall i | 0 <= i < |FinishedByTime(ds)| ensures OnLeaderboard(FinishedByTime(ds)[i]) {
      assert FinishedByTime(ds)[i] in multiset(f);
    }
    ByDurationConsistent<Status>();
    SortBySorted(f, ByDuration);
    forall z ensures Filter(FinishedByTime(ds), TiedWith(z, ByDuration)) == Filter(f, TiedWith(z, ByDuration)) {
      SortByStable(f, ByDuration, z);
    }
  }

  /** The leaderboard is empty exactly when no drone has finished with both timestamps. */
  lemma LeaderboardEmpty(ds: seq<VM>)
    ensures Leaderboard(ds) == [] <==> forall i :: 0 <= i < |ds| ==> !OnLeaderboard(ds[i])
  {
    var f := Filter(ds, OnLeaderboard);
    if exists i :: 0 <= i < |ds| && OnLeaderboard(ds[i]) {
      var i :| 0 <= i < |ds| && OnLeaderboard(ds[i]);
      FilterKeeps(ds, OnLeaderboard, i);
    }
  }

  predicate AtRest(d: VM) {
    d.status == Finished || d.currentStop >= TotalStops
  }

  /** `allFinished`: some drone, and every one finished or at the last stop. */
  function AllFinished(ds: seq<VM>): (r: bool)
    ensures r <==> |ds| > 0 && forall i :: 0 <= i < |ds| ==> AtRest(ds[i])
  {
    |ds| > 0 && Every(ds, AtRest)
  }

  /** `winnerId`: the leaderboard's head once the race is over. */
  function WinnerId(ds: seq<VM>): (w: Option<string>) {
    var lb := Leaderboard(ds);
    if AllFinished(ds) && |lb| > 0 then Some(lb[0].id) else None
  }

  /**
   A winner is named exactly when the race is over and some drone has
   finished with both timestamps; it is such a drone, and no finished
   drone took less time.
   */
  lemma WinnerSpec(ds: seq<VM>)
    ensures WinnerId(ds).Some? <==> AllFinished(ds) && exists i :: 0 <= i < |ds| && OnLeaderboard(ds[i])
    ensures WinnerId(ds).Some? ==>
      exists k :: 0 <= k < |ds| && OnLeaderboard(ds[k]) && ds[k].id == WinnerId(ds).value &&
        forall j :: 0 <= j < |ds| && OnLeaderboard(ds[j]) ==> Duration(ds[k]) <= Duration(ds[j])
  {
    FilterNonEmpty(ds, OnLeaderboard);
    if WinnerId(ds).Some? {
      Fastest(ds);
    }
  }

  /** The head of the finished drones by time is one of the list's, and none is faster. */
  lemma Fastest(ds: seq<VM>)
    requires |FinishedByTime(ds)| > 0
    ensures FinishedByTime(ds)[0] in ds && OnLeaderboard(FinishedByTime(ds)[0])
    ensures forall j :: 0 <= j < |ds| && OnLeaderboard(ds[j]) ==> Duration(FinishedByTime(ds)[0]) <= Duration(ds[j])
  {
    var f := Filter(ds, OnLeaderboard);
    var fb := FinishedByTime(ds);
    ByDurationConsistent<Status>();
    SortBySorted(f, ByDuration);
    assert fb[0] in multiset(f);
    forall j | 0 <= j < |ds| && OnLeaderboard(ds[j]) ensures Duration(fb[0]) <= Duration(ds[j]) {
      FilterKeeps(ds, OnLeaderboard, j);
      assert ds[j] in multiset(fb);
      var n :| 0 <= n < |fb| && fb[n] == ds[j];
      if n > 0 {
        assert ByDuration(fb[0], fb[n]);
      }
    }
  }
}
