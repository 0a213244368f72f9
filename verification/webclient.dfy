/**
 The client under `web`: it keeps the server's status string as it is,
 folds stream messages into its list without clamping the stop, and
 builds a leaderboard of every drone: the finished ones by race time,
 then the ones still racing by stop (furthest first) and name. It also
 derives whether the race is over, the winner, and a colour per drone.
 */
module WebClient {
  import opened Common
  import opened Lists
  import opened Names
  import opened Views

  type VM = DroneVM<string>

  const FinishedName: string := "finished"

  /** The four marker colours, in order. */
  const Palette: seq<string> := ["bg-blue-600", "bg-emerald-600", "bg-rose-600", "bg-amber-600"]

  /** A drone as the server's list returns it, read without a declared shape. */
  datatype RawDrone = RawDrone(
    id: string,
    name: string,
    model: string,
    status: string,
    currentStop: Option<int>,
    startedAt: Option<int>,
    finishedAt: Option<int>)

  /**
   The raw percentage capped at 100 but not clamped below, so a stop
   before the first gives a negative percentage.
   */
  function Progress(stop: int): (pct: real)
    ensures pct <= 100.0
    ensures pct >= 0.0 <==> stop >= 1
    ensures 1 <= stop <= TotalStops ==> pct == RawPct(stop)
  {
    RawPctFacts(stop, stop);
    MinR(100.0, RawPct(stop))
  }

  /** The `loadList` mapping: status passed through, stop 1 when absent. */
  function FromServer(d: RawDrone): (vm: VM)
    ensures vm.id == d.id && vm.name == d.name && vm.model == d.model
    ensures vm.photo == "/images/" + d.id + ".png"
    ensures vm.status == d.status
    ensures vm.currentStop == (if d.currentStop.Some? then d.currentStop.value else 1)
    ensures vm.progressPct <= 100.0 && vm.progressPct == Progress(vm.currentStop)
    ensures vm.progressPct >= 0.0 <==> vm.currentStop >= 1
    ensures vm.startedAt == d.startedAt && vm.finishedAt == d.finishedAt
  {
    var stop := d.currentStop.GetOr(1);
    DroneVM(d.id, d.name, d.model, "/images/" + d.id + ".png", d.status, stop, Progress(stop),
            d.startedAt, d.finishedAt)
  }

  /** A server that omits nothing but reports stop 0 would be shown below 0%. */
  lemma NegativeProgress()
    ensures FromServer(RawDrone("d1", "Falcon", "DJI Mini 4 Pro", "idle", Some(0), None, None)).progressPct < 0.0
  {
  }

  /**
   The patch `onmessage` derives: "finished" exactly on a finished
   message, "running" otherwise; the stop exactly as sent; the finish time
   only on a finished message.
   */
  function StreamPatch(data: DroneEvent): (p: Patch<string>)
    ensures p.status == (if data.finished then FinishedName else "running")
    ensures p.currentStop == data.stop
    ensures p.progressPct <= 100.0 && p.progressPct == Progress(data.stop)
    ensures p.finishedAt == (if data.finished then data.finishedAt else None)
    ensures p.startedAt == data.startedAt
  {
    Patch(if data.finished then FinishedName else "running", data.stop, data.startedAt,
          if data.finished then data.finishedAt else None, Progress(data.stop))
  }

  /** `onmessage`: the stream stays open after every message. */
  function OnMessage(list: seq<VM>, id: string, data: DroneEvent): (r: seq<VM>)
    ensures r == UpdateDrone(list, id, StreamPatch(data))
  {
    UpdateDrone(list, id, StreamPatch(data))
  }

  /** The list after `onmessage` has taken every message of `msgs`, in order. */
  function Follow(list: seq<VM>, id: string, msgs: seq<DroneEvent>): (r: seq<VM>)
    ensures |r| == |list|
    ensures forall i :: 0 <= i < |list| ==> r[i].id == list[i].id
    ensures forall i :: 0 <= i < |list| && list[i].id != id ==> r[i] == list[i]
    ensures msgs == [] ==> r == list
    decreases |msgs|
  {
    if msgs == [] then list else Follow(OnMessage(list, id, msgs[0]), id, msgs[1..])
  }

  /** Each message overwrites everything the earlier ones set: only the last one shows. */
  lemma {:induction false} FollowLastWins(list: seq<VM>, id: string, msgs: seq<DroneEvent>)
    requires msgs != []
    ensures Follow(list, id, msgs) == OnMessage(list, id, msgs[|msgs| - 1])
    decreases |msgs|
  {
    var l1 := OnMessage(list, id, msgs[0]);
    if |msgs| > 1 {
      FollowLastWins(l1, id, msgs[1..]);
      assert msgs[1..][|msgs[1..]| - 1] == msgs[|msgs| - 1];
      UpdateDroneLastWins(list, id, StreamPatch(msgs[0]), StreamPatch(msgs[|msgs| - 1]));
    }
  }

  /**
   After a stream that ends with the terminal message, the drone shows
   "finished" at the last stop, at 100%, with the race's timestamps,
   whatever came before it.
   */
  lemma FollowToFinish(list: seq<VM>, id: string, msgs: seq<DroneEvent>, startedAt: Option<int>, finishedAt: int)
    requires msgs != []
    requires msgs[|msgs| - 1] == DroneEvent(TotalStops, true, None, startedAt, Some(finishedAt))
    ensures forall i :: 0 <= i < |list| && list[i].id == id ==>
      && Follow(list, id, msgs)[i].status == FinishedName
      && Follow(list, id, msgs)[i].currentStop == TotalStops
      && Follow(list, id, msgs)[i].progressPct == 100.0
      && Follow(list, id, msgs)[i].startedAt == startedAt
      && Follow(list, id, msgs)[i].finishedAt == Some(finishedAt)
  {
    FollowLastWins(list, id, msgs);
    RawPctFacts(TotalStops, TotalStops);
  }

  // ---------- leaderboard ----------

  predicate FinishedWithTimes(d: VM) {
    d.status == FinishedName && d.startedAt.Some? && d.finishedAt.Some?
  }

  predicate InRace(d: VM) {
    d.status != FinishedName
  }

  /** The comparator: further stop first, then name order. */
  predicate ByStopThenName(a: VM, b: VM) {
    a.currentStop > b.currentStop || (a.currentStop == b.currentStop && StrLe(a.name, b.name))
  }

  lemma ByStopThenNameConsistent()
    ensures TotalPreorder(ByStopThenName)
  {
    forall a: VM, b: VM ensures ByStopThenName(a, b) || ByStopThenName(b, a) {
      StrLeTotal(a.name, b.name);
    }
    forall a: VM, b: VM, c: VM | ByStopThenName(a, b) && ByStopThenName(b, c) ensures ByStopThenName(a, c) {
      if a.currentStop == b.currentStop == c.currentStop {
        StrLeTrans(a.name, b.name, c.name);
      }
    }
  }

  /** The two tied drones have the same stop and the same name. */
  lemma ByStopThenNameTies(a: VM, b: VM)
    requires Tied(ByStopThenName, a, b)
    ensures a.currentStop == b.currentStop && a.name == b.name
  {
    StrLeAntisymmetric(a.name, b.name);
  }

  function FinishedPart(ds: seq<VM>): seq<VM> {
    SortBy(Filter(ds, FinishedWithTimes), ByDuration)
  }

  function InRacePart(ds: seq<VM>): seq<VM> {
    SortBy(Filter(ds, InRace), ByStopThenName)
  }

  /** The finished drones first, then the drones still racing. */
  function Ordered(ds: seq<VM>): seq<VM> {
    FinishedPart(ds) + InRacePart(ds)
  }

  /** The `leaderboard()` rows. */
  function Leaderboard(ds: seq<VM>): seq<LeaderboardItem> {
    Ranked(Ordered(ds))
  }

  /**
   The leaderboard holds every drone still racing and every finished drone
   with both timestamps, each as often as in the list; a finished drone
   missing a timestamp is in neither part. Rows are ranked 1..n.
   */
  lemma LeaderboardContents(ds: seq<VM>)
    ensures forall d :: multiset(Ordered(ds))[d] == if FinishedWithTimes(d) || InRace(d) then multiset(ds)[d] else 0
    ensures forall d: VM :: d.status == FinishedName && (d.startedAt.None? || d.finishedAt.None?) ==> d !in Ordered(ds)
    ensures |Leaderboard(ds)| == |Ordered(ds)|
    ensures forall i :: 0 <= i < |Leaderboard(ds)| ==>
      Leaderboard(ds)[i].rank == i + 1 && Leaderboard(ds)[i].id == Ordered(ds)[i].id
  {
    var o := Ordered(ds);
    forall d ensures multiset(o)[d] == if FinishedWithTimes(d) || InRace(d) then multiset(ds)[d] else 0 {
      OrderedCount(ds, d);
    }
    forall d: VM | d.status == FinishedName && (d.startedAt.None? || d.finishedAt.None?) ensures d !in o {
      OrderedCount(ds, d);
      assert multiset(o)[d] == 0;
    }
  }

  lemma OrderedCount(ds: seq<VM>, d: VM)
    ensures multiset(Ordered(ds))[d] == if FinishedWithTimes(d) || InRace(d) then multiset(ds)[d] else 0
  {
    assert multiset(Ordered(ds)) == multiset(Filter(ds, FinishedWithTimes)) + multiset(Filter(ds, InRace));
    FilterCount(ds, FinishedWithTimes, d);
    FilterCount(ds, InRace, d);
  }

  /** The finished drones come first, then the drones still racing. */
  lemma LeaderboardParts(ds: seq<VM>)
    ensures forall i :: 0 <= i < |FinishedPart(ds)| ==> FinishedWithTimes(Ordered(ds)[i])
    ensures forall i :: |FinishedPart(ds)| <= i < |Ordered(ds)| ==> InRace(Ordered(ds)[i])
  {
    PartMembers(Filter(ds, FinishedWithTimes), FinishedWithTimes, ByDuration);
    PartMembers(Filter(ds, InRace), InRace, ByStopThenName);
    ConcatParts(FinishedPart(ds), InRacePart(ds), FinishedWithTimes, InRace);
  }

  /**
   Within the finished part, fastest first; within the drones still
   racing, furthest stop first, then by name.
   */
  lemma LeaderboardOrder(ds: seq<VM>)
    ensures forall i, j :: 0 <= i < j < |FinishedPart(ds)| ==> ByDuration(Ordered(ds)[i], Ordered(ds)[j])
    ensures forall i, j :: |FinishedPart(ds)| <= i < j < |Ordered(ds)| ==> ByStopThenName(Ordered(ds)[i], Ordered(ds)[j])
  {
    FinishedPartSorted(ds);
    InRacePartSorted(ds);
    ConcatSorted(FinishedPart(ds), InRacePart(ds), ByDuration, ByStopThenName);
  }

  lemma ConcatSorted<T>(a: seq<T>, b: seq<T>, le1: (T, T) -> bool, le2: (T, T) -> bool)
    requires SortedBy(a, le1) && SortedBy(b, le2)
    ensures forall i, j :: 0 <= i < j < |a| ==> le1((a + b)[i], (a + b)[j])
    ensures forall i, j :: |a| <= i < j < |a + b| ==> le2((a + b)[i], (a + b)[j])
  {
    forall i, j | 0 <= i < j < |a| ensures le1((a + b)[i], (a + b)[j]) {
      assert (a + b)[i] == a[i] && (a + b)[j] == a[j];
    }
    forall i, j | |a| <= i < j < |a + b| ensures le2((a + b)[i], (a + b)[j]) {
      assert (a + b)[i] == b[i - |a|] && (a + b)[j] == b[j - |a|];
    }
  }

  /** The finished part is empty exactly when no drone finished with both timestamps. */
  lemma FinishedPartEmpty(ds: seq<VM>)
    ensures |FinishedPart(ds)| == 0 <==> forall i :: 0 <= i < |ds| ==> !FinishedWithTimes(ds[i])
  {
    var f := Filter(ds, FinishedWithTimes);
    if exists i :: 0 <= i < |ds| && FinishedWithTimes(ds[i]) {
      var i :| 0 <= i < |ds| && FinishedWithTimes(ds[i]);
      FilterKeeps(ds, FinishedWithTimes, i);
    }
  }

  lemma ConcatParts<T>(a: seq<T>, b: seq<T>, p: T -> bool, q: T -> bool)
    requires forall i :: 0 <= i < |a| ==> p(a[i])
    requires forall i :: 0 <= i < |b| ==> q(b[i])
    ensures forall i :: 0 <= i < |a| ==> p((a + b)[i])
    ensures forall i :: |a| <= i < |a + b| ==> q((a + b)[i])
  {
    forall i | |a| <= i < |a + b| ensures q((a + b)[i]) {
      assert (a + b)[i] == b[i - |a|];
    }
  }

  /** A sorted filter holds only elements the filter keeps. */
  lemma PartMembers(f: seq<VM>, p: VM -> bool, le: (VM, VM) -> bool)
    requires forall i :: 0 <= i < |f| ==> p(f[i])
    ensures forall i :: 0 <= i < |SortBy(f, le)| ==> p(SortBy(f, le)[i])
  {
    var r := SortBy(f, le);
    forall i | 0 <= i < |r| ensures p(r[i]) {
      assert r[i] in multiset(f);
    }
  }

  lemma FinishedPartSorted(ds: seq<VM>)
    ensures SortedBy(FinishedPart(ds), ByDuration)
  {
    ByDurationConsistent<string>();
    SortBySorted(Filter(ds, FinishedWithTimes), ByDuration);
  }

  lemma InRacePartSorted(ds: seq<VM>)
    ensures SortedBy(InRacePart(ds), ByStopThenName)
  {
    ByStopThenNameConsistent();
    SortBySorted(Filter(ds, InRace), ByStopThenName);
  }

  /** Drones with the same stop and name keep their list order among the ones still racing. */
  lemma InRaceStable(ds: seq<VM>, z: VM)
    ensures Filter(InRacePart(ds), TiedWith(z, ByStopThenName)) == Filter(Filter(ds, InRace), TiedWith(z, ByStopThenName))
  {
    ByStopThenNameConsistent();
    SortByStable(Filter(ds, InRace), ByStopThenName, z);
  }

  // ---------- race over, winner, colours ----------

  predicate AtRest(d: VM) {
    d.status == FinishedName || d.finishedAt.Some? || d.currentStop >= TotalStops
  }

  /** `allFinished`: some drone, and every one finished, timed out at the finish, or at the last stop. */
  function AllFinished(ds: seq<VM>): (r: bool)
    ensures r <==> |ds| > 0 && forall i :: 0 <= i < |ds| ==> AtRest(ds[i])
  {
    if |ds| == 0 then false else Every(ds, AtRest)
  }

  /** `winnerId`: the leaderboard's head once the race is over. */
  function WinnerId(ds: seq<VM>): (w: Option<string>) {
    var lb := Leaderboard(ds);
    if AllFinished(ds) && |lb| > 0 then Some(lb[0].id) else None
  }

  /** A winner is named exactly when the race is over and the leaderboard is not empty. */
  lemma WinnerNamed(ds: seq<VM>)
    ensures WinnerId(ds).Some? <==> AllFinished(ds) && exists i :: 0 <= i < |ds| && (FinishedWithTimes(ds[i]) || InRace(ds[i]))
    ensures WinnerId(ds).Some? ==> WinnerId(ds).value == Ordered(ds)[0].id
  {
    OrderedNonEmpty(ds);
  }

  /** The leaderboard has a row exactly when some drone is finished with both timestamps or still racing. */
  lemma OrderedNonEmpty(ds: seq<VM>)
    ensures |Ordered(ds)| > 0 <==> exists i :: 0 <= i < |ds| && (FinishedWithTimes(ds[i]) || InRace(ds[i]))
  {
    FilterNonEmpty(ds, FinishedWithTimes);
    FilterNonEmpty(ds, InRace);
  }

  /** When some drone finished with both timestamps, the winner is the fastest of those. */
  lemma WinnerFastest(ds: seq<VM>)
    requires exists i :: 0 <= i < |ds| && FinishedWithTimes(ds[i])
    ensures WinnerId(ds).Some? ==>
      exists k :: 0 <= k < |ds| && FinishedWithTimes(ds[k]) && ds[k].id == WinnerId(ds).value &&
        forall j :: 0 <= j < |ds| && FinishedWithTimes(ds[j]) ==> Duration(ds[k]) <= Duration(ds[j])
  {
    if WinnerId(ds).Some? {
      WinnerNamed(ds);
      FastestFinished(ds);
    }
  }

  /** The head of the finished part is a finished drone of the list, and no finished drone is faster. */
  lemma FastestFinished(ds: seq<VM>)
    requires exists i :: 0 <= i < |ds| && FinishedWithTimes(ds[i])
    ensures |FinishedPart(ds)| > 0 && Ordered(ds)[0] == FinishedPart(ds)[0]
    ensures FinishedPart(ds)[0] in ds && FinishedWithTimes(FinishedPart(ds)[0])
    ensures forall j :: 0 <= j < |ds| && FinishedWithTimes(ds[j]) ==> Duration(FinishedPart(ds)[0]) <= Duration(ds[j])
  {
    var f := Filter(ds, FinishedWithTimes);
    var fp := FinishedPart(ds);
    FinishedPartEmpty(ds);
    FinishedPartSorted(ds);
    assert fp[0] in multiset(f);
    forall j | 0 <= j < |ds| && FinishedWithTimes(ds[j]) ensures Duration(fp[0]) <= Duration(ds[j]) {
      FilterKeeps(ds, FinishedWithTimes, j);
      assert ds[j] in multiset(fp);
      var n :| 0 <= n < |fp| && fp[n] == ds[j];
      if n > 0 {
        assert ByDuration(fp[0], fp[n]);
      }
    }
  }

  /**
   When no drone finished with both timestamps, the winner is the drone
   still racing that comes first by stop and name.
   */
  lemma WinnerFirstInRace(ds: seq<VM>)
    requires forall i :: 0 <= i < |ds| ==> !FinishedWithTimes(ds[i])
    ensures WinnerId(ds).Some? ==>
      exists k :: 0 <= k < |ds| && InRace(ds[k]) && ds[k].id == WinnerId(ds).value &&
        forall j :: 0 <= j < |ds| && InRace(ds[j]) ==> ByStopThenName(ds[k], ds[j])
  {
    if WinnerId(ds).Some? {
      WinnerNamed(ds);
      FinishedPartEmpty(ds);
      assert Ordered(ds) == InRacePart(ds);
      FirstInRace(ds);
    }
  }

  /** The head of the drones still racing is one of the list's, and comes first by stop and name. */
  lemma FirstInRace(ds: seq<VM>)
    requires |InRacePart(ds)| > 0
    ensures InRacePart(ds)[0] in ds && InRace(InRacePart(ds)[0])
    ensures forall j :: 0 <= j < |ds| && InRace(ds[j]) ==> ByStopThenName(InRacePart(ds)[0], ds[j])
  {
    var f := Filter(ds, InRace);
    var ip := InRacePart(ds);
    InRacePartSorted(ds);
    assert ip[0] in multiset(f);
    forall j | 0 <= j < |ds| && InRace(ds[j]) ensures ByStopThenName(ip[0], ds[j]) {
      FilterKeeps(ds, InRace, j);
      assert ds[j] in multiset(ip);
      var n :| 0 <= n < |ip| && ip[n] == ds[j];
      if n > 0 {
        assert ByStopThenName(ip[0], ip[n]);
      } else {
        StrLeTotal(ip[0].name, ip[0].name);
      }
    }
  }

  /**
   `colorFor`: the palette entry at the drone's list position modulo 4, or
   the first entry when the drone is not in the list.
   */
  function ColorFor(ds: seq<VM>, d: VM): (c: string)
    ensures c in Palette
    ensures FindIndex(ds, (x: VM) => x.id == d.id) >= 0 ==> c == Palette[FindIndex(ds, (x: VM) => x.id == d.id) % 4]
    ensures FindIndex(ds, (x: VM) => x.id == d.id) < 0 ==> c == Palette[0]
  {
    var idx := FindIndex(ds, (x: VM) => x.id == d.id);
    var safe := if idx >= 0 then idx % |Palette| else 0;
    Palette[safe]
  }

  /** With distinct ids, drones four places apart share a colour and neighbours within four do not. */
  lemma ColorsCycle(ds: seq<VM>, i: nat, j: nat)
    requires forall a, b :: 0 <= a < b < |ds| ==> ds[a].id != ds[b].id
    requires i < |ds| && j < |ds|
    ensures ColorFor(ds, ds[i]) == ColorFor(ds, ds[j]) <==> i % 4 == j % 4
  {
    FindIndexOfDistinct(ds, i);
    FindIndexOfDistinct(ds, j);
  }

  /** With distinct ids, a drone is found at its own position. */
  lemma FindIndexOfDistinct(ds: seq<VM>, i: nat)
    requires forall a, b :: 0 <= a < b < |ds| ==> ds[a].id != ds[b].id
    requires i < |ds|
    ensures FindIndex(ds, (x: VM) => x.id == ds[i].id) == i
  {
    var p := (x: VM) => x.id == ds[i].id;
    var k := FindIndex(ds, p);
    assert p(ds[i]);
    assert k >= 0 && k <= i;
  }
}
