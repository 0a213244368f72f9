/**
 What the two web clients keep per drone, and the pieces of their list
 handling they share: applying a stream patch to the matching entry,
 numbering the leaderboard, and the race duration the finished drones
 are ranked by. The status type is a parameter: one client normalises it
 to an enumeration, the other keeps the wire string.
 */
module Views {
  import opened Common
  import opened Lists

  const TotalStops: int := 10

  /** A drone as a client shows it. */
  datatype DroneVM<S> = DroneVM(
    id: string,
    name: string,
    model: string,
    photo: string,
    status: S,
    currentStop: int,
    progressPct: real,
    startedAt: Option<int>,
    finishedAt: Option<int>)

  /**
   The patch a stream message produces. All five keys are present, an
   `undefined` value included, so spreading the patch over the drone
   overwrites every one of them.
   */
  datatype Patch<S> = Patch(
    status: S,
    currentStop: int,
    startedAt: Option<int>,
    finishedAt: Option<int>,
    progressPct: real)

  function ApplyPatch<S>(d: DroneVM<S>, p: Patch<S>): DroneVM<S> {
    d.(status := p.status, currentStop := p.currentStop, startedAt := p.startedAt,
       finishedAt := p.finishedAt, progressPct := p.progressPct)
  }

  /**
   `updateDrone(id, patch)`: the list keeps its length and order, every
   entry keeps its identity, the entries with that id are patched and the
   others are left as they were.
   */
  function UpdateDrone<S>(list: seq<DroneVM<S>>, id: string, p: Patch<S>): (r: seq<DroneVM<S>>)
    ensures |r| == |list|
    ensures forall i :: 0 <= i < |list| ==>
      r[i].id == list[i].id && r[i].name == list[i].name && r[i].model == list[i].model && r[i].photo == list[i].photo
    ensures forall i :: 0 <= i < |list| && list[i].id != id ==> r[i] == list[i]
    ensures forall i :: 0 <= i < |list| && list[i].id == id ==>
      && r[i].status == p.status && r[i].currentStop == p.currentStop
      && r[i].startedAt == p.startedAt && r[i].finishedAt == p.finishedAt
      && r[i].progressPct == p.progressPct
    ensures forall i :: 0 <= i < |list| && list[i].id == id ==> r[i] == ApplyPatch(list[i], p)
  {
    if list == [] then []
    else
      var rest := UpdateDrone(list[1..], id, p);
      var r := [if list[0].id == id then ApplyPatch(list[0], p) else list[0]] + rest;
      assert forall i :: 1 <= i < |list| ==> r[i] == rest[i - 1] && list[i] == list[1..][i - 1];
      r
  }

  /** Applying the same message twice is applying it once. */
  lemma UpdateDroneIdempotent<S>(list: seq<DroneVM<S>>, id: string, p: Patch<S>)
    ensures UpdateDrone(UpdateDrone(list, id, p), id, p) == UpdateDrone(list, id, p)
  {
    var once := UpdateDrone(list, id, p);
    var twice := UpdateDrone(once, id, p);
    assert forall i :: 0 <= i < |list| ==> twice[i] == once[i];
  }

  /** A later message for the same drone overrides an earlier one entirely. */
  lemma UpdateDroneLastWins<S>(list: seq<DroneVM<S>>, id: string, p: Patch<S>, q: Patch<S>)
    ensures UpdateDrone(UpdateDrone(list, id, p), id, q) == UpdateDrone(list, id, q)
  {
    var a := UpdateDrone(UpdateDrone(list, id, p), id, q);
    var b := UpdateDrone(list, id, q);
    assert forall i :: 0 <= i < |list| ==> a[i] == b[i];
  }

  /** Messages for different drones can be applied in either order. */
  lemma UpdateDroneCommutes<S>(list: seq<DroneVM<S>>, id1: string, p: Patch<S>, id2: string, q: Patch<S>)
    requires id1 != id2
    ensures UpdateDrone(UpdateDrone(list, id1, p), id2, q) == UpdateDrone(UpdateDrone(list, id2, q), id1, p)
  {
    var a := UpdateDrone(UpdateDrone(list, id1, p), id2, q);
    var b := UpdateDrone(UpdateDrone(list, id2, q), id1, p);
    assert forall i :: 0 <= i < |list| ==> a[i] == b[i];
  }

  // ---------- leaderboard rows ----------

  datatype LeaderboardItem = LeaderboardItem(id: string, name: string, stop: int, rank: int)

  /** One leaderboard row per drone, in order, ranked from `from + 1` upwards. */
  function RankedFrom<S>(ds: seq<DroneVM<S>>, from: nat): (items: seq<LeaderboardItem>)
    ensures |items| == |ds|
    ensures forall i :: 0 <= i < |ds| ==>
      items[i] == LeaderboardItem(ds[i].id, ds[i].name, ds[i].currentStop, from + i + 1)
  {
    if ds == [] then []
    else [LeaderboardItem(ds[0].id, ds[0].name, ds[0].currentStop, from + 1)] + RankedFrom(ds[1..], from + 1)
  }

  /** The rows of a leaderboard: one per drone, in order, ranked 1..n. */
  function Ranked<S>(ds: seq<DroneVM<S>>): (items: seq<LeaderboardItem>)
    ensures |items| == |ds|
    ensures forall i :: 0 <= i < |ds| ==> items[i].id == ds[i].id && items[i].name == ds[i].name && items[i].stop == ds[i].currentStop
    ensures forall i :: 0 <= i < |items| ==> items[i].rank == i + 1
  {
    RankedFrom(ds, 0)
  }

  /** The time a finished drone took, `finishedAt - startedAt` (0 when a timestamp is missing). */
  function Duration<S>(d: DroneVM<S>): int {
    if d.startedAt.Some? && d.finishedAt.Some? then d.finishedAt.value - d.startedAt.value else 0
  }

  /** The duration comparator read as a preorder: `a` sorts no later than `b`. */
  predicate ByDuration<S>(a: DroneVM<S>, b: DroneVM<S>) {
    Duration(a) <= Duration(b)
  }

  lemma ByDurationConsistent<S(!new)>()
    ensures TotalPreorder(ByDuration<S>)
  {
  }

  /** `((stop - 1) / (TOTAL_STOPS - 1)) * 100`, before any clamping. */
  function RawPct(stop: int): real {
    (stop - 1) as real / (TotalStops - 1) as real * 100.0
  }

  /** The unclamped percentage is exact at both ends and rises with the stop. */
  lemma RawPctFacts(a: int, b: int)
    ensures RawPct(1) == 0.0 && RawPct(TotalStops) == 100.0
    ensures a <= b ==> RawPct(a) <= RawPct(b)
    ensures RawPct(a) >= 0.0 <==> a >= 1
    ensures RawPct(a) <= 100.0 <==> a <= TotalStops
  {
  }
}
