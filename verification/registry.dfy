/**
 The entity registry of the race server: the race constants, the drone
 record and the fixed catalog of four drones, looked up by id.
 */
module Registry {
  import opened Common

  const NumStops: int := 10
  const MinTotalMs: int := 10_000
  const MaxTotalMs: int := 40_000
  const FirstStop: int := 1
  const LastStop: int := NumStops
  /** One leg between each pair of consecutive stops. */
  const LegCount: int := NumStops - 1

  /** A drone's state as the server keeps it; read operations return copies. */
  datatype Drone = Drone(
    id: string,
    name: string,
    model: string,
    status: Status,
    currentStop: int,
    totalMs: Option<int>,
    startedAt: Option<int>,
    finishedAt: Option<int>)

  /** A drone that has never been launched. */
  function Parked(id: string, name: string, model: string): Drone {
    Drone(id, name, model, Idle, FirstStop, None, None, None)
  }

  const CatalogIds: seq<string> := ["d1", "d2", "d3", "d4"]
  const CatalogIdSet: set<string> := {"d1", "d2", "d3", "d4"}

  /** The four drones created at start-up, in insertion order. */
  const Catalog: seq<Drone> := [
    Parked("d1", "Falcon", "DJI Mini 4 Pro"),
    Parked("d2", "Wasp", "DJI Neo Standard"),
    Parked("d3", "Hornet", "DJI Agras T25"),
    Parked("d4", "Raven", "DJI Inspire 3")
  ]

  /** The catalog is exactly d1..d4, in that order, all idle at the first stop. */
  lemma CatalogFacts()
    ensures |Catalog| == |CatalogIds| == 4
    ensures forall i :: 0 <= i < |Catalog| ==> Catalog[i].id == CatalogIds[i]
    ensures forall i :: 0 <= i < |Catalog| ==> Catalog[i].status == Idle && Catalog[i].currentStop == FirstStop
    ensures forall id :: id in CatalogIds <==> id in CatalogIdSet
    ensures forall i, j :: 0 <= i < j < |CatalogIds| ==> CatalogIds[i] != CatalogIds[j]
  {
  }

  /** The catalog ids are pairwise distinct. */
  lemma CatalogDistinct()
    ensures |CatalogIds| == 4
    ensures forall i, j :: 0 <= i < |CatalogIds| && 0 <= j < |CatalogIds| && i != j ==> CatalogIds[i] != CatalogIds[j]
  {
  }

  /** The id list and the id set name the same drones. */
  lemma CatalogKeys()
    ensures forall id :: id in CatalogIds <==> id in CatalogIdSet
  {
  }

  /** Position of the drone with the given id (the `Map.get` of the registry). */
  function Find(ds: seq<Drone>, id: string): (r: Option<nat>)
    ensures r.Some? ==> r.value < |ds| && ds[r.value].id == id
    ensures r.Some? ==> forall j :: 0 <= j < r.value ==> ds[j].id != id
    ensures r.None? <==> forall j :: 0 <= j < |ds| ==> ds[j].id != id
  {
    if ds == [] then None
    else if ds[0].id == id then Some(0)
    else match Find(ds[1..], id)
      case None => None
      case Some(k) => Some(k + 1)
  }

  /** `getById`: the drone with that id, or `NotFound`. */
  function GetById(ds: seq<Drone>, id: string): (r: Result<Drone>)
    ensures r.Failure? <==> forall j :: 0 <= j < |ds| ==> ds[j].id != id
    ensures r.Failure? ==> r.error == NotFound(id)
    ensures r.Success? ==> r.value in ds && r.value.id == id
  {
    match Find(ds, id)
    case None => Failure(NotFound(id))
    case Some(i) => Success(ds[i])
  }
}
