/** The plant record (interface/plants.ts) and the views of a plant list
    that the store's properties are stated in: its ids in order, its set of
    ids, and whether the ids are distinct. */
module Plants {
  import opened Wrappers

  /** One houseplant. `lastWateredDate` is `None` when the plant has never
      been watered; a timestamp is an abstract integer. `imageUri` is the
      optional photo reference; `frequency` is the watering interval in
      days, which the record itself does not constrain. */
  datatype Plant = Plant(
    id: string,
    name: string,
    lastWateredDate: Option<int>,
    imageUri: Option<string>,
    frequency: int)

  /** The ids of a list, position by position. */
  function Ids(ps: seq<Plant>): (r: seq<string>)
    ensures |r| == |ps|
    ensures forall i :: 0 <= i < |ps| ==> r[i] == ps[i].id
  {
    if ps == [] then [] else [ps[0].id] + Ids(ps[1..])
  }

  /** The ids present in a list. */
  function IdSet(ps: seq<Plant>): set<string>
  {
    set p | p in ps :: p.id
  }

  /** No two records of the list share an id. The store never checks this
      itself; it is the invariant its callers are expected to keep. */
  predicate UniqueIds(ps: seq<Plant>)
  {
    forall i, j :: 0 <= i < j < |ps| ==> ps[i].id != ps[j].id
  }

  /** `a` and `b` agree on every field except possibly `lastWateredDate`. */
  predicate SameExceptWatering(a: Plant, b: Plant)
  {
    a.id == b.id && a.name == b.name && a.imageUri == b.imageUri && a.frequency == b.frequency
  }
}
