/** The plant-list store (store/list_plants_store.tsx): an in-memory list of
    plants with a loading flag and an initialized flag, and four
    write-through transitions. Every durable call is an input: the outcome
    the durable layer settled with is a parameter of the transition, and the
    transition reports which durable calls it made. Each transition is one
    atomic step; the one state `initializeStore` exposes while its durable
    calls are pending is modelled by `MarkLoading`. */
module ListPlantsStore {
  import opened Wrappers
  import opened Plants
  import opened PlantLists

  /** The store's data fields. */
  datatype State = State(plants: seq<Plant>, isLoading: bool, isInitialized: bool)

  /** The error a durable call was rejected with; the store never looks
      inside it. */
  datatype DbError = DbError(reason: string)

  /** A call the store makes on the durable layer, with its arguments. */
  datatype DbCall =
    | Initialize
    | GetAllPlants
    | AddPlantCall(plant: Plant)
    | RemovePlantCall(plantId: string)
    | WaterPlantCall(plantId: string)

  /** The effect of one transition: the state after it, how the returned
      promise settles, and the durable calls made, in order. */
  datatype Step = Step(state: State, result: Outcome<DbError>, calls: seq<DbCall>)

  /** The state the store is created in. */
  function Initial(): State
  {
    State([], false, false)
  }

  /** `a` and `b` agree on both flags; the plant lists may differ. */
  predicate SameFlags(a: State, b: State)
  {
    a.isLoading == b.isLoading && a.isInitialized == b.isInitialized
  }

  // ---------------------------------------------------------------------------
  // initializeStore
  // ---------------------------------------------------------------------------

  /** The state published before the durable calls of `initializeStore`
      are awaited. */
  function MarkLoading(s: State): (r: State)
    ensures r.isLoading
    ensures r.plants == s.plants && r.isInitialized == s.isInitialized
  {
    s.(isLoading := true)
  }

  /** The second half of `initializeStore`, from the loading state: open the
      durable layer (`connect`), then read every plant (`load`, consulted only
      when `connect` passed). A rejection of either is caught and logged, so
      the returned promise always resolves. */
  function FinishInitialize(s: State, connect: Outcome<DbError>, load: Result<seq<Plant>, DbError>): (r: Step)
    ensures r.result == Pass
    ensures !r.state.isLoading
    ensures connect.Fail? ==> r.calls == [Initialize]
    ensures connect.Pass? ==> r.calls == [Initialize, GetAllPlants]
    ensures connect.Pass? && load.Success? ==> r.state.plants == load.value && r.state.isInitialized
    ensures connect.Fail? || load.Failure? ==>
      r.state.plants == s.plants && r.state.isInitialized == s.isInitialized
  {
    match connect
    case Fail(_) => Step(s.(isLoading := false), Pass, [Initialize])
    case Pass =>
      match load
      case Failure(_) => Step(s.(isLoading := false), Pass, [Initialize, GetAllPlants])
      case Success(plants) =>
        Step(State(plants, false, true), Pass, [Initialize, GetAllPlants])
  }

  /** `initializeStore`: nothing at all once the store is initialized;
      otherwise mark loading and finish as above. */
  function InitializeStore(s: State, connect: Outcome<DbError>, load: Result<seq<Plant>, DbError>): (r: Step)
    ensures r.result == Pass
    ensures s.isInitialized ==> r.state == s && r.calls == []
    ensures !s.isInitialized ==>
      && r.calls == (if connect.Pass? then [Initialize, GetAllPlants] else [Initialize])
      && !r.state.isLoading
    ensures !s.isInitialized && connect.Pass? && load.Success? ==>
      r.state == State(load.value, false, true)
    ensures !s.isInitialized && (connect.Fail? || load.Failure?) ==>
      r.state == s.(isLoading := false)
  {
    if s.isInitialized then Step(s, Pass, [])
    else FinishInitialize(MarkLoading(s), connect, load)
  }

  /** Once an initialization has succeeded, every later `initializeStore`
      is a no-op that touches no durable state, whatever the durable layer
      would answer. */
  lemma InitializeIsIdempotent(s: State, plants: seq<Plant>, connect: Outcome<DbError>, load: Result<seq<Plant>, DbError>)
    ensures var s1 := InitializeStore(s, Pass, Success(plants)).state;
      InitializeStore(s1, connect, load) == Step(s1, Pass, [])
  {
  }

  /** A failed initialization, whether opening the durable layer or reading
      the plants was rejected, does not latch: the store stays uninitialized
      and the next `initializeStore` runs the durable calls again, and can
      then succeed. */
  lemma FailedInitializeAllowsRetry(s: State, connect: Outcome<DbError>, load: Result<seq<Plant>, DbError>, plants: seq<Plant>)
    requires !s.isInitialized
    requires connect.Fail? || load.Failure?
    ensures var s1 := InitializeStore(s, connect, load).state;
      && !s1.isInitialized
      && !s1.isLoading
      && s1.plants == s.plants
      && InitializeStore(s1, Pass, Success(plants)).calls == [Initialize, GetAllPlants]
      && InitializeStore(s1, Pass, Success(plants)).state.plants == plants
  {
  }

  /** From the state the store is created in: the list starts empty and
      uninitialized, so the first `initializeStore` always reaches the
      durable layer and ends with the loaded list, or still empty. */
  lemma FirstInitializeFromFreshStore(connect: Outcome<DbError>, load: Result<seq<Plant>, DbError>)
    ensures Initial().plants == [] && !Initial().isLoading && !Initial().isInitialized
    ensures var r := InitializeStore(Initial(), connect, load);
      && r.calls[0] == Initialize
      && r.state.plants == (if connect.Pass? && load.Success? then load.value else [])
      && r.state.isInitialized == (connect.Pass? && load.Success?)
  {
  }

  // ---------------------------------------------------------------------------
  // addPlant
  // ---------------------------------------------------------------------------

  /** `addPlant`: write the record durably, then append it in memory; on a
      rejection leave the state alone and re-throw. */
  function AddPlant(s: State, p: Plant, outcome: Outcome<DbError>): (r: Step)
    ensures r.calls == [AddPlantCall(p)]
    ensures r.result == outcome
    ensures SameFlags(r.state, s)
    ensures outcome.Pass? ==>
      && |r.state.plants| == |s.plants| + 1
      && r.state.plants[..|s.plants|] == s.plants
      && r.state.plants[|s.plants|] == p
    ensures outcome.Fail? ==> r.state == s
  {
    match outcome
    case Fail(_) => Step(s, outcome, [AddPlantCall(p)])
    case Pass => Step(s.(plants := s.plants + [p]), Pass, [AddPlantCall(p)])
  }

  // ---------------------------------------------------------------------------
  // removePlant
  // ---------------------------------------------------------------------------

  /** `removePlant`: delete durably, then drop every record with that id in
      memory; on a rejection leave the state alone and re-throw. */
  function RemovePlant(s: State, id: string, outcome: Outcome<DbError>): (r: Step)
    ensures r.calls == [RemovePlantCall(id)]
    ensures r.result == outcome
    ensures SameFlags(r.state, s)
    ensures outcome.Pass? ==>
      && id !in IdSet(r.state.plants)
      && |r.state.plants| <= |s.plants|
      && (forall p :: p in s.plants && p.id != id ==> p in r.state.plants)
      && (forall p :: p in r.state.plants ==> p in s.plants)
      && (forall p :: multiset(r.state.plants)[p] == if p.id == id then 0 else multiset(s.plants)[p])
      && IsSubsequence(r.state.plants, s.plants)
      && IdSet(r.state.plants) == IdSet(s.plants) - {id}
      && (id !in IdSet(s.plants) ==> r.state == s)
    ensures outcome.Fail? ==> r.state == s
  {
    match outcome
    case Fail(_) => Step(s, outcome, [RemovePlantCall(id)])
    case Pass =>
      RemoveIdIsSubsequence(s.plants, id);
      RemoveIdIdSet(s.plants, id);
      RemoveIdCounts(s.plants, id);
      Step(s.(plants := RemoveId(s.plants, id)), Pass, [RemovePlantCall(id)])
  }

  /** Removing a plant after adding it, both durably successful, restores
      the list when the added id was new. */
  lemma {:induction false} RemoveUndoesAdd(s: State, p: Plant)
    requires p.id !in IdSet(s.plants)
    ensures RemovePlant(AddPlant(s, p, Pass).state, p.id, Pass).state == s
  {
    RemoveUndoesAppend(s.plants, p);
  }

  // ---------------------------------------------------------------------------
  // waterPlant
  // ---------------------------------------------------------------------------

  /** `waterPlant`: tell the durable layer the id, then read the clock
      (`now`) and set the watering date of the first record with that id; on
      a rejection leave the state alone and re-throw. An absent id changes
      nothing in memory even when the durable call passes. */
  function WaterPlant(s: State, id: string, now: int, outcome: Outcome<DbError>): (r: Step)
    ensures r.calls == [WaterPlantCall(id)]
    ensures r.result == outcome
    ensures SameFlags(r.state, s)
    ensures outcome.Fail? || id !in IdSet(s.plants) ==> r.state == s
    ensures outcome.Pass? ==>
      && |r.state.plants| == |s.plants|
      && Ids(r.state.plants) == Ids(s.plants)
      && forall k :: IsFirstWith(s.plants, id, k) ==>
        && r.state.plants[k].lastWateredDate == Some(now)
        && SameExceptWatering(r.state.plants[k], s.plants[k])
        && (forall j :: 0 <= j < |s.plants| && j != k ==> r.state.plants[j] == s.plants[j])
  {
    match outcome
    case Fail(_) => Step(s, outcome, [WaterPlantCall(id)])
    case Pass => Step(s.(plants := WaterFirst(s.plants, id, now)), Pass, [WaterPlantCall(id)])
  }

  /** The durable call of `waterPlant` carries no timestamp: two clock
      readings give the same durable calls but different cached dates, so
      the cached date is not something the durable layer was told. */
  lemma WaterTimestampIsNotPersisted(s: State, id: string, t1: int, t2: int)
    requires id in IdSet(s.plants) && t1 != t2
    ensures WaterPlant(s, id, t1, Pass).calls == WaterPlant(s, id, t2, Pass).calls
    ensures WaterPlant(s, id, t1, Pass).state != WaterPlant(s, id, t2, Pass).state
  {
    var k := FindIndex(s.plants, id);
    assert WaterPlant(s, id, t1, Pass).state.plants[k].lastWateredDate == Some(t1);
  }

  // ---------------------------------------------------------------------------
  // The id invariant across transitions
  // ---------------------------------------------------------------------------

  /** Distinct ids survive every removal and every watering, and an addition
      exactly when the added id is new; a failed mutation changes nothing. */
  lemma {:induction false} MutationsKeepUniqueIds(s: State, p: Plant, id: string, now: int, outcome: Outcome<DbError>)
    requires UniqueIds(s.plants)
    ensures UniqueIds(RemovePlant(s, id, outcome).state.plants)
    ensures UniqueIds(WaterPlant(s, id, now, outcome).state.plants)
    ensures UniqueIds(AddPlant(s, p, outcome).state.plants) <==> outcome.Fail? || p.id !in IdSet(s.plants)
  {
    RemoveIdKeepsUnique(s.plants, id);
    WaterFirstKeepsUnique(s.plants, id, now);
    AppendKeepsUniqueIff(s.plants, p);
  }

  /** Watering keeps the multiset of ids; adding adds exactly one id. */
  lemma {:induction false} MutationsIdMultiset(s: State, p: Plant, id: string, now: int)
    ensures multiset(Ids(WaterPlant(s, id, now, Pass).state.plants)) == multiset(Ids(s.plants))
    ensures multiset(Ids(AddPlant(s, p, Pass).state.plants)) == multiset(Ids(s.plants)) + multiset{p.id}
  {
    var a := s.plants + [p];
    assert Ids(a) == Ids(s.plants) + [p.id];
  }
}
