# Plant-list store of wet-my-plants, in Dafny

wet-my-plants is a small mobile app for tracking when houseplants were
watered. Its core is the plant-list store (`store/list_plants_store.tsx`). The
store is a process-wide state container holding the list of `Plant` records
(`interface/plants.ts`), a loading flag and an initialized flag. It has four
write-through transitions:

- `initializeStore` does nothing once the store is initialized. Otherwise it
  sets the loading flag, opens the durable layer and reads every plant. On
  success it publishes the loaded list and sets `isInitialized`. On failure it
  only clears the loading flag; the error is caught, so the call always
  resolves.
- `addPlant` writes the record durably, then appends it.
- `removePlant` deletes durably, then filters out every record with the id.
- `waterPlant` tells the durable layer the id. It then reads the clock and
  replaces the watering date of the first record with that id.

A rejected durable write leaves the list untouched, and the error is thrown
again to the caller.

The model has four modules:

- `Wrappers` (`wrappers.dfy`) holds `Option`, `Outcome` (a promise that resolves
  to nothing, or is rejected) and `Result` (a promise that resolves to a value,
  or is rejected).
- `Plants` (`plants.dfy`) holds the `Plant` datatype and the views of a list
  used to state properties: its ids in order, its id set, and whether the ids
  are distinct.
- `PlantLists` (`plant_lists.dfy`) holds the three list edits the store makes:
  `filter` on the id, `findIndex` on the id, and the spread-copy of the found
  record with a new date.
- `ListPlantsStore` (`list_plants_store.dfy`) holds the state, the
  transitions and the lemmas that relate several transitions.

Each transition is a pure function of the state, its argument and the outcome
the durable layer settled with. It returns a `Step`: the new state, how the
returned promise settles, and the list of durable calls it made (`DbCall`).
The list of calls is what lets the model say "no durable call is made" for a
repeated `initializeStore`. It also shows that `waterPlant`'s durable call
carries only the id. The clock reading `new Date()` is the parameter `now`.
Timestamps are abstract integers.

A reader might expect more of the store than the code does. The model
follows the code:

- One might expect `waterPlant` to persist the timestamp it caches. The code
  passes only the id to the durable layer and reads the clock after that call
  returns. `WaterTimestampIsNotPersisted` shows that the cached date is not
  determined by anything the durable layer was told.
- One might expect a failed initialization to leave the app usable with an
  empty list. The code leaves `isInitialized` false, and `app/_layout.tsx`
  renders only a spinner while it is false. The model keeps the code's
  behaviour: plants and `isInitialized` are unchanged, and only `isLoading` is
  cleared.
- One might expect `addPlant` to reject malformed records and duplicate ids.
  The store checks neither. It appends whatever the durable layer accepted. So
  distinct ids are a property the transitions may or may not keep (see
  `MutationsKeepUniqueIds`), not an invariant of the state.

## Model

| member | source | states |
|---|---|---|
| `PlantLists.RemoveId` | store/list_plants_store.tsx:61 | the filtered list has no record with the id and keeps every other record. It is never longer than the input, and it equals the input exactly when the id was absent |
| `PlantLists.RemoveIdCounts` | store/list_plants_store.tsx:61 | each record with another id occurs in the filtered list as often as in the original; records with the removed id occur zero times |
| `PlantLists.RemoveIdAppend` | store/list_plants_store.tsx:61 | filtering a concatenation is the concatenation of the filtered parts, so the kept records stay in their relative order |
| `PlantLists.RemoveIdIsSubsequence` | store/list_plants_store.tsx:61 | the filtered list is an ordered subsequence of the original |
| `PlantLists.RemoveIdIdSet` | store/list_plants_store.tsx:61 | the id set after removal is the old id set minus the removed id |
| `PlantLists.RemoveIdIdempotent` | store/list_plants_store.tsx:61 | removing the same id a second time changes nothing |
| `PlantLists.RemoveIdCommutes` | store/list_plants_store.tsx:61 | removing two ids gives the same list in either order |
| `PlantLists.SubsequenceKeepsUnique` | store/list_plants_store.tsx:61 | a list obtained by dropping records from a list with distinct ids has distinct ids |
| `PlantLists.RemoveIdKeepsUnique` | store/list_plants_store.tsx:61 | filtering keeps the ids distinct |
| `PlantLists.RemoveUndoesAppend` | store/list_plants_store.tsx:45-67 | appending a record with a fresh id and then filtering that id out gives the original list back |
| `PlantLists.AppendKeepsUniqueIff` | store/list_plants_store.tsx:49 | when the ids are distinct, appending keeps them distinct if and only if the new id is not already present |
| `PlantLists.FindIndex` | store/list_plants_store.tsx:73-74 | like `findIndex`: -1 exactly when no record has the id; otherwise the position of the first record with the id |
| `PlantLists.WaterFirst` | store/list_plants_store.tsx:72-79 | length and ids are preserved. With an absent id the list is unchanged. Otherwise only the first match changes: its date becomes `Some(now)` and every other field stays. Every other record is unchanged |
| `PlantLists.WaterFirstIsScan` | store/list_plants_store.tsx:73-78 | updating at the index `findIndex` returns equals a left-to-right scan that replaces the first match and stops |
| `PlantLists.WaterFirstOverrides` | store/list_plants_store.tsx:72-79 | watering twice equals watering once at the later clock reading |
| `PlantLists.WaterFirstKeepsUnique` | store/list_plants_store.tsx:75-78 | watering keeps the ids distinct |
| `ListPlantsStore.MarkLoading` | store/list_plants_store.tsx:25-27 | while the durable calls of `initializeStore` are pending, the store is loading and its plants and initialized flag are unchanged |
| `ListPlantsStore.FinishInitialize` | store/list_plants_store.tsx:29-42 | `getAllPlants` is called only after `initialize` passed, and the call always resolves with the loading flag cleared. On success the plants are the loaded list and the store is initialized. On either failure the plants and initialized flag are unchanged |
| `ListPlantsStore.InitializeStore` | store/list_plants_store.tsx:22-42 | the call always resolves. An initialized store is returned unchanged and no durable call is made. Otherwise the durable calls are exactly `initialize`, then `getAllPlants` only when `initialize` passed, and the loading flag ends cleared. Success publishes the loaded list as initialized; failure clears only the loading flag |
| `ListPlantsStore.InitializeIsIdempotent` | store/list_plants_store.tsx:23 | after one successful initialization, any further `initializeStore` is a no-op with no durable call, whatever the durable layer would answer |
| `ListPlantsStore.FailedInitializeAllowsRetry` | store/list_plants_store.tsx:29-42 | an initialization in which either `initialize` or `getAllPlants` was rejected leaves the store uninitialized, not loading, with the same plants. The next call runs both durable calls again and can load the list |
| `ListPlantsStore.FirstInitializeFromFreshStore` | store/list_plants_store.tsx:18-42 | the fresh store is empty, not loading and not initialized. Its first `initializeStore` calls `initialize` first and ends with the loaded list on success, or the empty list on failure |
| `ListPlantsStore.AddPlant` | store/list_plants_store.tsx:45-55 | exactly one durable `addPlant` with the record is made, and its outcome is returned. On success the list grows by one: the old list is a prefix and the new record is last. On failure the state is unchanged. The flags never change |
| `ListPlantsStore.RemovePlant` | store/list_plants_store.tsx:57-67 | exactly one durable `removePlant` with the id is made, and its outcome is returned. On success no record has the id and every other record is kept as many times as it occurred, in order. The list does not grow, the id set loses only that id, and an absent id changes nothing. On failure the state is unchanged |
| `ListPlantsStore.RemoveUndoesAdd` | store/list_plants_store.tsx:45-67 | a successful remove of the id just added with a successful add restores the state, when the id was new |
| `ListPlantsStore.WaterPlant` | store/list_plants_store.tsx:69-85 | exactly one durable `waterPlant` with only the id is made, and its outcome is returned. On success only the first record with the id changes, and only its date, which becomes `Some(now)`. Length and ids are kept. An absent id or a failure leaves the state unchanged |
| `ListPlantsStore.WaterTimestampIsNotPersisted` | store/list_plants_store.tsx:71-77 | two clock readings give identical durable calls but different cached states, so the cached date is not what was persisted |
| `ListPlantsStore.MutationsKeepUniqueIds` | store/list_plants_store.tsx:45-85 | from a list with distinct ids, remove and water keep them distinct. Add keeps them distinct if and only if it failed or the new id is fresh |
| `ListPlantsStore.MutationsIdMultiset` | store/list_plants_store.tsx:45-85 | a successful water keeps the multiset of ids. A successful add adds exactly the new id to it |

## Left out

- The durable layer. `service/DatabaseService.tsx` does not define the
  `databaseService` object the store imports. Each durable call is an input
  outcome, and no database semantics (SQL, duplicate keys, not-found) are
  assumed.
- The `console.error` logging in each catch block. It is output only.
- zustand and immer: subscription, change notification and draft mutation.
  Each transition returns a whole new state.
- Promise scheduling and interleaving. Each transition is one atomic step,
  apart from the loading state exposed by `MarkLoading`. In particular, two
  overlapping `initializeStore` calls are not modelled; the source has no
  guard on `isLoading` against them.
- `Date` values. A timestamp is an abstract integer and the clock is the
  parameter `now`.
- `frequency` is a JavaScript number; the model takes it to be an integer.
  Nothing in the store reads it.
- The screens, the plant card, navigation, image picking and date formatting
  (`components/plant-card.tsx`, `app/`). They are presentation and library
  calls.
- A watering-status classification (late, soon, ok). No such function exists
  in the source files this model covers.
