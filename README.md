# Dynamic module managers of redux-dynamic-modules, modelled in Dafny

This project models the managers that let independently loaded feature modules of a Redux store
register and release state slices and background sagas at run time:

- the **reducer manager** (`getReducerManager`): a name-to-reducer table with `add`, `remove`,
  `getReducerMap` and `reduce`; `reduce` is meant to delete the fields of removed slices from the state
  before handing it to the combined reducer (as written it deletes index-named fields instead, see
  Findings; the model's `Reduce` uses the corrected deletion);
- its **reference-counted wrapper** (`getRefCountedReducerManager`): a name reaches the wrapped
  manager only when its first owner adds it and leaves it only when its last owner removes it;
- the **saga manager** (`getSagaManager`, `runSaga`): starts one task per distinct saga registration
  and cancels it on removal;
- the **generic reference-counted decorator** (`getRefCountedManager`): the same ownership rule for
  any item manager with `getItems`, `add(items)` and `remove(items)`.

Files:

- `wrappers.dfy`: `Option`. A JavaScript `null` list argument is `None`, and a falsy list entry is `None`.
- `lists.dfy`: `Somes`, the `filter(i => i)` of a list with absent entries, and `Listed`.
- `ref_counters.dfy`: the reference counter as functions on `map<K, nat>`.
- `reducer_manager.dfy`: the reducer manager and its wrapper, as classes.
- `saga_manager.dfy`: the saga manager, as a class.
- `ref_counted_manager.dfy`: the generic decorator, as a class.

The managers are closures over mutable tables in the source. Here each one is a class whose fields are
those tables. The collaborators are outside the model: the saga middleware, `combineReducers` and the
manager the generic decorator wraps. The saga manager, the reducer manager's wrapper and the generic
decorator record the calls they make on their collaborator as a sequence field, and the contracts state
that sequence exactly. The reducer manager itself is the exception: its `combineReducers` calls are a
ghost counter `rebuilds`, and the combined reducer is the table it was last built from. `Replay` gives
the meaning of the generic decorator's calls, for a wrapped manager that behaves as a set of items.

## Model

| member | source | states |
|---|---|---|
| RefCounters.Inc | src/Managers/ReducerManager.ts:34 | one more owner for the key, every other count unchanged |
| RefCounters.Dec | src/Managers/ReducerManager.ts:37 | one owner fewer, never below 0; a key at 0 has no entry; other counts unchanged |
| RefCounters.IncAll | src/Managers/RefCountedManager.ts:24 | each count grows by the key's number of occurrences in the list |
| RefCounters.DecAll | src/Managers/RefCountedManager.ts:33-40 | each count falls by the number of present occurrences of the key, clamped at 0; absent entries are skipped |
| Lists.Somes | src/Managers/RefCountedManager.ts:21 | the present entries: an item is in the result iff it is a present entry, with the same number of occurrences, and the result is no longer than the list |
| Lists.ListedIsMember | src/Managers/RefCountedManager.ts:21 | `Listed` is exactly membership of the present entry |
| ReducerManagers.Excise | src/Managers/ReducerManager.ts:62-70 | the state passed to the combined reducer keeps exactly the fields whose names are not pending, with their values; the old state is a value and is untouched |
| ReducerManagers.ExciseByIndex | src/Managers/ReducerManager.ts:65-67 | as written: exactly the fields named "0" … "n-1" after the pending list's indices are deleted |
| ReducerManagers.ExciseByIndexKeepsNamedSlices | src/Managers/ReducerManager.ts:65-67 | as written, a removed slice whose name is not all digits keeps its data in the state |
| ReducerManagers.IndexLoopDeletesWrongField | src/Managers/ReducerManager.ts:65-66 | on a state with fields "cart" and "0", removing "cart" keeps "cart" and deletes "0" as written, and the opposite as intended |
| ReducerManagers.ReducerManager.constructor | src/Managers/ReducerManager.ts:52-60 | the table is the initial reducers and nothing is pending |
| ReducerManagers.ReducerManager.GetReducerMap | src/Managers/ReducerManager.ts:75 | the map handed out is the current table |
| ReducerManagers.ReducerManager.Add | src/Managers/ReducerManager.ts:77-88 | nothing changes for the empty name or a registered name; otherwise the reducer is registered, the map copy and the combined reducer follow, and nothing is queued |
| ReducerManagers.ReducerManager.Remove | src/Managers/ReducerManager.ts:89-100 | nothing changes for the empty name or an unregistered name; otherwise the name is unregistered and queued for deletion from the state |
| ReducerManagers.ReducerManager.Reduce | src/Managers/ReducerManager.ts:62-72 | the combined reducer of the current table receives the state minus the pending fields (the corrected loop; as written: `ExciseByIndex`), and the queue is empty afterwards |
| ReducerManagers.RefCountedReducerManager.constructor | src/Managers/ReducerManager.ts:20-24 | every registered name starts with exactly one owner, and every other name with none |
| ReducerManagers.RefCountedReducerManager.GetReducerMap | src/Managers/ReducerManager.ts:28 | passes the wrapped manager's table through |
| ReducerManagers.RefCountedReducerManager.Reduce | src/Managers/ReducerManager.ts:27 | passes `reduce` through to the wrapped manager, which rebuilds nothing |
| ReducerManagers.RefCountedReducerManager.Add | src/Managers/ReducerManager.ts:29-35 | forwards `add` exactly when the name had no owner, always counts one owner more, gives the wrapped manager's exact table and rebuild count, and keeps "a non-empty name is registered iff it has an owner" |
| ReducerManagers.RefCountedReducerManager.Remove | src/Managers/ReducerManager.ts:36-42 | releases one owner and forwards `remove` exactly when none is left, gives the wrapped manager's exact table, queue and rebuild count, and keeps the same invariant |
| ReducerManagers.SharedSliceScenario | src/Managers/ReducerManager.ts:29-42 | two owners of "cart": after the first release it is still registered, after the second it is gone |
| ReducerManagers.ReleasedSliceScenario | src/Managers/ReducerManager.ts:62-72 | after both owners release "cart", the next `reduce` hands over the state without "cart" and with "user" unchanged |
| SagaManagers.RunCall | src/Managers/SagaManager.ts:38-46 | a bare routine is run without an argument; a registration with an argument is run with that argument |
| SagaManagers.RunsOf | src/Managers/SagaManager.ts:18-22 | one run call per started registration, in order, with consecutive handles |
| SagaManagers.ToStart | src/Managers/SagaManager.ts:18-22 | `add` starts exactly the present registrations that are not tracked |
| SagaManagers.ToStartDistinct | src/Managers/SagaManager.ts:19-20 | `add` starts a registration at most once, even when the list repeats it |
| SagaManagers.ToCancel | src/Managers/SagaManager.ts:28-33 | `remove` cancels exactly the present registrations that are tracked |
| SagaManagers.ToCancelDistinct | src/Managers/SagaManager.ts:29-31 | `remove` cancels a registration at most once, even when the list repeats it |
| SagaManagers.TasksOf | src/Managers/SagaManager.ts:29-31 | the handles cancelled are the tracked handles of those registrations, in order |
| SagaManagers.RunCallDeterminesSaga | src/Managers/SagaManager.ts:39-45 | registrations that differ in routine, in argument or in having an argument make different run calls |
| SagaManagers.SagaManager.constructor | src/Managers/SagaManager.ts:9-10 | nothing is tracked, run or cancelled |
| SagaManagers.SagaManager.GetItems | src/Managers/SagaManager.ts:13 | each tracked registration once, and nothing else |
| SagaManagers.SagaManager.RunSaga | src/Managers/SagaManager.ts:38-46 | one run call, returning a handle no earlier call returned |
| SagaManagers.SagaManager.AddOne | src/Managers/SagaManager.ts:19-21 | a present, untracked registration is run and recorded with its handle; anything else changes nothing |
| SagaManagers.SagaManager.Add | src/Managers/SagaManager.ts:14-23 | a null list changes nothing; otherwise the run log grows by exactly the runs of `ToStart`, listed registrations become tracked with fresh handles, tracked ones keep their task, and nothing is cancelled |
| SagaManagers.SagaManager.RemoveOne | src/Managers/SagaManager.ts:29-32 | a tracked registration has its own task cancelled and is forgotten; anything else changes nothing |
| SagaManagers.SagaManager.Remove | src/Managers/SagaManager.ts:24-34 | a null list changes nothing; otherwise exactly the handles of `ToCancel` are cancelled, those registrations are forgotten, the rest keep their task, and nothing is run |
| SagaManagers.AddTwiceScenario | src/Managers/SagaManager.ts:18-21 | adding one registration twice runs it once |
| SagaManagers.RemoveTwiceScenario | src/Managers/SagaManager.ts:28-32 | removing a started registration twice cancels it once |
| SagaManagers.RemoveForgetsScenario | src/Managers/SagaManager.ts:13 | a removed registration is no longer among the items |
| SagaManagers.ArgumentsScenario | src/Managers/SagaManager.ts:43-45 | one routine registered with two different arguments runs as two tasks |
| RefCountedManagers.Unowned | src/Managers/RefCountedManager.ts:22 | the items forwarded by `add` are exactly the listed items with no owner, with their repetitions |
| RefCountedManagers.ReleasesExactly | src/Managers/RefCountedManager.ts:33-40 | `remove` forwards `remove([item])` for an item iff it is a present entry and its count ends at 0 |
| RefCountedManagers.AddMirrors | src/Managers/RefCountedManager.ts:21-24 | after `add`, the wrapped manager holds exactly the items that have an owner |
| RefCountedManagers.ReleaseMirrors | src/Managers/RefCountedManager.ts:35-38 | one release keeps "the wrapped manager holds exactly the owned items" |
| RefCountedManagers.RemoveMirrors | src/Managers/RefCountedManager.ts:33-40 | after `remove`, the wrapped manager holds exactly the items that have an owner |
| RefCountedManagers.SeedOwnsOnce | src/Managers/RefCountedManager.ts:8-11 | seeding from distinct items gives each of them exactly one owner |
| RefCountedManagers.RefCountedManager.constructor | src/Managers/RefCountedManager.ts:7-11 | one owner per occurrence of each item the wrapped manager holds, and nothing is forwarded |
| RefCountedManagers.RefCountedManager.Add | src/Managers/RefCountedManager.ts:16-25 | a null list changes nothing; otherwise exactly one `add` of the unowned present items is forwarded (even when it is empty), and each present entry adds an owner |
| RefCountedManagers.RefCountedManager.Remove | src/Managers/RefCountedManager.ts:28-41 | a null list changes nothing; otherwise each present entry releases one owner, and `remove([item])` is forwarded each time a count is then 0 |
| RefCountedManagers.SharedAddScenario | src/Managers/RefCountedManager.ts:21-24 | two owners adding one item forward `add([item])` and then `add([])` |
| RefCountedManagers.SharedRemoveScenario | src/Managers/RefCountedManager.ts:33-40 | two owners add an item and then release it: it is forwarded for addition once and for removal only at the second release |

## Left out

- `combineReducers` from Redux is not part of this model. The combined reducer is the table it was last built from, and applying it is the `combine` parameter of `Reduce`.
- `produce` from immer is not part of this model. The excision is a function that returns a new map, which is the copy-on-write the draft gives.
- The saga middleware and its `Task` objects are outside the model. `run` returns a handle numbered by call, and `cancel` is recorded in a log.
- A task that ends on its own is not observed, as in the source: its handle stays tracked until it is removed.
- src/Utils/RefCounter.ts, src/Utils/ComparableMap.ts and src/Utils/SagaComparer.ts are not part of this model.
- The counter is modelled as described at its call sites. A key that is absent reads 0, `remove` never goes below 0, and a key at 0 has no entry.
- The `equals` functions of the counter and of the task table are the item type's own equality.
- The generic decorator's other members, `getItems` included, are copied from the wrapped manager (`{...manager}`). They are passed through and not modelled, because the wrapped manager itself is abstract.
- `RefCountedManagers.Replay`: the wrapped manager is taken to behave as a set of items. The model keeps the log of calls forwarded to it, not the manager's own code.
- `filter(i => i)` drops every falsy entry, so also `0`, `""` and `false` when items are such values. The model treats only absent entries (`None`) as falsy.
- `reducers[key]` is tested for truthiness in the source. The model tests whether the name is registered. That differs only for a falsy reducer value or a prototype member name such as "toString".
- `getReducerMap` hands out the manager's own `rm` object. A caller that mutates it is not modelled (aliasing).
- Concurrency: none exists in the source, whose calls all run to completion.
- A `run` or `cancel` of the saga middleware that throws is outside the model, and so is every other collaborator failure. In the source such a failure reaches the caller. Because `remove` forgets the registration (SagaManager.ts:30) before it calls `cancel()` (:31), a throwing `cancel` would leave that registration forgotten and the rest of the list unprocessed.
- SagaManagers.SagaManager.RemoveOne: a null entry is skipped. SagaManager.ts:29 calls `tasks.get(saga)` on it without a guard, so the model assumes the comparer of src/Utils/ComparableMap.ts finds nothing for a null key rather than throwing.
- SagaManagers.SagaManager.Add: states only that each newly tracked registration gets a handle at least the old number of run calls. It does not name the exact handle. Together with `Valid` and the exact run log, that handle is the one of its own run.
- A `remove` of an item or name nobody owns is still forwarded, because the counter stays at 0. The wrapped managers ignore absent entries, so the model keeps this behaviour of the code; it does not forward only on the 1-to-0 step.

## Findings

| source | as written | input that shows it | evidently intended | confidence | as-written member | corrected member |
|---|---|---|---|---|---|---|
| src/Managers/ReducerManager.ts:65-66 | `for (let key in keysToRemove)` walks the array's indices, so `reduce` deletes the fields "0", "1", … instead of the removed slice names | state `{cart, "0"}`: remove "cart", then reduce. "cart" is kept and "0" is deleted (`IndexLoopDeletesWrongField`) | delete the field of each pending name (`for … of`) | high, not executed | ReducerManagers.ExciseByIndex | ReducerManagers.Excise |
