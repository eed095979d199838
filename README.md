# Trackables: membership bookkeeping and notification flags

This project models the core of a small object-tracking subsystem for a game
engine. Objects carrying a `Trackable` component post a spawn message when they
appear, and later a removal message. Tracker components listen for these
messages and keep two parallel lists. `Trans` holds the tracked transforms and
`Weights` holds their weights.

The model has four modules:

- `Options` (`options.dfy`) holds the `Option` datatype that both other
  component modules use.

- `ListOps` (`list_ops.dfy`) models three of the .NET `List<T>` operations
  the tracker uses: `IndexOf`, `RemoveAt` and `Remove`. They work on
  sequences. The other two, `Contains` and `Add`, are Dafny's `in` and `+`.
- `Trackers` (`tracker.dfy`) models `AbstractTracker`. It has pure
  specification functions over the pair of lists (`Lists`), lemmas about them,
  and a class `Tracker` whose fields are `Trans` and `Weights`. Each method of
  the class states its new state as one of those functions of its old state.
  - A transform is an opaque id.
  - An entry of `Trans` is `Live(t)`, or `Stale` once the engine has destroyed
    the object; a stale entry compares equal to null.
  - Weights are a type parameter. The tracker only copies them.
  - `HashedString.StringToHash` is a function value given to the `Awake`
    constructor.
  - The id hash of the Trackable found on each transform is a map passed to
    `GetAllOfId` and `StopTracking`.
- `Trackables` (`trackable.dfy`) models the `Trackable` component.
  - A pure step function `OnHook` and its fold `Run` cover the lifecycle hooks
    over the flags `Posted` and `PostedOnEnable`.
  - A class `Trackable` has one method per hook and a ghost `Log` of the
    messages it posted.
  - The answer of `ValidateAuthority()` is a boolean parameter.

Two behaviours of the code as written are stated and proved rather than
smoothed over:

- **Desync from the stale-reference branch.** When a spawn event's target is
  already destroyed, `HandleSpawned` removes one null entry from `Trans` and
  leaves `Weights` alone.
  - After that, the lists are no longer paired index by index: `Weights` is
    one entry longer than `Trans` (`Spawned`).
  - Every transform after the removed entry moves down one index, beside the
    weight of the entry before it. Removing such a transform later takes that
    weight away instead of its own (`StaleSpawnMispairs`).
  - `Trans` never becomes longer than `Weights`. `Awake` starts both empty,
    and every handler keeps `|Trans| <= |Weights|`. So `Weights.RemoveAt`
    never runs past the end and never throws.
  - The class invariant `Tracker.Valid` holds that bound. It also holds that,
    without `AllowRepeats`, no live transform occurs twice in `Trans`.
  - Equal lengths are not a class invariant. Each operation is proved to
    keep them when the stale-reference branch is not taken.
- **Lost removal in `Start` mode.** A Trackable in `Start` mode never sets
  `PostedOnEnable`, so `OnDisable` clears `Posted` without posting a removal.
  A Trackable that is disabled before it is destroyed therefore never posts a
  removal for its spawn (`StartModeDisableLosesRemoval`).

Exceptions that the C# code lets escape are modelled as outcomes, not excluded
by preconditions:

- `GetAllOfId` returns `None` when an entry of `Trans` is stale or has no
  Trackable. In C#, `GetComponent` or the `Id` access throws in those cases.
- `StopTracking` returns `threw`, which is set exactly when `GetAllOfId`
  throws, before anything has been removed.
- `RemoveTracked` also models a `Weights.RemoveAt` that runs past the end. The
  function is total over all pairs of lists. From a state a tracker can reach,
  that branch is unreachable: every transform has a weight at its own index
  (`Lists.Covered`).

## Model

| member | source | states |
|---|---|---|
| `ListOps.IndexOf` | Runtime/AbstractTracker.cs:140 | -1 exactly when the element is absent; otherwise an index holding it with no earlier occurrence |
| `ListOps.RemoveAt` | Runtime/AbstractTracker.cs:143-144 | one element shorter; entries before the index unchanged, entries after shifted down by one; the multiset loses exactly that element |
| `ListOps.Remove` | Runtime/AbstractTracker.cs:126 | an absent element leaves the list unchanged. Otherwise the first occurrence (the `IndexOf` index) is cut out and everything else keeps its order; the list is one shorter and its multiset loses one copy |
| `Trackers.Spawned` | Runtime/AbstractTracker.cs:119-136 | a disallowed id hash changes nothing. A destroyed target cuts the first stale entry out of Trans, keeping the order of the rest, and leaves Weights unchanged. This unpairs the lists whenever a stale entry existed; without one, nothing changes. An accepted target is appended to both lists with all earlier entries kept. Without repeats, an already-tracked transform leaves both lists unchanged and no live transform is ever duplicated. Outside the stale branch equal lengths are preserved, and `|Trans| <= |Weights|` is preserved always |
| `Trackers.RemoveTracked` | Runtime/AbstractTracker.cs:140-146 | an untracked transform changes nothing. Otherwise the first occurrence is removed. While every transform has a weight (`|Trans| <= |Weights|`), the weight at the same index goes too, the rest is kept in order, nothing throws, and that bound and pairing both survive. The multiset of Trans loses exactly one copy. A throw happens exactly when the index is past the end of Weights |
| `Trackers.RemoveTrackedKeepsNoRepeats` | Runtime/AbstractTracker.cs:140-145 | a removal never makes a live transform occur twice in Trans |
| `Trackers.StopAll` | Runtime/AbstractTracker.cs:71-80 | the removal loop over the GetAllOfId result; when it does not throw, it never lengthens Trans |
| `Trackers.MatchingIds` | Runtime/AbstractTracker.cs:50-61 | every element returned is a tracked transform whose Trackable has the requested id hash |
| `Trackers.MatchingIdsAppend` | Runtime/AbstractTracker.cs:54-59 | the result for a concatenation is the result for the first part followed by the result for the second (Trans order is kept) |
| `Trackers.MatchingIdsCount` | Runtime/AbstractTracker.cs:54-59 | a transform appears once per entry it has in Trans when its id hash matches, and never otherwise |
| `Trackers.KeepOthers` | Runtime/AbstractTracker.cs:68-81 | reference result of StopTracking: resolvable lists in which no entry has the given id hash, every transform still has a weight, and the weights without a transform beside them stay at the end in order |
| `Trackers.KeepOthersDropsOnly` | Runtime/AbstractTracker.cs:68-81 | the reference result of StopTracking only drops entries: its Trans is a sub-multiset of the old one, it adds no repeat, and it keeps paired lists paired |
| `Trackers.KeptFrom` | Runtime/AbstractTracker.cs:68-81 | the increasing list of exactly those indices whose entry has another id hash |
| `Trackers.KeepOthersAt` | Runtime/AbstractTracker.cs:68-81 | the reference result is the transforms and weights at exactly those indices, in order, so each surviving transform keeps its own weight |
| `Trackers.StopAllDropsFirst` | Runtime/AbstractTracker.cs:73-77 | when a transform is tracked right after a prefix that does not contain it, one loop step removes that entry and its weight and nothing else |
| `Trackers.StopAllFrom` | Runtime/AbstractTracker.cs:71-80 | from a filtered prefix, the loop over the remaining matches yields the prefix followed by the reference result of the rest, without throwing |
| `Trackers.StopTrackingRemovesAll` | Runtime/AbstractTracker.cs:68-81 | on resolvable lists with `|Trans| <= |Weights|`, `StopTrackingSpec` (GetAllOfId followed by the removal loop) does not throw. It equals the reference result and leaves no transform with that id hash, even with repeats |
| `Trackers.StaleSpawnMispairs` | Runtime/AbstractTracker.cs:123-127 | after the stale branch cuts out entry i, a transform first tracked at j > i sits at j - 1 beside the weight at j - 1. Removing it then takes Weights[j - 1], not its own Weights[j] |
| `Trackers.HashAll` | Runtime/AbstractTracker.cs:104-106 | one hash per allowed id, same length, element-wise StringToHash |
| `Trackers.Tracker.Awake` | Runtime/AbstractTracker.cs:99-106 | HashedIds is the element-wise hash of AllowedIds with the same length; Trans and Weights start empty, so `Valid` holds |
| `Trackers.Tracker.HasTargets` | Runtime/AbstractTracker.cs:25-28 | true exactly when Trans is non-empty |
| `Trackers.Tracker.GetAllOfId` | Runtime/AbstractTracker.cs:50-61 | fails exactly when some entry cannot be resolved to a Trackable; otherwise returns the matching transforms in Trans order |
| `Trackers.Tracker.StopTracking` | Runtime/AbstractTracker.cs:68-81 | the new lists and the exception flag are `StopTrackingSpec` of the old lists. It throws exactly when some entry cannot be resolved, and then changes nothing. Otherwise it leaves exactly the reference result `KeepOthers`. Paired lists stay paired, and it keeps `Valid` |
| `Trackers.Tracker.RemoveAll` | Runtime/AbstractTracker.cs:71-80 | the foreach of StopTracking in place: the new lists are those of `StopAll` of the old lists, with no exception; keeps `Valid` |
| `Trackers.Tracker.HandleSpawned` | Runtime/AbstractTracker.cs:119-136 | the new lists are `Spawned` of the old ones, with the allowed hashes and the repeat setting; keeps `Valid` |
| `Trackers.Tracker.HandleRemoved` | Runtime/AbstractTracker.cs:138-147 | the new lists are `RemoveTracked` of the old lists and the event's transform, with no exception; keeps `Valid` |
| `Trackers.Tracker.RemoveEntry` | Runtime/AbstractTracker.cs:140-145 | in-place form of `RemoveTracked`, without an exception, shared by HandleRemoved and the StopTracking loop; keeps `Valid` |
| `Trackables.InitStep` | Runtime/Trackable.cs:67-74 | posts a spawn and sets Posted exactly when authority validates; PostedOnEnable is untouched |
| `Trackables.OnHook` | Runtime/Trackable.cs:30-60 | at most one post per hook. A removal is posted only by OnDisable or OnDestroy while Posted is set, and a spawn only with authority. PostedOnEnable is never reset and never changes in Start mode. OnDisable always clears Posted and posts exactly when both flags are set. OnDestroy changes no flag and posts exactly when Posted is set |
| `Trackables.PostedOnEnableStays` | Runtime/Trackable.cs:50 | once set, PostedOnEnable stays set through any sequence of hooks |
| `Trackables.StartModeKeepsPostedOnEnable` | Runtime/Trackable.cs:48-52 | in Start mode no sequence of hooks changes PostedOnEnable |
| `Trackables.RemovalFollowsSpawn` | Runtime/Trackable.cs:37-74 | in any lifecycle that ends with at most one OnDestroy, every removal message directly follows a spawn message, so at most one removal follows each successful Init |
| `Trackables.FreshLifecycleRemovalsPaired` | Runtime/Trackable.cs:37-74 | the same for a freshly created Trackable |
| `Trackables.StartModeSilentWithoutStart` | Runtime/Trackable.cs:30-43 | in Start mode, with Posted clear and no further Start hook, no removal is ever posted and Posted stays clear |
| `Trackables.StartModeDisableLosesRemoval` | Runtime/Trackable.cs:55-60 | in Start mode a disable followed by any hooks other than Start, OnDestroy included, posts no removal |
| `Trackables.Trackable.constructor` | Runtime/Trackable.cs:17-23 | a new Trackable has both flags clear and an empty log |
| `Trackables.Trackable.Init` | Runtime/Trackable.cs:67-74 | Posted becomes true and one spawn is logged exactly when authority validates; otherwise nothing changes |
| `Trackables.Trackable.Start` | Runtime/Trackable.cs:30-35 | follows `OnHook` for a Start hook; calls Init only in Start mode and changes nothing in Enable mode |
| `Trackables.Trackable.OnDestroy` | Runtime/Trackable.cs:37-43 | logs a removal exactly when Posted is set and changes no flag |
| `Trackables.Trackable.OnEnable` | Runtime/Trackable.cs:45-53 | a null id becomes the empty string. In Enable mode it sets PostedOnEnable and runs Init; in Start mode the flags and the log are unchanged |
| `Trackables.Trackable.OnDisable` | Runtime/Trackable.cs:55-60 | logs a removal exactly when Posted and PostedOnEnable are both set, and always leaves Posted false |

## Left out

- Runtime/SmoothFollowTrackables.cs is not modelled. It does per-frame floating-point smoothing through engine calls that are not shown (time scale, delta time, `MathUtils.SmoothApproach`, rigidbody and transform positions).
- The `Centroid`, `WeightedCentroid`, `WeightLimitedCentroid` and `Positions` getters are not modelled. They are float vector math through `MathUtils` and `SharedArrayFactory`, which are not part of this model. `MyTrans` is read only by the three centroid getters (Runtime/AbstractTracker.cs:32-42) and by Runtime/SmoothFollowTrackables.cs:69 and :124, which are also left out.
- Runtime/Messages.cs is not modelled as classes. Its two events are the datatypes `SpawnedEvent` and `RemovedEvent`, each carrying its target.
- Listener registration is not modelled: `GlobalMessagePump.AddListener` and `RemoveListener` in `Awake` and `OnDestroy` of the tracker, and `PostMessage` on the pump. The pump is external. In the model, posting appends to the ghost `Log`, and the handlers are methods called directly.
- The scene-unload hook (`SceneManager.sceneUnloaded`, `SceneUnloaded`, `CleanupMessage`) is engine lifecycle and message buffering, and is not modelled.
- The model assumes that `List<T>.Remove(null)` and `List<T>.Contains` in `HandleSpawned` (Runtime/AbstractTracker.cs:126-128) treat a transform the engine has destroyed as equal to null, through Unity's overloaded equality; that is the `Stale` entry. If the runtime's default comparer matched only true null references, the stale-reference branch would remove nothing, since `Trans` never holds a true null. The desync that `Spawned` and `StaleSpawnMispairs` describe happens only under this assumption.
- `ValidateAuthority` is a boolean parameter. `TypeHelper.IsReferenceNull` is the `isNull` field of `TrackableRef`. Unity's null equality of destroyed objects is the `Stale` entry. Which entries become stale is decided by the engine, so no operation of the model makes an entry stale.
- `OnBeginTracking` and `OnEndTracking` are abstract hooks whose only implementation is empty, so the model treats them as no-ops.
- The removal event carries a live transform. A Trackable posts it synchronously from `OnDisable` or `OnDestroy`, while it still exists. The exception that reading `.transform` of a destroyed target would raise is therefore not modelled.
- `HashedString` is reduced to the hash a `TrackableRef` carries and the `StringToHash` function. `Trackable.IdValue` keeps only the null-to-empty replacement of `OnEnable`, and `Hash` is not recomputed there.
- The Trackable's `Weight` is the weight a `TrackableRef` carries. Floats are never computed with, so weights are an opaque type parameter.
- `OccursAt`, `AllowRepeats` and `AllowedIds` are fixed at construction. The source lets the inspector change them.
- `Trackables.OnHook` and `Run` accept any order of hooks. The pairing of removals (`RemovalFollowsSpawn`) is proved only for hook sequences with at most one `OnDestroy`, at the end, which is the order the engine guarantees. A second `OnDestroy` would post a second removal, because `OnDestroy` does not clear `Posted`.
