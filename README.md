# Interaction markers and detected-plane tracking

This project models two per-tick systems of the XREngine engine.

**InteractiveSystem** is the interaction marker pass. For every interactor, the
raycast leaves a focused entity (or none) and a sub-focus list on the
interactor's `Interacts` component. The pass then does four things:

- It marks the focused entity with `InteractiveFocused`, naming the
  interactor, unless the entity already has the marker.
- It sweeps the snapshot of interactive entities. The sweep strips
  `InteractiveFocused` from every entity except the focused one, and keeps
  `SubFocused` in step with the sub-focus list.
- In the same sweep, it tags a placed entity (one whose `Object3D` is off the
  origin) that has no `CalcBoundingBox`. The tag is dynamic exactly when the
  entity has a `RigidBody` or a `VehicleBody`.
- It runs the behaviour callbacks for the query deltas in the code's order
  (IS lines 92-108): bounding-box added first, then focus added, focus
  removed, sub-focus added and sub-focus removed. Then it copies
  `newFocused` into `focused`.

**XRDetectedPlanesSystem** is the detected-plane reconciler. Two maps follow
the XR frame's set of planes: plane to entity, and plane to last change time.
Each tick proceeds as follows:

- A session-ended action loses every plane.
- Otherwise, if the frame is usable, the reconciler loses the planes the frame
  no longer reports.
- It creates an entity for each new plane. The entity carries the plane's
  fan-triangulated geometry and the name `plane-N`, where N comes from a
  module counter.
- For every detected plane it submits the plane's entity to the pose queue.
  When the plane's time has advanced past the recorded one, it also records
  the new time, submits the entity to the geometry queue and submits it to
  the pose queue a second time.

The model has two layers:

- **Values.** Functions on values specify each step: `Components`, a map
  from entity to (kind ↦ data), and `Tracker`, the reconciler's whole state.
  Lemmas prove what the source promises about those functions.
- **Objects.** The classes `Interaction.InteractiveSystem`, `Ecs.World` and
  `XRPlanes.PlanesSystem` do the same work in place, with the source's loops.
  Each of their methods is proved equal to its specification function.

The store's interface is `Has`, `Get` (the component of a kind, or None)
and `Ecs.World`'s `HasComponent` and `GetComponent`, which read the same
map. These accessors carry no claims of their own. The store's laws are
the get-after-add and get-after-remove laws of `Ecs.Add` and `Ecs.Remove`.

In the source, `planeId` and the two maps are module-level values created
once when the module loads, while the two queues are created by each
system instance. `XRPlanes.PlanesSystem` merges both into one object, and
its constructor initialises all of them.

Files:

- `options.dfy`: the `Option` type.
- `ecs.dfy`: the entity/component store, as a value and as the `World` object.
- `interactive_system.dfy`: InteractiveSystem.
- `plane_geometry.dfy`: `createGeometryFromPolygon`.
- `plane_names.dfy`: the `plane-N` names.
- `detected_planes.dfy`: the reconciler as functions and lemmas.
- `planes_system.dfy`: the reconciler as an object.

Paths below are relative to the repository root. `IS` stands for
`packages/engine/src/interaction/systems/InteractiveSystem.ts` and `XP` for
`packages/engine/src/xr/XRDetectedPlanesSystem.ts` in the prose; the table
spells the paths out.

## Model

| member | source | states |
|---|---|---|
| Ecs.Add | packages/engine/src/interaction/systems/InteractiveSystem.ts:72-74 | `addComponent` gives the entity that component with that data and leaves its other kinds and every other entity unchanged |
| Ecs.Remove | packages/engine/src/interaction/systems/InteractiveSystem.ts:78 | `removeComponent` removes exactly that component, and is a no-op when the entity does not have it |
| Ecs.World.AddComponent | packages/engine/src/interaction/systems/InteractiveSystem.ts:58 | the store becomes `Add` of the old store |
| Ecs.World.RemoveComponent | packages/engine/src/interaction/systems/InteractiveSystem.ts:78 | the store becomes `Remove` of the old store |
| Interaction.MarkEffect | packages/engine/src/interaction/systems/InteractiveSystem.ts:64-87 | one step of the inner loop changes only its own entity, and changes it as `Swept` describes: the focus marker survives only on the focused entity, `SubFocused` follows the list and an existing one is kept, and the gate adds a box to a placed, untagged entity |
| Interaction.SweepEffect | packages/engine/src/interaction/systems/InteractiveSystem.ts:64-87 | the whole inner loop leaves entities outside the snapshot alone, and gives each snapshot entity `Swept`'s outcome whatever the snapshot's order or repetitions |
| Interaction.PrepareEffect | packages/engine/src/interaction/systems/InteractiveSystem.ts:52-60 | before the sweep, only the interactor's `Interacts` and the focused entity's marker differ; the marker is added naming the interactor only when it was missing |
| Interaction.FocusMarkedOnce | packages/engine/src/interaction/systems/InteractiveSystem.ts:54-59 | after one interactor, its focused entity carries `InteractiveFocused`; an existing marker is kept as it was, and otherwise the marker names this interactor |
| Interaction.FocusExclusive | packages/engine/src/interaction/systems/InteractiveSystem.ts:77-79 | after one interactor, no snapshot entity other than its focused entity carries `InteractiveFocused` |
| Interaction.FocusAtMostOne | packages/engine/src/interaction/systems/InteractiveSystem.ts:54-79 | after one interactor, at most one snapshot entity carries `InteractiveFocused` |
| Interaction.SubFocusFollowsList | packages/engine/src/interaction/systems/InteractiveSystem.ts:80-86 | after one interactor, a snapshot entity has `SubFocused` iff the sub-focus list names it, and an existing `SubFocused` on a listed entity is kept |
| Interaction.GatedBox | packages/engine/src/interaction/systems/InteractiveSystem.ts:65-76 | an entity has a box after the gate iff it had one or is placed; a newly added box is dynamic iff the entity has a physics body |
| Interaction.BoundingBoxGate | packages/engine/src/interaction/systems/InteractiveSystem.ts:65-76 | after one interactor, each snapshot entity's `CalcBoundingBox` is `GatedBox` of the store before: an existing tag and an entity at the origin are left alone |
| Interaction.StaticKindsKept | packages/engine/src/interaction/systems/InteractiveSystem.ts:49-89 | one interactor's pass never changes `Interactive`, `Object3DComponent`, `RigidBody` or `VehicleBody` on any entity |
| Interaction.ProcessInteractorFrame | packages/engine/src/interaction/systems/InteractiveSystem.ts:49-89 | an entity outside the snapshot that is neither the interactor nor its focused entity keeps all its components, and the interactor's `Interacts` holds the raycast result, also when the interactor is itself interactive |
| Interaction.ProcessInteractorIdempotent | packages/engine/src/interaction/systems/InteractiveSystem.ts:49-89 | running one interactor's pass a second time on the same raycast result changes no component |
| Interaction.LastInteractorWins | packages/engine/src/interaction/systems/InteractiveSystem.ts:49-89 | with several interactors, the last one processed alone decides the markers: its focused entity carries `InteractiveFocused`, no other snapshot entity does, and a snapshot entity is sub-focused iff the last sub-focus list names it |
| Interaction.BoundingBoxGateAll | packages/engine/src/interaction/systems/InteractiveSystem.ts:49-76 | after all interactors, each snapshot entity's box is `GatedBox` of the store at the start of the tick, however many interactors swept it |
| Interaction.StaticKindsKeptAll | packages/engine/src/interaction/systems/InteractiveSystem.ts:49-89 | the whole pass never changes the position or physics-body components |
| Interaction.FocusSetMembers | packages/engine/src/interaction/systems/InteractiveSystem.ts:54-55 | `newFocused` holds exactly the non-null focused entities of the interactors' raycasts |
| Interaction.CallsForAt | packages/engine/src/interaction/systems/InteractiveSystem.ts:92-94 | a `forEach` over a delta list makes one call per entry, in the list's order |
| Interaction.DispatchOrder | packages/engine/src/interaction/systems/InteractiveSystem.ts:92-108 | each delta entry gets exactly one call, in the order bounding-box added, focus added, focus removed, sub-focus added, sub-focus removed |
| Interaction.RunCallbacks | packages/engine/src/interaction/systems/InteractiveSystem.ts:96-98 | the loop's calls are `CallsFor` of the list |
| Interaction.InteractiveSystem.constructor | packages/engine/src/interaction/systems/InteractiveSystem.ts:33-38 | both focus sets start empty |
| Interaction.InteractiveSystem.Dispose | packages/engine/src/interaction/systems/InteractiveSystem.ts:40-44 | both focus sets are cleared |
| Interaction.InteractiveSystem.MarkInteractive | packages/engine/src/interaction/systems/InteractiveSystem.ts:64-87 | the inner loop's body changes the store exactly as `Mark` does |
| Interaction.InteractiveSystem.InteractorStep | packages/engine/src/interaction/systems/InteractiveSystem.ts:51-87 | one interactor changes the store as `ProcessInteractor` does, adds its focused entity (if any) to `newFocused`, and leaves `focused` alone |
| Interaction.InteractiveSystem.MarkAll | packages/engine/src/interaction/systems/InteractiveSystem.ts:47-89 | `newFocused` is cleared; the store becomes `ProcessAll` of the interactors, or stays unchanged when the interactive query is empty; `newFocused` becomes `FocusSet` of the raycasts, or `{}`; `focused` is unchanged |
| Interaction.InteractiveSystem.CopyFocused | packages/engine/src/interaction/systems/InteractiveSystem.ts:110-111 | `focused` ends equal to `newFocused` |
| Interaction.InteractiveSystem.Execute | packages/engine/src/interaction/systems/InteractiveSystem.ts:46-112 | one tick: the store and `newFocused` as under `MarkAll`, `focused == newFocused`, and the callbacks are `Dispatch` of the deltas |
| PlaneGeometry.VerticesLayout | packages/engine/src/xr/XRDetectedPlanesSystem.ts:50-53 | the vertex buffer has 3 entries per point, holding each point's x, y and z in order |
| PlaneGeometry.UvsLayout | packages/engine/src/xr/XRDetectedPlanesSystem.ts:50-53 | the uv buffer has 2 entries per point, holding each point's x and z in order |
| PlaneGeometry.FanIndicesLayout | packages/engine/src/xr/XRDetectedPlanesSystem.ts:55-58 | n >= 3 points give n - 2 triangles, triangle k being (0, k + 1, k + 2); fewer points give none; every index names a point of the polygon |
| PlaneGeometry.CreateGeometryFromPolygon | packages/engine/src/xr/XRDetectedPlanesSystem.ts:42-64 | the two push loops build exactly `FanGeometry` of the polygon |
| PlaneNames.DecimalInjective | packages/engine/src/xr/XRDetectedPlanesSystem.ts:93 | different counter values have different decimal renderings |
| PlaneNames.PlaneNameInjective | packages/engine/src/xr/XRDetectedPlanesSystem.ts:93 | different counter values give different `plane-N` names |
| DetectedPlanes.Lookup | packages/engine/src/xr/XRDetectedPlanesSystem.ts:165-169 | after the lookup, the plane is in `detectedPlanesMap` |
| DetectedPlanes.ReconcilePlane | packages/engine/src/xr/XRDetectedPlanesSystem.ts:164-177 | after one iteration, the plane is in `detectedPlanesMap` |
| DetectedPlanes.RemoveLostFacts | packages/engine/src/xr/XRDetectedPlanesSystem.ts:156-162 | losing the planes outside `keep` keeps the invariant and removes those planes, their times and their entities; kept planes keep their entity and time, and other entities are unchanged |
| DetectedPlanes.SessionEndEmpties | packages/engine/src/xr/XRDetectedPlanesSystem.ts:142-149 | at session end both maps are empty and no plane entity is left; the name counter and the queues are untouched |
| DetectedPlanes.LookupFacts | packages/engine/src/xr/XRDetectedPlanesSystem.ts:86-118 | `foundPlane` runs only for an untracked plane; its new entity has the next id, the next name counter and the plane's fan geometry; the invariant holds and existing entities are unchanged |
| DetectedPlanes.ReconcilePlaneFacts | packages/engine/src/xr/XRDetectedPlanesSystem.ts:164-177 | one iteration keeps the invariant; it maps the plane to its old entity or a new one, records the time iff it advanced, and appends the gate's queue calls |
| DetectedPlanes.ReconcileAllConsistent | packages/engine/src/xr/XRDetectedPlanesSystem.ts:164-177 | the loop over the detected planes keeps the invariant |
| DetectedPlanes.ReconcileAllKeys | packages/engine/src/xr/XRDetectedPlanesSystem.ts:164-177 | after that loop, the tracked planes are the old ones plus every detected one, and old planes keep their entity |
| DetectedPlanes.ReconcileAllFresh | packages/engine/src/xr/XRDetectedPlanesSystem.ts:164-168 | new planes get entities and name counters from the allocators' starting values onward, and existing entities are unchanged |
| DetectedPlanes.ReconcileAllTimes | packages/engine/src/xr/XRDetectedPlanesSystem.ts:170-175 | recorded times only grow, and only the detected planes' times change |
| DetectedPlanes.ReconcileAllLogGrows | packages/engine/src/xr/XRDetectedPlanesSystem.ts:164-177 | the loop only appends queue calls |
| DetectedPlanes.ExpectedCallsFacts | packages/engine/src/xr/XRDetectedPlanesSystem.ts:171-176 | every per-plane call is an `addPriority` with priority 1; every plane's entity goes to the pose queue; an entity goes to the geometry queue iff its plane's time advanced |
| DetectedPlanes.ReconcileAllLog | packages/engine/src/xr/XRDetectedPlanesSystem.ts:164-177 | for a frame of distinct planes, the loop's queue calls are the per-plane calls in the frame's order, judged against the times at the start |
| DetectedPlanes.ExecuteConsistent | packages/engine/src/xr/XRDetectedPlanesSystem.ts:141-199 | `execute` keeps the invariant on every path |
| DetectedPlanes.ExecuteSessionEnd | packages/engine/src/xr/XRDetectedPlanesSystem.ts:142-151 | an inactive session-changed action empties both maps, removes every plane entity, and changes neither the counter nor the queues |
| DetectedPlanes.ReconcileTracksFrame | packages/engine/src/xr/XRDetectedPlanesSystem.ts:156-177 | after reconciliation `detectedPlanesMap` tracks exactly the frame's planes, only those have times, and a plane tracked before keeps its entity |
| DetectedPlanes.ReconcileDropsLost | packages/engine/src/xr/XRDetectedPlanesSystem.ts:156-162 | a plane the frame no longer reports leaves both maps and its entity is removed |
| DetectedPlanes.ReconcileCountsNewPlanes | packages/engine/src/xr/XRDetectedPlanesSystem.ts:93 | the name counter moves on by exactly the number of detected planes not tracked before |
| DetectedPlanes.ReconcileNamesNewPlanes | packages/engine/src/xr/XRDetectedPlanesSystem.ts:86-93 | each new plane gets a fresh entity whose name differs from every name given out before |
| DetectedPlanes.LiveNamesDistinct | packages/engine/src/xr/XRDetectedPlanesSystem.ts:93 | no two live plane entities have the same name |
| DetectedPlanes.ReconcileTimes | packages/engine/src/xr/XRDetectedPlanesSystem.ts:170-175 | a detected plane's time is recorded exactly when it exceeds the stored one (0 when none is stored); otherwise its entry is unchanged |
| DetectedPlanes.ReconcileQueueCalls | packages/engine/src/xr/XRDetectedPlanesSystem.ts:164-180 | the calls of a reconciling tick are the per-plane calls in the frame's order, then one `update` of the geometry queue and one of the pose queue |
| DetectedPlanes.ExecuteTimesMonotone | packages/engine/src/xr/XRDetectedPlanesSystem.ts:141-199 | on every path of `execute`, a recorded time never decreases |
| DetectedPlanes.UpdatePlaneGate | packages/engine/src/xr/XRDetectedPlanesSystem.ts:68-75 | `updatePlane` records a later time and rebuilds the plane's geometry, does nothing on an earlier or equal time (also for an untracked plane), and keeps the invariant |
| XRPlanes.PlanesSystem.constructor | packages/engine/src/xr/XRDetectedPlanesSystem.ts:124-139 | the maps start empty, the counter at 0, and the two queues are created with budgets 1 and 2 |
| XRPlanes.PlanesSystem.FoundPlane | packages/engine/src/xr/XRDetectedPlanesSystem.ts:86-118 | returns the newly allocated entity; the state becomes `FoundPlane` of the old one |
| XRPlanes.PlanesSystem.LostPlane | packages/engine/src/xr/XRDetectedPlanesSystem.ts:120-122 | removes exactly that entity and nothing else |
| XRPlanes.PlanesSystem.ForgetPlane | packages/engine/src/xr/XRDetectedPlanesSystem.ts:158-160 | loses the plane's entity and deletes the plane from both maps, and nothing else |
| XRPlanes.PlanesSystem.RemoveLostPlanes | packages/engine/src/xr/XRDetectedPlanesSystem.ts:156-162 | the loop over `detectedPlanesMap` yields `RemoveLost` of the old state |
| XRPlanes.PlanesSystem.UpdatePlane | packages/engine/src/xr/XRDetectedPlanesSystem.ts:68-75 | the state becomes `UpdatePlane` of the old one |
| XRPlanes.PlanesSystem.HandleDetectedPlane | packages/engine/src/xr/XRDetectedPlanesSystem.ts:164-177 | one iteration yields `ReconcilePlane` of the old state |
| XRPlanes.PlanesSystem.EndSession | packages/engine/src/xr/XRDetectedPlanesSystem.ts:142-151 | reports whether some action is inactive, and in that case loses every plane; otherwise the state is unchanged |
| XRPlanes.PlanesSystem.ReconcileFrame | packages/engine/src/xr/XRDetectedPlanesSystem.ts:156-180 | lost-plane loop, detected-plane loop and queue updates yield `Reconcile` of the old state |
| XRPlanes.PlanesSystem.Execute | packages/engine/src/xr/XRDetectedPlanesSystem.ts:141-180 | one tick keeps the invariant and yields `Execute` of the old state |

## Left out

- The raycast (`interactBoxRaycast`, IS line 52) is not part of this model. Its result is an input, `hits[i]` for `interactors[i]`, written into the interactor's `Interacts` component as the raycast would write it.
- The query results (`all`, `added`, `removed`) are inputs. The entity store's change tracking is a library and is not modelled.
- The behaviour functions `calcBoundingBox`, `interactFocused` and `subFocused` are not part of this model. Their invocations are returned as a list of calls.
- Positions, plane coordinates and a plane's `lastChangedTime` are integers here, not floats. Only the origin test, the buffer layout and the change gate's `>` comparison depend on them.
- The Three.js meshes, materials, `Float32Array` buffers, `setAttribute` and `setIndex`, plus the transform, visibility and group components set in `foundPlane`, are left out: they are rendering structures. A plane entity carries only its name counter, its plane and its geometry buffers.
- The pose writes (`getPose` and `LocalTransformComponent`, XP lines 76-83 and 188-198) are left out: they move floats from the XR runtime and touch no modelled state. For the same reason, `updatePlane`'s `entity` parameter is not modelled, since only its pose lines use it.
- The consumption of `priorityEntities` (XP lines 182-198) and the queues' admission policy are not modelled: the priority queue's source is not part of this model. The queues are recorded as the list of calls made to them.
- Entities are allocated by a counter, `nextEntity`, that never hands out an id twice. The engine's `createEntity` (XP line 89) is not part of this model, so whether it reuses an id freed by `lostPlane` earlier in the same tick is not captured. Two clauses rest on this choice: `DetectedPlanes.ReconcileDropsLost`'s "the lost plane's entity is not among the live entities", and the "fresh entity" part of `DetectedPlanes.ReconcileNamesNewPlanes` (`t.nextEntity <= r.planes[p]`). Name distinctness rests on the `planeId` counter and does not depend on it.
- The JavaScript number `planeId` is unbounded here. Past 2^53 the source would repeat names; the model does not show that.
- `DetectedPlanes.ReconcileAllLog`, `ReconcileTimes`, `ReconcileQueueCalls` and `ReconcileCountsNewPlanes` require the frame's planes to be distinct (`DistinctIds`). An `XRPlaneSet` is a set, but the model takes it as a sequence.
- Maps and sets are iterated in an order the model does not fix (`:|`). Every modelled result is independent of that order.
- Interaction.Placed: an `Object3DComponent` whose data is not an `Object3D` with a position counts as not placed, and the sweep goes on. At IS lines 67-69 the source reads `.value.position.x`, which would throw on such data and abort the tick; that error path is not modelled, since a well-formed store never holds such data.
- An `addComponent(entity, CalcBoundingBox)` without data is modelled as `BoundingBox(false)`.
- Interaction.InteractiveSystem.Execute: its store postcondition is the store as the marker pass leaves it. The callbacks run after the pass (IS lines 92-108) and may write components; those effects are not modelled.
- The truthiness test on `interacts.focusedInteractive` (IS line 54) is modelled as "an entity is present". In this engine an entity is an object, never a falsy number.
- `XRPlanes.PlanesSystem.UpdatePlane` requires the plane to be mapped to a live entity only when its time has advanced. The source uses the non-null lookup `detectedPlanesMap.get(plane)!` only in that case.
