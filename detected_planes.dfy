/**
 * The detected-plane reconciler of the engine's XRDetectedPlanesSystem.
 *
 * Two module-level maps follow the XR frame's set of detected planes:
 * `detectedPlanesMap` (plane -> the entity standing for it) and
 * `planesLastChangedTimes` (plane -> the last `lastChangedTime` seen). Each
 * tick the reconciler drops the planes the frame no longer reports, creates
 * an entity (named 'plane-N' from a module counter) for each plane it has not
 * seen before, and asks two priority queues for geometry and pose work. The
 * queues are recorded only as the calls made to them.
 *
 * `Tracker` is that state as a value and `Consistent` its invariant; the
 * functions below specify each step, and the class `PlanesSystem` does the
 * same work in place and is proved equal to them.
 */
module DetectedPlanes {
  import opened Options
  import opened PlaneGeometry
  import opened PlaneNames

  /** An XRPlane's identity; the source keys its maps by the plane object. */
  type PlaneId = nat
  type Entity = nat

  /** An XRPlane as the reconciler reads it. */
  datatype Plane = Plane(id: PlaneId, lastChangedTime: int, polygon: seq<Point>)

  datatype BlendMode = Opaque | AlphaBlend | Additive

  /** The XR frame: `detectedPlanes` is None when the frame does not offer it. */
  datatype Frame = Frame(detectedPlanes: Option<seq<Plane>>, environmentBlendMode: BlendMode)

  /** A queued session-changed action. */
  datatype SessionChanged = SessionChanged(active: bool)

  datatype Queue = GeometryQueue | PoseQueue

  /** A call made to one of the two priority queues. */
  datatype QueueCall =
    | Create(queue: Queue, accumulationBudget: nat)
    | AddPriority(queue: Queue, entity: Entity, priority: int)
    | Update(queue: Queue)

  const GeometryBudget: nat := 1
  const PoseBudget: nat := 2

  /** What a plane entity carries: its name counter, its plane and its geometry. */
  datatype PlaneEntity = PlaneEntity(nameIndex: nat, plane: PlaneId, geometry: Geometry) {
    /** The NameComponent value, `'plane-' + nameIndex`. */
    function Name(): string {
      PlaneName(nameIndex)
    }
  }

  /**
   * The reconciler's state: the two maps, the name counter, the plane
   * entities that exist (`entities`, with `nextEntity` the next id the
   * entity allocator hands out) and the queue calls made so far.
   */
  datatype Tracker = Tracker(
    planes: map<PlaneId, Entity>,
    times: map<PlaneId, int>,
    planeId: nat,
    entities: map<Entity, PlaneEntity>,
    nextEntity: Entity,
    log: seq<QueueCall>)

  /** Every plane with a recorded time is in `detectedPlanesMap`. */
  ghost predicate TimesTracked(t: Tracker) {
    t.times.Keys <= t.planes.Keys
  }

  /** Each tracked plane's entity is live and belongs to that plane. */
  ghost predicate PlanesHaveEntities(t: Tracker) {
    forall p :: p in t.planes ==> t.planes[p] in t.entities && t.entities[t.planes[p]].plane == p
  }

  /** Each live plane entity is the one its plane maps to, and is below both allocators. */
  ghost predicate EntitiesHavePlanes(t: Tracker) {
    forall e :: e in t.entities ==>
      && e < t.nextEntity
      && t.entities[e].nameIndex < t.planeId
      && t.entities[e].plane in t.planes
      && t.planes[t.entities[e].plane] == e
  }

  /** No two live plane entities share a name counter. */
  ghost predicate NamesDistinct(t: Tracker) {
    forall e1, e2 :: e1 in t.entities && e2 in t.entities && e1 != e2 ==>
      t.entities[e1].nameIndex != t.entities[e2].nameIndex
  }

  /**
   * The reconciler's invariant: tracked planes and live plane entities
   * correspond one to one, ids and name counters come from below the
   * allocators, and names are not shared.
   */
  ghost predicate Consistent(t: Tracker) {
    TimesTracked(t) && PlanesHaveEntities(t) && EntitiesHavePlanes(t) && NamesDistinct(t)
  }

  // ---------------------------------------------------------------------
  // The steps of `execute`
  // ---------------------------------------------------------------------

  /** The ids of the frame's detected planes. */
  function Ids(ps: seq<Plane>): set<PlaneId> {
    set p | p in ps :: p.id
  }

  /** The frame's planes form a set: no id twice. */
  predicate DistinctIds(ps: seq<Plane>) {
    forall j, k :: 0 <= j < k < |ps| ==> ps[j].id != ps[k].id
  }

  /** The entities the map gives to the planes `ps`. */
  function EntitiesOf(m: map<PlaneId, Entity>, ps: set<PlaneId>): set<Entity> {
    set p | p in m && p in ps :: m[p]
  }

  /** The planes `lost` are lost: their entities are removed and they are deleted from both maps. */
  function Forget(t: Tracker, lost: set<PlaneId>): Tracker {
    t.(planes := t.planes - lost,
       times := t.times - lost,
       entities := t.entities - EntitiesOf(t.planes, lost))
  }

  /** The loop over `detectedPlanesMap` that loses every plane not in `keep`. */
  function RemoveLost(t: Tracker, keep: set<PlaneId>): Tracker {
    Forget(t, t.planes.Keys - keep)
  }

  /** `planesLastChangedTimes.get(plane) ?? 0`. */
  function LastKnown(times: map<PlaneId, int>, id: PlaneId): int {
    if id in times then times[id] else 0
  }

  /** The plane's time is later than the one on record. */
  predicate Advanced(times: map<PlaneId, int>, plane: Plane) {
    plane.lastChangedTime > LastKnown(times, plane.id)
  }

  /** `foundPlane`: a new entity with the plane's geometry, named from the counter, which moves on. */
  function FoundPlane(t: Tracker, plane: Plane): Tracker {
    t.(entities := t.entities[t.nextEntity := PlaneEntity(t.planeId, plane.id, FanGeometry(plane.polygon))],
       nextEntity := t.nextEntity + 1,
       planeId := t.planeId + 1)
  }

  /** The queue calls for one detected plane whose entity is `e`. */
  function PlaneCalls(e: Entity, advanced: bool): seq<QueueCall> {
    (if advanced then [AddPriority(GeometryQueue, e, 1), AddPriority(PoseQueue, e, 1)] else [])
    + [AddPriority(PoseQueue, e, 1)]
  }

  /** The plane's entry in `detectedPlanesMap`, made by `foundPlane` when it has none. */
  function Lookup(t: Tracker, plane: Plane): (r: Tracker)
    ensures plane.id in r.planes
  {
    if plane.id in t.planes then t
    else var f := FoundPlane(t, plane); f.(planes := f.planes[plane.id := t.nextEntity])
  }

  /** One iteration of the loop over the frame's detected planes. */
  function ReconcilePlane(t: Tracker, plane: Plane): (r: Tracker)
    ensures plane.id in r.planes
  {
    var t1 := Lookup(t, plane);
    var e := t1.planes[plane.id];
    if Advanced(t1.times, plane) then
      t1.(times := t1.times[plane.id := plane.lastChangedTime],
          log := t1.log + PlaneCalls(e, true))
    else
      t1.(log := t1.log + PlaneCalls(e, false))
  }

  /** The loop over the frame's detected planes, in the frame's order. */
  function ReconcileAll(t: Tracker, ps: seq<Plane>): Tracker
    decreases |ps|
  {
    if ps == [] then t else ReconcilePlane(ReconcileAll(t, ps[..|ps| - 1]), ps[|ps| - 1])
  }

  /** Drop the lost planes, handle the detected ones, then update both queues. */
  function Reconcile(t: Tracker, ps: seq<Plane>): Tracker {
    var r := ReconcileAll(RemoveLost(t, Ids(ps)), ps);
    r.(log := r.log + [Update(GeometryQueue), Update(PoseQueue)])
  }

  /** Some queued action says the session is no longer active. */
  predicate SessionEnded(actions: seq<SessionChanged>) {
    exists a :: a in actions && !a.active
  }

  /** The frame offers detected planes, does not blend opaquely, and the local floor space is set. */
  predicate FrameUsable(frame: Option<Frame>, localFloor: bool) {
    frame.Some? && frame.value.detectedPlanes.Some? && frame.value.environmentBlendMode != Opaque && localFloor
  }

  /** One call of `execute`. */
  function Execute(t: Tracker, actions: seq<SessionChanged>, frame: Option<Frame>, localFloor: bool): Tracker {
    if SessionEnded(actions) then RemoveLost(t, {})
    else if !FrameUsable(frame, localFloor) then t
    else Reconcile(t, frame.value.detectedPlanes.value)
  }

  /** `updatePlane`'s change gate: a later time is recorded and the plane's geometry rebuilt. */
  function UpdatePlane(t: Tracker, plane: Plane): Tracker
    requires Advanced(t.times, plane) ==> plane.id in t.planes && t.planes[plane.id] in t.entities
  {
    if Advanced(t.times, plane) then
      var e := t.planes[plane.id];
      t.(times := t.times[plane.id := plane.lastChangedTime],
         entities := t.entities[e := t.entities[e].(geometry := FanGeometry(plane.polygon))])
    else t
  }

  // ---------------------------------------------------------------------
  // Each step keeps the invariant
  // ---------------------------------------------------------------------

  lemma IdsSnoc(ps: seq<Plane>)
    requires ps != []
    ensures Ids(ps) == Ids(ps[..|ps| - 1]) + {ps[|ps| - 1].id}
  {
    var n := |ps| - 1;
    assert ps == ps[..n] + [ps[n]];
    forall id | id in Ids(ps) ensures id in Ids(ps[..n]) + {ps[n].id} {
      var p :| p in ps && p.id == id;
      var j :| 0 <= j < |ps| && ps[j] == p;
      if j < n { assert ps[..n][j] == p; }
    }
  }

  /**
   * Losing the planes outside `keep` deletes them from both maps and removes
   * their entities, and leaves the kept planes, their entities and their
   * times as they were.
   */
  lemma RemoveLostFacts(t: Tracker, keep: set<PlaneId>)
    requires Consistent(t)
    ensures var r := RemoveLost(t, keep);
      && Consistent(r)
      && r.planes.Keys == t.planes.Keys * keep
      && (forall p :: p in r.planes ==> r.planes[p] == t.planes[p])
      && (forall p :: p in keep ==> (p in r.times <==> p in t.times) && (p in t.times ==> r.times[p] == t.times[p]))
      && (forall p :: p in t.planes && p !in keep ==> p !in r.times && t.planes[p] !in r.entities)
      && (forall e :: e in r.entities ==> r.entities[e] == t.entities[e])
  {
    var lost := t.planes.Keys - keep;
    var gone := EntitiesOf(t.planes, lost);
    RemoveLostConsistent(t, keep);
    forall p | p in t.planes && p !in keep ensures t.planes[p] in gone {
    }
  }

  lemma RemoveLostConsistent(t: Tracker, keep: set<PlaneId>)
    requires Consistent(t)
    ensures Consistent(RemoveLost(t, keep))
  {
    var r := RemoveLost(t, keep);
    var lost := t.planes.Keys - keep;
    assert TimesTracked(r);
    forall p | p in r.planes ensures r.planes[p] in r.entities && r.entities[r.planes[p]].plane == p {
      assert t.planes[p] in t.entities;
      forall q | q in t.planes && q in lost ensures t.planes[q] != t.planes[p] {
        assert t.entities[t.planes[q]].plane == q;
      }
    }
    assert PlanesHaveEntities(r);
    assert EntitiesHavePlanes(r);
    assert NamesDistinct(r);
  }

  /** When the session ends, both maps end empty and every plane entity is gone. */
  lemma SessionEndEmpties(t: Tracker)
    requires Consistent(t)
    ensures var r := RemoveLost(t, {});
      r.planes == map[] && r.times == map[] && r.entities == map[]
      && r.planeId == t.planeId && r.log == t.log
  {
    var r := RemoveLost(t, {});
    RemoveLostFacts(t, {});
    assert r.planes.Keys == {};
    assert r.times.Keys <= r.planes.Keys;
    forall e | e in t.entities ensures e !in r.entities {
      assert t.planes[t.entities[e].plane] == e;
    }
    assert r.entities.Keys == {};
  }

  /** A new plane's entity has an id and a name counter no live entity has. */
  lemma LookupFacts(t: Tracker, plane: Plane)
    requires Consistent(t)
    ensures var r := Lookup(t, plane);
      var known := plane.id in t.planes;
      && Consistent(r)
      && r.planes == t.planes[plane.id := if known then t.planes[plane.id] else t.nextEntity]
      && r.planeId == t.planeId + (if known then 0 else 1)
      && r.nextEntity == t.nextEntity + (if known then 0 else 1)
      && r.times == t.times && r.log == t.log
      && (forall e :: e in t.entities ==> e in r.entities && r.entities[e] == t.entities[e])
      && (!known ==> r.entities[t.nextEntity] == PlaneEntity(t.planeId, plane.id, FanGeometry(plane.polygon)))
  {
    if plane.id !in t.planes {
      FoundPlaneLinks(t, plane);
      FoundPlaneNames(t, plane);
    }
  }

  /** Creating the entity for a new plane keeps the maps and the entities in one-to-one step. */
  lemma FoundPlaneLinks(t: Tracker, plane: Plane)
    requires Consistent(t) && plane.id !in t.planes
    ensures TimesTracked(Lookup(t, plane))
    ensures PlanesHaveEntities(Lookup(t, plane))
    ensures EntitiesHavePlanes(Lookup(t, plane))
  {
    var r := Lookup(t, plane);
    var made := PlaneEntity(t.planeId, plane.id, FanGeometry(plane.polygon));
    assert r.planes == t.planes[plane.id := t.nextEntity];
    assert r.entities == t.entities[t.nextEntity := made];
    assert t.nextEntity !in t.entities;
    forall p | p in r.planes ensures r.planes[p] in r.entities && r.entities[r.planes[p]].plane == p {
      if p != plane.id {
        assert t.planes[p] in t.entities && t.planes[p] != t.nextEntity;
      }
    }
    forall e | e in r.entities
      ensures e < r.nextEntity && r.entities[e].nameIndex < r.planeId
      ensures r.entities[e].plane in r.planes && r.planes[r.entities[e].plane] == e
    {
      if e != t.nextEntity {
        assert t.entities[e].plane in t.planes && t.entities[e].plane != plane.id;
      }
    }
  }

  /** The new entity's name counter is one no live entity has. */
  lemma FoundPlaneNames(t: Tracker, plane: Plane)
    requires Consistent(t) && plane.id !in t.planes
    ensures NamesDistinct(Lookup(t, plane))
  {
    var r := Lookup(t, plane);
    var made := PlaneEntity(t.planeId, plane.id, FanGeometry(plane.polygon));
    assert r.entities == t.entities[t.nextEntity := made];
    assert t.nextEntity !in t.entities;
    forall e1, e2 | e1 in r.entities && e2 in r.entities && e1 != e2
      ensures r.entities[e1].nameIndex != r.entities[e2].nameIndex
    {
      if e1 != t.nextEntity && e2 != t.nextEntity {
        assert t.entities[e1].nameIndex != t.entities[e2].nameIndex;
      }
    }
  }

  /** One detected plane: its entity is found or created, its time and queue calls follow the gate. */
  lemma ReconcilePlaneFacts(t: Tracker, plane: Plane)
    requires Consistent(t)
    ensures var r := ReconcilePlane(t, plane);
      var known := plane.id in t.planes;
      && Consistent(r)
      && r.planes == t.planes[plane.id := if known then t.planes[plane.id] else t.nextEntity]
      && r.planeId == t.planeId + (if known then 0 else 1)
      && r.nextEntity == t.nextEntity + (if known then 0 else 1)
      && (forall e :: e in t.entities ==> e in r.entities && r.entities[e] == t.entities[e])
      && (forall e :: e in r.entities ==> e in t.entities || e == t.nextEntity)
      && (!known ==> r.entities[t.nextEntity] == PlaneEntity(t.planeId, plane.id, FanGeometry(plane.polygon)))
      && r.times == (if Advanced(t.times, plane) then t.times[plane.id := plane.lastChangedTime] else t.times)
      && r.log == t.log + PlaneCalls(r.planes[plane.id], Advanced(t.times, plane))
  {
    LookupFacts(t, plane);
  }

  /** One iteration's effect on the recorded times and the queue calls. */
  lemma ReconcilePlaneTimesLog(t: Tracker, plane: Plane)
    ensures var r := ReconcilePlane(t, plane);
      && r.times == (if Advanced(t.times, plane) then t.times[plane.id := plane.lastChangedTime] else t.times)
      && r.log == t.log + PlaneCalls(r.planes[plane.id], Advanced(t.times, plane))
  {
  }

  /** The whole loop over the frame's planes keeps the invariant. */
  lemma {:induction false} ReconcileAllConsistent(t: Tracker, ps: seq<Plane>)
    requires Consistent(t)
    ensures Consistent(ReconcileAll(t, ps))
    decreases |ps|
  {
    if ps != [] {
      var n := |ps| - 1;
      ReconcileAllConsistent(t, ps[..n]);
      ReconcilePlaneFacts(ReconcileAll(t, ps[..n]), ps[n]);
    }
  }

  /** What one iteration does to `detectedPlanesMap` and the two counters. */
  lemma ReconcilePlaneMap(t: Tracker, plane: Plane)
    ensures var r := ReconcilePlane(t, plane);
      var known := plane.id in t.planes;
      && r.planes == t.planes[plane.id := if known then t.planes[plane.id] else t.nextEntity]
      && r.planeId == t.planeId + (if known then 0 else 1)
      && r.nextEntity == t.nextEntity + (if known then 0 else 1)
  {
  }

  /**
   * The loop over the frame's planes makes every detected plane tracked and
   * leaves the entity of every plane tracked before as it was.
   */
  lemma {:induction false} ReconcileAllKeys(t: Tracker, ps: seq<Plane>)
    ensures var r := ReconcileAll(t, ps);
      && r.planes.Keys == t.planes.Keys + Ids(ps)
      && (forall p :: p in t.planes ==> r.planes[p] == t.planes[p])
      && t.planeId <= r.planeId && t.nextEntity <= r.nextEntity
    decreases |ps|
  {
    if ps == [] {
      assert Ids(ps) == {};
    } else {
      var n := |ps| - 1;
      ReconcileAllKeys(t, ps[..n]);
      ReconcilePlaneMap(ReconcileAll(t, ps[..n]), ps[n]);
      IdsSnoc(ps);
    }
  }

  /**
   * A plane that was not tracked gets an entity and a name counter from the
   * allocators' values at the start of the loop onward; existing entities
   * are left alone.
   */
  lemma {:induction false} ReconcileAllFresh(t: Tracker, ps: seq<Plane>)
    requires Consistent(t)
    ensures var r := ReconcileAll(t, ps);
      && Consistent(r)
      && (forall p :: p in r.planes && p !in t.planes ==>
            t.nextEntity <= r.planes[p] && t.planeId <= r.entities[r.planes[p]].nameIndex)
      && (forall e :: e in t.entities ==> e in r.entities && r.entities[e] == t.entities[e])
      && (forall e :: e in r.entities ==> e in t.entities || t.nextEntity <= e)
    decreases |ps|
  {
    ReconcileAllConsistent(t, ps);
    if ps != [] {
      var n := |ps| - 1;
      var q := ReconcileAll(t, ps[..n]);
      var plane := ps[n];
      ReconcileAllFresh(t, ps[..n]);
      ReconcileAllKeys(t, ps[..n]);
      ReconcilePlaneFacts(q, plane);
      var r := ReconcilePlane(q, plane);
      forall p | p in r.planes && p !in t.planes
        ensures t.nextEntity <= r.planes[p] && t.planeId <= r.entities[r.planes[p]].nameIndex
      {
        if p in q.planes {
          assert r.planes[p] == q.planes[p];
        } else {
          assert r.planes[p] == q.nextEntity;
        }
      }
    }
  }

  /** Recorded times only grow, and only the detected planes' times change. */
  lemma {:induction false} ReconcileAllTimes(t: Tracker, ps: seq<Plane>)
    ensures var r := ReconcileAll(t, ps);
      && (forall p :: p in t.times ==> p in r.times && r.times[p] >= t.times[p])
      && (forall p :: p !in Ids(ps) ==> (p in r.times <==> p in t.times) && (p in t.times ==> r.times[p] == t.times[p]))
    decreases |ps|
  {
    if ps != [] {
      var n := |ps| - 1;
      ReconcileAllTimes(t, ps[..n]);
      ReconcilePlaneTimesLog(ReconcileAll(t, ps[..n]), ps[n]);
      IdsSnoc(ps);
    }
  }

  /** The loop only appends queue calls. */
  lemma {:induction false} ReconcileAllLogGrows(t: Tracker, ps: seq<Plane>)
    ensures var r := ReconcileAll(t, ps);
      |t.log| <= |r.log| && r.log[..|t.log|] == t.log
    decreases |ps|
  {
    if ps != [] {
      var n := |ps| - 1;
      var q := ReconcileAll(t, ps[..n]);
      ReconcileAllLogGrows(t, ps[..n]);
      ReconcilePlaneTimesLog(q, ps[n]);
      var r := ReconcileAll(t, ps);
      assert r.log[..|q.log|] == q.log;
      assert r.log[..|t.log|] == q.log[..|t.log|];
    }
  }

  // ---------------------------------------------------------------------
  // The queue calls of one frame
  // ---------------------------------------------------------------------

  /**
   * The calls the loop makes, plane by plane in the frame's order, for
   * recorded times `times` and final map `m`.
   */
  function ExpectedCalls(times: map<PlaneId, int>, ps: seq<Plane>, m: map<PlaneId, Entity>): seq<QueueCall>
    requires forall k :: 0 <= k < |ps| ==> ps[k].id in m
    decreases |ps|
  {
    if ps == [] then []
    else
      var n := |ps| - 1;
      ExpectedCalls(times, ps[..n], m) + PlaneCalls(m[ps[n].id], Advanced(times, ps[n]))
  }

  lemma {:induction false} ExpectedCallsAgree(times1: map<PlaneId, int>, times2: map<PlaneId, int>, ps: seq<Plane>,
                                              m1: map<PlaneId, Entity>, m2: map<PlaneId, Entity>)
    requires forall k :: 0 <= k < |ps| ==> ps[k].id in m1 && ps[k].id in m2 && m1[ps[k].id] == m2[ps[k].id]
    requires forall k :: 0 <= k < |ps| ==> LastKnown(times1, ps[k].id) == LastKnown(times2, ps[k].id)
    ensures ExpectedCalls(times1, ps, m1) == ExpectedCalls(times2, ps, m2)
    decreases |ps|
  {
    if ps != [] {
      ExpectedCallsAgree(times1, times2, ps[..|ps| - 1], m1, m2);
    }
  }

  /**
   * Every call is an `addPriority` with priority 1; every plane's entity
   * is submitted to the pose queue; an entity is submitted to the geometry
   * queue iff it belongs to a plane whose time advanced.
   */
  lemma {:induction false} ExpectedCallsFacts(times: map<PlaneId, int>, ps: seq<Plane>, m: map<PlaneId, Entity>)
    requires forall k :: 0 <= k < |ps| ==> ps[k].id in m
    ensures forall c :: c in ExpectedCalls(times, ps, m) ==> c.AddPriority? && c.priority == 1
    ensures forall k :: 0 <= k < |ps| ==> AddPriority(PoseQueue, m[ps[k].id], 1) in ExpectedCalls(times, ps, m)
    ensures forall e :: AddPriority(GeometryQueue, e, 1) in ExpectedCalls(times, ps, m) <==>
      exists k :: 0 <= k < |ps| && Advanced(times, ps[k]) && m[ps[k].id] == e
    decreases |ps|
  {
    if ps != [] {
      var n := |ps| - 1;
      var pre := ExpectedCalls(times, ps[..n], m);
      var last := PlaneCalls(m[ps[n].id], Advanced(times, ps[n]));
      ExpectedCallsFacts(times, ps[..n], m);
      assert ExpectedCalls(times, ps, m) == pre + last;
      forall k | 0 <= k < |ps| ensures AddPriority(PoseQueue, m[ps[k].id], 1) in pre + last {
        if k < n {
          assert ps[..n][k] == ps[k];
        } else {
          assert last[|last| - 1] == AddPriority(PoseQueue, m[ps[k].id], 1);
        }
      }
      forall e ensures AddPriority(GeometryQueue, e, 1) in pre + last <==>
        exists k :: 0 <= k < |ps| && Advanced(times, ps[k]) && m[ps[k].id] == e
      {
        if AddPriority(GeometryQueue, e, 1) in pre {
          var k :| 0 <= k < n && Advanced(times, ps[..n][k]) && m[ps[..n][k].id] == e;
          assert ps[..n][k] == ps[k];
        } else if AddPriority(GeometryQueue, e, 1) in last {
          assert Advanced(times, ps[n]) && m[ps[n].id] == e;
        }
        if k :| 0 <= k < |ps| && Advanced(times, ps[k]) && m[ps[k].id] == e {
          if k < n {
            assert ps[..n][k] == ps[k];
          } else {
            assert last[0] == AddPriority(GeometryQueue, e, 1);
          }
        }
      }
    }
  }

  lemma DistinctIdsPrefix(ps: seq<Plane>)
    requires ps != [] && DistinctIds(ps)
    ensures DistinctIds(ps[..|ps| - 1])
    ensures ps[|ps| - 1].id !in Ids(ps[..|ps| - 1])
  {
    var n := |ps| - 1;
    forall p | p in ps[..n] ensures p.id != ps[n].id {
      var j :| 0 <= j < n && ps[..n][j] == p;
      assert ps[j] == p;
    }
  }

  /** Every detected plane is tracked once the loop is done. */
  lemma ReconcileAllCovers(t: Tracker, ps: seq<Plane>)
    ensures forall k :: 0 <= k < |ps| ==> ps[k].id in ReconcileAll(t, ps).planes
  {
    ReconcileAllKeys(t, ps);
    forall k | 0 <= k < |ps| ensures ps[k].id in Ids(ps) {
      assert ps[k] in ps;
    }
  }

  /** The loop's calls, in closed form. */
  lemma {:induction false} ReconcileAllLog(t: Tracker, ps: seq<Plane>)
    requires DistinctIds(ps)
    ensures forall k :: 0 <= k < |ps| ==> ps[k].id in ReconcileAll(t, ps).planes
    ensures var r := ReconcileAll(t, ps); r.log == t.log + ExpectedCalls(t.times, ps, r.planes)
    decreases |ps|
  {
    ReconcileAllCovers(t, ps);
    if ps != [] {
      var n := |ps| - 1;
      var pre := ps[..n];
      var q := ReconcileAll(t, pre);
      var plane := ps[n];
      var r := ReconcilePlane(q, plane);
      DistinctIdsPrefix(ps);
      ReconcileAllLog(t, pre);
      ReconcileAllTimes(t, pre);
      ReconcilePlaneTimesLog(q, plane);
      ReconcilePlaneMap(q, plane);
      assert Advanced(q.times, plane) == Advanced(t.times, plane);
      ExpectedCallsAgree(t.times, t.times, pre, q.planes, r.planes);
      assert ExpectedCalls(t.times, ps, r.planes)
          == ExpectedCalls(t.times, pre, r.planes) + PlaneCalls(r.planes[plane.id], Advanced(t.times, plane));
    }
  }

  // ---------------------------------------------------------------------
  // What one `execute` guarantees
  // ---------------------------------------------------------------------

  /** `execute` keeps the invariant, whichever way it goes. */
  lemma ExecuteConsistent(t: Tracker, actions: seq<SessionChanged>, frame: Option<Frame>, localFloor: bool)
    requires Consistent(t)
    ensures Consistent(Execute(t, actions, frame, localFloor))
  {
    if SessionEnded(actions) {
      RemoveLostFacts(t, {});
    } else if FrameUsable(frame, localFloor) {
      var ps := frame.value.detectedPlanes.value;
      RemoveLostFacts(t, Ids(ps));
      ReconcileAllConsistent(RemoveLost(t, Ids(ps)), ps);
    }
  }

  /** A session-changed action with `active == false` empties both maps and changes nothing else. */
  lemma ExecuteSessionEnd(t: Tracker, actions: seq<SessionChanged>, frame: Option<Frame>, localFloor: bool)
    requires Consistent(t) && SessionEnded(actions)
    ensures var r := Execute(t, actions, frame, localFloor);
      && r.planes == map[] && r.times == map[] && r.entities == map[]
      && r.planeId == t.planeId && r.log == t.log
  {
    SessionEndEmpties(t);
  }

  /** The log plays no part in the invariant. */
  lemma ConsistentIgnoresLog(t: Tracker, log: seq<QueueCall>)
    requires Consistent(t)
    ensures Consistent(t.(log := log))
  {
    var u := t.(log := log);
    assert TimesTracked(u);
    assert PlanesHaveEntities(u);
    assert EntitiesHavePlanes(u);
    assert NamesDistinct(u);
  }

  /** `Reconcile` is the loop over the frame's planes started from the tracker without its lost planes. */
  lemma ReconcileSteps(t: Tracker, ps: seq<Plane>)
    requires Consistent(t)
    ensures var r1 := ReconcileAll(RemoveLost(t, Ids(ps)), ps);
      && Reconcile(t, ps) == r1.(log := r1.log + [Update(GeometryQueue), Update(PoseQueue)])
      && Consistent(r1)
      && Consistent(Reconcile(t, ps))
  {
    var t0 := RemoveLost(t, Ids(ps));
    var r1 := ReconcileAll(t0, ps);
    RemoveLostFacts(t, Ids(ps));
    ReconcileAllConsistent(t0, ps);
    ConsistentIgnoresLog(r1, r1.log + [Update(GeometryQueue), Update(PoseQueue)]);
  }

  /**
   * After reconciliation `detectedPlanesMap` tracks exactly the frame's
   * planes, a plane tracked before keeps its entity, and only detected
   * planes have times.
   */
  lemma ReconcileTracksFrame(t: Tracker, ps: seq<Plane>)
    requires Consistent(t)
    ensures var r := Reconcile(t, ps);
      && Consistent(r)
      && r.planes.Keys == Ids(ps)
      && r.times.Keys <= Ids(ps)
      && (forall p :: p in t.planes && p in Ids(ps) ==> r.planes[p] == t.planes[p])
  {
    var t0 := RemoveLost(t, Ids(ps));
    var r1 := ReconcileAll(t0, ps);
    ReconcileSteps(t, ps);
    RemoveLostKeys(t, Ids(ps));
    ReconcileAllKeys(t0, ps);
    assert TimesTracked(r1);
  }

  /** A lost plane leaves both maps and its entity is removed. */
  lemma ReconcileDropsLost(t: Tracker, ps: seq<Plane>)
    requires Consistent(t)
    ensures var r := Reconcile(t, ps);
      forall p :: p in t.planes && p !in Ids(ps) ==> p !in r.planes && p !in r.times && t.planes[p] !in r.entities
  {
    var t0 := RemoveLost(t, Ids(ps));
    var r1 := ReconcileAll(t0, ps);
    ReconcileSteps(t, ps);
    RemoveLostFacts(t, Ids(ps));
    ReconcileAllKeys(t0, ps);
    ReconcileAllTimes(t0, ps);
    ReconcileAllFresh(t0, ps);
    forall p | p in t.planes && p !in Ids(ps) ensures t.planes[p] !in r1.entities {
      assert t.planes[p] in t.entities;
      assert t.planes[p] < t0.nextEntity;
    }
  }

  /**
   * `foundPlane` runs once for each plane not tracked before, so the name
   * counter moves on by the number of such planes.
   */
  lemma ReconcileCountsNewPlanes(t: Tracker, ps: seq<Plane>)
    requires DistinctIds(ps)
    ensures Reconcile(t, ps).planeId == t.planeId + |Ids(ps) - t.planes.Keys|
  {
    var t0 := RemoveLost(t, Ids(ps));
    RemoveLostKeys(t, Ids(ps));
    ReconcileAllCount(t0, ps);
    var k := Ids(ps);
    SubtractMeet(k, t.planes.Keys);
  }

  /** Adding a new element `x` to `a` adds one to the elements outside `k`, unless `x` is in `k`. */
  lemma NewOutside(a: set<PlaneId>, b: set<PlaneId>, k: set<PlaneId>, x: PlaneId)
    requires b == a + {x} && x !in a
    ensures |b - k| == |a - k| + (if x in k then 0 else 1)
  {
    if x in k {
      assert b - k == a - k;
    } else {
      assert b - k == (a - k) + {x};
      assert (a - k) * {x} == {};
    }
  }

  lemma ReconcileAllTracked(t: Tracker, ps: seq<Plane>, id: PlaneId)
    requires id !in Ids(ps)
    ensures id in ReconcileAll(t, ps).planes <==> id in t.planes
  {
    ReconcileAllKeys(t, ps);
  }

  lemma RemoveLostKeys(t: Tracker, keep: set<PlaneId>)
    ensures RemoveLost(t, keep).planes.Keys == t.planes.Keys * keep
    ensures forall p :: p in RemoveLost(t, keep).planes ==> RemoveLost(t, keep).planes[p] == t.planes[p]
  {
  }

  lemma SubtractMeet(k: set<PlaneId>, m: set<PlaneId>)
    ensures k - m * k == k - m
  {
  }

  lemma {:induction false} ReconcileAllCount(t: Tracker, ps: seq<Plane>)
    requires DistinctIds(ps)
    ensures ReconcileAll(t, ps).planeId == t.planeId + |Ids(ps) - t.planes.Keys|
    decreases |ps|
  {
    if ps == [] {
      assert Ids(ps) - t.planes.Keys == {};
    } else {
      var n := |ps| - 1;
      var pre := ps[..n];
      var id := ps[n].id;
      var q := ReconcileAll(t, pre);
      DistinctIdsPrefix(ps);
      ReconcileAllCount(t, pre);
      ReconcileAllTracked(t, pre, id);
      IdsSnoc(ps);
      NewOutside(Ids(pre), Ids(ps), t.planes.Keys, id);
      assert ReconcileAll(t, ps).planeId == q.planeId + (if id in q.planes then 0 else 1);
    }
  }

  /**
   * Each plane not tracked before gets a fresh entity for it whose name
   * counter is one the counter had not reached, so its name differs from
   * every name given out before.
   */
  lemma ReconcileNamesNewPlanes(t: Tracker, ps: seq<Plane>)
    requires Consistent(t)
    ensures NewPlanesFresh(t, Reconcile(t, ps), Ids(ps))
  {
    var t0 := RemoveLost(t, Ids(ps));
    var r1 := ReconcileAll(t0, ps);
    var r := Reconcile(t, ps);
    assert r.planes == r1.planes && r.entities == r1.entities && r.planeId == r1.planeId;
    RemoveLostConsistent(t, Ids(ps));
    RemoveLostKeys(t, Ids(ps));
    ReconcileAllNewPlanes(t0, ps);
    NewPlanesFreshTransfer(t, t0, r1, r, Ids(ps));
  }

  /**
   * Each plane of `ids` that `t` did not track has, in `r`, an entity for
   * it from the entity allocator's value in `t` onward, whose name counter
   * lies between the counter's values in `t` and in `r`, so that its name
   * differs from every name `t` had given out.
   */
  ghost predicate NewPlanesFresh(t: Tracker, r: Tracker, ids: set<PlaneId>) {
    forall p :: p in ids && p !in t.planes ==>
      && p in r.planes && r.planes[p] in r.entities
      && t.nextEntity <= r.planes[p]
      && r.entities[r.planes[p]].plane == p
      && t.planeId <= r.entities[r.planes[p]].nameIndex < r.planeId
      && (forall n :: 0 <= n < t.planeId ==> r.entities[r.planes[p]].Name() != PlaneName(n))
  }

  lemma NewPlanesFreshTransfer(t: Tracker, t0: Tracker, r1: Tracker, r: Tracker, ids: set<PlaneId>)
    requires NewPlanesFresh(t0, r1, ids)
    requires r.planes == r1.planes && r.entities == r1.entities && r.planeId == r1.planeId
    requires t0.nextEntity == t.nextEntity && t0.planeId == t.planeId && t0.planes.Keys <= t.planes.Keys
    ensures NewPlanesFresh(t, r, ids)
  {
  }

  lemma ReconcileAllNewPlanes(t: Tracker, ps: seq<Plane>)
    requires Consistent(t)
    ensures NewPlanesFresh(t, ReconcileAll(t, ps), Ids(ps))
  {
    var r := ReconcileAll(t, ps);
    ReconcileAllKeys(t, ps);
    ReconcileAllFresh(t, ps);
    forall p | p in Ids(ps) && p !in t.planes
      ensures forall n :: 0 <= n < t.planeId ==> r.entities[r.planes[p]].Name() != PlaneName(n)
    {
      NameUnused(r.entities[r.planes[p]], t.planeId);
    }
  }

  /** An entity whose name counter is at least `bound` has none of the names given out below it. */
  lemma NameUnused(e: PlaneEntity, bound: nat)
    requires bound <= e.nameIndex
    ensures forall n :: 0 <= n < bound ==> e.Name() != PlaneName(n)
  {
    forall n | 0 <= n < bound ensures e.Name() != PlaneName(n) {
      PlaneNameInjective(e.nameIndex, n);
    }
  }

  /** No two live plane entities have the same name. */
  lemma LiveNamesDistinct(t: Tracker)
    requires Consistent(t)
    ensures forall e1, e2 :: e1 in t.entities && e2 in t.entities && e1 != e2 ==>
      t.entities[e1].Name() != t.entities[e2].Name()
  {
    forall e1, e2 | e1 in t.entities && e2 in t.entities && e1 != e2
      ensures t.entities[e1].Name() != t.entities[e2].Name()
    {
      PlaneNameInjective(t.entities[e1].nameIndex, t.entities[e2].nameIndex);
    }
  }

  /**
   * The change gate: a detected plane's time is recorded, overwriting the
   * stored one, exactly when it exceeds the stored time (0 when none is
   * stored); otherwise its entry is left as it was.
   */
  lemma ReconcileTimes(t: Tracker, ps: seq<Plane>)
    requires Consistent(t) && DistinctIds(ps)
    ensures var r := Reconcile(t, ps);
      forall k :: 0 <= k < |ps| ==>
        var p := ps[k];
        && (Advanced(t.times, p) ==> p.id in r.times && r.times[p.id] == p.lastChangedTime)
        && (!Advanced(t.times, p) ==> (p.id in r.times <==> p.id in t.times)
                                       && (p.id in t.times ==> r.times[p.id] == t.times[p.id]))
  {
    var t0 := RemoveLost(t, Ids(ps));
    RemoveLostFacts(t, Ids(ps));
    ReconcileAllGate(t0, ps);
    forall k | 0 <= k < |ps| ensures ps[k].id in Ids(ps) {
      assert ps[k] in ps;
    }
  }

  lemma {:induction false} ReconcileAllGate(t: Tracker, ps: seq<Plane>)
    requires DistinctIds(ps)
    ensures var r := ReconcileAll(t, ps);
      forall k :: 0 <= k < |ps| ==>
        var p := ps[k];
        && (Advanced(t.times, p) ==> p.id in r.times && r.times[p.id] == p.lastChangedTime)
        && (!Advanced(t.times, p) ==> (p.id in r.times <==> p.id in t.times)
                                       && (p.id in t.times ==> r.times[p.id] == t.times[p.id]))
    decreases |ps|
  {
    if ps != [] {
      var n := |ps| - 1;
      var q := ReconcileAll(t, ps[..n]);
      var plane := ps[n];
      DistinctIdsPrefix(ps);
      ReconcileAllGate(t, ps[..n]);
      ReconcileAllTimes(t, ps[..n]);
      ReconcilePlaneTimesLog(q, plane);
      assert LastKnown(q.times, plane.id) == LastKnown(t.times, plane.id);
      forall k | 0 <= k < n ensures ps[k].id != plane.id {
      }
      forall k | 0 <= k < n ensures ps[..n][k] == ps[k] {
      }
    }
  }

  /**
   * The queue calls of a reconciling `execute`: the per-plane calls in the
   * frame's order (see `ExpectedCallsFacts` for what they are), then one
   * `update` of each queue.
   */
  lemma ReconcileQueueCalls(t: Tracker, ps: seq<Plane>)
    requires Consistent(t) && DistinctIds(ps)
    ensures forall k :: 0 <= k < |ps| ==> ps[k].id in Reconcile(t, ps).planes
    ensures var r := Reconcile(t, ps);
      r.log == t.log + ExpectedCalls(t.times, ps, r.planes) + [Update(GeometryQueue), Update(PoseQueue)]
  {
    var t0 := RemoveLost(t, Ids(ps));
    RemoveLostFacts(t, Ids(ps));
    ReconcileAllLog(t0, ps);
    var r := Reconcile(t, ps);
    forall k | 0 <= k < |ps| ensures ps[k].id in Ids(ps) {
      assert ps[k] in ps;
    }
    ExpectedCallsAgree(t0.times, t.times, ps, r.planes, r.planes);
  }

  /** Across every path of `execute`, a recorded time never decreases. */
  lemma ExecuteTimesMonotone(t: Tracker, actions: seq<SessionChanged>, frame: Option<Frame>, localFloor: bool)
    requires Consistent(t)
    ensures var r := Execute(t, actions, frame, localFloor);
      forall p :: p in t.times && p in r.times ==> r.times[p] >= t.times[p]
  {
    if !SessionEnded(actions) && FrameUsable(frame, localFloor) {
      var ps := frame.value.detectedPlanes.value;
      RemoveLostFacts(t, Ids(ps));
      ReconcileAllTimes(RemoveLost(t, Ids(ps)), ps);
    }
  }

  /**
   * `updatePlane` records a later time and rebuilds the plane's geometry
   * from its polygon, and does nothing when the time has not advanced.
   */
  lemma UpdatePlaneGate(t: Tracker, plane: Plane)
    requires Consistent(t) && (Advanced(t.times, plane) ==> plane.id in t.planes)
    ensures Advanced(t.times, plane) ==> t.planes[plane.id] in t.entities
    ensures var r := UpdatePlane(t, plane);
      && Consistent(r)
      && (Advanced(t.times, plane) ==>
            var e := t.planes[plane.id];
            && r.times == t.times[plane.id := plane.lastChangedTime]
            && r.entities == t.entities[e := t.entities[e].(geometry := FanGeometry(plane.polygon))])
      && (!Advanced(t.times, plane) ==> r == t)
      && (plane.id in t.times ==> r.times[plane.id] >= t.times[plane.id])
  {
  }
}
