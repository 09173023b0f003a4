/**
 * XRDetectedPlanesSystem working in place: the class `PlanesSystem` holds
 * the system's state in fields, and each of its methods is proved to compute
 * the step of the same name in `DetectedPlanes`.
 */
module XRPlanes {
  import opened Options
  import opened PlaneGeometry
  import opened DetectedPlanes

  lemma ForgetNothing(t: Tracker)
    ensures Forget(t, {}) == t
  {
    assert EntitiesOf(t.planes, {}) == {};
    assert t.planes - {} == t.planes;
    assert t.times - {} == t.times;
    assert t.entities - {} == t.entities;
  }

  /** Losing one more plane `p`, given the planes `gone` already lost. */
  lemma ForgetOne(t: Tracker, gone: set<PlaneId>, p: PlaneId)
    requires p in t.planes && p !in gone
    ensures var f := Forget(t, gone);
      && p in f.planes && f.planes[p] == t.planes[p]
      && Forget(t, gone + {p})
         == f.(planes := f.planes - {p}, times := f.times - {p}, entities := f.entities - {t.planes[p]})
  {
    var f := Forget(t, gone);
    var g := Forget(t, gone + {p});
    assert g.planes == f.planes - {p};
    assert g.times == f.times - {p};
    assert EntitiesOf(t.planes, gone + {p}) == EntitiesOf(t.planes, gone) + {t.planes[p]};
    assert g.entities == f.entities - {t.planes[p]};
  }

  /**
   * The module-level state of XRDetectedPlanesSystem (the two maps and the
   * name counter), the plane entities it creates and removes, and the calls
   * it makes to its two priority queues.
   */
  class PlanesSystem {
    var detectedPlanesMap: map<PlaneId, Entity>
    var planesLastChangedTimes: map<PlaneId, int>
    var planeId: nat
    var entities: map<Entity, PlaneEntity>
    var nextEntity: Entity
    var queueLog: seq<QueueCall>

    ghost function State(): Tracker
      reads this
    {
      Tracker(detectedPlanesMap, planesLastChangedTimes, planeId, entities, nextEntity, queueLog)
    }

    ghost predicate Valid()
      reads this
    {
      Consistent(State())
    }

    /** Empty maps, the counter at 0, and the two queues created with their budgets. */
    constructor()
      ensures Valid()
      ensures State() == Tracker(map[], map[], 0, map[], 0,
                                 [Create(GeometryQueue, GeometryBudget), Create(PoseQueue, PoseBudget)])
    {
      detectedPlanesMap := map[];
      planesLastChangedTimes := map[];
      planeId := 0;
      entities := map[];
      nextEntity := 0;
      queueLog := [Create(GeometryQueue, GeometryBudget), Create(PoseQueue, PoseBudget)];
    }

    /** `foundPlane`: a new entity carrying the plane's geometry and the next name. */
    method FoundPlane(plane: Plane) returns (e: Entity)
      modifies this
      ensures e == old(nextEntity)
      ensures State() == DetectedPlanes.FoundPlane(old(State()), plane)
    {
      var geometry := CreateGeometryFromPolygon(plane.polygon);
      e := nextEntity;
      nextEntity := nextEntity + 1;
      entities := entities[e := PlaneEntity(planeId, plane.id, geometry)];
      planeId := planeId + 1;
    }

    /** `lostPlane`: the plane's entity is removed. */
    method LostPlane(e: Entity)
      modifies this
      ensures entities == old(entities) - {e}
      ensures detectedPlanesMap == old(detectedPlanesMap) && planesLastChangedTimes == old(planesLastChangedTimes)
      ensures planeId == old(planeId) && nextEntity == old(nextEntity) && queueLog == old(queueLog)
    {
      entities := entities - {e};
    }

    /** The body of both loops over `detectedPlanesMap`: lose the plane and delete it from both maps. */
    method ForgetPlane(p: PlaneId)
      requires p in detectedPlanesMap
      modifies this
      ensures entities == old(entities) - {old(detectedPlanesMap)[p]}
      ensures detectedPlanesMap == old(detectedPlanesMap) - {p}
      ensures planesLastChangedTimes == old(planesLastChangedTimes) - {p}
      ensures planeId == old(planeId) && nextEntity == old(nextEntity) && queueLog == old(queueLog)
    {
      LostPlane(detectedPlanesMap[p]);
      detectedPlanesMap := detectedPlanesMap - {p};
      planesLastChangedTimes := planesLastChangedTimes - {p};
    }

    /** One iteration of the loop below, on the plane `p` not visited yet. */
    method VisitPlane(p: PlaneId, keep: set<PlaneId>, ghost t: Tracker, ghost done: set<PlaneId>)
      requires State() == Forget(t, done - keep) && p in t.planes && p !in done
      modifies this
      ensures State() == Forget(t, (done + {p}) - keep)
    {
      if p !in keep {
        assert (done + {p}) - keep == (done - keep) + {p};
        ForgetOne(t, done - keep, p);
        ForgetPlane(p);
      } else {
        assert (done + {p}) - keep == done - keep;
      }
    }

    /**
     * The loop over `detectedPlanesMap` that loses every plane not in
     * `keep`, deleting it from both maps.
     */
    method RemoveLostPlanes(keep: set<PlaneId>)
      modifies this
      ensures State() == RemoveLost(old(State()), keep)
    {
      ghost var t := State();
      var remaining := detectedPlanesMap.Keys;
      ghost var done: set<PlaneId> := {};
      assert done - keep == {};
      ForgetNothing(t);
      while remaining != {}
        invariant done <= t.planes.Keys && remaining == t.planes.Keys - done
        invariant State() == Forget(t, done - keep)
        decreases |remaining|
      {
        var p :| p in remaining;
        VisitPlane(p, keep, t, done);
        remaining := remaining - {p};
        done := done + {p};
      }
      assert done == t.planes.Keys;
      assert done - keep == t.planes.Keys - keep;
    }

    /** `updatePlane`'s change gate and geometry rebuild. */
    method UpdatePlane(plane: Plane)
      requires Advanced(planesLastChangedTimes, plane) ==>
        plane.id in detectedPlanesMap && detectedPlanesMap[plane.id] in entities
      modifies this
      ensures State() == DetectedPlanes.UpdatePlane(old(State()), plane)
    {
      var lastKnownTime := if plane.id in planesLastChangedTimes then planesLastChangedTimes[plane.id] else 0;
      if plane.lastChangedTime > lastKnownTime {
        planesLastChangedTimes := planesLastChangedTimes[plane.id := plane.lastChangedTime];
        var e := detectedPlanesMap[plane.id];
        var geometry := CreateGeometryFromPolygon(plane.polygon);
        entities := entities[e := entities[e].(geometry := geometry)];
      }
    }

    /** One iteration of the loop over the frame's detected planes. */
    method HandleDetectedPlane(plane: Plane)
      modifies this
      ensures State() == ReconcilePlane(old(State()), plane)
    {
      if plane.id !in detectedPlanesMap {
        var made := FoundPlane(plane);
        detectedPlanesMap := detectedPlanesMap[plane.id := made];
      }
      var e := detectedPlanesMap[plane.id];
      var lastKnownTime := if plane.id in planesLastChangedTimes then planesLastChangedTimes[plane.id] else 0;
      if plane.lastChangedTime > lastKnownTime {
        planesLastChangedTimes := planesLastChangedTimes[plane.id := plane.lastChangedTime];
        queueLog := queueLog + [AddPriority(GeometryQueue, e, 1)];
        queueLog := queueLog + [AddPriority(PoseQueue, e, 1)];
      }
      queueLog := queueLog + [AddPriority(PoseQueue, e, 1)];
    }

    /**
     * The loop over the queued session-changed actions: the first one that
     * is not active loses every plane, and the tick ends there.
     */
    method EndSession(actions: seq<SessionChanged>) returns (ended: bool)
      modifies this
      ensures ended == SessionEnded(actions)
      ensures State() == if ended then RemoveLost(old(State()), {}) else old(State())
    {
      var i := 0;
      while i < |actions|
        invariant 0 <= i <= |actions|
        invariant forall j :: 0 <= j < i ==> actions[j].active
        invariant State() == old(State())
      {
        if !actions[i].active {
          RemoveLostPlanes({});
          return true;
        }
        i := i + 1;
      }
      return false;
    }

    /** Lose the planes the frame no longer reports, handle the detected ones, update both queues. */
    method ReconcileFrame(ps: seq<Plane>)
      modifies this
      ensures State() == Reconcile(old(State()), ps)
    {
      RemoveLostPlanes(Ids(ps));
      ghost var t0 := State();
      var k := 0;
      while k < |ps|
        invariant 0 <= k <= |ps|
        invariant State() == ReconcileAll(t0, ps[..k])
      {
        assert ps[..k + 1][..k] == ps[..k];
        HandleDetectedPlane(ps[k]);
        k := k + 1;
      }
      assert ps[..k] == ps;
      queueLog := queueLog + [Update(GeometryQueue)];
      queueLog := queueLog + [Update(PoseQueue)];
    }

    /** One tick of the system. */
    method Execute(actions: seq<SessionChanged>, frame: Option<Frame>, localFloor: bool)
      requires Valid()
      modifies this
      ensures Valid()
      ensures State() == DetectedPlanes.Execute(old(State()), actions, frame, localFloor)
    {
      ExecuteConsistent(State(), actions, frame, localFloor);
      var ended := EndSession(actions);
      if ended {
        return;
      }
      if frame.None? || frame.value.detectedPlanes.None? || frame.value.environmentBlendMode == Opaque || !localFloor {
        return;
      }
      ReconcileFrame(frame.value.detectedPlanes.value);
    }
  }
}
