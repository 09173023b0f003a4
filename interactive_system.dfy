/**
 * The interaction marker pass of the engine's InteractiveSystem.
 *
 * Every tick, for each interactor the raycast leaves a focused entity (or
 * none) and a list of sub-focused entities on the interactor's `Interacts`
 * component. The pass marks the focused entity with `InteractiveFocused`,
 * sweeps every interactive entity to strip `InteractiveFocused` from the
 * others and to keep `SubFocused` in step with the sub-focus list, tags
 * placed entities with `CalcBoundingBox`, and then runs the behaviour
 * callbacks for the query deltas in a fixed order.
 *
 * The pass is specified by functions on `Components` values (Mark, Sweep,
 * ProcessInteractor, ProcessAll); the method `InteractiveSystem.Execute`
 * does the same work step by step on a `World` and is proved equal to them.
 */
module Interaction {
  import opened Options
  import opened Ecs

  /** What the raycast leaves on an interactor's `Interacts` component. */
  datatype Hit = Hit(focusedInteractive: Option<Entity>, subFocusedArray: seq<SubFocus>)

  /** The `added`/`removed` lists of the three listening queries for this tick. */
  datatype Deltas = Deltas(
    boundingBoxAdded: seq<Entity>,
    focusAdded: seq<Entity>,
    focusRemoved: seq<Entity>,
    subfocusAdded: seq<Entity>,
    subfocusRemoved: seq<Entity>)

  /** The behaviour functions the pass hands entities to. */
  datatype Behaviour = CalcBoundingBoxBehaviour | InteractFocusedBehaviour | SubFocusedBehaviour

  /** One invocation of a behaviour callback. */
  datatype Call = Call(behaviour: Behaviour, entity: Entity)

  // ---------------------------------------------------------------------
  // The bounding-box gate and one step of the sweep
  // ---------------------------------------------------------------------

  /** An Object3D position other than (0, 0, 0). */
  predicate NotAtOrigin(d: Data) {
    d.Object3D? && (d.position.x != 0 || d.position.y != 0 || d.position.z != 0)
  }

  /** `e` has an Object3DComponent that is not at the origin. */
  predicate Placed(c: Components, e: Entity) {
    Has(c, e, Object3DComponent) && NotAtOrigin(c[e][Object3DComponent])
  }

  /** `e` is driven by physics: it has a RigidBody or a VehicleBody. */
  predicate IsDynamic(c: Components, e: Entity) {
    Has(c, e, RigidBody) || Has(c, e, VehicleBody)
  }

  /** Some entry of the sub-focus list names `e`. */
  predicate InSubFocused(sub: seq<SubFocus>, e: Entity) {
    exists s :: s in sub && s.entity == e
  }

  /** Tag a placed, untagged entity with CalcBoundingBox. */
  function Gate(c: Components, x: Entity): Components {
    if !Has(c, x, CalcBoundingBox) && Placed(c, x) then
      Add(c, x, CalcBoundingBox, BoundingBox(IsDynamic(c, x)))
    else c
  }

  /** Strip InteractiveFocused from `x` unless `x` is the focused entity. */
  function Unfocus(c: Components, x: Entity, focus: Option<Entity>): Components {
    if focus != Some(x) then Remove(c, x, InteractiveFocused) else c
  }

  /** Make SubFocused on `x` follow membership in the sub-focus list. */
  function SubMark(c: Components, x: Entity, sub: seq<SubFocus>): Components {
    if InSubFocused(sub, x) then
      if !Has(c, x, SubFocused) then Add(c, x, SubFocused, NoData) else c
    else Remove(c, x, SubFocused)
  }

  /** The body of the inner loop, for one interactive entity `x`. */
  function Mark(c: Components, x: Entity, h: Hit): Components {
    SubMark(Unfocus(Gate(c, x), x, h.focusedInteractive), x, h.subFocusedArray)
  }

  /** The inner loop over the interactive snapshot `xs`, in order. */
  function Sweep(c: Components, h: Hit, xs: seq<Entity>): Components
    decreases |xs|
  {
    if xs == [] then c else Mark(Sweep(c, h, xs[..|xs| - 1]), xs[|xs| - 1], h)
  }

  /** One more entity of the snapshot swept. */
  lemma SweepSnoc(c: Components, h: Hit, xs: seq<Entity>, j: nat)
    requires j < |xs|
    ensures Sweep(c, h, xs[..j + 1]) == Mark(Sweep(c, h, xs[..j]), xs[j], h)
  {
    assert xs[..j + 1][..j] == xs[..j];
  }

  /** The raycast's effect: it rewrites the interactor's Interacts data. */
  function Raycast(c: Components, interactor: Entity, h: Hit): Components {
    Add(c, interactor, Interacts, InteractsData(h.focusedInteractive, h.subFocusedArray))
  }

  /** Give the focused entity InteractiveFocused, unless it has it already. */
  function MarkFocus(c: Components, interactor: Entity, focus: Option<Entity>): Components {
    if focus.Some? && !Has(c, focus.value, InteractiveFocused) then
      Add(c, focus.value, InteractiveFocused, FocusedBy(interactor))
    else c
  }

  /** One iteration of the outer loop, for one interactor. */
  function ProcessInteractor(c: Components, interactor: Entity, h: Hit, xs: seq<Entity>): Components {
    Sweep(MarkFocus(Raycast(c, interactor, h), interactor, h.focusedInteractive), h, xs)
  }

  /** The outer loop over the interactors, in order, `hits[i]` being the raycast of `interactors[i]`. */
  function ProcessAll(c: Components, interactors: seq<Entity>, hits: seq<Hit>, xs: seq<Entity>): Components
    requires |hits| == |interactors|
    decreases |interactors|
  {
    if interactors == [] then c
    else
      var n := |interactors| - 1;
      ProcessInteractor(ProcessAll(c, interactors[..n], hits[..n], xs), interactors[n], hits[n], xs)
  }

  /** One more interactor handled: the `i`-th, after the `i` before it. */
  lemma ProcessAllSnoc(c: Components, interactors: seq<Entity>, hits: seq<Hit>, xs: seq<Entity>, i: nat)
    requires |hits| == |interactors| && i < |interactors|
    ensures ProcessAll(c, interactors[..i + 1], hits[..i + 1], xs)
         == ProcessInteractor(ProcessAll(c, interactors[..i], hits[..i], xs), interactors[i], hits[i], xs)
    ensures FocusSet(hits[..i + 1]) == FocusSet(hits[..i]) + FocusOf(hits[i])
  {
    assert interactors[..i + 1][..i] == interactors[..i];
    assert hits[..i + 1][..i] == hits[..i];
  }

  /** The raycast's focused entity, if any, as a set. */
  function FocusOf(h: Hit): set<Entity> {
    if h.focusedInteractive.Some? then {h.focusedInteractive.value} else {}
  }

  /** The non-null focused entities of a sequence of raycasts. */
  function FocusSet(hits: seq<Hit>): set<Entity>
    decreases |hits|
  {
    if hits == [] then {}
    else
      var n := |hits| - 1;
      FocusSet(hits[..n]) + FocusOf(hits[n])
  }

  // ---------------------------------------------------------------------
  // What the sweep does to one entity
  // ---------------------------------------------------------------------

  /**
   * The component of kind `k` that an entity `y` of the snapshot holds after
   * a sweep that started from `c`: InteractiveFocused survives only on the
   * focused entity, SubFocused follows the list (an existing one is kept), a
   * placed entity without CalcBoundingBox gets one carrying its dynamic
   * flag, and every other kind is left as it was.
   */
  function Swept(c: Components, h: Hit, y: Entity, k: Kind): Option<Data> {
    match k
    case InteractiveFocused =>
      if h.focusedInteractive == Some(y) then Get(c, y, k) else None
    case SubFocused =>
      if !InSubFocused(h.subFocusedArray, y) then None
      else if Has(c, y, k) then Get(c, y, k) else Some(NoData)
    case CalcBoundingBox =>
      if Has(c, y, k) then Get(c, y, k)
      else if Placed(c, y) then Some(BoundingBox(IsDynamic(c, y)))
      else None
    case _ => Get(c, y, k)
  }

  /** Two stores agree on every component of `y`. */
  ghost predicate SameEntity(c: Components, d: Components, y: Entity) {
    forall k :: Get(c, y, k) == Get(d, y, k)
  }

  lemma SameEntitySwept(c: Components, d: Components, h: Hit, y: Entity)
    requires SameEntity(c, d, y)
    ensures forall k :: Swept(c, h, y, k) == Swept(d, h, y, k)
  {
    assert Get(c, y, Object3DComponent) == Get(d, y, Object3DComponent);
    assert Get(c, y, RigidBody) == Get(d, y, RigidBody);
    assert Get(c, y, VehicleBody) == Get(d, y, VehicleBody);
    assert Get(c, y, CalcBoundingBox) == Get(d, y, CalcBoundingBox);
    assert Get(c, y, SubFocused) == Get(d, y, SubFocused);
  }

  /** Mark changes only `x`, and changes it as `Swept` says. */
  lemma MarkEffect(c: Components, x: Entity, h: Hit)
    ensures forall k :: Get(Mark(c, x, h), x, k) == Swept(c, h, x, k)
    ensures forall y, k :: y != x ==> Get(Mark(c, x, h), y, k) == Get(c, y, k)
  {
    forall k ensures Get(Mark(c, x, h), x, k) == Swept(c, h, x, k) {
      MarkEffectAt(c, x, h, k);
    }
  }

  lemma MarkEffectAt(c: Components, x: Entity, h: Hit, k: Kind)
    ensures Get(Mark(c, x, h), x, k) == Swept(c, h, x, k)
  {
    var g := Gate(c, x);
    var u := Unfocus(g, x, h.focusedInteractive);
    assert Get(g, x, SubFocused) == Get(c, x, SubFocused);
    assert Get(u, x, SubFocused) == Get(c, x, SubFocused);
    if k == CalcBoundingBox {
      assert Get(u, x, k) == Get(g, x, k);
    } else if k != InteractiveFocused && k != SubFocused {
      assert Get(g, x, k) == Get(c, x, k);
      assert Get(u, x, k) == Get(c, x, k);
    }
  }

  /** Applying `Swept` to a store that is already swept changes nothing. */
  lemma SweptIdempotent(c: Components, d: Components, h: Hit, y: Entity)
    requires forall k :: Get(d, y, k) == Swept(c, h, y, k)
    ensures forall k :: Swept(d, h, y, k) == Get(d, y, k)
  {
    assert Get(d, y, Object3DComponent) == Get(c, y, Object3DComponent);
    assert Placed(d, y) == Placed(c, y);
    assert Get(d, y, CalcBoundingBox) == Swept(c, h, y, CalcBoundingBox);
    assert Get(d, y, SubFocused) == Swept(c, h, y, SubFocused);
  }

  /**
   * A sweep acts on each entity of the snapshot independently of the order
   * of the snapshot and of repetitions in it, and leaves every other entity
   * alone.
   */
  lemma {:induction false} SweepEffect(c: Components, h: Hit, xs: seq<Entity>, y: Entity)
    ensures y !in xs ==> SameEntity(Sweep(c, h, xs), c, y)
    ensures y in xs ==> forall k :: Get(Sweep(c, h, xs), y, k) == Swept(c, h, y, k)
    decreases |xs|
  {
    if xs != [] {
      var n := |xs| - 1;
      var p := Sweep(c, h, xs[..n]);
      SweepEffect(c, h, xs[..n], y);
      MarkEffect(p, xs[n], h);
      assert xs == xs[..n] + [xs[n]];
      if y == xs[n] {
        if y in xs[..n] {
          SweptIdempotent(c, p, h, y);
        } else {
          SameEntitySwept(p, c, h, y);
        }
      }
    }
  }

  // ---------------------------------------------------------------------
  // One interactor
  // ---------------------------------------------------------------------

  /** Before the sweep: only the interactor's Interacts and the focused entity's marker differ from `c`. */
  lemma PrepareEffect(c: Components, i: Entity, h: Hit, y: Entity)
    ensures var m := MarkFocus(Raycast(c, i, h), i, h.focusedInteractive);
      && (forall k :: k != Interacts && k != InteractiveFocused ==> Get(m, y, k) == Get(c, y, k))
      && (y != i ==> Get(m, y, Interacts) == Get(c, y, Interacts))
      && (y == i ==> Get(m, y, Interacts) == Some(InteractsData(h.focusedInteractive, h.subFocusedArray)))
      && (h.focusedInteractive != Some(y) ==> Get(m, y, InteractiveFocused) == Get(c, y, InteractiveFocused))
      && (h.focusedInteractive == Some(y) ==>
            Get(m, y, InteractiveFocused) ==
            if Has(c, y, InteractiveFocused) then Get(c, y, InteractiveFocused) else Some(FocusedBy(i)))
  {
  }

  /**
   * The focused entity ends with InteractiveFocused; it is added, naming the
   * interactor, only when the entity did not have it, and an existing one is
   * left as it was.
   */
  lemma FocusMarkedOnce(c: Components, i: Entity, h: Hit, xs: seq<Entity>)
    requires h.focusedInteractive.Some?
    ensures var f := h.focusedInteractive.value;
      Get(ProcessInteractor(c, i, h, xs), f, InteractiveFocused) ==
      if Has(c, f, InteractiveFocused) then Get(c, f, InteractiveFocused) else Some(FocusedBy(i))
  {
    var f := h.focusedInteractive.value;
    var m := MarkFocus(Raycast(c, i, h), i, h.focusedInteractive);
    PrepareEffect(c, i, h, f);
    SweepEffect(m, h, xs, f);
  }

  /** After one interactor's sweep, no entity of the snapshot but its focused entity is marked focused. */
  lemma FocusExclusive(c: Components, i: Entity, h: Hit, xs: seq<Entity>)
    ensures forall y :: y in xs && Has(ProcessInteractor(c, i, h, xs), y, InteractiveFocused) ==>
      h.focusedInteractive == Some(y)
  {
    var m := MarkFocus(Raycast(c, i, h), i, h.focusedInteractive);
    forall y | y in xs ensures Has(ProcessInteractor(c, i, h, xs), y, InteractiveFocused) ==> h.focusedInteractive == Some(y) {
      SweepEffect(m, h, xs, y);
      assert Get(ProcessInteractor(c, i, h, xs), y, InteractiveFocused) == Swept(m, h, y, InteractiveFocused);
    }
  }

  /** Hence at most one entity of the snapshot carries the marker. */
  lemma FocusAtMostOne(c: Components, i: Entity, h: Hit, xs: seq<Entity>, y1: Entity, y2: Entity)
    requires y1 in xs && y2 in xs
    requires Has(ProcessInteractor(c, i, h, xs), y1, InteractiveFocused)
    requires Has(ProcessInteractor(c, i, h, xs), y2, InteractiveFocused)
    ensures y1 == y2
  {
    FocusExclusive(c, i, h, xs);
  }

  /** After one interactor's sweep, an entity of the snapshot is sub-focused iff the list names it. */
  lemma SubFocusFollowsList(c: Components, i: Entity, h: Hit, xs: seq<Entity>)
    ensures forall y :: y in xs ==>
      (Has(ProcessInteractor(c, i, h, xs), y, SubFocused) <==> InSubFocused(h.subFocusedArray, y))
    ensures forall y :: y in xs && Has(c, y, SubFocused) && InSubFocused(h.subFocusedArray, y) ==>
      Get(ProcessInteractor(c, i, h, xs), y, SubFocused) == Get(c, y, SubFocused)
  {
    var m := MarkFocus(Raycast(c, i, h), i, h.focusedInteractive);
    forall y | y in xs
      ensures Has(ProcessInteractor(c, i, h, xs), y, SubFocused) <==> InSubFocused(h.subFocusedArray, y)
      ensures Has(c, y, SubFocused) && InSubFocused(h.subFocusedArray, y) ==>
        Get(ProcessInteractor(c, i, h, xs), y, SubFocused) == Get(c, y, SubFocused)
    {
      PrepareEffect(c, i, h, y);
      SweepEffect(m, h, xs, y);
      assert Get(ProcessInteractor(c, i, h, xs), y, SubFocused) == Swept(m, h, y, SubFocused);
    }
  }

  /** The CalcBoundingBox an entity of the snapshot holds after the gate has seen it. */
  function GatedBox(c: Components, y: Entity): (r: Option<Data>)
    ensures r.Some? <==> Has(c, y, CalcBoundingBox) || Placed(c, y)
    ensures !Has(c, y, CalcBoundingBox) && Placed(c, y) ==> r == Some(BoundingBox(IsDynamic(c, y)))
  {
    if Has(c, y, CalcBoundingBox) then Get(c, y, CalcBoundingBox)
    else if Placed(c, y) then Some(BoundingBox(IsDynamic(c, y)))
    else None
  }

  /**
   * The bounding-box gate: only a placed entity without the tag gets one,
   * with `dynamic` set iff it has a RigidBody or a VehicleBody; an existing
   * tag, and an entity at the origin, are left alone.
   */
  lemma BoundingBoxGate(c: Components, i: Entity, h: Hit, xs: seq<Entity>)
    ensures forall y :: y in xs ==> Get(ProcessInteractor(c, i, h, xs), y, CalcBoundingBox) == GatedBox(c, y)
  {
    forall y | y in xs ensures Get(ProcessInteractor(c, i, h, xs), y, CalcBoundingBox) == GatedBox(c, y) {
      BoundingBoxGateAt(c, i, h, xs, y);
    }
  }

  lemma BoundingBoxGateAt(c: Components, i: Entity, h: Hit, xs: seq<Entity>, y: Entity)
    requires y in xs
    ensures Get(ProcessInteractor(c, i, h, xs), y, CalcBoundingBox) == GatedBox(c, y)
  {
    var m := MarkFocus(Raycast(c, i, h), i, h.focusedInteractive);
    PrepareEffect(c, i, h, y);
    SweptBoxIsGated(c, m, h, y);
    SweepEffect(m, h, xs, y);
  }

  /** A store that agrees with `c` on `y`'s gate inputs sweeps `y`'s CalcBoundingBox to `GatedBox(c, y)`. */
  lemma SweptBoxIsGated(c: Components, m: Components, h: Hit, y: Entity)
    requires forall k :: k != Interacts && k != InteractiveFocused ==> Get(m, y, k) == Get(c, y, k)
    ensures Swept(m, h, y, CalcBoundingBox) == GatedBox(c, y)
  {
    assert Get(m, y, Object3DComponent) == Get(c, y, Object3DComponent);
    assert Get(m, y, CalcBoundingBox) == Get(c, y, CalcBoundingBox);
    assert Get(m, y, RigidBody) == Get(c, y, RigidBody);
    assert Get(m, y, VehicleBody) == Get(c, y, VehicleBody);
    assert Placed(m, y) == Placed(c, y);
  }

  /** The physics-body and Object3D components are never touched by the pass. */
  lemma StaticKindsKept(c: Components, i: Entity, h: Hit, xs: seq<Entity>)
    ensures forall y, k :: k in {Interactive, Object3DComponent, RigidBody, VehicleBody} ==>
      Get(ProcessInteractor(c, i, h, xs), y, k) == Get(c, y, k)
  {
    var m := MarkFocus(Raycast(c, i, h), i, h.focusedInteractive);
    forall y, k | k in {Interactive, Object3DComponent, RigidBody, VehicleBody}
      ensures Get(ProcessInteractor(c, i, h, xs), y, k) == Get(c, y, k)
    {
      PrepareEffect(c, i, h, y);
      SweepEffect(m, h, xs, y);
    }
  }

  /**
   * Nothing else changes: an entity outside the snapshot that is neither the
   * interactor nor the focused entity keeps all its components, and the
   * interactor's Interacts holds the raycast's result, whether or not the
   * interactor is itself in the snapshot.
   */
  lemma ProcessInteractorFrame(c: Components, i: Entity, h: Hit, xs: seq<Entity>)
    ensures forall y :: y !in xs && y != i && h.focusedInteractive != Some(y) ==>
      SameEntity(ProcessInteractor(c, i, h, xs), c, y)
    ensures Get(ProcessInteractor(c, i, h, xs), i, Interacts) == Some(InteractsData(h.focusedInteractive, h.subFocusedArray))
  {
    var m := MarkFocus(Raycast(c, i, h), i, h.focusedInteractive);
    forall y | y !in xs && y != i && h.focusedInteractive != Some(y)
      ensures SameEntity(ProcessInteractor(c, i, h, xs), c, y)
    {
      PrepareEffect(c, i, h, y);
      SweepEffect(m, h, xs, y);
    }
    PrepareEffect(c, i, h, i);
    SweepEffect(m, h, xs, i);
  }

  /** Running one interactor's pass twice on the same raycast leaves every component as one pass did. */
  lemma ProcessInteractorIdempotent(c: Components, i: Entity, h: Hit, xs: seq<Entity>)
    ensures var r := ProcessInteractor(c, i, h, xs);
      forall y, k :: Get(ProcessInteractor(r, i, h, xs), y, k) == Get(r, y, k)
  {
    var r := ProcessInteractor(c, i, h, xs);
    var m := MarkFocus(Raycast(c, i, h), i, h.focusedInteractive);
    var m2 := MarkFocus(Raycast(r, i, h), i, h.focusedInteractive);
    // the raycast and the focus step find nothing left to do on `r`
    PrepareEffect(c, i, h, i);
    SweepEffect(m, h, xs, i);
    assert Get(r, i, Interacts) == Some(InteractsData(h.focusedInteractive, h.subFocusedArray));
    if h.focusedInteractive.Some? {
      FocusMarkedOnce(c, i, h, xs);
    }
    forall y ensures SameEntity(m2, r, y) {
      PrepareEffect(r, i, h, y);
    }
    assert ProcessInteractor(r, i, h, xs) == Sweep(m2, h, xs);
    forall y, k ensures Get(ProcessInteractor(r, i, h, xs), y, k) == Get(r, y, k) {
      ResweepEntity(m, m2, r, h, xs, y);
    }
  }

  /** One entity `y` after sweeping `m2`, a store that agrees with the swept `r == Sweep(m, h, xs)`. */
  lemma ResweepEntity(m: Components, m2: Components, r: Components, h: Hit, xs: seq<Entity>, y: Entity)
    requires r == Sweep(m, h, xs)
    requires SameEntity(m2, r, y)
    ensures SameEntity(Sweep(m2, h, xs), r, y)
  {
    SweepEffect(m, h, xs, y);
    SweepEffect(m2, h, xs, y);
    if y in xs {
      SameEntitySwept(m2, r, h, y);
      SweptIdempotent(m, r, h, y);
    }
  }

  // ---------------------------------------------------------------------
  // All interactors
  // ---------------------------------------------------------------------

  /**
   * With several interactors, the last one processed decides the focus and
   * sub-focus markers of the snapshot: its focused entity is marked, and no
   * other snapshot entity is.
   */
  lemma LastInteractorWins(c: Components, interactors: seq<Entity>, hits: seq<Hit>, xs: seq<Entity>)
    requires |hits| == |interactors| > 0
    ensures var r := ProcessAll(c, interactors, hits, xs);
      var last := hits[|hits| - 1];
      forall y :: y in xs ==>
        && (Has(r, y, InteractiveFocused) ==> last.focusedInteractive == Some(y))
        && (Has(r, y, SubFocused) <==> InSubFocused(last.subFocusedArray, y))
    ensures var last := hits[|hits| - 1];
      last.focusedInteractive.Some? ==>
        Has(ProcessAll(c, interactors, hits, xs), last.focusedInteractive.value, InteractiveFocused)
  {
    var n := |interactors| - 1;
    var p := ProcessAll(c, interactors[..n], hits[..n], xs);
    assert ProcessAll(c, interactors, hits, xs) == ProcessInteractor(p, interactors[n], hits[n], xs);
    FocusExclusive(p, interactors[n], hits[n], xs);
    SubFocusFollowsList(p, interactors[n], hits[n], xs);
    if hits[n].focusedInteractive.Some? {
      FocusMarkedOnce(p, interactors[n], hits[n], xs);
    }
  }

  /** The gate's outcome does not depend on how many interactors swept the snapshot. */
  lemma {:induction false} BoundingBoxGateAll(c: Components, interactors: seq<Entity>, hits: seq<Hit>, xs: seq<Entity>)
    requires |hits| == |interactors| > 0
    ensures forall y :: y in xs ==> Get(ProcessAll(c, interactors, hits, xs), y, CalcBoundingBox) == GatedBox(c, y)
    decreases |interactors|
  {
    var n := |interactors| - 1;
    var p := ProcessAll(c, interactors[..n], hits[..n], xs);
    BoundingBoxGate(p, interactors[n], hits[n], xs);
    if n > 0 {
      BoundingBoxGateAll(c, interactors[..n], hits[..n], xs);
      StaticKindsKeptAll(c, interactors[..n], hits[..n], xs);
      forall y | y in xs ensures GatedBox(p, y) == GatedBox(c, y) {
        assert Get(p, y, Object3DComponent) == Get(c, y, Object3DComponent);
        assert Placed(p, y) == Placed(c, y);
      }
    }
  }

  lemma {:induction false} StaticKindsKeptAll(c: Components, interactors: seq<Entity>, hits: seq<Hit>, xs: seq<Entity>)
    requires |hits| == |interactors|
    ensures forall y, k :: k in {Interactive, Object3DComponent, RigidBody, VehicleBody} ==>
      Get(ProcessAll(c, interactors, hits, xs), y, k) == Get(c, y, k)
    decreases |interactors|
  {
    if interactors != [] {
      var n := |interactors| - 1;
      StaticKindsKeptAll(c, interactors[..n], hits[..n], xs);
      StaticKindsKept(ProcessAll(c, interactors[..n], hits[..n], xs), interactors[n], hits[n], xs);
    }
  }

  /** `newFocused` collects exactly the non-null focused entities of the raycasts. */
  lemma {:induction false} FocusSetMembers(hits: seq<Hit>)
    ensures forall e :: e in FocusSet(hits) <==> exists j :: 0 <= j < |hits| && hits[j].focusedInteractive == Some(e)
    decreases |hits|
  {
    if hits != [] {
      var n := |hits| - 1;
      FocusSetMembers(hits[..n]);
      forall e ensures e in FocusSet(hits) <==> exists j :: 0 <= j < |hits| && hits[j].focusedInteractive == Some(e) {
        if e in FocusSet(hits[..n]) {
          var j :| 0 <= j < n && hits[..n][j].focusedInteractive == Some(e);
          assert hits[j].focusedInteractive == Some(e);
        }
        if j :| 0 <= j < |hits| && hits[j].focusedInteractive == Some(e) {
          if j < n {
            assert hits[..n][j].focusedInteractive == Some(e);
          }
        }
      }
    }
  }

  // ---------------------------------------------------------------------
  // Callback dispatch
  // ---------------------------------------------------------------------

  /** The calls of one `forEach` over a delta list. */
  function CallsFor(b: Behaviour, es: seq<Entity>): seq<Call>
    decreases |es|
  {
    if es == [] then [] else CallsFor(b, es[..|es| - 1]) + [Call(b, es[|es| - 1])]
  }

  /** One call per entry, in the list's order. */
  lemma {:induction false} CallsForAt(b: Behaviour, es: seq<Entity>)
    ensures |CallsFor(b, es)| == |es|
    ensures forall j :: 0 <= j < |es| ==> CallsFor(b, es)[j] == Call(b, es[j])
    decreases |es|
  {
    if es != [] {
      CallsForAt(b, es[..|es| - 1]);
    }
  }

  /** The five callback loops, in the order the pass runs them. */
  function Dispatch(d: Deltas): seq<Call> {
    CallsFor(CalcBoundingBoxBehaviour, d.boundingBoxAdded)
    + CallsFor(InteractFocusedBehaviour, d.focusAdded)
    + CallsFor(InteractFocusedBehaviour, d.focusRemoved)
    + CallsFor(SubFocusedBehaviour, d.subfocusAdded)
    + CallsFor(SubFocusedBehaviour, d.subfocusRemoved)
  }

  /**
   * Each delta entry gets exactly one call, the bounding-box additions
   * first, then focus added, focus removed, sub-focus added and sub-focus
   * removed.
   */
  lemma DispatchOrder(d: Deltas)
    ensures var s := Dispatch(d);
      var a := |d.boundingBoxAdded|;
      var b := a + |d.focusAdded|;
      var c := b + |d.focusRemoved|;
      var e := c + |d.subfocusAdded|;
      && |s| == e + |d.subfocusRemoved|
      && (forall j :: 0 <= j < a ==> s[j] == Call(CalcBoundingBoxBehaviour, d.boundingBoxAdded[j]))
      && (forall j :: a <= j < b ==> s[j] == Call(InteractFocusedBehaviour, d.focusAdded[j - a]))
      && (forall j :: b <= j < c ==> s[j] == Call(InteractFocusedBehaviour, d.focusRemoved[j - b]))
      && (forall j :: c <= j < e ==> s[j] == Call(SubFocusedBehaviour, d.subfocusAdded[j - c]))
      && (forall j :: e <= j < |s| ==> s[j] == Call(SubFocusedBehaviour, d.subfocusRemoved[j - e]))
  {
    CallsForAt(CalcBoundingBoxBehaviour, d.boundingBoxAdded);
    CallsForAt(InteractFocusedBehaviour, d.focusAdded);
    CallsForAt(InteractFocusedBehaviour, d.focusRemoved);
    CallsForAt(SubFocusedBehaviour, d.subfocusAdded);
    CallsForAt(SubFocusedBehaviour, d.subfocusRemoved);
  }

  /** A `forEach` over a delta list handing each entry to behaviour `b`. */
  method RunCallbacks(b: Behaviour, es: seq<Entity>) returns (calls: seq<Call>)
    ensures calls == CallsFor(b, es)
  {
    calls := [];
    var j := 0;
    while j < |es|
      invariant 0 <= j <= |es|
      invariant calls == CallsFor(b, es[..j])
    {
      assert es[..j + 1][..j] == es[..j];
      calls := calls + [Call(b, es[j])];
      j := j + 1;
    }
    assert es[..j] == es;
  }

  // ---------------------------------------------------------------------
  // The system object
  // ---------------------------------------------------------------------

  class InteractiveSystem {
    /** The entities focused on the previous execution. */
    var focused: set<Entity>
    /** The entities focused on the current execution. */
    var newFocused: set<Entity>

    constructor ()
      ensures focused == {} && newFocused == {}
    {
      focused := {};
      newFocused := {};
    }

    method Dispose()
      modifies this
      ensures focused == {} && newFocused == {}
    {
      focused := {};
      newFocused := {};
    }

    /**
     * The body of the loop over the interactive entities, for `x`, with the
     * focused entity and sub-focus list read from the interactor.
     */
    method MarkInteractive(world: World, x: Entity, h: Hit)
      modifies world
      ensures world.components == Mark(old(world.components), x, h)
    {
      var focus := h.focusedInteractive;
      var sub := h.subFocusedArray;
      if !world.HasComponent(x, CalcBoundingBox) && world.HasComponent(x, Object3DComponent)
         && NotAtOrigin(world.GetComponent(x, Object3DComponent))
      {
        if world.HasComponent(x, RigidBody) || world.HasComponent(x, VehicleBody) {
          world.AddComponent(x, CalcBoundingBox, BoundingBox(true));
        } else {
          world.AddComponent(x, CalcBoundingBox, BoundingBox(false));
        }
      }
      if Some(x) != focus {
        world.RemoveComponent(x, InteractiveFocused);
      }
      if InSubFocused(sub, x) {
        if !world.HasComponent(x, SubFocused) {
          world.AddComponent(x, SubFocused, NoData);
        }
      } else {
        world.RemoveComponent(x, SubFocused);
      }
    }

    /**
     * The work for one interactor: the raycast's write, then the focused
     * entity read back from the interactor's Interacts component is recorded
     * in `newFocused` and marked, and the interactive snapshot is swept.
     */
    method InteractorStep(world: World, entity: Entity, hit: Hit, interactive: seq<Entity>)
      modifies this, world
      ensures world.components == ProcessInteractor(old(world.components), entity, hit, interactive)
      ensures newFocused == old(newFocused) + FocusOf(hit)
      ensures focused == old(focused)
    {
      world.AddComponent(entity, Interacts, InteractsData(hit.focusedInteractive, hit.subFocusedArray));
      var interacts := world.GetComponent(entity, Interacts);
      var focus := interacts.focusedInteractive;
      if focus.Some? {
        newFocused := newFocused + {focus.value};
        if !world.HasComponent(focus.value, InteractiveFocused) {
          world.AddComponent(focus.value, InteractiveFocused, FocusedBy(entity));
        }
      }
      var h := Hit(focus, interacts.subFocusedArray);
      assert h == hit;
      ghost var start := world.components;
      var j := 0;
      while j < |interactive|
        invariant 0 <= j <= |interactive|
        invariant world.components == Sweep(start, h, interactive[..j])
        modifies world
      {
        SweepSnoc(start, h, interactive, j);
        MarkInteractive(world, interactive[j], h);
        j := j + 1;
      }
      assert interactive[..j] == interactive;
    }

    /**
     * The first half of a tick: `newFocused` is cleared, then every
     * interactor is handled in order when the interactive query is not empty.
     */
    method MarkAll(world: World, interactors: seq<Entity>, interactive: seq<Entity>, hits: seq<Hit>)
      requires |hits| == |interactors|
      modifies this, world
      ensures world.components ==
        if interactive == [] then old(world.components)
        else ProcessAll(old(world.components), interactors, hits, interactive)
      ensures newFocused == if interactive == [] then {} else FocusSet(hits)
      ensures focused == old(focused)
    {
      newFocused := {};
      ghost var start := world.components;
      var i := 0;
      while i < |interactors|
        invariant 0 <= i <= |interactors|
        invariant interactive == [] ==> world.components == start && newFocused == {}
        invariant interactive != [] ==>
          && world.components == ProcessAll(start, interactors[..i], hits[..i], interactive)
          && newFocused == FocusSet(hits[..i])
        invariant focused == old(focused)
        modifies this, world
      {
        ProcessAllSnoc(start, interactors, hits, interactive, i);
        if |interactive| > 0 {
          InteractorStep(world, interactors[i], hits[i], interactive);
        }
        i := i + 1;
      }
      assert interactors[..i] == interactors && hits[..i] == hits;
    }

    /** The end of a tick: `focused` is cleared and refilled, element by element, from `newFocused`. */
    method CopyFocused()
      modifies this
      ensures focused == old(newFocused) && newFocused == old(newFocused)
    {
      var acc := {};
      var rest := newFocused;
      while rest != {}
        invariant rest <= newFocused
        invariant acc == newFocused - rest
        decreases rest
      {
        var e :| e in rest;
        acc := acc + {e};
        rest := rest - {e};
      }
      focused := acc;
    }

    /**
     * One tick. `interactors` and `interactive` are the two queries'
     * `all` lists, `hits[i]` is what the raycast finds for `interactors[i]`
     * and `deltas` are the listening queries' change lists.
     */
    method Execute(world: World, interactors: seq<Entity>, interactive: seq<Entity>, hits: seq<Hit>, deltas: Deltas)
      returns (calls: seq<Call>)
      requires |hits| == |interactors|
      modifies this, world
      ensures world.components ==
        if interactive == [] then old(world.components)
        else ProcessAll(old(world.components), interactors, hits, interactive)
      ensures newFocused == if interactive == [] then {} else FocusSet(hits)
      ensures focused == newFocused
      ensures calls == Dispatch(deltas)
    {
      MarkAll(world, interactors, interactive, hits);
      var c0 := RunCallbacks(CalcBoundingBoxBehaviour, deltas.boundingBoxAdded);
      var c1 := RunCallbacks(InteractFocusedBehaviour, deltas.focusAdded);
      var c2 := RunCallbacks(InteractFocusedBehaviour, deltas.focusRemoved);
      var c3 := RunCallbacks(SubFocusedBehaviour, deltas.subfocusAdded);
      var c4 := RunCallbacks(SubFocusedBehaviour, deltas.subfocusRemoved);
      calls := c0 + c1 + c2 + c3 + c4;
      CopyFocused();
    }
  }
}
