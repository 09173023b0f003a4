/**
 * The entity/component store the two systems work on. In the engine it is a
 * library; here it is kept to what the systems use: every entity has a set
 * of component kinds, each with its data, and components are added,
 * replaced, read, tested for and removed one at a time.
 */
module Ecs {
  import opened Options

  type Entity = nat

  /** The component kinds the interaction pass reads or writes. */
  datatype Kind =
    | Interactive
    | Interacts
    | InteractiveFocused
    | SubFocused
    | CalcBoundingBox
    | Object3DComponent
    | RigidBody
    | VehicleBody

  /** A position; the source's float triple, abstracted to integers. */
  datatype Vec3 = Vec3(x: int, y: int, z: int)

  /** One entry of an interactor's `subFocusedArray`. */
  datatype SubFocus = SubFocus(entity: Entity, distance: int)

  /** Component data: the markers carry `NoData`, the others the shape of their kind. */
  datatype Data =
    | NoData
    | FocusedBy(interacts: Entity)
    | BoundingBox(dynamic: bool)
    | Object3D(position: Vec3)
    | InteractsData(focusedInteractive: Option<Entity>, subFocusedArray: seq<SubFocus>)

  /** Entity -> (kind -> data): the store as a value. */
  type Components = map<Entity, map<Kind, Data>>

  predicate Has(c: Components, e: Entity, k: Kind) {
    e in c && k in c[e]
  }

  /** The component of kind `k` on `e`, or None when `e` lacks it. */
  function Get(c: Components, e: Entity, k: Kind): (r: Option<Data>)
    ensures r.Some? <==> Has(c, e, k)
    ensures r.Some? ==> r.value == c[e][k]
  {
    if Has(c, e, k) then Some(c[e][k]) else None
  }

  /** `addComponent`: gives `e` the component `k` with data `d`. */
  function Add(c: Components, e: Entity, k: Kind, d: Data): (r: Components)
    ensures Get(r, e, k) == Some(d)
    ensures forall k' :: k' != k ==> Get(r, e, k') == Get(c, e, k')
    ensures forall e' :: e' != e ==> (e' in r <==> e' in c) && (e' in c ==> r[e'] == c[e'])
  {
    c[e := (if e in c then c[e] else map[])[k := d]]
  }

  /** `removeComponent`: a no-op when `e` lacks `k`. */
  function Remove(c: Components, e: Entity, k: Kind): (r: Components)
    ensures Get(r, e, k) == None
    ensures forall k' :: k' != k ==> Get(r, e, k') == Get(c, e, k')
    ensures forall e' :: e' != e ==> (e' in r <==> e' in c) && (e' in c ==> r[e'] == c[e'])
    ensures !Has(c, e, k) ==> r == c
  {
    if Has(c, e, k) then c[e := c[e] - {k}] else c
  }

  /** The store as a mutable object, as the systems see it. */
  class World {
    var components: Components

    constructor (initial: Components)
      ensures components == initial
    {
      components := initial;
    }

    function HasComponent(e: Entity, k: Kind): (b: bool)
      reads this
      ensures b <==> e in components && k in components[e]
    {
      Has(components, e, k)
    }

    function GetComponent(e: Entity, k: Kind): (d: Data)
      reads this
      requires HasComponent(e, k)
      ensures Get(components, e, k) == Some(d)
    {
      components[e][k]
    }

    method AddComponent(e: Entity, k: Kind, d: Data)
      modifies this
      ensures components == Add(old(components), e, k, d)
    {
      components := Add(components, e, k, d);
    }

    method RemoveComponent(e: Entity, k: Kind)
      modifies this
      ensures components == Remove(old(components), e, k)
    {
      components := Remove(components, e, k);
    }
  }
}
