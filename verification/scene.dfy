/**
 * Scene nodes: one renderable part each, with its transform and an
 * optional role tag that the animation looks for.
 */
module Scene {
  import opened Geometry

  /**
   * The five physical materials of the material catalog, and the two basic
   * white materials the dial lettering and the date window are drawn with.
   */
  datatype Material =
    | RoseGold | PolishedRoseGold | BlueDial | SubdialMaterial | HandMaterial
    | LogoBasic | DateWindowBasic

  /** What a subdial counts. */
  datatype Counter = Seconds | Minutes | Hours

  /** The role tag kept in a node's user data. */
  datatype Role = Untagged | Hour | Minute | Chrono | Subdial(counter: Counter)

  datatype Node = Node(shape: Shape, material: Material, position: Position,
                       rotation: Euler, scale: Vec3, role: Role)

  /** A freshly made mesh: at the origin, unrotated, unit scale, no role. */
  function Mesh(shape: Shape, material: Material): (n: Node)
    ensures n.shape == shape && n.material == material && n.role == Untagged
    ensures n.position.base == Vec3(0.0, 0.0, 0.0) && n.position.radius == 0.0
    ensures n.rotation == NoRotation && n.scale == UnitScale
  {
    Node(shape, material, At(0.0, 0.0, 0.0), NoRotation, UnitScale, Untagged)
  }

  /** How many nodes carry `role`. */
  function CountRole(nodes: seq<Node>, role: Role): (c: nat)
    ensures c <= |nodes|
  {
    if nodes == [] then 0
    else (if nodes[0].role == role then 1 else 0) + CountRole(nodes[1..], role)
  }

  /** A role carried by no node is counted zero times, and conversely. */
  lemma {:induction false} CountRoleZero(nodes: seq<Node>, role: Role)
    ensures CountRole(nodes, role) == 0 <==> forall k :: 0 <= k < |nodes| ==> nodes[k].role != role
  {
    if nodes != [] {
      CountRoleZero(nodes[1..], role);
      assert forall k :: 1 <= k < |nodes| ==> nodes[k] == nodes[1..][k - 1];
    }
  }

  /** A role carried at exactly one index is counted once. */
  lemma {:induction false} CountRoleOne(nodes: seq<Node>, role: Role, at: nat)
    requires at < |nodes|
    requires forall k :: 0 <= k < |nodes| ==> (nodes[k].role == role <==> k == at)
    ensures CountRole(nodes, role) == 1
  {
    if at == 0 {
      CountRoleZero(nodes[1..], role);
    } else {
      assert forall k :: 0 <= k < |nodes| - 1 ==> nodes[1..][k] == nodes[k + 1];
      CountRoleOne(nodes[1..], role, at - 1);
    }
  }

  /** No node of the list carries a role tag. */
  predicate AllUntagged(nodes: seq<Node>) {
    forall k :: 0 <= k < |nodes| ==> nodes[k].role == Untagged
  }

  /** Every node of the list has a shape inside the geometry factory's parameter domains. */
  predicate AllValid(nodes: seq<Node>) {
    forall k :: 0 <= k < |nodes| ==> Valid(nodes[k].shape)
  }
}
