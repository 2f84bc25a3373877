/**
 * The shape descriptors and transforms the watch is assembled from.
 *
 * Angles and circle positions are kept in exact, trigonometry-free form:
 * an angle is a fraction of a turn plus a number of radians, and a point
 * computed with cos/sin is kept as (centre, radius, fraction of a turn).
 */
module Geometry {

  /** The angle 2π·turns + radians. Builders use turns; the animation writes radians. */
  datatype Angle = Angle(turns: real, radians: real)

  const Zero: Angle := Angle(0.0, 0.0)

  function Turns(t: real): Angle { Angle(t, 0.0) }

  function Radians(r: real): Angle { Angle(0.0, r) }

  datatype Vec3 = Vec3(x: real, y: real, z: real)

  /** The plane a circle-placed point lies in. */
  datatype Axes = XY | YZ

  /**
   * The point base + radius·(cos 2π·turn, sin 2π·turn), where the pair is
   * added to (x, y) for XY and to (y, z) for YZ. A plain point has radius 0.
   */
  datatype Position = Position(base: Vec3, radius: real, turn: real, axes: Axes)

  function At(x: real, y: real, z: real): Position {
    Position(Vec3(x, y, z), 0.0, 0.0, XY)
  }

  function OnCircle(cx: real, cy: real, radius: real, turn: real, z: real): Position {
    Position(Vec3(cx, cy, z), radius, turn, XY)
  }

  /** Adds an offset to the point, as `position.x += dx` and its siblings do. */
  function Shift(p: Position, dx: real, dy: real, dz: real): (q: Position)
    ensures q.radius == p.radius && q.turn == p.turn && q.axes == p.axes
    ensures q.base.x - p.base.x == dx && q.base.y - p.base.y == dy && q.base.z - p.base.z == dz
  {
    p.(base := Vec3(p.base.x + dx, p.base.y + dy, p.base.z + dz))
  }

  /** Rotation about each axis. */
  datatype Euler = Euler(x: Angle, y: Angle, z: Angle)

  const NoRotation: Euler := Euler(Zero, Zero, Zero)

  const UnitScale: Vec3 := Vec3(1.0, 1.0, 1.0)

  /** A 2D outline vertex in polar form. */
  datatype Vertex = Vertex(radius: real, turn: real)

  /**
   * A shape descriptor. `Box.shiftY` is the translation applied to the box
   * geometry along its length (0 for an untranslated box).
   */
  datatype Shape =
    | Cylinder(radiusTop: real, radiusBottom: real, height: real, radialSegments: nat)
    | Box(width: real, height: real, depth: real, shiftY: real)
    | Ring(innerRadius: real, outerRadius: real, thetaSegments: nat)
    | Circle(radius: real, segments: nat)
    | Rect(width: real, height: real)
    | Extrusion(outline: seq<Vertex>, holes: seq<seq<Vertex>>, depth: real,
                bevelThickness: real, bevelSize: real, bevelSegments: nat)

  /** A closed polygon outline has at least three vertices, all off-centre. */
  predicate ValidOutline(vs: seq<Vertex>) {
    |vs| >= 3 && forall i :: 0 <= i < |vs| ==> vs[i].radius > 0.0
  }

  /** The parameter domains of the geometry factory: positive sizes, at least three segments. */
  predicate Valid(g: Shape) {
    match g
    case Cylinder(rt, rb, h, n) => rt > 0.0 && rb > 0.0 && h > 0.0 && n >= 3
    case Box(w, h, d, _) => w > 0.0 && h > 0.0 && d > 0.0
    case Ring(ri, ro, n) => 0.0 <= ri < ro && n >= 3
    case Circle(r, n) => r > 0.0 && n >= 3
    case Rect(w, h) => w > 0.0 && h > 0.0
    case Extrusion(o, hs, d, bt, bs, bn) =>
      && ValidOutline(o)
      && (forall i :: 0 <= i < |hs| ==> ValidOutline(hs[i]))
      && d > 0.0 && bt >= 0.0 && bs >= 0.0 && bn >= 1
  }

  /** The lowest local y a box reaches after its translation. */
  function BoxBottom(g: Shape): real
    requires g.Box?
  {
    g.shiftY - g.height / 2.0
  }

  /** The highest local y a box reaches after its translation. */
  function BoxTop(g: Shape): real
    requires g.Box?
  {
    g.shiftY + g.height / 2.0
  }

  /** A box that spans [0, height] along y, so it turns about one end. */
  predicate PivotsAtBase(g: Shape) {
    g.Box? && BoxBottom(g) == 0.0 && BoxTop(g) == g.height
  }

  /** The regular polygon with `n` vertices at `radius`, the first at turn 0. */
  function RegularPolygon(n: nat, radius: real): (vs: seq<Vertex>)
    requires n > 0
    ensures |vs| == n
    ensures forall i :: 0 <= i < n ==> vs[i].radius == radius
    ensures forall i :: 0 <= i < n ==> vs[i].turn * (n as real) == i as real
  {
    seq(n, i requires 0 <= i < n => Vertex(radius, i as real / n as real))
  }

  /** `inner` is `outer` scaled about the centre by `factor`, vertex for vertex. */
  predicate ScaledCopy(inner: seq<Vertex>, outer: seq<Vertex>, factor: real) {
    |inner| == |outer| &&
    forall i :: 0 <= i < |inner| ==>
      inner[i].turn == outer[i].turn && inner[i].radius == factor * outer[i].radius
  }
}
