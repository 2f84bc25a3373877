/**
 * The part builders of the watch. Each one returns, in order, the nodes the
 * corresponding builder appends to the watch's flat child list; the
 * `...Layout` lemma beside it states what the builder lays out.
 */
module Parts {
  import opened Geometry
  import opened Scene

  /** A quarter turn: `Math.PI / 2` in `RoyalOakWatch.js`. */
  const Quarter: real := 0.25

  /** Half a facet of an eight-sided outline: `Math.PI / 8` in `RoyalOakWatch.js`. */
  const HalfFacet: real := 1.0 / 16.0

  // ---------------------------------------------------------------- case

  function CaseBody(): Node {
    Mesh(Cylinder(4.0, 4.0, 1.2, 8), RoseGold).(rotation := Euler(Zero, Turns(HalfFacet), Zero))
  }

  function CaseMiddle(): Node {
    Mesh(Cylinder(4.1, 4.1, 0.8, 8), PolishedRoseGold).(rotation := Euler(Zero, Turns(HalfFacet), Zero))
  }

  function CaseParts(): (r: seq<Node>)
    ensures |r| == 2
  {
    [CaseBody(), CaseMiddle()]
  }

  /** The case: a body and a wider, thinner middle, both octagons turned half a facet about y. */
  lemma CaseLayout()
    ensures forall k :: 0 <= k < 2 ==>
      && CaseParts()[k].shape.Cylinder? && CaseParts()[k].shape.radialSegments == 8
      && CaseParts()[k].shape.radiusTop == CaseParts()[k].shape.radiusBottom
      && CaseParts()[k].rotation == Euler(Zero, Turns(1.0 / (2.0 * 8.0)), Zero)
      && CaseParts()[k].position == At(0.0, 0.0, 0.0)
    ensures CaseParts()[1].shape.radiusTop > CaseParts()[0].shape.radiusTop
    ensures CaseParts()[1].shape.height < CaseParts()[0].shape.height
    ensures CaseParts()[0].material == RoseGold && CaseParts()[1].material == PolishedRoseGold
    ensures AllUntagged(CaseParts()) && AllValid(CaseParts())
  {
  }

  // --------------------------------------------------------------- bezel

  const BezelRadius: real := 4.2
  const BezelInnerRadius: real := 3.8

  function Bezel(): (r: seq<Node>)
    ensures |r| == 1
  {
    var outline := RegularPolygon(8, BezelRadius);
    var hole := RegularPolygon(8, BezelInnerRadius);
    var shape := Extrusion(outline, [hole], 0.3, 0.05, 0.05, 3);
    [Mesh(shape, PolishedRoseGold).(position := At(0.0, 0.0, 0.6),
                                    rotation := Euler(Zero, Zero, Turns(HalfFacet)))]
  }

  /**
   * The bezel ring: an octagon of radius 4.2 with one octagonal hole that is
   * the outline scaled by 3.8/4.2 < 1, vertex for vertex; extruded 0.3 with
   * a 0.05 bevel in 3 segments, 0.6 forward, turned half a facet about z.
   */
  lemma BezelLayout()
    ensures Bezel()[0].shape.Extrusion? && |Bezel()[0].shape.holes| == 1
    ensures |Bezel()[0].shape.outline| == 8
    ensures forall i :: 0 <= i < 8 ==>
      Bezel()[0].shape.outline[i].radius == 4.2 && Bezel()[0].shape.outline[i].turn * 8.0 == i as real
    ensures ScaledCopy(Bezel()[0].shape.holes[0], Bezel()[0].shape.outline, 3.8 / 4.2)
    ensures 3.8 / 4.2 < 1.0
    ensures Bezel()[0].shape.depth == 0.3 && Bezel()[0].shape.bevelThickness == 0.05
    ensures Bezel()[0].shape.bevelSize == 0.05 && Bezel()[0].shape.bevelSegments == 3
    ensures Bezel()[0].material == PolishedRoseGold
    ensures Bezel()[0].position == At(0.0, 0.0, 0.6)
    ensures Bezel()[0].rotation == Euler(Zero, Zero, Turns(1.0 / (2.0 * 8.0)))
    ensures AllUntagged(Bezel()) && AllValid(Bezel())
  {
  }

  // -------------------------------------------------------------- screws

  const ScrewRadius: real := 3.9

  function ScrewBody(i: nat): Node {
    Mesh(Cylinder(0.15, 0.15, 0.4, 6), RoseGold)
      .(position := OnCircle(0.0, 0.0, ScrewRadius, i as real / 8.0, 0.6),
        rotation := Euler(Turns(Quarter), Zero, Zero))
  }

  function ScrewHead(i: nat): Node {
    Mesh(Cylinder(0.2, 0.2, 0.1, 6), PolishedRoseGold)
      .(position := OnCircle(0.0, 0.0, ScrewRadius, i as real / 8.0, 0.9),
        rotation := Euler(Turns(Quarter), Zero, Zero))
  }

  /** Node k of the screw list from screw i on: a body at even k, a head at odd k. */
  function ScrewNode(i: nat, k: nat): Node {
    if k % 2 == 0 then ScrewBody(i + k / 2) else ScrewHead(i + k / 2)
  }

  /** Screws i, i+1, ..., 7, each as its body followed by its head. */
  function ScrewsFrom(i: nat): (r: seq<Node>)
    requires i <= 8
    decreases 8 - i
    ensures |r| == 2 * (8 - i)
    ensures forall k :: 0 <= k < |r| ==> r[k] == ScrewNode(i, k)
  {
    if i == 8 then []
    else
      var pair := [ScrewBody(i), ScrewHead(i)];
      var rest := ScrewsFrom(i + 1);
      PairsConcat(i, pair, rest);
      pair + rest
  }

  lemma PairsConcat(i: nat, pair: seq<Node>, rest: seq<Node>)
    requires pair == [ScrewBody(i), ScrewHead(i)]
    requires forall k :: 0 <= k < |rest| ==> rest[k] == ScrewNode(i + 1, k)
    ensures forall k :: 0 <= k < |pair + rest| ==> (pair + rest)[k] == ScrewNode(i, k)
  {
  }

  function Screws(): (r: seq<Node>)
    ensures |r| == 16
  {
    ScrewsFrom(0)
  }

  /**
   * Eight screws on the 3.9 circle at eighth turns, each its body at z 0.6
   * then its head at z 0.9: the head is wider, thinner and in front, and
   * both stand along the forward axis (a quarter turn about x).
   */
  lemma ScrewsLayout()
    ensures forall k :: 0 <= k < 16 ==>
      && Screws()[k].position.radius == 3.9 && Screws()[k].position.axes == XY
      && Screws()[k].position.turn == (k / 2) as real / 8.0
      && Screws()[k].position.base == Vec3(0.0, 0.0, if k % 2 == 0 then 0.6 else 0.9)
      && Screws()[k].shape.Cylinder?
      && Screws()[k].rotation == Euler(Turns(Quarter), Zero, Zero)
    ensures forall k :: 0 <= k < 16 && k % 2 == 0 ==>
      && Screws()[k + 1].position.base.z > Screws()[k].position.base.z
      && Screws()[k + 1].position.turn == Screws()[k].position.turn
      && Screws()[k + 1].shape.radiusTop > Screws()[k].shape.radiusTop
      && Screws()[k + 1].shape.height < Screws()[k].shape.height
    ensures AllUntagged(Screws()) && AllValid(Screws())
  {
    ScrewFacts(Screws());
  }

  lemma ScrewFacts(r: seq<Node>)
    requires |r| == 16
    requires forall k :: 0 <= k < 16 ==> r[k] == ScrewNode(0, k)
    ensures forall k :: 0 <= k < 16 ==>
      && r[k].position.radius == 3.9 && r[k].position.axes == XY
      && r[k].position.turn == (k / 2) as real / 8.0
      && r[k].position.base == Vec3(0.0, 0.0, if k % 2 == 0 then 0.6 else 0.9)
      && r[k].shape.Cylinder?
      && r[k].rotation == Euler(Turns(Quarter), Zero, Zero)
    ensures forall k :: 0 <= k < 16 && k % 2 == 0 ==>
      && r[k + 1].position.base.z > r[k].position.base.z
      && r[k + 1].position.turn == r[k].position.turn
      && r[k + 1].shape.radiusTop > r[k].shape.radiusTop
      && r[k + 1].shape.height < r[k].shape.height
    ensures AllUntagged(r) && AllValid(r)
  {
    forall k | 0 <= k < 16 && k % 2 == 0
      ensures r[k] == ScrewBody(k / 2) && r[k + 1] == ScrewHead(k / 2)
    {
      assert (k + 1) / 2 == k / 2 && (k + 1) % 2 == 1;
    }
  }

  // ---------------------------------------------------------------- dial

  const DialRadius: real := 3.7

  function Dial(): (r: seq<Node>)
    ensures |r| == 4
  {
    var text := Rect(2.0, 0.2);
    [ Mesh(Circle(DialRadius, 64), BlueDial).(position := At(0.0, 0.0, 0.4)),
      Mesh(Rect(1.0, 0.3), LogoBasic).(position := At(0.0, 1.5, 0.41)),
      Mesh(text, LogoBasic).(position := At(0.0, 1.0, 0.41)),
      Mesh(text, LogoBasic).(scale := Vec3(0.8, 0.8, 1.0), position := At(0.0, 0.7, 0.41)) ]
  }

  /**
   * The textured dial disc, whose radius is below that of the circle
   * through the bezel hole's vertices (the octagon's straight edges come
   * nearer the centre than that circle), and three lettering plaques on the
   * vertical centreline just in front of it, top to bottom; the last reuses
   * the text shape scaled to 0.8.
   */
  lemma DialLayout()
    ensures Dial()[0].shape == Circle(3.7, 64) && Dial()[0].material == BlueDial
    ensures Dial()[0].shape.radius < BezelInnerRadius
    ensures Dial()[0].position == At(0.0, 0.0, 0.4)
    ensures forall k :: 1 <= k < 4 ==>
      && Dial()[k].shape.Rect? && Dial()[k].material == LogoBasic
      && Dial()[k].position.base.x == 0.0 && Dial()[k].position.radius == 0.0
      && Dial()[k].position.base.z > Dial()[0].position.base.z
    ensures Dial()[1].position.base.y > Dial()[2].position.base.y > Dial()[3].position.base.y > 0.0
    ensures Dial()[3].shape == Dial()[2].shape && Dial()[3].scale == Vec3(0.8, 0.8, 1.0)
    ensures AllUntagged(Dial()) && AllValid(Dial())
  {
  }

  // ------------------------------------------------------------ subdials

  /** Where a subdial sits and what it counts. */
  datatype SubdialSpot = SubdialSpot(x: real, y: real, counter: Counter)

  /** Six o'clock small seconds, nine o'clock 30-minute counter, three o'clock 12-hour counter. */
  const SubdialSpots: seq<SubdialSpot> :=
    [SubdialSpot(0.0, -1.8, Seconds), SubdialSpot(-1.8, 0.0, Minutes), SubdialSpot(1.8, 0.0, Hours)]

  function SubdialRing(s: SubdialSpot): Node {
    Mesh(Ring(0.65, 0.8, 32), SubdialMaterial).(position := At(s.x, s.y, 0.42))
  }

  function SubdialFace(s: SubdialSpot): Node {
    Mesh(Circle(0.65, 32), SubdialMaterial).(position := At(s.x, s.y, 0.41))
  }

  function SubdialMarker(s: SubdialSpot, i: nat): Node {
    var angle := i as real / 12.0 - Quarter;
    Mesh(Box(0.05, 0.15, 0.01, 0.0), RoseGold)
      .(position := OnCircle(s.x, s.y, 0.5, angle, 0.43),
        rotation := Euler(Zero, Zero, Turns(angle + Quarter)))
  }

  /** The subdial hand; its geometry is moved up by 0.25. */
  function SubdialHand(s: SubdialSpot): Node {
    Mesh(Box(0.03, 0.5, 0.01, 0.25), HandMaterial)
      .(position := At(s.x, s.y, 0.44), role := Subdial(s.counter))
  }

  /** Markers i, ..., 11 of one subdial. */
  function SubdialMarkersFrom(s: SubdialSpot, i: nat): (r: seq<Node>)
    requires i <= 12
    decreases 12 - i
    ensures |r| == 12 - i
    ensures forall k :: 0 <= k < |r| ==> r[k] == SubdialMarker(s, i + k)
  {
    if i == 12 then [] else [SubdialMarker(s, i)] + SubdialMarkersFrom(s, i + 1)
  }

  /** Node `m` of a subdial group: ring, face, twelve markers, hand. */
  function GroupNode(s: SubdialSpot, m: nat): Node
    requires m < 15
  {
    if m == 0 then SubdialRing(s)
    else if m == 1 then SubdialFace(s)
    else if m < 14 then SubdialMarker(s, m - 2)
    else SubdialHand(s)
  }

  function SubdialGroup(s: SubdialSpot): (r: seq<Node>)
    ensures |r| == 15
    ensures forall m :: 0 <= m < 15 ==> r[m] == GroupNode(s, m)
  {
    [SubdialRing(s), SubdialFace(s)] + SubdialMarkersFrom(s, 0) + [SubdialHand(s)]
  }

  /** The groups of the given subdials, one after another. */
  function SubdialGroups(spots: seq<SubdialSpot>): (r: seq<Node>)
    ensures |r| == 15 * |spots|
    ensures forall k :: 0 <= k < |r| ==> r[k] == GroupNode(spots[k / 15], k % 15)
  {
    if spots == [] then []
    else
      var group := SubdialGroup(spots[0]);
      var rest := SubdialGroups(spots[1..]);
      GroupsConcat(spots, group, rest);
      group + rest
  }

  lemma GroupsConcat(spots: seq<SubdialSpot>, group: seq<Node>, rest: seq<Node>)
    requires |spots| > 0
    requires |group| == 15 && forall m :: 0 <= m < 15 ==> group[m] == GroupNode(spots[0], m)
    requires |rest| == 15 * (|spots| - 1)
    requires forall k :: 0 <= k < |rest| ==> rest[k] == GroupNode(spots[1..][k / 15], k % 15)
    ensures forall k :: 0 <= k < |group + rest| ==> (group + rest)[k] == GroupNode(spots[k / 15], k % 15)
  {
  }

  function DateWindow(): Node {
    Mesh(Rect(0.4, 0.3), DateWindowBasic)
      .(position := At(1.3, -1.3, 0.42), rotation := Euler(Zero, Zero, Turns(-1.0 / 8.0)))
  }

  function Subdials(): (r: seq<Node>)
    ensures |r| == 46
  {
    SubdialGroups(SubdialSpots) + [DateWindow()]
  }

  /** Three subdial groups, for seconds, minutes and hours in that order, then the date window. */
  lemma SubdialsLayout()
    ensures forall k :: 0 <= k < 45 ==> Subdials()[k] == GroupNode(SubdialSpots[k / 15], k % 15)
    ensures Subdials()[45] == DateWindow()
    ensures SubdialSpots[0].counter == Seconds && SubdialSpots[1].counter == Minutes
    ensures SubdialSpots[2].counter == Hours
  {
  }

  /**
   * Every node of a subdial group is centred on the subdial; the markers
   * lie inside the face, twelfth-turns apart and turned radially; the layers
   * go face, ring, markers, hand from back to front; only the hand is
   * tagged, with the subdial's counter, and it turns about its base.
   */
  lemma SubdialGroupShape(s: SubdialSpot)
    ensures forall m :: 0 <= m < 15 ==>
      GroupNode(s, m).position.base.x == s.x && GroupNode(s, m).position.base.y == s.y
    ensures forall m :: 2 <= m < 14 ==>
      && GroupNode(s, m).position.radius == 0.5 < GroupNode(s, 1).shape.radius
      && GroupNode(s, m).rotation.z == Turns(GroupNode(s, m).position.turn + Quarter)
    ensures forall m :: 2 <= m < 13 ==>
      GroupNode(s, m + 1).position.turn - GroupNode(s, m).position.turn == 1.0 / 12.0
    ensures GroupNode(s, 1).shape.radius == GroupNode(s, 0).shape.innerRadius
    ensures GroupNode(s, 1).position.base.z < GroupNode(s, 0).position.base.z
    ensures forall m :: 2 <= m < 14 ==>
      GroupNode(s, 0).position.base.z < GroupNode(s, m).position.base.z < GroupNode(s, 14).position.base.z
    ensures forall m :: 0 <= m < 15 ==> (GroupNode(s, m).role != Untagged <==> m == 14)
    ensures GroupNode(s, 14).role == Subdial(s.counter)
    ensures PivotsAtBase(GroupNode(s, 14).shape)
    ensures GroupNode(s, 14).shape.height < GroupNode(s, 1).shape.radius
    ensures forall m :: 0 <= m < 15 ==> Valid(GroupNode(s, m).shape)
  {
  }

  /** Exactly the three subdial hands are tagged, at 14, 29 and 44, one per counter. */
  lemma SubdialHandsTagged()
    ensures forall k :: 0 <= k < 46 ==>
      (Subdials()[k].role != Untagged <==> k == 14 || k == 29 || k == 44)
    ensures Subdials()[14].role == Subdial(Seconds)
    ensures Subdials()[29].role == Subdial(Minutes)
    ensures Subdials()[44].role == Subdial(Hours)
    ensures forall c :: CountRole(Subdials(), Subdial(c)) == 1
    ensures AllValid(Subdials())
  {
    SubdialsLayout();
    SubdialGroupFacts(Subdials());
  }

  lemma SubdialGroupFacts(r: seq<Node>)
    requires |r| == 46 && r[45] == DateWindow()
    requires forall k :: 0 <= k < 45 ==> r[k] == GroupNode(SubdialSpots[k / 15], k % 15)
    ensures forall k :: 0 <= k < 46 ==> (r[k].role != Untagged <==> k == 14 || k == 29 || k == 44)
    ensures r[14].role == Subdial(Seconds) && r[29].role == Subdial(Minutes) && r[44].role == Subdial(Hours)
    ensures forall c :: CountRole(r, Subdial(c)) == 1
    ensures AllValid(r)
  {
    forall k | 0 <= k < 45
      ensures r[k].role != Untagged <==> k % 15 == 14
      ensures Valid(r[k].shape)
    {
      SubdialGroupShape(SubdialSpots[k / 15]);
    }
    SubdialCounts(r);
  }

  lemma SubdialCounts(r: seq<Node>)
    requires |r| == 46
    requires forall k :: 0 <= k < 46 ==> (r[k].role != Untagged <==> k == 14 || k == 29 || k == 44)
    requires r[14].role == Subdial(Seconds) && r[29].role == Subdial(Minutes) && r[44].role == Subdial(Hours)
    ensures forall c :: CountRole(r, Subdial(c)) == 1
  {
    forall c: Counter
      ensures CountRole(r, Subdial(c)) == 1
    {
      var at := match c case Seconds => 14 case Minutes => 29 case Hours => 44;
      CountRoleOne(r, Subdial(c), at);
    }
  }

  // --------------------------------------------------------------- hands

  function HourHand(): Node {
    Mesh(Box(0.15, 2.0, 0.02, 1.0), HandMaterial).(position := At(0.0, 0.0, 0.45), role := Hour)
  }

  function MinuteHand(): Node {
    Mesh(Box(0.1, 2.8, 0.02, 1.4), HandMaterial).(position := At(0.0, 0.0, 0.46), role := Minute)
  }

  function ChronoHand(): Node {
    Mesh(Box(0.05, 3.2, 0.02, 1.6), HandMaterial).(position := At(0.0, 0.0, 0.47), role := Chrono)
  }

  function CenterCap(): Node {
    Mesh(Cylinder(0.1, 0.1, 0.1, 16), PolishedRoseGold)
      .(position := At(0.0, 0.0, 0.48), rotation := Euler(Turns(Quarter), Zero, Zero))
  }

  function Hands(): (r: seq<Node>)
    ensures |r| == 4
  {
    [HourHand(), MinuteHand(), ChronoHand(), CenterCap()]
  }

  /**
   * Hour, minute and chronograph hands on the centre pivot, stacked at
   * strictly increasing depth, then the untagged cap on top.
   */
  lemma HandsLayout()
    ensures Hands()[0].role == Hour && Hands()[1].role == Minute
    ensures Hands()[2].role == Chrono && Hands()[3].role == Untagged
    ensures forall k :: 0 <= k < 3 ==> Hands()[k].position.base.z < Hands()[k + 1].position.base.z
    ensures forall k :: 0 <= k < 4 ==>
      && Hands()[k].position.base.x == 0.0 && Hands()[k].position.base.y == 0.0
      && Hands()[k].position.radius == 0.0
  {
  }

  /**
   * Each hand spans [0, length] along its length, so it turns about its
   * base; they are longer in the order hour, minute, chronograph, and
   * all shorter than the dial's radius.
   */
  lemma HandShapes()
    ensures PivotsAtBase(Hands()[0].shape) && PivotsAtBase(Hands()[1].shape) && PivotsAtBase(Hands()[2].shape)
    ensures Hands()[0].material == Hands()[1].material == Hands()[2].material == HandMaterial
    ensures Hands()[0].shape.height < Hands()[1].shape.height < Hands()[2].shape.height < DialRadius
    ensures AllValid(Hands())
  {
  }

  // ------------------------------------------------------------- indices

  /**
   * The loop positions the marker loop skips: 3, 6 and 9. Position i sits
   * at turn i/12 − 1/4, so these are three, twelve and nine o'clock;
   * position 0, which is kept, is six o'clock.
   */
  predicate SkipsIndex(i: nat) {
    i % 3 == 0 && i != 0
  }

  function IndexMarker(i: nat): Node {
    var angle := i as real / 12.0 - Quarter;
    Mesh(Box(0.15, 0.4, 0.02, 0.0), RoseGold)
      .(position := OnCircle(0.0, 0.0, 3.2, angle, 0.42),
        rotation := Euler(Zero, Zero, Turns(angle + Quarter)))
  }

  /** The hour positions i, ..., 11 that the marker loop keeps, in loop order. */
  function KeptHours(i: nat): seq<nat>
    requires i <= 12
    decreases 12 - i
  {
    if i == 12 then []
    else if SkipsIndex(i) then KeptHours(i + 1)
    else [i] + KeptHours(i + 1)
  }

  /**
   * The kept hours from i on lie in [i, 12), strictly increase, and are
   * exactly the hours in that range the skip rule does not skip.
   */
  lemma {:induction false} KeptHoursOrdered(i: nat)
    requires i <= 12
    decreases 12 - i
    ensures forall k :: 0 <= k < |KeptHours(i)| ==> i <= KeptHours(i)[k] < 12
    ensures forall a, b :: 0 <= a < b < |KeptHours(i)| ==> KeptHours(i)[a] < KeptHours(i)[b]
    ensures forall h: nat :: i <= h < 12 ==> (h in KeptHours(i) <==> !SkipsIndex(h))
  {
    if i < 12 {
      KeptHoursOrdered(i + 1);
    }
  }

  /** The markers for hour positions i, ..., 11: marker k is for the k-th kept hour. */
  function IndicesFrom(i: nat): (r: seq<Node>)
    requires i <= 12
    decreases 12 - i
    ensures |r| == |KeptHours(i)|
    ensures forall k :: 0 <= k < |r| ==> r[k] == IndexMarker(KeptHours(i)[k])
  {
    if i == 12 then []
    else if SkipsIndex(i) then IndicesFrom(i + 1)
    else [IndexMarker(i)] + IndicesFrom(i + 1)
  }

  /** The hour positions that carry a marker, in order. */
  const IndexHours: seq<nat> := [0, 1, 2, 4, 5, 7, 8, 10, 11]

  function Indices(): (r: seq<Node>)
    ensures |r| == 9
  {
    IndicesFrom(0)
  }

  /**
   * Nine markers on the 3.2 circle, one per hour position in the table, at
   * angle hour/12 − 1/4 turn, each turned a further quarter turn so that it
   * points along its radius.
   */
  lemma IndicesLayout()
    ensures forall k :: 0 <= k < 9 ==> Indices()[k] == IndexMarker(IndexHours[k])
    ensures forall k :: 0 <= k < 9 ==>
      && Indices()[k].position.radius == 3.2
      && Indices()[k].position.base == Vec3(0.0, 0.0, 0.42)
      && Indices()[k].position.turn == IndexHours[k] as real / 12.0 - 0.25
      && Indices()[k].rotation.z == Turns(Indices()[k].position.turn + 0.25)
    ensures AllUntagged(Indices()) && AllValid(Indices())
  {
    KeptHoursTable();
  }

  /** The table of marked hours is exactly the positions the skip rule keeps, in increasing order. */
  lemma IndexHoursFollowSkipRule()
    ensures forall h: nat :: h < 12 ==> (h in IndexHours <==> !SkipsIndex(h))
    ensures forall a, b :: 0 <= a < b < |IndexHours| ==> IndexHours[a] < IndexHours[b]
    ensures 0 in IndexHours && 3 !in IndexHours && 6 !in IndexHours && 9 !in IndexHours
  {
  }

  /** The loop's kept hours are the table's. */
  lemma KeptHoursTable()
    ensures KeptHours(0) == IndexHours
  {
  }

  // --------------------------------------------------------------- crown

  function CrownBody(): Node {
    Mesh(Cylinder(0.3, 0.25, 0.6, 16), PolishedRoseGold)
      .(position := At(4.3, 0.0, 0.0), rotation := Euler(Zero, Zero, Turns(Quarter)))
  }

  /** Ridge i lies on the 0.25 circle around the crown's axis, in the y-z plane. */
  function CrownRidge(i: nat): Node {
    var angle := i as real / 12.0;
    Mesh(Box(0.05, 0.6, 0.1, 0.0), RoseGold)
      .(position := Position(Vec3(4.3, 0.0, 0.0), 0.25, angle, YZ),
        rotation := Euler(Turns(angle), Zero, Zero))
  }

  function RidgesFrom(i: nat): (r: seq<Node>)
    requires i <= 12
    decreases 12 - i
    ensures |r| == 12 - i
    ensures forall k :: 0 <= k < |r| ==> r[k] == CrownRidge(i + k)
  {
    if i == 12 then [] else [CrownRidge(i)] + RidgesFrom(i + 1)
  }

  function Pusher(y: real): Node {
    Mesh(Cylinder(0.2, 0.2, 0.4, 16), PolishedRoseGold)
      .(position := At(3.8, y, 0.0), rotation := Euler(Zero, Zero, Turns(Quarter)))
  }

  function Crown(): (r: seq<Node>)
    ensures |r| == 15
  {
    [CrownBody()] + RidgesFrom(0) + [Pusher(1.5), Pusher(-1.5)]
  }

  /**
   * The tapered crown at the case edge with its axis turned onto x; twelve
   * grip ridges on the circle of its narrow end's radius around that axis,
   * at twelfth turns; two pushers mirrored about the horizontal centreline.
   */
  lemma CrownLayout()
    ensures Crown()[0].shape.Cylinder? && Crown()[0].shape.radiusTop > Crown()[0].shape.radiusBottom
    ensures Crown()[0].position == At(4.3, 0.0, 0.0) && Crown()[0].rotation.z == Turns(0.25)
    ensures forall k :: 1 <= k < 13 ==>
      && Crown()[k].position.base == Crown()[0].position.base
      && Crown()[k].position.axes == YZ
      && Crown()[k].position.radius == Crown()[0].shape.radiusBottom
      && Crown()[k].position.turn == (k - 1) as real / 12.0
      && Crown()[k].rotation.x == Turns(Crown()[k].position.turn)
    ensures Crown()[13].shape == Crown()[14].shape
    ensures Crown()[13].position.base.y == -Crown()[14].position.base.y != 0.0
    ensures Crown()[13].position.base.x == Crown()[14].position.base.x
    ensures AllUntagged(Crown()) && AllValid(Crown())
  {
    var ridges := RidgesFrom(0);
    assert Crown() == [CrownBody()] + ridges + [Pusher(1.5), Pusher(-1.5)];
    CrownFacts(Crown(), ridges);
  }

  lemma CrownFacts(r: seq<Node>, ridges: seq<Node>)
    requires |ridges| == 12 && forall k :: 0 <= k < 12 ==> ridges[k] == CrownRidge(k)
    requires r == [CrownBody()] + ridges + [Pusher(1.5), Pusher(-1.5)]
    ensures r[0].shape.Cylinder? && r[0].shape.radiusTop > r[0].shape.radiusBottom
    ensures r[0].position == At(4.3, 0.0, 0.0) && r[0].rotation.z == Turns(0.25)
    ensures forall k :: 1 <= k < 13 ==>
      && r[k].position.base == r[0].position.base
      && r[k].position.axes == YZ
      && r[k].position.radius == r[0].shape.radiusBottom
      && r[k].position.turn == (k - 1) as real / 12.0
      && r[k].rotation.x == Turns(r[k].position.turn)
    ensures r[13].shape == r[14].shape
    ensures r[13].position.base.y == -r[14].position.base.y != 0.0
    ensures r[13].position.base.x == r[14].position.base.x
    ensures AllUntagged(r) && AllValid(r)
  {
  }

  // ------------------------------------------------------------ bracelet

  const LinkCount: nat := 5
  const LineCount: nat := 5

  /** Link i (1 ≤ i ≤ 5) of the arm on `side` (−1 below the case, 1 above). */
  function Link(side: int, i: nat): Node {
    Mesh(Box(0.8, 4.0, 0.3, 0.0), RoseGold)
      .(position := At(0.0, side as real * (4.0 + i as real * 0.82), -0.2 - i as real * 0.1),
        scale := Vec3(1.0 - i as real * 0.05, 1.0, 1.0))
  }

  /** Brushed line j (0 ≤ j < 5) of a link: the link's position moved sideways and one layer forward. */
  function Line(side: int, i: nat, j: nat): Node {
    Mesh(Box(0.01, 4.0, 0.31, 0.0), PolishedRoseGold)
      .(position := Shift(Link(side, i).position,
                          (j as real - LineCount as real / 2.0) * 0.15, 0.0, 0.01))
  }

  function LinesFrom(side: int, i: nat, j: nat): (r: seq<Node>)
    requires j <= LineCount
    decreases LineCount - j
    ensures |r| == LineCount - j
    ensures forall k :: 0 <= k < |r| ==> r[k] == Line(side, i, j + k)
  {
    if j == LineCount then [] else [Line(side, i, j)] + LinesFrom(side, i, j + 1)
  }

  /** Node m of a link's block of six: its five lines, then the link itself. */
  function LinkBlockNode(side: int, i: nat, m: nat): Node {
    if m == LineCount then Link(side, i) else Line(side, i, m)
  }

  /** Links i, ..., 5 of one arm, each preceded by its lines. */
  function LinksFrom(side: int, i: nat): (r: seq<Node>)
    requires 1 <= i <= LinkCount + 1
    decreases LinkCount + 1 - i
    ensures |r| == 6 * (LinkCount + 1 - i)
    ensures forall k :: 0 <= k < |r| ==> r[k] == LinkBlockNode(side, i + k / 6, k % 6)
  {
    if i == LinkCount + 1 then []
    else
      var block := LinesFrom(side, i, 0) + [Link(side, i)];
      var rest := LinksFrom(side, i + 1);
      BlockConcat(side, i, block, rest);
      block + rest
  }

  lemma BlockConcat(side: int, i: nat, block: seq<Node>, rest: seq<Node>)
    requires |block| == 6 && forall m :: 0 <= m < 6 ==> block[m] == LinkBlockNode(side, i, m)
    requires forall k :: 0 <= k < |rest| ==> rest[k] == LinkBlockNode(side, i + 1 + k / 6, k % 6)
    ensures forall k :: 0 <= k < |block + rest| ==> (block + rest)[k] == LinkBlockNode(side, i + k / 6, k % 6)
  {
  }

  /** Side of the arm the k-th bracelet node belongs to. */
  function ArmSide(k: nat): int {
    if k < 30 then -1 else 1
  }

  function Bracelet(): (r: seq<Node>)
    ensures |r| == 60
  {
    LinksFrom(-1, 1) + LinksFrom(1, 1)
  }

  /** Both arms, the lower one first: links 1 to 5 of each, every link right after its five lines. */
  lemma BraceletNodes()
    ensures forall k :: 0 <= k < 60 ==>
      Bracelet()[k] == LinkBlockNode(ArmSide(k), 1 + (k % 30) / 6, k % 6)
  {
    ArmsConcat(LinksFrom(-1, 1), LinksFrom(1, 1));
  }

  lemma ArmsConcat(lower: seq<Node>, upper: seq<Node>)
    requires |lower| == 30 && forall k :: 0 <= k < 30 ==> lower[k] == LinkBlockNode(-1, 1 + k / 6, k % 6)
    requires |upper| == 30 && forall k :: 0 <= k < 30 ==> upper[k] == LinkBlockNode(1, 1 + k / 6, k % 6)
    ensures forall k :: 0 <= k < 60 ==>
      (lower + upper)[k] == LinkBlockNode(ArmSide(k), 1 + (k % 30) / 6, k % 6)
  {
    forall k | 0 <= k < 60
      ensures (lower + upper)[k] == LinkBlockNode(ArmSide(k), 1 + (k % 30) / 6, k % 6)
    {
      ArmIndex(k);
      if k >= 30 {
        assert (lower + upper)[k] == upper[k - 30];
      } else {
        assert (lower + upper)[k] == lower[k];
      }
    }
  }

  /** Node k of the bracelet is node k mod 30 of its arm, at the same place in its block. */
  lemma ArmIndex(k: nat)
    requires k < 60
    ensures k < 30 ==> k % 30 == k && ArmSide(k) == -1
    ensures k >= 30 ==> k % 30 == k - 30 && k % 6 == (k - 30) % 6 && ArmSide(k) == 1
  {
  }

  /**
   * Going outward along an arm, each link sits further from the case,
   * further back and narrower.
   */
  lemma LinkProgression(side: int, i: nat, i': nat)
    requires side == -1 || side == 1
    requires 1 <= i < i' <= LinkCount
    ensures Link(side, i').position.base.z < Link(side, i).position.base.z
    ensures Link(side, i').scale.x < Link(side, i).scale.x
    ensures side as real * Link(side, i').position.base.y > side as real * Link(side, i).position.base.y
  {
  }

  /** Each link lies beyond the case radius, behind the case, with its taper within [0.75, 0.95]; the arms mirror each other. */
  lemma LinkBounds(i: nat)
    requires 1 <= i <= LinkCount
    ensures forall side :: side == -1 || side == 1 ==>
      && 0.75 <= Link(side, i).scale.x <= 0.95
      && side as real * Link(side, i).position.base.y > 4.0
      && Link(side, i).position.base.z < 0.0
    ensures Link(-1, i).position.base.y == -Link(1, i).position.base.y
    ensures Link(-1, i).position.base.z == Link(1, i).position.base.z
    ensures Link(-1, i).scale == Link(1, i).scale
  {
  }

  /**
   * The lines of a link share its y and sit one layer (0.01) in front of
   * it; their x offsets step by 0.15 from −0.375 to 0.225, so they are not
   * centred on the link.
   */
  lemma LineOffsets(side: int, i: nat)
    ensures forall j :: 0 <= j < LineCount ==>
      && Line(side, i, j).position.base.y == Link(side, i).position.base.y
      && Line(side, i, j).position.base.z == Link(side, i).position.base.z + 0.01
      && Line(side, i, j).position.base.x == -0.375 + 0.15 * j as real
    ensures forall j :: 0 <= j < LineCount - 1 ==>
      Line(side, i, j + 1).position.base.x - Line(side, i, j).position.base.x == 0.15
    ensures Line(side, i, 0).position.base.x == -0.375
    ensures Line(side, i, LineCount - 1).position.base.x == 0.225
    ensures Line(side, i, 0).position.base.x + Line(side, i, LineCount - 1).position.base.x != 0.0
  {
  }

  const LinkShape: Shape := Box(0.8, 4.0, 0.3, 0.0)

  /** Every sixth node, and only those, is a link. */
  predicate LinksEverySixth(r: seq<Node>) {
    forall k :: 0 <= k < |r| ==> (r[k].shape == LinkShape <==> k % 6 == 5)
  }

  /** Each of the other nodes is a line of the link that closes its block of six: same y, one layer in front. */
  predicate LinesFollowLinks(r: seq<Node>) {
    && |r| % 6 == 0
    && forall k :: 0 <= k < |r| && k % 6 != 5 ==>
      && r[k].position.base.y == r[k + 5 - k % 6].position.base.y
      && r[k].position.base.z == r[k + 5 - k % 6].position.base.z + 0.01
  }

  /**
   * The bracelet holds ten links, at every sixth place, and fifty lines;
   * every line belongs to the link that follows it. Nothing in it is tagged.
   */
  lemma BraceletLayout()
    ensures LinksEverySixth(Bracelet()) && LinesFollowLinks(Bracelet())
    ensures AllUntagged(Bracelet()) && AllValid(Bracelet())
  {
    BraceletNodes();
    BlockLayout(Bracelet());
  }

  lemma BlockLayout(r: seq<Node>)
    requires |r| == 60
    requires forall k :: 0 <= k < 60 ==> r[k] == LinkBlockNode(ArmSide(k), 1 + (k % 30) / 6, k % 6)
    ensures LinksEverySixth(r) && LinesFollowLinks(r)
    ensures AllUntagged(r) && AllValid(r)
  {
    forall k | 0 <= k < 60
      ensures r[k].role == Untagged && Valid(r[k].shape) && (r[k].shape == LinkShape <==> k % 6 == 5)
    {
      assert r[k] == LinkBlockNode(ArmSide(k), 1 + (k % 30) / 6, k % 6);
    }
    forall k | 0 <= k < 60 && k % 6 != 5
      ensures r[k].position.base.y == r[k + 5 - k % 6].position.base.y
      ensures r[k].position.base.z == r[k + 5 - k % 6].position.base.z + 0.01
    {
      var l := k + 5 - k % 6;
      var side, i := ArmSide(k), 1 + (k % 30) / 6;
      SameBlock(k);
      assert r[l] == Link(side, i);
      assert r[k] == Line(side, i, k % 6);
      LineOffsets(side, i);
    }
  }

  /** Node k and the link closing its block lie on the same arm, in the same block. */
  lemma SameBlock(k: nat)
    requires k < 60 && k % 6 != 5
    ensures var l := k + 5 - k % 6;
      l < 60 && l % 6 == 5 && l % 30 / 6 == k % 30 / 6 && ArmSide(l) == ArmSide(k)
  {
  }
}
