/**
 * The tapisserie texture: a square canvas cut into a grid of square cells,
 * each painted with one pyramid, once as a height map (a radial gradient
 * with four crease lines) and once as a normal map (four flat-coloured
 * facets).
 *
 * Canvas drawing is kept as the list of drawing commands each map issues;
 * turning them into pixels is the canvas's business and is not modelled.
 */
module Tapisserie {
  import opened Optional
  import opened Color

  /** The side length a texture gets when none is given. */
  const DefaultSize: int := 512

  /** The side length of one pyramid cell, in pixels. */
  const PyramidSize: nat := 16

  // ---------------------------------------------------------------- grid

  /** How many cells fit along one side: the floor of size / c, as `Math.floor` gives it. */
  function PyramidsPerRow(size: int, c: nat): (n: int)
    requires c > 0
    ensures n * c <= size < n * c + c
  {
    FloorDivision(size, c);
    size / c
  }

  /** The cell at (row, col): its top-left corner is (col·c, row·c). */
  datatype Cell = Cell(row: nat, col: nat, x: int, y: int, side: nat)

  function CellAt(row: nat, col: nat, c: nat): Cell {
    Cell(row, col, col * c, row * c, c)
  }

  /** The number of cells a loop over rows and columns up to n visits. */
  function CellCount(n: int): nat {
    if n <= 0 then 0 else n * n
  }

  /**
   * The cells of the grid in row-major order: cell k is at row k / n and
   * column k % n, for n cells per row.
   */
  function Grid(size: int, c: nat): (g: seq<Cell>)
    requires c > 0
    ensures |g| == CellCount(PyramidsPerRow(size, c))
  {
    var n := PyramidsPerRow(size, c);
    if n <= 0 then [] else seq(n * n, k requires 0 <= k < n * n => CellAt(k / n, k % n, c))
  }

  /**
   * The nested row and column loops of both map builders, collecting the
   * cells they visit in order: the same cells as the grid.
   */
  method EnumerateGrid(size: int, c: nat) returns (cells: seq<Cell>)
    requires c > 0
    ensures cells == Grid(size, c)
  {
    var n := PyramidsPerRow(size, c);
    cells := [];
    if n <= 0 {
      return;
    }
    var row := 0;
    while row < n
      invariant 0 <= row <= n
      invariant |cells| == row * n
      invariant RowMajorPrefix(cells, n, c)
    {
      cells := EnumerateRow(cells, row, n, c);
      row := row + 1;
    }
  }

  /** `cells` holds the first |cells| cells of the row-major order over n columns. */
  predicate RowMajorPrefix(cells: seq<Cell>, n: int, c: nat)
    requires n > 0
  {
    forall k :: 0 <= k < |cells| ==> cells[k] == CellAt(k / n, k % n, c)
  }

  /** The column loop of one row: appends the row's n cells, left to right. */
  method EnumerateRow(cells: seq<Cell>, row: nat, n: int, c: nat) returns (cells': seq<Cell>)
    requires n > 0 && |cells| == row * n && RowMajorPrefix(cells, n, c)
    ensures |cells'| == (row + 1) * n && RowMajorPrefix(cells', n, c)
  {
    cells' := cells;
    var col := 0;
    while col < n
      invariant 0 <= col <= n
      invariant |cells'| == row * n + col
      invariant RowMajorPrefix(cells', n, c)
    {
      RowMajorIndex(row, col, n);
      cells' := cells' + [CellAt(row, col, c)];
      col := col + 1;
    }
    assert row * n + n == (row + 1) * n;
  }

  /** The index row·n + col names row `row` and column `col`. */
  lemma RowMajorIndex(row: int, col: int, n: int)
    requires n > 0 && row >= 0 && 0 <= col < n
    ensures (row * n + col) / n == row && (row * n + col) % n == col
  {
    DivisionUnique(row * n + col, n, row, col);
  }

  lemma DivisionUnique(a: int, n: int, q: int, r: int)
    requires n > 0 && 0 <= r < n && a == q * n + r
    ensures a / n == q && a % n == r
  {
    var q', r' := a / n, a % n;
    assert a == q' * n + r';
    if q' < q {
      MultiplyAtLeast(q - q', n);
    } else if q < q' {
      MultiplyAtLeast(q' - q, n);
    }
  }

  lemma MultiplyAtLeast(d: int, n: int)
    requires d >= 1 && n >= 0
    ensures d * n >= n
  {
  }

  lemma FloorDivision(size: int, c: nat)
    requires c > 0
    ensures (size / c) * c <= size < (size / c) * c + c
  {
    assert size == (size / c) * c + size % c;
  }

  lemma MultiplyMonotone(a: int, b: int, c: nat)
    requires a <= b
    ensures a * c <= b * c
  {
  }

  // -------------------------------------------------------- grid geometry

  /** The pixel (px, py) lies in the cell's square. */
  predicate Contains(cell: Cell, px: int, py: int) {
    cell.x <= px < cell.x + cell.side && cell.y <= py < cell.y + cell.side
  }

  /** Two cells whose squares do not overlap. */
  predicate Disjoint(a: Cell, b: Cell) {
    a.x + a.side <= b.x || b.x + b.side <= a.x || a.y + a.side <= b.y || b.y + b.side <= a.y
  }

  /** Cell k of the grid sits at row k / n and column k % n, both below n. */
  lemma GridCell(size: int, c: nat, k: int)
    requires c > 0 && 0 <= k < |Grid(size, c)|
    ensures var n := PyramidsPerRow(size, c);
      && n > 0 && Grid(size, c)[k] == CellAt(k / n, k % n, c)
      && 0 <= k / n < n && 0 <= k % n < n && k == (k / n) * n + k % n
  {
    var n := PyramidsPerRow(size, c);
    assert n > 0;
    FloorBelow(k, n, n);
  }

  /** A number below m·n divided by n is below m, and splits into quotient and remainder. */
  lemma FloorBelow(p: int, n: nat, m: int)
    requires n > 0 && 0 <= p < m * n
    ensures 0 <= p / n < m && 0 <= p % n < n && (p / n) * n <= p < (p / n) * n + n
    ensures p == (p / n) * n + p % n
  {
    FloorDivision(p, n);
    if p / n >= m {
      MultiplyMonotone(m, p / n, n);
    }
  }

  /** Every cell is a c-sided square inside the size × size canvas. */
  lemma CellsInsideCanvas(size: int, c: nat)
    requires c > 0
    ensures forall k :: 0 <= k < |Grid(size, c)| ==>
      var cell := Grid(size, c)[k];
      && cell.side == c
      && 0 <= cell.x && cell.x + c <= size
      && 0 <= cell.y && cell.y + c <= size
  {
    var n := PyramidsPerRow(size, c);
    forall k | 0 <= k < |Grid(size, c)|
      ensures var cell := Grid(size, c)[k];
        0 <= cell.x && cell.x + c <= size && 0 <= cell.y && cell.y + c <= size
    {
      CellWithinCovered(size, c, k);
      GridCell(size, c, k);
      MultiplyMonotone(0, k % n, c);
      MultiplyMonotone(0, k / n, c);
    }
  }

  /** Distinct cells of the grid are at distinct places and do not overlap. */
  lemma CellsDisjoint(size: int, c: nat)
    requires c > 0
    ensures forall k, k' :: 0 <= k < k' < |Grid(size, c)| ==>
      Disjoint(Grid(size, c)[k], Grid(size, c)[k'])
  {
    forall k, k' | 0 <= k < k' < |Grid(size, c)|
      ensures Disjoint(Grid(size, c)[k], Grid(size, c)[k'])
    {
      TwoCellsDisjoint(size, c, k, k');
    }
  }

  lemma TwoCellsDisjoint(size: int, c: nat, k: int, k': int)
    requires c > 0 && 0 <= k < k' < |Grid(size, c)|
    ensures Disjoint(Grid(size, c)[k], Grid(size, c)[k'])
  {
    var n := PyramidsPerRow(size, c);
    GridCell(size, c, k);
    GridCell(size, c, k');
    CellsApart(k / n, k % n, k' / n, k' % n, c);
  }

  /** Cells at different grid places do not overlap. */
  lemma CellsApart(r: nat, q: nat, r': nat, q': nat, c: nat)
    requires c > 0 && (r != r' || q != q')
    ensures Disjoint(CellAt(r, q, c), CellAt(r', q', c))
  {
    if q < q' {
      MultiplyMonotone(q + 1, q', c);
    } else if q' < q {
      MultiplyMonotone(q' + 1, q, c);
    } else if r < r' {
      MultiplyMonotone(r + 1, r', c);
    } else {
      MultiplyMonotone(r' + 1, r, c);
    }
  }

  /** The cell that covers a pixel of the covered square [0, n·c)². */
  function CellOf(size: int, c: nat, px: int, py: int): (k: nat)
    requires c > 0
    requires 0 <= px < PyramidsPerRow(size, c) * c && 0 <= py < PyramidsPerRow(size, c) * c
    ensures k < |Grid(size, c)| && Contains(Grid(size, c)[k], px, py)
  {
    var n := PyramidsPerRow(size, c);
    CoveringCell(size, c, px, py);
    (py / c) * n + px / c
  }

  lemma CoveringCell(size: int, c: nat, px: int, py: int)
    requires c > 0
    requires 0 <= px < PyramidsPerRow(size, c) * c && 0 <= py < PyramidsPerRow(size, c) * c
    ensures var n := PyramidsPerRow(size, c); var k := (py / c) * n + px / c;
      0 <= k < |Grid(size, c)| && Contains(Grid(size, c)[k], px, py)
  {
    var n := PyramidsPerRow(size, c);
    PositiveFactor(n, c);
    FloorBelow(py, c, n);
    FloorBelow(px, c, n);
    GridAt(size, c, py / c, px / c);
  }

  lemma PositiveFactor(n: int, c: nat)
    requires n * c > 0
    ensures n > 0
  {
    if n <= 0 {
      MultiplyMonotone(n, 0, c);
    }
  }

  /** The cell at row `row` and column `col` is cell row·n + col of the grid. */
  lemma GridAt(size: int, c: nat, row: int, col: int)
    requires c > 0
    requires 0 <= row < PyramidsPerRow(size, c) && 0 <= col < PyramidsPerRow(size, c)
    ensures var k := row * PyramidsPerRow(size, c) + col;
      0 <= k < |Grid(size, c)| && Grid(size, c)[k] == CellAt(row, col, c)
  {
    var n := PyramidsPerRow(size, c);
    MultiplyMonotone(row, n - 1, n);
    RowMajorIndex(row, col, n);
  }

  /**
   * Pixels of the canvas to the right of or below the covered square
   * [0, n·c)² lie in no cell: they keep the background fill. That strip is
   * size mod c wide, and empty exactly when c divides size.
   */
  lemma UncoveredStrip(size: int, c: nat, px: int, py: int)
    requires c > 0 && size >= 0
    requires 0 <= px < size && 0 <= py < size
    requires px >= PyramidsPerRow(size, c) * c || py >= PyramidsPerRow(size, c) * c
    ensures forall k :: 0 <= k < |Grid(size, c)| ==> !Contains(Grid(size, c)[k], px, py)
  {
    forall k | 0 <= k < |Grid(size, c)|
      ensures !Contains(Grid(size, c)[k], px, py)
    {
      CellWithinCovered(size, c, k);
    }
  }

  /** Every cell lies within the covered square [0, n·c)². */
  lemma CellWithinCovered(size: int, c: nat, k: int)
    requires c > 0 && 0 <= k < |Grid(size, c)|
    ensures var n := PyramidsPerRow(size, c); var cell := Grid(size, c)[k];
      cell.x + cell.side <= n * c && cell.y + cell.side <= n * c
  {
    var n := PyramidsPerRow(size, c);
    GridCell(size, c, k);
    MultiplyMonotone(k % n + 1, n, c);
    MultiplyMonotone(k / n + 1, n, c);
  }

  lemma StripWidth(size: int, c: nat)
    requires c > 0 && size >= 0
    ensures size - PyramidsPerRow(size, c) * c == size % c
    ensures size - PyramidsPerRow(size, c) * c == 0 <==> size % c == 0
  {
    FloorDivision(size, c);
  }

  // ------------------------------------------------------------ drawing

  datatype Point = Point(x: real, y: real)

  /** A straight stroke from one point to another. */
  datatype Segment = Segment(from: Point, to: Point)

  /** A colour stop of a gradient: the colour at `offset` ∈ [0, 1] of the way out. */
  datatype Stop = Stop(offset: real, color: string)

  /** A radial gradient between two circles about the same centre. */
  datatype Gradient = RadialGradient(center: Point, innerRadius: real, outerRadius: real, stops: seq<Stop>)

  /**
   * The height-map drawing of one cell: its square outline filled with the
   * gradient, then the crease segments stroked in the given style and width.
   */
  datatype Pyramid = Pyramid(outline: seq<Point>, fill: Gradient, creaseStyle: string,
                             creaseWidth: real, creases: seq<Segment>)

  /** One filled triangle of the normal map: the path's three vertices in order and its colour. */
  datatype Facet = Facet(fill: string, vertices: seq<Point>)

  /** The corners of the square at (x, y) of side s: top-left, top-right, bottom-right, bottom-left. */
  function Corners(x: real, y: real, s: real): (cs: seq<Point>)
    ensures |cs| == 4
  {
    [Point(x, y), Point(x + s, y), Point(x + s, y + s), Point(x, y + s)]
  }

  /** The corner after corner i, going round the square. */
  function NextCorner(i: nat): nat {
    if i == 3 then 0 else i + 1
  }

  function Centre(x: real, y: real, s: real): Point {
    Point(x + s / 2.0, y + s / 2.0)
  }

  /** White at the centre, mid grey half way out, black at the gradient's rim. */
  const HeightStops: seq<Stop> := [Stop(0.0, "#ffffff"), Stop(0.5, "#808080"), Stop(1.0, "#000000")]

  /** The colour the height map is cleared to, and the creases are drawn with. */
  const HeightBackground: string := "#000000"

  /** The height-map drawing of the cell whose top-left corner is (x, y). */
  function DrawPyramid(x: real, y: real, s: real): (p: Pyramid)
    ensures |p.outline| == 4 && |p.creases| == 4
  {
    var centre := Centre(x, y, s);
    var cs := Corners(x, y, s);
    Pyramid(cs, RadialGradient(centre, 0.0, s / 2.0 * 0.7, HeightStops), "#000000", 1.0,
            [Segment(cs[0], centre), Segment(cs[1], centre), Segment(cs[2], centre), Segment(cs[3], centre)])
  }

  /** The squared distance between two points. */
  function Dist2(a: Point, b: Point): real {
    (a.x - b.x) * (a.x - b.x) + (a.y - b.y) * (a.y - b.y)
  }

  /**
   * The pyramid is centred on its cell: the gradient's centre is the point
   * half a side in from the origin, at the same distance from all four
   * corners, inside the square; its rim is 0.7 of the half side, so it lies
   * strictly inside the square and fades to black before the edges.
   * There are exactly four creases, one from each corner, all ending at the
   * centre.
   */
  lemma PyramidGeometry(x: real, y: real, s: real)
    requires s > 0.0
    ensures var p := DrawPyramid(x, y, s);
      && p.outline == Corners(x, y, s)
      && p.fill.center == Point(x + s / 2.0, y + s / 2.0)
      && (forall i :: 0 <= i < 4 ==> Dist2(p.outline[i], p.fill.center) == s * s / 2.0)
      && x < p.fill.center.x < x + s && y < p.fill.center.y < y + s
      && p.fill.innerRadius == 0.0 && p.fill.outerRadius == 0.35 * s
      && 0.0 < p.fill.outerRadius < s / 2.0
      && (forall i :: 0 <= i < 4 ==> p.creases[i] == Segment(p.outline[i], p.fill.center))
      && p.creaseStyle == HeightBackground && p.creaseWidth == 1.0
  {
  }

  /** The brightness of a grey `#rrggbb`, when the string is one. */
  function GreyLevel(color: string): (g: Option<nat>)
    ensures g.Some? ==> ParseHex(color).Some? && IsGrey(ParseHex(color).value)
    ensures g.Some? ==> g.value == ParseHex(color).value.red < 256
  {
    match ParseHex(color)
    case Some(c) => if IsGrey(c) then Some(c.red) else None
    case None => None
  }

  /**
   * The gradient's stops are grey, at offsets rising from 0 to 1, with
   * brightness falling 255, 128, 0; its last stop is the background colour,
   * so the height falls from a white apex to the black ground.
   */
  lemma GradientFalls()
    ensures |HeightStops| == 3
    ensures GreyLevel(HeightStops[0].color) == Some(255)
    ensures GreyLevel(HeightStops[1].color) == Some(128)
    ensures GreyLevel(HeightStops[2].color) == Some(0)
    ensures HeightStops[0].offset == 0.0 && HeightStops[2].offset == 1.0
    ensures forall i, j :: 0 <= i < j < 3 ==>
      && HeightStops[i].offset < HeightStops[j].offset
      && GreyLevel(HeightStops[j].color).value < GreyLevel(HeightStops[i].color).value
    ensures HeightStops[2].color == HeightBackground
  {
    assert ParseHex(HeightStops[0].color) == Some(Rgb(255, 255, 255));
    assert ParseHex(HeightStops[1].color) == Some(Rgb(128, 128, 128));
    assert ParseHex(HeightStops[2].color) == Some(Rgb(0, 0, 0));
  }

  /** The normal of a surface facing the viewer: the normal map's background. */
  const FlatNormal: string := "#8080ff"

  /** The colours of the top, right, bottom and left facets, in drawing order. */
  const FacetColors: seq<string> := ["#a0a0ff", "#ff8080", "#6060ff", "#80ff80"]

  /**
   * The normal-map drawing of the cell whose top-left corner is (x, y):
   * four triangles, each running from one end of a cell edge through the
   * centre to the other end, for the top, right, bottom and left edges.
   */
  function DrawPyramidNormals(x: real, y: real, s: real): (fs: seq<Facet>)
    ensures |fs| == 4 && forall i :: 0 <= i < 4 ==> |fs[i].vertices| == 3
  {
    var centre := Centre(x, y, s);
    [ Facet(FacetColors[0], [Point(x, y), centre, Point(x + s, y)]),
      Facet(FacetColors[1], [Point(x + s, y), centre, Point(x + s, y + s)]),
      Facet(FacetColors[2], [Point(x + s, y + s), centre, Point(x, y + s)]),
      Facet(FacetColors[3], [Point(x, y + s), centre, Point(x, y)]) ]
  }

  /**
   * The four facets share the cell's centre as their middle vertex; their
   * outer edges are the sides of the height map's square outline, each
   * used once, in order around it, so together they tile the cell and
   * their bases form its boundary; facets i and i+1 meet along the crease
   * from corner i+1 to the centre.
   */
  lemma FacetsTileCell(x: real, y: real, s: real)
    ensures var fs := DrawPyramidNormals(x, y, s); var p := DrawPyramid(x, y, s);
      && (forall i :: 0 <= i < 4 ==>
            && fs[i].vertices[1] == p.fill.center
            && fs[i].vertices[0] == p.outline[i]
            && fs[i].vertices[2] == p.outline[NextCorner(i)]
            && fs[i].fill == FacetColors[i])
      && (forall i :: 0 <= i < 4 ==>
            Segment(fs[i].vertices[2], fs[i].vertices[1]) == p.creases[NextCorner(i)])
  {
  }

  /**
   * The facet colours read as (160, 160, 255), (255, 128, 128),
   * (96, 96, 255) and (128, 255, 128); they are pairwise different and all
   * differ from the flat background normal (128, 128, 255), so every facet
   * stands out from the ground and from its neighbours.
   */
  lemma FacetColorsDistinct()
    ensures ParseHex(FacetColors[0]) == Some(Rgb(160, 160, 255))
    ensures ParseHex(FacetColors[1]) == Some(Rgb(255, 128, 128))
    ensures ParseHex(FacetColors[2]) == Some(Rgb(96, 96, 255))
    ensures ParseHex(FacetColors[3]) == Some(Rgb(128, 255, 128))
    ensures ParseHex(FlatNormal) == Some(Rgb(128, 128, 255))
    ensures forall i, j :: 0 <= i < j < 4 ==> ParseHex(FacetColors[i]) != ParseHex(FacetColors[j])
    ensures forall i :: 0 <= i < 4 ==> ParseHex(FacetColors[i]) != ParseHex(FlatNormal)
  {
  }

  // ------------------------------------------------------------- textures

  /** A canvas of the given size, cleared to `background`, then drawn on by `draws` in order. */
  datatype Canvas<D> = Canvas(width: int, height: int, background: string, draws: seq<D>)

  /** How a texture is sampled outside [0, 1]: the library's default clamps; tiling repeats. */
  datatype Wrap = ClampToEdgeWrapping | RepeatWrapping

  datatype Texture<D> = Texture(canvas: Canvas<D>, wrapS: Wrap, wrapT: Wrap, repeatU: int, repeatV: int)

  /** The repeating 4 × 4 texture over a canvas. */
  function Tiled<D>(canvas: Canvas<D>): Texture<D> {
    Texture(canvas, RepeatWrapping, RepeatWrapping, 4, 4)
  }

  /** The height map: a black canvas with one pyramid per cell, in the grid's order. */
  function CreateHeightMap(size: int): (t: Texture<Pyramid>)
    ensures |t.canvas.draws| == |Grid(size, PyramidSize)|
  {
    var g := Grid(size, PyramidSize);
    Tiled(Canvas(size, size, HeightBackground,
                 seq(|g|, k requires 0 <= k < |g| =>
                   DrawPyramid(g[k].x as real, g[k].y as real, PyramidSize as real))))
  }

  /** The normal map: a flat-normal canvas with one set of facets per cell, in the grid's order. */
  function CreateNormalMap(size: int): (t: Texture<seq<Facet>>)
    ensures |t.canvas.draws| == |Grid(size, PyramidSize)|
  {
    var g := Grid(size, PyramidSize);
    Tiled(Canvas(size, size, FlatNormal,
                 seq(|g|, k requires 0 <= k < |g| =>
                   DrawPyramidNormals(g[k].x as real, g[k].y as real, PyramidSize as real))))
  }

  /** A `TapisserieTexture`: its side length, its cell size and the two maps. */
  datatype TapisserieTexture = TapisserieTexture(
    size: int, pyramidSize: nat, heightMap: Texture<Pyramid>, normalMap: Texture<seq<Facet>>)

  /** The constructor; the side length defaults to 512 when none is given. */
  function NewTapisserie(size: Option<int>): (t: TapisserieTexture)
    ensures t.size == size.ValueOr(DefaultSize) && t.pyramidSize == PyramidSize
  {
    var s := size.ValueOr(DefaultSize);
    TapisserieTexture(s, PyramidSize, CreateHeightMap(s), CreateNormalMap(s))
  }

  /**
   * Both maps are square canvases of the texture's side, repeated 4 × 4
   * with repeat wrapping in both directions; the height map starts black,
   * the normal map flat.
   */
  lemma MapsTiled(size: Option<int>)
    requires size.ValueOr(DefaultSize) >= 0
    ensures var t := NewTapisserie(size);
      && t.heightMap.canvas.width == t.heightMap.canvas.height == t.size
      && t.normalMap.canvas.width == t.normalMap.canvas.height == t.size
      && t.heightMap.wrapS == t.heightMap.wrapT == RepeatWrapping
      && t.normalMap.wrapS == t.normalMap.wrapT == RepeatWrapping
      && t.heightMap.repeatU == t.heightMap.repeatV == 4
      && t.normalMap.repeatU == t.normalMap.repeatV == 4
      && t.heightMap.canvas.background == HeightBackground
      && t.normalMap.canvas.background == FlatNormal
  {
  }

  /**
   * The two maps are co-registered: draw k of each is for the same grid
   * cell, the height map's pyramid square at that cell's corner and side,
   * and the normal map's facets running around exactly that square.
   */
  lemma MapsCoRegistered(size: int)
    ensures var h, n := CreateHeightMap(size).canvas.draws, CreateNormalMap(size).canvas.draws;
      var g := Grid(size, PyramidSize);
      && |h| == |n| == |g|
      && forall k :: 0 <= k < |g| ==>
        && h[k].outline == Corners(g[k].x as real, g[k].y as real, PyramidSize as real)
        && forall i :: 0 <= i < 4 ==>
             n[k][i].vertices[0] == h[k].outline[i] && n[k][i].vertices[2] == h[k].outline[NextCorner(i)]
  {
    var h: seq<Pyramid> := CreateHeightMap(size).canvas.draws;
    var n: seq<seq<Facet>> := CreateNormalMap(size).canvas.draws;
    var g := Grid(size, PyramidSize);
    forall k | 0 <= k < |g|
      ensures h[k].outline == Corners(g[k].x as real, g[k].y as real, PyramidSize as real)
      ensures forall i :: 0 <= i < 4 ==>
        n[k][i].vertices[0] == h[k].outline[i] && n[k][i].vertices[2] == h[k].outline[NextCorner(i)]
    {
      FacetsTileCell(g[k].x as real, g[k].y as real, PyramidSize as real);
    }
  }

  /** With the defaults there are 32 cells per row, 1024 cells per map, and no uncovered strip. */
  lemma DefaultGrid()
    ensures NewTapisserie(None).size == 512
    ensures PyramidsPerRow(512, PyramidSize) == 32
    ensures |Grid(512, PyramidSize)| == 1024
    ensures |CreateHeightMap(512).canvas.draws| == |CreateNormalMap(512).canvas.draws| == 1024
    ensures 512 - PyramidsPerRow(512, PyramidSize) * PyramidSize == 0
  {
  }
}
