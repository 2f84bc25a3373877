# Royal Oak watch model

A Dafny model of the two pieces of logic in a procedural 3D wristwatch
built on Three.js:

- **The watch** (`RoyalOakWatch`). The constructor runs nine part builders
  in a fixed order: case, bezel, screws, dial, subdials, hands, indices,
  crown and bracelet. Each builder appends meshes to one flat child list.
  `updateTime` then advances a clock by 0.01 per frame. It turns every
  tagged hand to minus the time times a fixed rate.
- **The tapisserie texture** (`TapisserieTexture`). A `size × size`
  canvas is cut into `floor(size/16)²` square cells, visited row by row.
  Each cell gets one pyramid, drawn twice:
  - in the height map, as a radial gradient with four corner-to-centre
    creases;
  - in the normal map, as four flat-coloured triangular facets.

## How the model is built

- `optional.dfy`: the `Option` wrapper.
- `color.dfy`: the `#rrggbb` colour strings of the canvas styles, with
  parsing and printing.
- `geometry.dfy`: shape descriptors, angles and positions.
- `scene.dfy`: the scene node record (shape, material, position,
  rotation, scale, role tag) and role counting.
- `parts.dfy`: one pure builder per part. Each returns that part's nodes
  in the order it adds them. A `…Layout` lemma beside each builder states
  what the builder lays out.
- `animation.dfy`: `updateTime` as a pure step on `(time, children)`, and
  iterated frames.
- `watch.dfy`: the constructor, which concatenates the nine builders,
  and whole-watch properties.
- `tapisserie.dfy`: the cell grid, the per-cell drawing commands of both
  maps, and the two textures.

Modelling choices:

- Numbers are exact reals, so constants such as 0.01, 0.82 and 0.05 are
  exact.
- An angle is a fraction of a turn plus a number of radians. The builders
  write fractions of π, kept as turns (π/8 is 1/16 turn). `updateTime`
  writes radians.
- A point that a builder such as `createScrews` computes with `cos`/`sin` is kept in polar form:
  a base point, a radius and a fraction of a turn.
- A mesh's role tag (`userData.type`/`function`) is the `Role` datatype.
  Untagged meshes carry `Untagged`.
- A canvas is its size, its background fill and the list of drawing
  commands issued on it, in order.

Consequences of the code worth stating:

- `createIndices` skips loop positions 3, 6 and 9 and keeps position 0,
  so it emits 9 markers, and the child list has 157 nodes. Position i
  sits at turn i/12 − 1/4, so the skipped positions are three, twelve and
  nine o'clock, and the kept position 0 is six o'clock.
- After one frame from construction the hour hand stands at −0.001 rad
  (0.01 × 0.1).
- When 16 does not divide the size, the grid takes the floor. It leaves a
  strip of width `size mod 16` that has only the background fill.

## Model

| member | source | states |
|---|---|---|
| RoyalOak.Build | src/RoyalOakWatch.js:5-24 | the constructor's child list: the nine builders' outputs in constructor order, 157 children |
| RoyalOak.NewWatch | src/RoyalOakWatch.js:5-24 | a new watch has all 157 children and its clock at 0 |
| RoyalOak.BuildBlocks | src/RoyalOakWatch.js:12-20 | each builder's output is found in the child list at its offset: case 0, bezel 2, screws 3, dial 19, subdials 23, hands 69, indices 73, crown 82, bracelet 97 |
| RoyalOak.BuildTags | src/RoyalOakWatch.js:203-292 | exactly six children carry a role: subdial seconds, minutes and hours hands at 37, 52 and 67; hour, minute and chrono hands at 69, 70 and 71 |
| RoyalOak.EachRoleTagsOneChild | src/RoyalOakWatch.js:203-292 | every animated role tags exactly one child of the built watch, the one at its hand index |
| RoyalOak.TaggedRolesCountOnce | src/RoyalOakWatch.js:386-402 | in any child list tagged as built, each role's count is one |
| RoyalOak.BuildShapesValid | src/RoyalOakWatch.js:92-380 | every child's shape is in the geometry factory's parameter domain: positive sizes, at least three segments, outlines of at least three off-centre vertices |
| RoyalOak.FramesFromNew | src/RoyalOakWatch.js:382-403 | after n frames from construction the clock reads exactly 0.01·n; the 157 children keep their tags; after at least one frame every hand stands at minus the time times its rate |
| RoyalOak.HandAngles | src/RoyalOakWatch.js:387-400 | after at least one frame, hand by hand: hour −0.1t, minute −1.2t, chrono −10t, seconds −10t, minutes −0.5t, hours −0.05t; the minute hand turns 12 times as fast as the hour hand |
| RoyalOak.FirstFrame | src/RoyalOakWatch.js:382-403 | the first frame from construction: time 0.01; hands at −0.001, −0.012, −0.1, −0.1, −0.005 and −0.0005 rad |
| Parts.CaseParts | src/RoyalOakWatch.js:90-102 | the case builder adds two nodes |
| Parts.CaseLayout | src/RoyalOakWatch.js:90-102 | body and middle are 8-sided cylinders turned π/8 about y; the middle is wider (4.1 > 4) and thinner (0.8 < 1.2); rose gold, then polished |
| Parts.Bezel | src/RoyalOakWatch.js:104-144 | the bezel builder adds one node |
| Parts.BezelLayout | src/RoyalOakWatch.js:104-144 | an octagon of radius 4.2 with vertex i at i/8 turn; one hole that is the outline scaled by 3.8/4.2 < 1, vertex for vertex; depth 0.3, bevel 0.05/0.05 in 3 segments; z 0.6, turned π/8 about z |
| Geometry.RegularPolygon | src/RoyalOakWatch.js:111-117 | the n-gon outline: n vertices at the radius, vertex i at i/n turn |
| Parts.ScrewsFrom | src/RoyalOakWatch.js:150-167 | screws i to 7: node k is the body of screw i + k/2 at even k and its head at odd k |
| Parts.Screws | src/RoyalOakWatch.js:146-168 | the screw builder adds 16 nodes |
| Parts.ScrewsLayout | src/RoyalOakWatch.js:150-166 | eight body/head pairs on the 3.9 circle at eighth turns, body at z 0.6, head at z 0.9 (always in front), the head wider and thinner, both a quarter turn about x |
| Parts.Dial | src/RoyalOakWatch.js:170-201 | the dial builder adds four nodes |
| Parts.DialLayout | src/RoyalOakWatch.js:170-201 | a 3.7 disc at z 0.4, smaller than the 3.8 circle through the bezel hole's vertices; three plaques on the vertical centreline in front of it, top to bottom; the last reuses the text shape scaled to 0.8 |
| Parts.SubdialMarkersFrom | src/RoyalOakWatch.js:225-236 | markers i to 11 of one subdial, in order |
| Parts.SubdialGroup | src/RoyalOakWatch.js:211-247 | one subdial adds 15 nodes: ring, face, 12 markers, hand |
| Parts.SubdialGroups | src/RoyalOakWatch.js:211-247 | the subdials' groups back to back: node k is node k mod 15 of subdial k/15 |
| Parts.Subdials | src/RoyalOakWatch.js:203-259 | the subdial builder adds 46 nodes |
| Parts.SubdialsLayout | src/RoyalOakWatch.js:205-258 | three groups, for seconds, minutes and hours in that order, then the date window |
| Parts.SubdialGroupShape | src/RoyalOakWatch.js:211-247 | every node is centred on its subdial; markers on the 0.5 circle (inside the 0.65 face) at twelfth turns, turned radially; layers face < ring < markers < hand; only the hand is tagged, with the subdial's counter; it spans [0, 0.5] from its pivot |
| Parts.SubdialHandsTagged | src/RoyalOakWatch.js:205-258 | exactly the nodes at 14, 29 and 44 are tagged, as seconds, minutes and hours; each counter tags exactly one node |
| Parts.Hands | src/RoyalOakWatch.js:261-292 | the hands builder adds four nodes |
| Parts.HandsLayout | src/RoyalOakWatch.js:261-292 | hour, minute, chrono, then an untagged cap, all on the centre axis at strictly increasing z |
| Parts.HandShapes | src/RoyalOakWatch.js:263-280 | each hand spans [0, length] from its pivot; lengths rise hour < minute < chrono and stay below the dial radius |
| Parts.KeptHoursOrdered | src/RoyalOakWatch.js:296-297 | the hours the marker loop keeps from i on lie in [i, 12), strictly increase, and are exactly those in that range that the skip rule does not skip |
| Parts.IndicesFrom | src/RoyalOakWatch.js:296-309 | the markers for hours i to 11: one per kept hour, marker k for the k-th kept hour, in loop order |
| Parts.KeptHoursTable | src/RoyalOakWatch.js:296-297 | the hours the loop keeps are the table 0, 1, 2, 4, 5, 7, 8, 10, 11 |
| Parts.Indices | src/RoyalOakWatch.js:294-310 | the index builder adds nine nodes |
| Parts.IndicesLayout | src/RoyalOakWatch.js:296-308 | marker k is for hour IndexHours[k], on the 3.2 circle at z 0.42, at hour/12 − 1/4 turn, turned a further quarter turn |
| Parts.IndexHoursFollowSkipRule | src/RoyalOakWatch.js:296-297 | an hour below 12 gets a marker if and only if the skip rule keeps it; the marked hours increase; 0 is kept and 3, 6, 9 are skipped |
| Parts.RidgesFrom | src/RoyalOakWatch.js:321-332 | ridges i to 11 of the crown, in order |
| Parts.Crown | src/RoyalOakWatch.js:312-347 | the crown builder adds 15 nodes |
| Parts.CrownLayout | src/RoyalOakWatch.js:312-347 | a tapered crown at (4.3, 0, 0) turned onto x; 12 ridges on the circle of its narrow radius about that axis, at twelfth turns, each turned by its angle about x; two equal pushers mirrored about y = 0 |
| Parts.LinesFrom | src/RoyalOakWatch.js:368-375 | lines j to 4 of one link, in order |
| Parts.LinksFrom | src/RoyalOakWatch.js:355-378 | links i to 5 of one arm: node k is line k mod 6 of link i + k/6, or the link itself when k mod 6 = 5 |
| Parts.Bracelet | src/RoyalOakWatch.js:349-380 | the bracelet builder adds 60 nodes |
| Parts.BraceletNodes | src/RoyalOakWatch.js:354-379 | the lower arm (side −1) comes first; in each arm link i follows its five lines |
| Parts.BraceletLayout | src/RoyalOakWatch.js:354-379 | links sit at every sixth place and only there; each line shares its link's y and is 0.01 in front of it; nothing is tagged |
| Parts.LinkProgression | src/RoyalOakWatch.js:357-364 | going outward, links are further from the case, further back and narrower |
| Parts.LinkBounds | src/RoyalOakWatch.js:357-364 | each link is beyond y = 4 on its side and behind z = 0, with taper in [0.75, 0.95]; the two arms mirror each other |
| Parts.LineOffsets | src/RoyalOakWatch.js:367-374 | line j is at x = −0.375 + 0.15·j, at its link's y and 0.01 in front; the offsets run from −0.375 to 0.225 and are not centred |
| Geometry.Shift | src/RoyalOakWatch.js:371-373 | moving a position adds exactly the offsets and keeps its polar part |
| Scene.Mesh | src/RoyalOakWatch.js:93 | a new mesh is at the origin, unrotated, at unit scale, with no role |
| Scene.CountRole | src/RoyalOakWatch.js:386-402 | a role is counted at most once per node |
| Scene.CountRoleZero | src/RoyalOakWatch.js:386-402 | a count is zero if and only if no node carries the role |
| Scene.CountRoleOne | src/RoyalOakWatch.js:386-402 | a role carried at exactly one index is counted once |
| Animation.Rate | src/RoyalOakWatch.js:387-400 | the rate table; every animated role has a positive rate |
| Animation.Animate | src/RoyalOakWatch.js:386-402 | one child in a frame: an untagged child is unchanged; a tagged child changes only its z rotation, to minus the time times its rate |
| Animation.AnimateAll | src/RoyalOakWatch.js:386-402 | the frame's visit of every child keeps count, order and roles; it changes only the z rotation of tagged children, and turns each to minus the time times its rate |
| Animation.UpdateTime | src/RoyalOakWatch.js:382-403 | one frame: time + 0.01; same children in the same order with the same roles; only tagged children's z rotations change, each to minus the new time times its rate |
| Animation.UpdateForgetsHandTurns | src/RoyalOakWatch.js:386-402 | a frame's result does not depend on the hands' previous rotations |
| Animation.FramesClock | src/RoyalOakWatch.js:383 | n frames add exactly 0.01·n to the clock; they keep all children apart from hand turns; after at least one frame the hands stand at minus the time times their rates |
| Tapisserie.PyramidsPerRow | src/TapisserieTexture.js:23 | cells per row n = floor(size/16): n·16 ≤ size < n·16 + 16 |
| Tapisserie.Grid | src/TapisserieTexture.js:25-34 | the visited cells: (floor(size/16))² of them, none when the floor is not positive |
| Tapisserie.EnumerateGrid | src/TapisserieTexture.js:25-34 | the nested row/column loops visit exactly the grid's cells, row-major, cell k at row k div n and column k mod n, origin (col·16, row·16) |
| Tapisserie.EnumerateRow | src/TapisserieTexture.js:26-33 | the column loop appends one row's n cells, so the row-major prefix grows by n |
| Tapisserie.CellsInsideCanvas | src/TapisserieTexture.js:23-34 | every cell is a c-sided square inside the canvas: 0 ≤ origin and origin + c ≤ size |
| Tapisserie.CellsDisjoint | src/TapisserieTexture.js:25-34 | distinct cells do not overlap |
| Tapisserie.CellOf | src/TapisserieTexture.js:25-34 | every pixel of [0, n·c)² lies in a cell of the grid |
| Tapisserie.UncoveredStrip | src/TapisserieTexture.js:19-34 | pixels of the canvas at or beyond n·c in x or y lie in no cell and keep the background |
| Tapisserie.StripWidth | src/TapisserieTexture.js:23 | the uncovered strip is size mod c wide, and empty exactly when c divides size |
| Tapisserie.DrawPyramid | src/TapisserieTexture.js:44-83 | one cell's height-map drawing: a four-corner outline and four crease strokes |
| Tapisserie.PyramidGeometry | src/TapisserieTexture.js:44-83 | the gradient is centred half a side in, at equal distance from the four corners, with inner radius 0 and outer radius 0.7·(side/2), inside the square; four creases, one from each outline corner to the centre, black and 1 px wide |
| Tapisserie.GreyLevel | src/TapisserieTexture.js:55-57 | a colour's grey level exists only for a parseable grey and is its channel value |
| Tapisserie.GradientFalls | src/TapisserieTexture.js:55-57 | the stops are greys 255, 128, 0 at offsets 0, 0.5, 1: offsets rise, brightness falls; the last stop is the height map's background |
| Tapisserie.DrawPyramidNormals | src/TapisserieTexture.js:116-156 | one cell's normal-map drawing: four triangles |
| Tapisserie.FacetsTileCell | src/TapisserieTexture.js:116-156 | every facet's middle vertex is the gradient centre; facet i runs along outline side i to i+1, so the four facets use each side of the square once, in order; neighbouring facets meet along a crease |
| Tapisserie.FacetColorsDistinct | src/TapisserieTexture.js:92-155 | the facet colours are (160,160,255), (255,128,128), (96,96,255), (128,255,128); pairwise different and all different from the background (128,128,255) |
| Tapisserie.CreateHeightMap | src/TapisserieTexture.js:12-42 | the height map issues one pyramid per grid cell |
| Tapisserie.CreateNormalMap | src/TapisserieTexture.js:85-114 | the normal map issues one set of facets per grid cell |
| Tapisserie.NewTapisserie | src/TapisserieTexture.js:4-10 | the side length is the one given, else 512; the cell size is 16 |
| Tapisserie.MapsTiled | src/TapisserieTexture.js:12-114 | for a side length of at least 0, both maps are size × size, repeat-wrapped on S and T, repeated 4 × 4; backgrounds black and flat normal |
| Tapisserie.MapsCoRegistered | src/TapisserieTexture.js:23-106 | draw k of both maps is for grid cell k: the height map's outline is that cell's square, and the normal map's facets run round exactly that outline |
| Tapisserie.DefaultGrid | src/TapisserieTexture.js:4-23 | with the defaults there are 32 cells per row and 1024 per map, with no uncovered strip |
| Color.DigitValue | src/TapisserieTexture.js:92 | a character is a hex digit (either case) if and only if it has a value, below 16 |
| Color.ParseByte | src/TapisserieTexture.js:92 | two hex digits give a byte, below 256 |
| Color.ParseHex | src/TapisserieTexture.js:92 | a string is a colour if and only if it is `#` followed by six hex digits; every channel then fits in a byte |

## Left out

- `src/main.js` is not part of this model. It holds the renderer, the
  camera, the controls, the lighting, the environment map and the frame
  loop, which are host plumbing.
- The optical parameters of `createMaterials` are left out. They are
  constants passed to the renderer, so materials are kept as names.
- Cartesian coordinates from `cos`/`sin` are left out. Positions stay in
  polar form, because the model has no trigonometry.
- IEEE-754 arithmetic is left out. The clock is exact, so the drift of
  repeated `+= 0.01` is not modelled.
- The renderer's geometry construction is left out: triangulation,
  bevels and vertex normals.
- Canvas rasterisation is left out: filling, gradient interpolation,
  anti-aliasing and stroke coverage. Drawing is kept as a list of
  commands.
- Colour strings are limited to the `#rrggbb` form used here. Named and
  3-digit CSS colours are not modelled.
- Geometry objects shared between meshes are kept as equal shape values.
  Object identity is not modelled.
- Tapisserie.NewTapisserie: the side length is an integer. Fractional,
  non-numeric and negative sizes are not modelled. For a negative size the
  DOM would reject the canvas width and keep its 300 × 150 default.
- Tapisserie.MapsTiled: the canvas sizes and backgrounds are stated only
  for a side length of at least 0. For a negative side the DOM keeps the
  default canvas size, and `fillRect` paints nothing.
