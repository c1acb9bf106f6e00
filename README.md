# aecSpace in Dafny

aecSpace is a Python toolkit for architectural massing. Its basic unit is a
*space*: a plan boundary polygon raised to a prism by a level (the floor's
height above zero) and a height. Around the space sit a colour, plan
geometry helpers, groups of spaces, shape builders, and a *spacer* that lays
copies of a space out in rows and stacks.

The repository holds three generations of the same ideas. This model covers
the core of each:

- **The package (`aecSpace/`).** The space keeps its attributes in fields
  and rolls its boundary back when a new one is refused. Also modelled here:
  the geometry helpers (`aecGeometry`), the point and colour objects, the
  argument validators (`aecValid`), the shape builders (`aecShaper`), the
  list-based space group and the spacer.
- **The older tree (`src/`).** The space keeps every attribute in one
  property dictionary:
  - a few retained values;
  - the boundary polygon;
  - derived values (bounding box, sizes, axes, floor, ceiling and side
    points, volume), cached on first use and reset when the boundary changes.

  Also modelled here: its geometry calculator (`aecGeomCalc`: convex hull,
  colinear-point removal, box and compass points, midpoint, axis-aligned
  mirroring), its error checks, its dictionary-based space group and its
  spacer.
- **The root files.** These are the stacking spacer and the error checks,
  with the thin field-based space that spacer copies.

Geometry is on exact reals. A plan point is `Point2` and a point in space is
`Point3`. The measures shapely provides are defined in `Points`:

- area (half the absolute shoelace sum);
- bounds;
- translation;
- `orient` (a clockwise ring is reversed, keeping its first point).

Boolean union is a function parameter. Python's `None`/`False` results are
`Option` values or explicit outcome constructors.

The model's central facts are these:

- the monotone-chain hull returns distinct input points, starts at the
  smallest one and turns strictly left along each chain;
- colinear removal keeps only input points, without duplicates, and
  removes the middle point of every zero-area window it examines; what it
  keeps is a subsequence of the doubled ring, deduplicated, which need not
  be in first-appearance order (four points on a line come back as the last
  and the first);
- the cache invariant `Coherent` of the older space holds across setBoundary,
  the getters, setColor and the corrected setHeight/setLevel, so every getter
  returns the freshly computed value;
- a chain of copies is displaced by k steps at the k-th copy, and
  stackToArea's copy count just reaches the target area;
- each shape builder refuses exactly the sizes its guards name, and its arms
  lie where the shape needs them.

## Model

| member | source | states |
|---|---|---|
| Points.LessTotal | src/aecGeomCalc.py:130-135 | Python's tuple comparison of two points is total: they are equal or one is less |
| Points.TriangleArea | src/aecGeomCalc.py:39-40 | the shoelace sum of a triangle is its cross product, so its area is zero exactly when the cross product is |
| Points.Orient | src/aecSpace.py:1471 | orient keeps the ring's length and its first point |
| Points.OrientPermutes | aecSpace/aecSpace.py:79 | orienting only reorders the ring's points |
| Points.FromTo | src/aecSpace.py:1471 | the edge terms from point i onward and those before i add up to the whole shoelace sum |
| Points.ReversedFrom | src/aecSpace.py:1471 | each tail of the reversed ring's edge terms is the negated head of the ring's own |
| Points.OrientWinds | src/aecSpace.py:1471 | an oriented ring winds counter-clockwise: its signed area is the absolute signed area of the ring, never negative |
| Points.BoundsEnclose | src/aecSpace.py:156-163 | the coordinate bounds enclose every point and each is attained by some point |
| Points.TranslateMember | src/aecSpace.py:1396-1401 | a moved point is in the moved ring exactly when the point is in the ring |
| Points.ShoelaceTranslate | src/aecSpace.py:1396-1406 | moving a ring changes neither its signed area nor its orientation |
| Points.OrientTranslate | src/aecSpace.py:1396-1406 | orienting a moved ring is moving the oriented ring |
| Points.QuadShoelace | src/aecSpace.py:266-281 | the doubled signed area of a four-point ring is the sum of its four edge terms |
| Sorting.InsertBy | src/aecSpaceGroup.py:77 | inserting after every element of no greater key adds the element and keeps the list sorted |
| Sorting.SortBy | aecSpace/aecSpaceGroup.py:50 | the key sort returns a permutation of the list in ascending key order |
| Sorting.SortSorted | src/aecSpaceGroup.py:75-77 | sorting a list already in order changes nothing |
| Sorting.InsertLast | src/aecSpaceGroup.py:77 | an element whose key is no smaller than every other goes to the end, so equal keys keep their order |
| Sorting.WithKeyConcat | src/aecSpaceGroup.py:77 | the members of one key in two joined lists are those of the first list followed by those of the second |
| Sorting.WithKeyAbove | src/aecSpaceGroup.py:77 | a sorted list whose first key is above v has no member of key v |
| Sorting.WithKeyInsert | src/aecSpaceGroup.py:77 | inserting an element puts it after every member of the same key and leaves their order alone |
| Sorting.InsertFront | src/aecSpaceGroup.py:77 | an element placed before keys that all exceed its own comes after no member of its key |
| Sorting.InsertPast | src/aecSpaceGroup.py:77 | an element inserted past the head keeps the head's place in its key's order |
| Sorting.SortStable | aecSpace/aecSpaceGroup.py:50 | the sort is stable: for every key, the members with that key leave in the order they came in, as Python's list.sort keeps them |
| Totals.TotalUpTo | src/aecSpaceGroup.py:147-149 | the running sum is present exactly when each of the values added so far is |
| Totals.TotalUpToConcat | aecSpace/aecSpaceGroup.py:35-37 | the running sum over a concatenation continues from the total of the first part |
| Totals.TotalConcat | aecSpace/aecSpaceGroup.py:137-139 | totals add up over a concatenation |
| Totals.TotalNonNegative | src/aecSpaceGroup.py:205-207 | a sum of present non-negative values is present and non-negative |
| Hull.Insert | src/aecGeomCalc.py:135 | inserting into a strictly increasing list keeps it strictly increasing and adds exactly the new point |
| Hull.SortedSet | src/aecGeomCalc.py:135 | sorted(set(points)) is strictly increasing in tuple order and holds exactly the input points |
| Hull.FanStepIncreasing | src/aecGeomCalc.py:149-151 | after a pop-free push on increasing points, the first point still sees the last two in counter-clockwise order |
| Hull.FanTransIncreasing | src/aecGeomCalc.py:149-151 | counter-clockwise order seen from the first point of an increasing chain is transitive |
| Hull.FanStep | src/aecGeomCalc.py:148-158 | the same step for either chain direction |
| Hull.FanTrans | src/aecGeomCalc.py:148-158 | the same transitivity for either chain direction |
| Hull.ExtendFan | src/aecGeomCalc.py:151 | appending a point that turns left at the end keeps every later point counter-clockwise from the first |
| Hull.PrefixChain | src/aecGeomCalc.py:150 | popping points keeps the chain invariant |
| Hull.PushChain | src/aecGeomCalc.py:151 | appending a later point that turns left keeps the chain invariant |
| Hull.Chain | src/aecGeomCalc.py:147-158 | one chain is monotone, turns strictly left, uses only input points, and runs from the first input point to the last |
| Hull.PopTurns | src/aecGeomCalc.py:149-150 | the pop loop leaves a non-empty prefix of the chain whose last two points turn strictly left towards the next point |
| Hull.DropLast | src/aecGeomCalc.py:164 | s[:-1] is the list without its last entry, and empty for an empty list |
| Hull.ChainsDisjoint | src/aecGeomCalc.py:160-164 | apart from the shared ends, the lower and upper chains have no point in common |
| Hull.TrimmedChain | src/aecGeomCalc.py:164 | dropping the last point keeps a chain monotone and left-turning |
| Hull.JoinedChains | src/aecGeomCalc.py:164 | lower[:-1] + upper[:-1] is distinct, starts at the smallest point, and splits into an increasing and a decreasing left-turning run |
| Hull.MonotoneHull | src/aecGeomCalc.py:146-164 | over increasing points the hull uses only input points, none twice, starts at the smallest, is empty under two points and has at least two otherwise, and splits into two strictly left-turning runs |
| Colinear.FirstIndex | aecSpace/aecGeometry.py:445 | list.index gives the first position holding the element |
| Colinear.FirstIndexUnique | aecSpace/aecGeometry.py:445 | the first position is the only position before which the element does not occur |
| Colinear.FirstIndexPrefix | aecSpace/aecGeometry.py:445 | the first position of an element of a prefix is the same in the whole list |
| Colinear.Dedupe | aecSpace/aecGeometry.py:445 | sorted(set(points), key = points.index) is no longer than the points |
| Colinear.DedupeMembers | aecSpace/aecGeometry.py:445 | the deduplicated list holds exactly the points of the list |
| Colinear.DedupeIsDistinct | aecSpace/aecGeometry.py:445 | no point occurs twice in the deduplicated list |
| Colinear.DedupeOrder | aecSpace/aecGeometry.py:445 | the deduplicated list is ordered by first appearance in the input |
| Colinear.DedupeAbsorbs | aecSpace/aecGeometry.py:453 | appending points already present does not change the deduplicated list |
| Colinear.DedupeDistinct | aecSpace/aecGeometry.py:445 | a list of distinct points is its own deduplication |
| Colinear.RemoveFirst | aecSpace/aecGeometry.py:450 | list.remove makes the list one shorter |
| Colinear.RemoveFirstCount | aecSpace/aecGeometry.py:450 | list.remove drops exactly one copy of the point and nothing else |
| Colinear.RemoveAt | aecSpace/aecGeometry.py:450 | list.remove of a point whose first occurrence is at position k cuts the list at k |
| Colinear.CheckWindow | aecSpace/aecGeometry.py:450 | a zero-area window makes the list one shorter; a window with area leaves it as it is |
| Colinear.Window | aecSpace/aecGeometry.py:448 | the slice points[x:x+3] has three points exactly when x + 3 fits in the list, and then is that slice |
| Colinear.Sweeps | aecSpace/aecGeometry.py:446-452 | the doubled list after the three sweeps is the sweep function applied to the doubled list |
| Colinear.SweepShrinks | aecSpace/aecGeometry.py:449-452 | one sweep keeps a sub-multiset of the points and never goes below two of at least two points |
| Colinear.SweepStep | aecSpace/aecGeometry.py:449-452 | one examined window moves the sweep on from a list that lost at most one point |
| Colinear.CheckWindowShrinks | aecSpace/aecGeometry.py:450 | a zero-area window drops exactly one copy of its middle point; any window drops at most that |
| Colinear.PassesShrink | aecSpace/aecGeometry.py:447-452 | the three sweeps keep a sub-multiset of the points and at least two of at least two |
| Colinear.ReduceKeeps | aecSpace/aecGeometry.py:443-454 | the removal returns distinct input points only, and at least one point of a non-empty input |
| Colinear.SweepKeepsAll | aecSpace/aecGeometry.py:449-452 | a sweep over a list with no zero-area window changes nothing |
| Colinear.PassesKeepAll | aecSpace/aecGeometry.py:447-452 | the three sweeps over a list with no zero-area window change nothing |
| Colinear.DoubledWindow | aecSpace/aecGeometry.py:446-448 | every full window of the doubled ring is three cyclically consecutive vertices |
| Colinear.SubseqCompose | aecSpace/aecGeometry.py:446-452 | leaving out elements twice leaves out elements once, keeping the order |
| Colinear.RemoveFirstSubseq | aecSpace/aecGeometry.py:450 | list.remove keeps every other element in its order |
| Colinear.ConsSubseq | aecSpace/aecGeometry.py:450 | a head kept in front of both lists keeps the picked positions in order, shifted by one |
| Colinear.CheckWindowSubseq | aecSpace/aecGeometry.py:450 | one examined window keeps the remaining points in their order |
| Colinear.SweepSubseq | aecSpace/aecGeometry.py:449-452 | one sweep only leaves points out and keeps the rest in order |
| Colinear.PassesSubseq | aecSpace/aecGeometry.py:447-452 | the three sweeps only leave points out and keep the rest in order |
| Colinear.ReduceOrder | aecSpace/aecGeometry.py:443-454 | the result is the first-appearance dedupe of a subsequence of the doubled distinct points |
| Colinear.SweepDrops | aecSpace/aecGeometry.py:448-452 | at a full zero-area window the sweep removes its middle point and goes on at the next window |
| Colinear.SweepPasses | aecSpace/aecGeometry.py:448-452 | at a full window with area the sweep removes nothing and goes on at the next window |
| Colinear.SweepEnds | aecSpace/aecGeometry.py:449 | a window shorter than three ends the sweep with the list unchanged |
| Colinear.MidCross | aecSpace/aecGeometry.py:450 | the midpoint of an edge is colinear with its ends, and turns with a third point half as much as the edge does |
| Colinear.MidpointDistinct | aecSpace/aecGeometry.py:445 | a triangle's corners and the midpoint of one edge are four different points |
| Colinear.MidpointDropped | aecSpace/aecGeometry.py:443-454 | a triangle with the midpoint of its first edge inserted comes back as the triangle |
| Colinear.MidpointFirstPass | aecSpace/aecGeometry.py:447-452 | the first sweep over that doubled ring removes both copies of the midpoint |
| Colinear.MidpointFirstDrop | aecSpace/aecGeometry.py:449-452 | the first window removes the first copy of the midpoint |
| Colinear.MidpointSecondDrop | aecSpace/aecGeometry.py:449-452 | the window at the second copy of the first corner removes the second copy of the midpoint and the sweep ends |
| Colinear.MidpointLaterPasses | aecSpace/aecGeometry.py:447-452 | the second and third sweeps leave the doubled triangle unchanged |
| Colinear.FlatWindow | aecSpace/aecGeometry.py:450 | three points at one y have zero area |
| Colinear.ReduceRotatesLine | aecSpace/aecGeometry.py:443-454 | four different points on one horizontal line come back as [last, first], not in first-appearance order |
| Colinear.LineSweep | aecSpace/aecGeometry.py:447-452 | the first sweep over the doubled line leaves [e, a, b, e] |
| Colinear.LineSweepFront | aecSpace/aecGeometry.py:449-452 | its first two windows remove b and then c |
| Colinear.LineSweepBack | aecSpace/aecGeometry.py:449-452 | its next two windows remove the first a and the second c, and the sweep ends |
| Colinear.LineLastPasses | aecSpace/aecGeometry.py:447-452 | the later sweeps over [e, a, b, e] remove b and nothing else |
| Colinear.ReduceKeepsProperPolygon | aecSpace/aecGeometry.py:443-454 | a ring of distinct points without a colinear corner comes back unchanged |
| Colinear.ShiftedMember | aecSpace/aecGeometry.py:445 | a moved point belongs to the moved list exactly when the point belongs to the list |
| Colinear.DedupeShifted | aecSpace/aecGeometry.py:445 | deduplication commutes with moving the points |
| Colinear.ShiftedSnoc | aecSpace/aecGeometry.py:446 | appending a point and its moved copy keeps two lists moved copies of each other |
| Colinear.RemoveFirstShifted | aecSpace/aecGeometry.py:450 | list.remove commutes with moving the points |
| Colinear.ZeroAreaShifted | aecSpace/aecGeometry.py:450 | moving a triangle does not change whether its area is zero |
| Colinear.SweepShifted | aecSpace/aecGeometry.py:449-452 | one sweep commutes with moving the points |
| Colinear.PassesShifted | aecSpace/aecGeometry.py:447-452 | the three sweeps commute with moving the points |
| Colinear.ReduceTranslate | aecSpace/aecGeometry.py:443-454 | removing colinear points and then moving gives the same as moving and then removing |
| GeomCalc.AreColinear | src/aecGeomCalc.py:27-43 | None for fewer than three points; otherwise True exactly when the polygon has zero area and False exactly when its area is positive |
| GeomCalc.AreColinearTriple | src/aecGeomCalc.py:39-40 | three points are colinear exactly when their cross product is zero |
| GeomCalc.AreColinearWindow | src/aecGeomCalc.py:444 | the window test in rmvColinear is areColinear on the window |
| GeomCalc.CheckPolygon | src/aecGeomCalc.py:67-81 | the points come back exactly when there are at least three of them and they enclose a positive area |
| GeomCalc.ConvexHull | src/aecGeomCalc.py:119-168 | at most two points come back unchanged; otherwise the hull holds distinct input points, starts at the lexicographically smallest input point, has two points whenever the input has two different ones, is empty exactly when there are no points or more than two copies of one point, and is an increasing left-turning lower chain followed by a decreasing left-turning upper chain |
| GeomCalc.RmvColinear | src/aecGeomCalc.py:430-451 | None for no points; otherwise the colinear removal of the points, which is distinct, non-empty and made of input points |
| GeomCalc.GetMidpoint | src/aecGeomCalc.py:347-365 | the midpoint is equidistant from both points in x and y, and has a z (halfway too) exactly when both points have one |
| GeomCalc.MidpointSymmetric | src/aecGeomCalc.py:357-362 | the midpoint does not depend on the order of the two points |
| GeomCalc.GetBoxPoints | src/aecGeomCalc.py:205-228 | None for a 3D box with a 2D origin; otherwise four corners, 2D or all at the origin's level, starting at the origin with the opposite corner at origin plus vector |
| GeomCalc.BoxPlanArea | src/aecGeomCalc.py:215-223 | the corners' plan has signed double area 2 vx vy and area abs(vx vy), so it runs counter-clockwise when vx vy is positive |
| GeomCalc.CheckBoundingBox | src/aecGeomCalc.py:45-65 | None for fewer than two points; two or three are an origin and a vector turned into corners; four or more are cut to their first four |
| GeomCalc.GetCompassPointBox | src/aecGeomCalc.py:230-269 | None for an orientation outside C..NNW or a box that does not check; otherwise C is the centre, N the north side midpoint and SW, SE, NE, NW the corners |
| GeomCalc.CompassOnBox | src/aecGeomCalc.py:245-265 | on a box given by a 3D origin and a vector, each of the 17 compass points lies at its quarter-step fraction of the vector from the origin, at the origin's level |
| GeomCalc.MirrorX | src/aecGeomCalc.py:390-399 | the vertical-mirror step puts a point at 2 mx - x and keeps y |
| GeomCalc.MirrorY | src/aecGeomCalc.py:400-409 | the horizontal-mirror step puts a point at 2 my - y and keeps x |
| GeomCalc.MirrorInvolution | src/aecGeomCalc.py:390-409 | mirroring twice gives the point back; points on the mirror line, and only they, stay put; distance to the line is kept |
| GeomCalc.MirrorPoints2D | src/aecGeomCalc.py:379-409 | a new list of the same length, each point reflected about the vertical or horizontal mirror line |
| ErrorCheckSrc.ClampInRange | src/aecErrorCheck.py:51-55 | with an ordered range the clamped number lies in it, a number already in it is kept, and clamping twice changes nothing |
| ErrorCheckSrc.InRange | src/aecErrorCheck.py:40-58 | fails exactly when some number cannot be decided by the range list; otherwise every number clamped into the range, in order |
| ErrorCheckSrc.IsPoint | src/aecErrorCheck.py:60-76 | fails exactly for fewer than two coordinates; otherwise the first two, or three when there are more than two |
| ErrorCheck.IsPoint | aecErrorCheck.py:60-70 | [] for fewer than two coordinates; otherwise the first two, or three when there are more than two |
| Geometry.AreColinear | aecSpace/aecGeometry.py:119-132 | True for fewer than three points; otherwise True exactly when the plan of the points has zero area |
| Geometry.AreColinearTriple | aecSpace/aecGeometry.py:126-129 | three points are colinear exactly when the cross product of their plans is zero, whatever their levels |
| Geometry.ConvexVertexCross | aecSpace/aecGeometry.py:140-144 | the convex flag holds exactly when the corner previous, vertex, next does not turn clockwise |
| Geometry.IsConvex | aecSpace/aecGeometry.py:371-389 | True exactly when every vertex is convex with its cyclic neighbours |
| Geometry.GetBoxPoints | aecSpace/aecGeometry.py:156-171 | four corners at level 0, starting at the origin's plan, with the opposite corner at origin plus the deltas and axis-parallel sides |
| Geometry.BoxIsConvex | aecSpace/aecGeometry.py:156-171 | a box spanned by non-negative deltas passes isConvex |
| Geometry.GetMidpoint | aecSpace/aecGeometry.py:343-355 | the midpoint is equidistant from both points in every coordinate |
| Geometry.GetCompassPoint | aecSpace/aecGeometry.py:187-222 | None outside N..NNW; the corner directions give the corners, N the north side midpoint, NNE the midpoint between it and the north-east corner |
| Geometry.CompassOnBox | aecSpace/aecGeometry.py:199-218 | on an axis-parallel box each of the 16 directions lies at its quarter-step fractions of the box's width and depth from the south-west corner |
| Geometry.GetCompassLine | aecSpace/aecGeometry.py:173-185 | a line from the box's centre to the compass point, present exactly when the compass point is |
| Geometry.GetConvexHull | aecSpace/aecGeometry.py:224-267 | None for three or fewer points; otherwise new points at level 0 on distinct input positions, starting at the lexicographically smallest, in an increasing and a decreasing strictly left-turning run |
| Geometry.FlatLift | aecSpace/aecGeometry.py:264 | making points from plan coordinates and taking their plans again gives the coordinates back |
| Geometry.RmvColinear | aecSpace/aecGeometry.py:437-457 | None for an empty list; otherwise the colinear removal of the plans, each at the first point's level |
| Geometry.RmvColinearKeeps | aecSpace/aecGeometry.py:443-454 | the result is distinct, non-empty, at the first point's level, and every point is at the plan of an input point |
| Geometry.MirrorPoints2D | aecSpace/aecGeometry.py:392-414 | for a vertical or horizontal mirror line the same objects are returned, each reflected in place once per listing about the line as it stood before the call, the other coordinates unchanged |
| Geometry.MirrorAcrossX | aecSpace/aecGeometry.py:401-407 | the vertical-mirror loop reflects x of each listed object once per listing and keeps y and z |
| Geometry.MirrorAcrossY | aecSpace/aecGeometry.py:408-414 | the horizontal-mirror loop reflects y of each listed object once per listing and keeps x and z |
| AecColor.Channel | aecSpace/aecColor.py:101 | a stored channel is one byte, and it is the integer part of the magnitude of the value less a multiple of 256 |
| AecColor.ChannelKeepsByte | aecSpace/aecColor.py:101 | a whole number in -255..255 is stored as its magnitude; a byte is stored as given |
| AecColor.ChannelIdempotent | aecSpace/aecColor.py:101 | storing a stored channel again leaves it unchanged |
| AecColor.AecColor.Color | aecSpace/aecColor.py:83-92 | the getter returns the three stored channels |
| AecColor.AecColor.constructor | aecSpace/aecColor.py:42-49 | a new colour is white (255, 255, 255) with alpha 0, every component a byte |
| AecColor.AecColor.SetAlpha | aecSpace/aecColor.py:62-70 | alpha becomes the value wrapped to a byte; the colour is untouched |
| AecColor.AecColor.SetColor | aecSpace/aecColor.py:94-106 | a tuple of length other than 3 is ignored; otherwise each channel is wrapped to a byte; alpha is untouched |
| AecPoint.AssignXYZAsWritten | aecSpace/aecPoint.py:178-196 | the xyz setter as written: a tuple of fewer than two coordinates restores the point; otherwise z receives the second coordinate |
| AecPoint.AssignXYZ | aecSpace/aecPoint.py:178-196 | the xyz setter as intended: fewer than three coordinates restore the point; otherwise the point is the tuple |
| AecPoint.XYZSetterLosesZ | aecSpace/aecPoint.py:189-191 | as written, setting (1, 2, 3) reads back z = 2 |
| AecPoint.XYZSetterRoundTrip | aecSpace/aecPoint.py:165-196 | with the corrected setter, writing a point's coordinates and reading xyz gives the point back |
| AecPoint.AecPoint.XYZ | aecSpace/aecPoint.py:165-176 | the xyz getter returns the stored coordinates |
| AecPoint.AecPoint.XY | aecSpace/aecPoint.py:112-122 | the xy getter is the planar part of xyz |
| AecPoint.AecPoint.constructor | aecSpace/aecPoint.py:13-20 | a new point holds the given coordinates, defaulting to the origin |
| AecPoint.AecPoint.SetX | aecSpace/aecPoint.py:46-58 | x becomes the value; y and z are untouched |
| AecPoint.AecPoint.SetY | aecSpace/aecPoint.py:72-84 | y becomes the value; x and z are untouched |
| AecPoint.AecPoint.SetZ | aecSpace/aecPoint.py:98-110 | z becomes the value; x and y are untouched |
| AecPoint.AecPoint.SetXY | aecSpace/aecPoint.py:124-139 | a tuple of two or more sets x and y; a shorter one rolls x back and leaves the point as it was; z is untouched |
| AecPoint.AecPoint.SetXYZAsWritten | aecSpace/aecPoint.py:178-196 | the new point is AssignXYZAsWritten of the old point and the tuple |
| AecPoint.AecPoint.SetXYZ | aecSpace/aecPoint.py:178-196 | the new point is AssignXYZ of the old point and the tuple, rolling back on a short tuple |
| AecPoint.AecPoint.MoveBy | aecSpace/aecPoint.py:223-242 | returns True and adds the offsets to the coordinates |
| AecValid.Trunc | aecSpace/aecValid.py:28 | int(x) truncates toward zero: the magnitude drops by less than one and the sign is kept |
| AecValid.Whole | aecSpace/aecValid.py:28 | abs(int(x)) is the whole part of the magnitude |
| AecValid.Address | aecSpace/aecValid.py:15-39 | None unless the address is a list or tuple of at least three entries and falsy bounds or bounds of at least three entries are given; otherwise three whole numbers, each the address entry clamped to its bound when bounds are given |
| AecValid.AsReals | aecSpace/aecValid.py:36 | the returned whole numbers as numbers again, entry for entry |
| AecValid.WholeOfNat | aecSpace/aecValid.py:28 | abs(int(n)) of a natural number is the number itself |
| AecValid.AddressIdempotent | aecSpace/aecValid.py:15-39 | validating a validated address again with the same bounds returns it unchanged |
| AecValid.Mod360 | aecSpace/aecValid.py:52 | Python's float remainder by 360 lies in [0, 360) |
| AecValid.Angle | aecSpace/aecValid.py:41-55 | a number or a string that parses gives a result in [0, 360); anything else gives None; an integer gives its integer remainder by 360 |
| AecValid.IntMod360 | aecSpace/aecValid.py:52 | on whole numbers the float remainder agrees with the integer remainder |
| AecValid.AnglePeriodic | aecSpace/aecValid.py:52 | an angle in [0, 360) is returned unchanged, and adding a full turn does not change the result |
| AecValid.Fold255AsWritten | aecSpace/aecValid.py:66 | int(x % 255) lies in 0..254 |
| AecValid.Fold255Bytes | aecSpace/aecValid.py:66 | as written, a whole channel value 0..254 is kept and 255 becomes 0 |
| AecValid.Fold256 | aecSpace/aecValid.py:60 | the fold into the documented range 0..255 lies in 0..255 |
| AecValid.ColorAsWritten | aecSpace/aecValid.py:57-70 | None unless a list or tuple of at least two entries; otherwise one folded entry per input entry, each in 0..254 |
| AecValid.Color | aecSpace/aecValid.py:57-70 | the corrected validator: the same cases, each entry in 0..255 |
| AecValid.ColorLosesWhite | aecSpace/aecValid.py:66 | as written, white (255, 255, 255) comes back as (0, 0, 0) |
| AecValid.ColorKeepsBytes | aecSpace/aecValid.py:60 | the corrected fold returns every byte value unchanged |
| AecValid.InsertInt | aecSpace/aecValid.py:86 | inserting into an ascending list keeps it ascending and adds exactly the new entry |
| AecValid.AscendingCons | aecSpace/aecValid.py:86 | an entry no larger than an ascending list's entries can be put in front of it |
| AecValid.Sort | aecSpace/aecValid.py:86 | list.sort() returns an ascending permutation |
| AecValid.ReverseInts | aecSpace/aecValid.py:88 | list.reverse() puts entry i at position n-1-i and keeps the multiset |
| AecValid.AtMost | aecSpace/aecValid.py:87-91 | the entries kept under a bound are exactly those at most the bound |
| AecValid.AtMostAll | aecSpace/aecValid.py:89 | nothing is dropped when every entry is within the bound |
| AecValid.AtMostNone | aecSpace/aecValid.py:89 | everything is dropped when every entry exceeds the bound |
| AecValid.AtMostConcat | aecSpace/aecValid.py:89 | filtering by a bound distributes over concatenation |
| AecValid.Indices | aecSpace/aecValid.py:72-95 | [] with no indices and no limit; 0..limit-1 with no indices; otherwise an ascending permutation of the whole parts of the indices, restricted to those below a positive limit |
| AecValid.SortKept | aecSpace/aecValid.py:85-91 | the sorted list, under a positive limit only the entries below it, is ascending and holds exactly the kept entries |
| AecValid.KeepBelow | aecSpace/aecValid.py:87-91 | reversing, dropping the front above the limit and sorting again keeps exactly the entries below the limit, ascending |
| AecValid.SameAtMost | aecSpace/aecValid.py:86-91 | lists with the same multiset keep the same multiset under a bound |
| AecValid.ReverseDescending | aecSpace/aecValid.py:88 | reversing an ascending list gives a descending one |
| AecValid.AtMostCounts | aecSpace/aecValid.py:89 | filtering keeps every copy of an entry within the bound and no copy of any other |
| AecValid.Range | aecSpace/aecValid.py:82 | list(range(0, limit)) has max(limit, 0) entries, entry i being i |
| AecValid.DropAbove | aecSpace/aecValid.py:89-90 | the while loop on a descending list leaves exactly the entries at most the bound |
| AecValid.Truncated | aecSpace/aecValid.py:83-85 | one whole number per listed index; a single index becomes a one-entry list |
| AecValid.KeptAfterDrop | aecSpace/aecValid.py:89-90 | when the loop stops, the remaining suffix is exactly the entries at most the bound |
| AecValid.Percent | aecSpace/aecValid.py:97-111 | the result lies in [0, 1] and is the magnitude divided by a power of ten; a magnitude at most 1 is returned as is, and a larger one ends above 0.1 |
| Space.Space.PointsBox | aecSpace/aecSpace.py:727-745 | a box exactly when there is a boundary; its corners are the bounds of the ring, SW, SE, NE, NW, all at the space's level |
| Space.Space.SizeX | aecSpace/aecSpace.py:793-805 | present exactly when the box is; the width of the ring's bounds, never negative |
| Space.Space.SizeY | aecSpace/aecSpace.py:807-819 | present exactly when the box is; the depth of the ring's bounds, never negative |
| Space.Space.AxisX | aecSpace/aecSpace.py:164-176 | present exactly when the box is; from the middle of the west side to the middle of the east side |
| Space.Space.AxisY | aecSpace/aecSpace.py:178-190 | present exactly when the box is; from the middle of the south side to the middle of the north side |
| Space.Space.AxisMajor | aecSpace/aecSpace.py:130-145 | the x-axis when the box is at least as wide as deep, else the y-axis; its length is the larger of width and depth |
| Space.Space.AxisMinor | aecSpace/aecSpace.py:147-162 | the x-axis only when the box is deeper than wide, else the y-axis; its length is the smaller of width and depth |
| Space.Space.AxesSpan | aecSpace/aecSpace.py:138-187 | the x-axis is as long as the box is wide and the y-axis as long as it is deep |
| Space.Space.CenterFloor | aecSpace/aecSpace.py:249-262 | the box centre at the level, which is also the midpoint of either axis |
| Space.Space.Elevation | aecSpace/aecSpace.py:411-418 | the ceiling's z is the level plus the height, never below the level when the height is non-negative |
| Space.Space.CenterCeiling | aecSpace/aecSpace.py:235-247 | the floor centre raised to level plus height |
| Space.Space.CenterSpace | aecSpace/aecSpace.py:264-276 | the midpoint of the floor and ceiling centres |
| Space.Space.Area | aecSpace/aecSpace.py:118-128 | present exactly when there is a boundary, and never negative |
| Space.Space.Volume | aecSpace/aecSpace.py:821-832 | present exactly when there is a boundary; height times area, the value the older tree caches; zero for zero height |
| Space.Space.PointsFloor | aecSpace/aecSpace.py:758-769 | the stored ring, every point at the level |
| Space.Space.PointsCeiling | aecSpace/aecSpace.py:747-756 | the stored ring, every point at level plus height |
| Space.Space.PointsSides | aecSpace/aecSpace.py:771-791 | one quad per floor edge: two floor corners, then the ceiling corners above them in reverse |
| Space.Space.constructor | aecSpace/aecSpace.py:47-69 | address (0, 0, 0), white colour, height 1, level 0, empty name; the boundary set from the points, or the unit square when none are given |
| Space.Space.SetBoundary | aecSpace/aecSpace.py:71-88 | succeeds exactly when colinear removal leaves three points; then the oriented reduced plan is stored and the convex flag recomputed; otherwise the old ring and flag stay; nothing else changes |
| Space.Space.SetHeight | aecSpace/aecSpace.py:436-447 | height becomes the value; nothing else changes |
| Space.Space.SetLevel | aecSpace/aecSpace.py:474-485 | level becomes the value; nothing else changes |
| Space.Space.SetName | aecSpace/aecSpace.py:616-627 | name becomes the value; nothing else changes |
| Space.Space.MoveBy | aecSpace/aecSpace.py:969-981 | without a boundary False and nothing changes; otherwise the level rises by z and the stored ring becomes the normalised ring moved by (x, y), when the ring is accepted again |
| Space.Space.MoveTo | aecSpace/aecSpace.py:983-996 | moveBy by the vector from the first point to the second |
| Space.Space.Scale | aecSpace/aecSpace.py:1018-1036 | without a boundary False and nothing changes; otherwise the height is multiplied by z even when the scaled ring is refused, and an accepted scaled ring is stored normalised |
| Space.NewBoundary | aecSpace/aecSpace.py:76-83 | accepted exactly when colinear removal leaves three points; the ring is the oriented reduced plan and the flag whether the kept points are convex |
| Space.MovedBoundary | aecSpace/aecSpace.py:976-978 | the moved points are accepted exactly when the ring is, and normalise to the normalised ring moved |
| Space.StepsIsProduct | aecSpace/aecSpacer.py:56-58 | k equal displacements come to k times the displacement |
| Space.UnitRingMoves | aecSpace/aecSpace.py:61-69 | the unit square, wherever it is moved, is stored as given, and moveBy moves it on |
| Space.UnitMoves | aecSpace/aecSpace.py:976-978 | the moved unit square moves as the unit square for every displacement |
| Space.UnitSquareProper | aecSpace/aecSpace.py:62-68 | the default square has distinct corners, turns left at every corner and runs counter-clockwise |
| Space.QuadBoundary | aecSpace/aecSpace.py:71-84 | a proper four-corner boundary is stored as given |
| Space.ProperQuadKept | aecSpace/aecSpace.py:77-81 | a proper four-point ring survives colinear removal and orientation unchanged |
| Space.QuadCorners | aecSpace/aecGeometry.py:446-452 | the windows of a four-point ring are its four cyclic corners |
| SpaceSrc.FreshCoherent | src/aecSpace.py:81-130 | a dictionary with every cache None is coherent whatever its boundary, level and height |
| SpaceSrc.ClearedCoherent | src/aecSpace.py:1474-1475 | resetting and then storing a ring of three or more points leaves every cache coherent |
| SpaceSrc.ResetHeightCoherent | src/aecSpace.py:1320-1321 | a reset, a new boundary and then a new height (the makePolygon order) leave the dictionary coherent |
| SpaceSrc.InvalidatedCoherent | src/aecSpace.py:1503-1529 | once the caches are dropped, a new height or level keeps the dictionary coherent |
| SpaceSrc.FillCoherent | src/aecSpace.py:266-376 | filling one cache with the value its getter computes keeps every cache fresh and nothing outside the caches changes |
| SpaceSrc.FillFloor | src/aecSpace.py:923-945 | getPointsFloor's two writes store the plan ring and the ring lifted to the level, and keep coherence |
| SpaceSrc.FillCeiling | src/aecSpace.py:879-901 | getPointsCeiling's two writes store the plan ring and the ring lifted to level plus height, and keep coherence |
| SpaceSrc.CeilingCached | src/aecSpace.py:879-901 | in a coherent dictionary a filled ceiling cache holds exactly the ring at level plus height and its 2D companion the plain ring |
| SpaceSrc.FillSides | src/aecSpace.py:947-977 | getPointsSides' write stores the quads between the floor and the ceiling ring and keeps coherence |
| SpaceSrc.WithBoxCoherent | src/aecSpace.py:147-180 | what __setBoundingBox writes (box, sizes, both axes in 2D and 3D) is the fresh value of each and keeps coherence |
| SpaceSrc.BuildSides | src/aecSpace.py:963-970 | the loop builds one quad per floor edge: floor i, floor i+1, ceiling i+1, ceiling i, wrapping at the end |
| SpaceSrc.Channel | src/aecSpace.py:1490-1493 | a stored channel is a byte in 0..255 congruent to int(c) modulo 256, and equal to floor(c) for c in [0, 256) |
| SpaceSrc.ChannelWrapsNegative | src/aecSpace.py:1490-1493 | Python's remainder wraps negative channels from the top: -1.0 gives 255, -256.5 gives 0, 300.7 gives 44 |
| SpaceSrc.ColorSetChannels | src/aecSpace.py:1481-1501 | each channel setColor reaches becomes int(c) % 256, an empty colour takes the random draw, the channels a short colour does not reach keep their value, and no other key changes |
| SpaceSrc.ColorSetCoherent | src/aecSpace.py:1481-1501 | setting the colour leaves every cache coherent |
| SpaceSrc.SideCount | src/aecSpace.py:1307-1309 | the side count is int(abs(sides)) when that is at least 3, and 3 otherwise |
| SpaceSrc.CylinderSides | src/aecSpace.py:1248-1251 | makeCylinder uses 3 sides below radius 3 and int(radius) sides otherwise |
| SpaceSrc.AngleStep | src/aecSpace.py:1310-1319 | each step of makePolygon's loop adds 2 pi / n to the angle that started at a quarter turn |
| SpaceSrc.PolygonPoints | src/aecSpace.py:1310-1319 | the loop yields exactly n vertices, vertex k at angle pi/2 + k * 2 pi / n on the circle of the given radius, at the centre's level |
| SpaceSrc.Space.Ring | src/aecSpace.py:1469-1475 | a stored boundary always has at least three vertices |
| SpaceSrc.Space.constructor | src/aecSpace.py:68-134 | a new space has the given id, an empty name, the drawn colour, level 0, height 1, the box boundary and a coherent dictionary |
| SpaceSrc.Space.MakeBox | src/aecSpace.py:1174-1190 | makeBox sets the level and the height, offers the box to setBoundary, returns True and leaves the other retained keys alone; every cache is empty afterwards, because the corrected setters are used |
| SpaceSrc.Space.Initialize | src/aecSpace.py:136-145 | every key outside the retain-list becomes None and the retained keys keep their values |
| SpaceSrc.Space.SetBoundary | src/aecSpace.py:1458-1479 | True exactly when three or more points survive the colinear removal; then the dictionary is reset and holds the oriented ring; otherwise nothing changes |
| SpaceSrc.Space.SetBoundingBox | src/aecSpace.py:147-180 | False without a boundary; otherwise the box, both sizes and both axes at the level are written and the boundary, level and height stay |
| SpaceSrc.Space.GetArea | src/aecSpace.py:266-281 | None without a boundary, else the ring's shoelace area, through the cache or not |
| SpaceSrc.Space.GetXsize | src/aecSpace.py:1142-1156 | None without a boundary, else the box width max x - min x |
| SpaceSrc.Space.GetYsize | src/aecSpace.py:1158-1172 | None without a boundary, else the box depth max y - min y |
| SpaceSrc.Space.GetBoundingBox | src/aecSpace.py:361-376 | None without a boundary, else the four corners (minx, miny), (maxx, miny), (maxx, maxy), (minx, maxy) |
| SpaceSrc.Space.GetAxisX | src/aecSpace.py:283-300 | None without a boundary, else the segment across the box at half its depth, in 2D or at the level |
| SpaceSrc.Space.GetAxisY | src/aecSpace.py:302-319 | None without a boundary, else the segment up the box at half its width, in 2D or at the level |
| SpaceSrc.Space.GetAxisMajor | src/aecSpace.py:321-339 | the x-axis when the width is at least the depth, else the y-axis; None without a boundary |
| SpaceSrc.Space.GetAxisMinor | src/aecSpace.py:341-359 | the y-axis when the width is at least the depth, else the x-axis; None without a boundary |
| SpaceSrc.Space.GetPointsFloor | src/aecSpace.py:923-945 | None without a boundary, else the ring in plan or lifted to the level |
| SpaceSrc.Space.GetPointsCeiling | src/aecSpace.py:879-901 | None without a boundary, else the ring in plan or lifted to level plus height |
| SpaceSrc.Space.FillPointsSides | src/aecSpace.py:960-971 | the filling branch stores the quads between the floor ring and the ceiling ring and keeps coherence |
| SpaceSrc.Space.GetPointsSides | src/aecSpace.py:947-977 | the side quads in 3D; None without a boundary and None for 2D, whose key the dictionary lacks |
| SpaceSrc.Space.GetVolume | src/aecSpace.py:1126-1140 | None without a boundary, else area times height, and that value is what the cache then holds |
| SpaceSrc.Space.SetColor | src/aecSpace.py:1481-1501 | the dictionary becomes ColorSet of the old one; True for an empty colour or one of three or more channels, False for one or two |
| SpaceSrc.Space.SetHeightAsWritten | src/aecSpace.py:1503-1515 | as written only the height key changes; every cache, volume included, is left as it was |
| SpaceSrc.Space.SetLevelAsWritten | src/aecSpace.py:1517-1529 | as written only the level key changes; every cache is left as it was |
| SpaceSrc.Space.SetHeight | src/aecSpace.py:1503-1515 | the corrected setHeight drops the caches and sets the height, keeping the dictionary coherent |
| SpaceSrc.Space.SetLevel | src/aecSpace.py:1517-1529 | the corrected setLevel drops the caches and sets the level, keeping the dictionary coherent |
| SpaceSrc.Space.Move | src/aecSpace.py:1386-1410 | False and no change without a boundary; otherwise the level rises by dz, the translated ring is offered to setBoundary, and the result is True whatever setBoundary says; with the corrected level setter every cache is then empty |
| SpaceSrc.Space.SetProperty | src/aecSpace.py:1545-1558 | exactly one key takes the new value, with no check |
| SpaceSrc.Space.Scale | src/aecSpace.py:1432-1456 | True exactly when there is a boundary and the scaled ring is accepted; then the ring is the scaled one and the height is multiplied by sz; otherwise nothing changes |
| SpaceSrc.Space.MakePolygon | src/aecSpace.py:1294-1325 | False and no change for radius 0; otherwise the SideCount vertices on the circle of radius abs(radius) go to setBoundary and the height is set; with the corrected height setter every cache is then empty |
| SpaceSrc.Space.MakeCylinder | src/aecSpace.py:1238-1255 | makePolygon with 3 sides below radius 3 and int(radius) sides otherwise |
| SpaceSrc.Space.Wrap | src/aecSpace.py:1576-1592 | True exactly when the hull of the points is non-empty, that is unless there are no points or more than two copies of one point, and then the ring is what setBoundary makes of the hull; the hull holds only given points |
| SpaceSrcFacts.BoxEncloses | src/aecSpace.py:147-180 | every ring point lies inside the bounding box, and the sizes are the box's non-negative extents |
| SpaceSrcFacts.AxesCross | src/aecSpace.py:160-178 | the x-axis spans the box's width and the y-axis its depth, both at the level and both through the box centre |
| SpaceSrcFacts.MajorMinor | src/aecSpace.py:321-359 | the major axis is at least as long as the minor one, and the two are different axes unless the box is a point |
| SpaceSrcFacts.SidesShareEdges | src/aecSpace.py:963-970 | side i ends where side i+1 begins, on the floor and on the ceiling, so the quads close round the prism |
| SpaceSrcFacts.SidesOfPrism | src/aecSpace.py:947-977 | each side quad has the plan of two consecutive ring vertices, its lower edge at the level and its upper edge at level plus height |
| SpaceSrcFacts.SetRingTranslate | src/aecSpace.py:1396-1406 | setBoundary accepts translated points exactly when it accepts the points, and stores the stored ring translated |
| SpaceSrcFacts.ScaleByOne | src/aecSpace.py:1432-1456 | scaling by one in x and y about any pivot leaves the ring unchanged |
| SpaceSrcFacts.PolygonLevel | src/aecSpace.py:1310-1319 | every vertex makePolygon lays out is at the centre's level |
| SpaceSrcFacts.SetHeightLeavesStaleVolume | src/aecSpace.py:1511 | after getVolume has cached the volume of a ring of positive area, setHeight as written leaves the old volume in the cache, so the dictionary is no longer coherent |
| SpaceSrcFacts.SetHeightKeepsCoherent | src/aecSpace.py:1503-1515 | the corrected setHeight keeps the dictionary coherent and the volume cache empty |
| SpaceSrcFacts.RightTriangleArea | src/aecSpace.py:266-281 | the area getArea computes for a right triangle with legs u and v along the axes is the absolute value of u v over 2, wherever it lies |
| Shaper.Add | aecSpace/aecShaper.py:26-43 | never None; a point list exactly when every arm makes a polygon and the merge is one polygon, and then it is the merged exterior at level 0; otherwise False |
| Shaper.Box | aecSpace/aecShaper.py:44-57 | four corners from the origin to the opposite corner, the same whatever the origin's level |
| Shaper.BoxCounterClockwise | aecSpace/aecShaper.py:45-58 | a box of positive sizes has positive signed area, so orienting its ring leaves it unchanged |
| Shaper.RectWithin | aecSpace/aecShaper.py:45-58 | a box whose edges lie within the outer rectangle has every corner inside it |
| Shaper.MakeL | aecSpace/aecShaper.py:132-152 | None exactly when an arm would be at least as wide (or deep) as the box, falsy widths taking half; otherwise the merge of the two arms |
| Shaper.LArmsShape | aecSpace/aecShaper.py:143-150 | the L's west bar and south bar share the origin corner, lie inside the box and reach the north and east edges |
| Shaper.LDefaultsFit | aecSpace/aecShaper.py:143-146 | with both widths defaulted, makeL accepts exactly the boxes of positive size |
| Shaper.MakeT | aecSpace/aecShaper.py:182-206 | None under the same sizes makeL refuses; otherwise the merge of the north bar and the centred stem |
| Shaper.TArmsShape | aecSpace/aecShaper.py:195-203 | the T's bar spans the north edge, its stem runs the full depth centred on the box's centreline, both inside the box |
| Shaper.MakeH | aecSpace/aecShaper.py:102-130 | None exactly when a side bar reaches half the width or the cross bar the depth, falsy widths taking 0.3; otherwise the merge of the three bars |
| Shaper.HArmsShape | aecSpace/aecShaper.py:116-128 | the H's side bars stand on the west and east edges, run the full depth and do not meet; the cross bar spans the width centred on the horizontal centreline |
| Shaper.HArmsWithin | aecSpace/aecShaper.py:116-128 | with widths that are not negative every arm of the H lies inside the box |
| Shaper.HDefaultsFit | aecSpace/aecShaper.py:116-121 | with every width defaulted, makeH and makeU accept exactly the boxes of positive size |
| Shaper.MakeU | aecSpace/aecShaper.py:208-234 | None under makeH's guard; otherwise the L of west and south bars merged with the east bar, and False when that L is no point list |
| Shaper.UInnerL | aecSpace/aecShaper.py:222-230 | under makeU's guard makeL is never refused, and its west bar and the east bar do not meet |
| Shaper.MakeCross | aecSpace/aecShaper.py:60-84 | never None: the merge of the north-south arm and the east-west arm |
| Shaper.CrossArmsShape | aecSpace/aecShaper.py:75-82 | the north-south arm runs the full depth centred at yAxis of the width, the east-west arm the full width centred at xAxis of the depth |
| Shaper.MakePolygon | aecSpace/aecShaper.py:154-180 | False exactly for radius 0; otherwise int(abs(sides)) points, at least 3, round the origin at level 0 on the circle of radius abs(radius), from a quarter turn |
| Shaper.MakeCylinder | aecSpace/aecShaper.py:86-100 | makePolygon with 3 sides below radius 3 and int(radius) sides otherwise |
| Shaper.PolygonOnCircle | aecSpace/aecShaper.py:154-160 | with a true unit circle every vertex is at the radius from the centre and the first is the highest |
| SpaceGroup.AreaOfJoined | aecSpace/aecSpaceGroup.py:29-40 | the total area of two member lists joined is the sum of their totals, None if either has a member without a boundary |
| SpaceGroup.VolumeOfJoined | aecSpace/aecSpaceGroup.py:131-142 | the total volume of two member lists joined is the sum of their totals, None if either has a member without a boundary |
| SpaceGroup.MoveMember | aecSpace/aecSpaceGroup.py:200 | one loop step moves the member as the space's moveBy does: level up by z only with a boundary, ring moved and normalised |
| SpaceGroup.MoveMemberTo | aecSpace/aecSpaceGroup.py:219 | one loop step moves the member by the vector from the first point to the second |
| SpaceGroup.ScaleMember | aecSpace/aecSpaceGroup.py:258-260 | one member scaled as the space's scale does: height times z only with a boundary, ring scaled about the pivot if accepted |
| SpaceGroup.SpaceGroup.constructor | aecSpace/aecSpaceGroup.py:19-26 | a new group has no members, an empty name and the given identifier |
| SpaceGroup.SpaceGroup.Indices | aecSpace/aecSpaceGroup.py:68-77 | the indices are 0, 1, ... up to one less than the member count |
| SpaceGroup.SpaceGroup.Count | aecSpace/aecSpaceGroup.py:56-65 | the count is the number of indices, which is the number of members |
| SpaceGroup.SpaceGroup.Area | aecSpace/aecSpaceGroup.py:29-40 | the loop's running sum is the members' areas added in list order, None as soon as one has no area |
| SpaceGroup.SpaceGroup.Volume | aecSpace/aecSpaceGroup.py:131-142 | the loop's running sum is the members' volumes added in list order, None as soon as one has no volume |
| SpaceGroup.SpaceGroup.ByLevel | aecSpace/aecSpaceGroup.py:43-53 | the list is sorted in place by level and holds the same members as before; it is the stable key sort of the old list by the levels read beforehand, so members on one level keep their order (Sorting.SortStable) |
| SpaceGroup.SpaceGroup.Add | aecSpace/aecSpaceGroup.py:144-155 | the given spaces are appended in order after the existing ones, and the result is True |
| SpaceGroup.SpaceGroup.Clear | aecSpace/aecSpaceGroup.py:157-168 | the list becomes empty and the result is True |
| SpaceGroup.SpaceGroup.Delete | aecSpace/aecSpaceGroup.py:170-185 | calling the list raises, so delete always reports False and removes nothing |
| SpaceGroup.SpaceGroup.MoveBy | aecSpace/aecSpaceGroup.py:187-204 | True exactly for a falsy index, and then every member of a repeat-free list is moved; a truthy index raises, reports False and moves nothing |
| SpaceGroup.SpaceGroup.MoveTo | aecSpace/aecSpaceGroup.py:206-223 | as moveBy, with the vector from the first point to the second |
| SpaceGroup.SpaceGroup.Scale | aecSpace/aecSpaceGroup.py:245-264 | False and no change for a truthy index outside 0 .. count - 1; a valid index scales that member alone; a falsy one scales every member |
| SpaceGroup.SpaceGroup.SetHeight | aecSpace/aecSpaceGroup.py:306-324 | True exactly for a falsy index, and then every member has the height with ring and level kept; otherwise nothing changes |
| SpaceGroup.SpaceGroup.SetLevel | aecSpace/aecSpaceGroup.py:326-344 | True exactly for a falsy index, and then every member has the level with ring and height kept; otherwise nothing changes |
| SpaceGroup.SpaceGroup.SetName | aecSpace/aecSpaceGroup.py:346-364 | True exactly for a falsy index, and then every member has the name; otherwise nothing changes |
| SpaceGroupSrc.Members | src/aecSpaceGroup.py:92-94 | the kept items are spaces drawn from the argument, and every space in the argument is kept |
| SpaceGroupSrc.MembersSnoc | src/aecSpaceGroup.py:92-94 | one more item adds its space at the end when it is a space and nothing otherwise |
| SpaceGroupSrc.MembersConcat | src/aecSpaceGroup.py:90-94 | the spaces of two item lists joined are the two lists' spaces joined |
| SpaceGroupSrc.SumMembers | src/aecSpaceGroup.py:147-150 | the getters' loop adds each member's area (or volume) to 0 in list order, and gives None when a member has none |
| SpaceGroupSrc.ByLevel | src/aecSpaceGroup.py:77 | the key sort returns a permutation of the list in ascending order of level |
| SpaceGroupSrc.Append | src/aecSpaceGroup.py:92-94 | the loop appends the spaces among the items up to the first item without getType, and succeeds exactly when there is no such item |
| SpaceGroupSrc.SpaceGroup.constructor | src/aecSpaceGroup.py:28-54 | a new group has the given identifier, an empty name, no members and no caches |
| SpaceGroupSrc.SpaceGroup.Reset | src/aecSpaceGroup.py:63-65 | one key outside the retain-list becomes None and the retained keys and the other cache are kept |
| SpaceGroupSrc.SpaceGroup.Initialize | src/aecSpaceGroup.py:56-65 | area and volume become None while identifier, name and members are kept |
| SpaceGroupSrc.SpaceGroup.SortByLevel | src/aecSpaceGroup.py:67-80 | the members are sorted in place by level, as a permutation, with the caches and the name untouched; the new list is the stable key sort of the old one by the levels read beforehand (Sorting.SortStable) |
| SpaceGroupSrc.SpaceGroup.AddSpaces | src/aecSpaceGroup.py:82-100 | on success the members are the old ones plus the argument's spaces, sorted by level, with the caches reset; an item without getType gives False with the spaces before it appended and nothing sorted or reset |
| SpaceGroupSrc.SpaceGroup.Extend | src/aecSpaceGroup.py:90-94 | the appending step alone: the argument's spaces after the old members, or False at the first item without getType |
| SpaceGroupSrc.SpaceGroup.ClearSpaces | src/aecSpaceGroup.py:102-114 | the list is empty and both caches are None |
| SpaceGroupSrc.SpaceGroup.GetCount | src/aecSpaceGroup.py:156-168 | the count is the number of members, zero exactly for an empty group |
| SpaceGroupSrc.SpaceGroup.GetArea | src/aecSpaceGroup.py:139-154 | a truthy cache is returned as it is; otherwise the members' total area is computed and cached, or None with a member lacking a boundary; with a fresh cache the result is the total either way |
| SpaceGroupSrc.SpaceGroup.GetVolume | src/aecSpaceGroup.py:197-212 | as getArea, over the members' volumes |
| SpaceGroupSrc.SpaceGroup.SetName | src/aecSpaceGroup.py:334-346 | the group's name becomes the given one and nothing else changes |
| SpaceGroupSrc.SpaceGroup.BulkGuard | src/aecSpaceGroup.py:223-224 | an empty group makes the bulk methods answer False at once; a non-empty one goes on |
| SpaceGroupSrc.SpaceGroup.Wrap | src/aecSpaceGroup.py:388-408 | False, and goes no further, exactly when the hull is empty (no points, or more than two copies of one point) or the group is empty |
| Spacer.UnitRingIs | aecSpace/aecSpace.py:61-69 | a ring meeting the unit-square corner conditions at (x, y) is exactly the unit square at (x, y) |
| Spacer.RingAtNext | aecSpace/aecSpacer.py:56-59 | one copy further along the chain the boundary is the next copy's boundary of the one before |
| Spacer.Copy | aecSpace/aecSpacer.py:26-44 | a new space with a fresh id, the original's colour, height and name, the level raised by z and the boundary the setter makes of the original's points, moved by (x, y) |
| Spacer.Duplicate | aecSpace/aecSpacer.py:33-39 | before the move the copy has the original's colour, height, level and name, and the original's ring normalised again or, when the setter refuses it, the unit square |
| Spacer.Place | aecSpace/aecSpacer.py:46-64 | exactly max(copies, 0) new spaces, none the original, the k-th being k + 1 steps along the chain of copies |
| Spacer.Extend | aecSpace/aecSpacer.py:57-59 | a copy of the k-th space along the chain is the (k + 1)-th |
| Spacer.PlacedStart | aecSpace/aecSpacer.py:54-55 | the original is step 0 of its own chain |
| Spacer.PlacedNext | aecSpace/aecSpacer.py:57-59 | a copy of the j-th space moved one step is the (j + 1)-th |
| Spacer.Row | aecSpace/aecSpacer.py:132-147 | None exactly without a bounding box; otherwise the chain stepped by the box width plus the gap along x, or the depth plus the gap along y |
| Spacer.Stack | aecSpace/aecSpacer.py:149-161 | the chain stepped up by the height plus the plenum, max(copies, 0) long |
| Spacer.StackToArea | aecSpace/aecSpacer.py:163-179 | no copies when the space alone covers the target; None without an area or with a zero area; otherwise a stack of int(area / spcArea) copies |
| Spacer.StackReachesArea | aecSpace/aecSpacer.py:174-176 | the copy count n satisfies n * spcArea <= area < (n + 1) * spcArea, so the original with its copies exceeds the target |
| Spacer.AreaGuard | aecSpace/aecSpacer.py:75-76 | placeOnLine and placeWithin give False when the shape's area exceeds the border's or either has none, and go on otherwise |
| Spacer.NextRingMoved | aecSpace/aecSpacer.py:35-40 | a copy of a space whose boundary is a moved ring is that ring normalised twice and moved by the summed displacement |
| Spacer.CopyOfMoved | aecSpace/aecSpacer.py:35-40 | the setter in copy normalises a moved ring as the ring itself would be, then moved |
| Spacer.MoveOfMoved | aecSpace/aecSpace.py:969-981 | moveBy of a moved ring normalises it once more and moves it on |
| Spacer.NormalisedMoved | aecSpace/aecSpace.py:76-83 | normalising commutes with moving, and moving keeps a ring accepted |
| Spacer.RecopiedStep | aecSpace/aecSpacer.py:57-59 | one more copy of a recopied and moved ring is the ring recopied once more, moved one step further |
| Spacer.RecopiedNext | aecSpace/aecSpacer.py:35-40 | recopying once more normalises twice more |
| Spacer.ChainStep | aecSpace/aecSpacer.py:56-60 | from a k-step-displaced recopied ring the next copy is the (k + 1)-step-displaced one |
| Spacer.ChainDisplaced | aecSpace/aecSpacer.py:56-60 | while the setter keeps accepting, the k-th copy's boundary is the original normalised twice per copy and moved by k times (x, y) |
| Spacer.UnitStart | aecSpace/aecSpace.py:61-69 | the first copy of a space the setter gives nothing for is the unit square at (x, y) |
| Spacer.UnitStep | aecSpace/aecSpacer.py:56-60 | a copy of the unit square at (dx, dy) is the unit square one step further |
| Spacer.UnitNext | aecSpace/aecSpacer.py:35-40 | a copy of the unit square, moved by (x, y), is the unit square at the moved corner |
| Spacer.UnitChain | aecSpace/aecSpacer.py:56-60 | copies of a space the setter gives nothing for start from the unit square, and the k-th is the unit square at k times (x, y) |
| SpacerSrc.MovedChainSteps | src/aecSpacer.py:69-73 | along a chain each dictionary is the one before it moved by the vector |
| SpacerSrc.Copy | src/aecSpacer.py:24-42 | None for anything that is not a space; otherwise a new valid space whose dictionary is the original's, ID included, moved by the vector |
| SpacerSrc.Place | src/aecSpacer.py:56-77 | None for anything that is not a space; otherwise max(copies, 0) new spaces, each the one before it moved by the vector |
| SpacerSrc.Extend | src/aecSpacer.py:70-73 | one more copy of the last space (the original when there is none) extends the chain by one moved dictionary |
| SpacerSrc.Row | src/aecSpacer.py:79-100 | None for a non-space and for a space without a boundary; otherwise a chain stepped by the x size plus the gap along x, or the y size plus the gap along y |
| SpacerSrc.RowOffset | src/aecSpacer.py:91-96 | the offset is the box size plus the gap along the chosen axis, None without a boundary, and the space's settled values are unchanged |
| SpacerSrc.Stack | src/aecSpacer.py:102-118 | None for a non-space; otherwise a chain stepped up by the height plus the plenum |
| SpacerSrc.StackToArea | src/aecSpacer.py:120-136 | no type test: [] whenever the item's own area covers the target, a space or not; otherwise a stack of int(area / spcArea) copies for a space and None for anything else; None without an area or with a zero area below the target |
| SpacerSrc.ChainSnoc | src/aecSpacer.py:70-73 | a chain grown by a dictionary moved from its last one is still a chain |
| SpacerSrc.ChainLink | src/aecSpacer.py:70-73 | the (j + 1)-th dictionary along a chain is the j-th moved |
| SpacerSrc.ChainKeeps | src/aecSpace.py:1386-1410 | along a chain a space without a boundary is copied unchanged; one with a boundary keeps it, keeps colour, height, ID, name and transparency, and rises by dz per copy |
| SpacerSrc.ChainStep | src/aecSpacer.py:70-73 | from a ring normalised j times and displaced, the next dictionary holds it normalised once more and displaced one step further |
| SpacerSrc.ChainDisplaced | src/aecSpacer.py:69-73 | while setBoundary keeps accepting, the k-th boundary along the chain is the first normalised once per copy and moved by k times (dx, dy) |
| SpacerRoot.Channel | aecSpace.py:282-283 | a channel inRange has forced into [0, 255] and int() has truncated is a byte, and a whole number in range is kept |
| SpacerRoot.Space.constructor | aecSpace.py:66-70 | a new space has channels 0, transparency 0, an empty name, height 1, level 0 and the unit-square perimeter; the random colour is drawn and never stored |
| SpacerRoot.Space.SetColor | aecSpace.py:280-302 | True exactly for an empty list or one of three or more numbers; each channel the list reaches is replaced unless its number is 0; nothing else changes |
| SpacerRoot.Space.SetHeight | aecSpace.py:308-314 | the height becomes the value and nothing else changes |
| SpacerRoot.Space.SetLevel | aecSpace.py:321-327 | the level becomes the value and nothing else changes |
| SpacerRoot.Space.SetPerimeter | aecSpace.py:347-354 | the perimeter becomes the polygon through the given points and nothing else changes |
| SpacerRoot.Space.SetTransparency | aecSpace.py:363-370 | the transparency becomes the value clamped to [0, 1], the value itself when already in range |
| SpacerRoot.Space.Move | aecSpace.py:420-428 | True exactly for a vector of three or more; the perimeter moves by the first two coordinates and the level by the third, a 2D vector moving the perimeter and then raising |
| SpacerRoot.Copy | aecSpacer.py:30-42 | a new valid space carrying the original's colour, height, level, perimeter and transparency, with an empty name |
| SpacerRoot.StackerAsWritten | aecSpacer.py:52-66 | the original then max(levels, 0) copies, each moved up by the step level + height + plenum computed once from the original |
| SpacerRoot.Stacker | aecSpacer.py:52-66 | the corrected stacker: each copy moved up by height + plenum, so every storey sits on the one below |
| SpacerRoot.Climb | aecSpacer.py:56-62 | the loop yields the original then copies carrying its attributes, the k-th k steps of moveUp above it |
| SpacerRoot.Rise | aecSpacer.py:58-61 | one turn of the loop extends the stack by a copy one step above the top |
| SpacerRoot.ClimbSnoc | aecSpacer.py:58-61 | a valid carrying copy one step above the top extends a stack |
| SpacerRoot.StackerStacks | aecSpacer.py:48-50 | with the step height + plenum each storey starts where the one below ends plus the plenum |
| SpacerRoot.StackerAsWrittenGaps | aecSpacer.py:55 | with the step as written and an original off level 0, the stack does not sit storey on storey |
| SpacerRoot.StackerAsWrittenExample | aecSpacer.py:55 | an original at level 3 of height 1 with no plenum gets its first copy at level 7 rather than 4 |

## Left out

- Shapely's and numpy's geometry: union, difference, intersection, `contains`, rotation, centroids, meshes, normals and vertex angles. Boolean union is a parameter of the shape builders (`Shaper.Add`). The angle computation of `getAngles` is left out; only its convex flag is modelled.
- Floating point. Coordinates are exact reals, so the 8-decimal rounding before the hull (src/aecGeomCalc.py:130-134) is not modelled. Nor is the division by 255 in the 0..1 colour forms.
- Trigonometry. Each polygon builder's `cos`/`sin` pair is the `unitCircle` parameter. The heading of the angle and its step of 2 pi / n are modelled.
- The general-slope branch of mirrorPoints2D (src/aecGeomCalc.py:410-425, aecSpace/aecGeometry.py:415-432), which scales by the square root of a sum of distances. Only the vertical and horizontal mirror axes are modelled.
- Randomness. The colour drawn for an empty colour is the `draw` parameter. The rejection-sampling placement loops of placeWithin and placeOnLine are left out; only their opening area guard is modelled (`Spacer.AreaGuard`).
- UUIDs. Identifiers are `nat` parameters.
- Printing, tracebacks and errorMessage. errorMessage is reduced to the `False`/`None` result its callers see.
- Renderers, example scripts, the grid files and `src/aecShaper.py`. The box-based make* methods of src/aecSpace.py other than makeBox are left out: they need `getBoxPoints2D`, `makePercentage` and `checkPercentage`, which src/aecGeomCalc.py does not define.
- `SpaceSrc.Space.constructor` and `SpaceSrc.Space.MakeBox`: the corner list of the missing `getBoxPoints2D` is a parameter.
- `SpaceSrc.Space.Scale` and `Space.Space.Scale`: the pivot is a parameter, so the centroid default is not modelled.
- checkPoint, which src/aecGeomCalc.py calls on its error-check object (src/aecGeomCalc.py:37, 55-60, 76, 92, 212-213, 354), is not part of this model: src/aecErrorCheck.py does not define it. It is taken to return its argument, in the geometry helpers and in the older spacer's vector check.
- checkIndices is not part of this model. The bulk methods of src/aecSpaceGroup.py are modelled only up to their empty-group guard (`SpaceGroupSrc.SpaceGroup.BulkGuard`, `SpaceGroupSrc.SpaceGroup.Wrap`). This covers deleteSpaces, move, rotate, scale, setColor, setHeight, setLevel, setNames and setTransparency.
- The package group's rotate, setAlpha, setColor and wrap, and its `spaces` and `name` property setters. They follow the same index pattern as setHeight and setLevel, over rotation, colour and hull operations this model does not give the package space.
- getProperties, getSpaces, getType and the plain getters and setters of the older space and group (setName, setTransparency of src/aecSpace.py, getColor01 and the like). These are simple accessors.
- The root aecErrorCheck.py inRange (aecErrorCheck.py:40-52) is the same code as src/aecErrorCheck.py:40-58. It is modelled once, as `ErrorCheckSrc.InRange`.
- Tuples given to aecValid.indices are treated like lists.
- `Spacer.ChainDisplaced`, `Spacer.RecopiedStep` and `Spacer.ChainStep` assume `AcceptedFor`: at each copy the setter accepts the ring and its normalisation. These lemmas do not prove that colinear removal is idempotent on its own output. `Spacer.UnitChain` covers the case where the setter refuses.
- `SpacerSrc.ChainDisplaced` and `SpacerSrc.ChainStep` make the same assumption of acceptance at each copy.
- `SpaceGroup.SpaceGroup.MoveBy`, `SpaceGroup.SpaceGroup.MoveTo` and `SpaceGroup.SpaceGroup.Scale` state the per-member effect of a bulk move or scale only for a list without repeats. A space listed twice is moved twice.
- `SpaceSrc.Space.Wrap` names the hull it hands to setBoundary but states only that its points come from the input. The hull's own properties are stated on `GeomCalc.ConvexHull`.
- `SpaceSrc.Space.MakeBox`, `SpaceSrc.Space.Move`, `SpaceSrc.Space.MakePolygon` and `SpaceSrc.Space.MakeCylinder` set the level or height through the corrected `SpaceSrc.Space.SetLevel` and `SpaceSrc.Space.SetHeight` of the Findings below, so every cache is empty afterwards. The source's plain setters (src/aecSpace.py:1503-1529) keep the old caches. When setBoundary then refuses the points, the source goes on reporting them: after getVolume on a unit box, a makeBox with a zero-width box and height 5 still gives the old volume. The model does not reproduce that stale state.
- `SpaceGroup.SpaceGroup.Add`, `SpaceGroupSrc.SpaceGroup.AddSpaces` and `SpaceGroupSrc.SpaceGroup.Extend` take the spaces to add as a value, a copy of the list. Both groups hand out their own list (the `spaces` property at aecSpace/aecSpaceGroup.py:106-112, getSpaces at src/aecSpaceGroup.py:183-189). Passing that list back appends to the list being iterated (aecSpace/aecSpaceGroup.py:151, src/aecSpaceGroup.py:92-94), a loop that does not end in the source until memory runs out. That aliasing is not modelled: the model appends one copy of the list and returns True.
- `SpacerRoot.Space.SetPerimeter` stores the given points as the perimeter. The source builds a sympy `Polygon` from them (aecSpace.py:350). That foreign library drops repeated and colinear vertices, and with fewer than three distinct points it gives a Segment or a Point. None of that is modelled.
- Python's dynamic typing. Argument kinds the source tests with `type(...)` are datatype constructors. An object without `getType` is the `Untyped` item, taken to have no `getArea` either. An object of another type is `Other`, which carries what its `getArea` gives (`SpacerSrc.StackToArea` asks it without a type test).

## Findings

| source | as written | input that shows it | evidently intended | confidence | as-written member | corrected member |
|---|---|---|---|---|---|---|
| aecSpace/aecPoint.py:191 | the xyz setter assigns `coord[1]` to z | setting (1, 2, 3) leaves z = 2 | z takes `coord[2]` | high, not executed | AecPoint.AssignXYZAsWritten, AecPoint.XYZSetterLosesZ | AecPoint.AssignXYZ, AecPoint.XYZSetterRoundTrip |
| aecSpace/aecValid.py:66 | colour entries are folded with `% 255` | (255, 255, 255) comes back as (0, 0, 0) | the byte range 0..255 of the docstring, `% 256` as aecColor uses | medium, not executed | AecValid.ColorAsWritten, AecValid.ColorLosesWhite | AecValid.Color, AecValid.ColorKeepsBytes |
| aecSpacer.py:55 | stacker's step is level + height + plenum | an original at level 3, height 1, no plenum: the first copy lands at 7 instead of 4 | the step is height + plenum, as the description says | high, not executed | SpacerRoot.StackerAsWritten, SpacerRoot.StackerAsWrittenGaps, SpacerRoot.StackerAsWrittenExample | SpacerRoot.Stacker, SpacerRoot.StackerStacks |
| src/aecSpace.py:1511 | setHeight changes the height but not the cached volume (src/aecSpace.py:1136) | getVolume, then setHeight(2) on a unit box of height 1: getVolume still reports 1 | the caches built on the height are reset | high, not executed | SpaceSrc.Space.SetHeightAsWritten, SpaceSrcFacts.SetHeightLeavesStaleVolume | SpaceSrc.Space.SetHeight, SpaceSrcFacts.SetHeightKeepsCoherent |
