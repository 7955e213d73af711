# GeometricProps in Dafny

A model of the section-property engine of GeometricProps-cs and of the
section builders that feed it.

`GeometricProps2D` takes a list of vertices and computes the following:

- **Integrals.** It applies Green's theorem to every segment between
  consecutive vertices. This gives the area A, the first moments Sx and Sy,
  and the second moments Ix, Iy and Ixy about the global origin.
- **Centroidal values.** From those integrals it derives the centroid
  (Xg, Yg) and the centroidal second moments Ixg, Iyg and Ixyg, using the
  parallel-axis theorem.
- **Envelope.** It scans every vertex for the envelope bounds Xmin, Xmax,
  Ymin and Ymax, and derives Height and Base from them.
- **Fibres.** It computes the extreme-fibre distances Y1 and Y2 and the
  section moduli W1 and W2. Y1 and W1 are negated at the end.

The builders `Rectangular`, `TWithoutCorbel`, `TTriangularCorbel`,
`IWithoutCorbel` and `ITriangularCorbel` lay out the closed outline of a
standard cross section and hand it to the engine.

The model works over exact reals. It is split into six modules:

- `Geometry` (geometry.dfy): points, and the `GreenTheoremLine` edge with
  its deltas.
- `Moments` (moments.dfy): the six-integral record and the per-edge
  Green's-theorem terms. It also has two reference forms:
  - the classical triangle-fan polygon formulas;
  - the "potential" whose difference between an edge's end points is the
    gap between the engine's terms and the fan terms.
- `Integration` (integration.dfy): sums of edge terms over consecutive
  vertices. It proves the laws of those sums:
  - append and reverse;
  - telescoping;
  - translation and mirror image;
  - change of starting vertex and repeated vertices;
  - the loop that accumulates the sums.
- `Envelope` (envelope.dfy): the min/max scan, both as a recursive function
  and as the engine's loop over four nullable bounds. It is specified as
  the tightest box around the vertices.
- `Engine` (engine.dfy): the whole computation as a pure function
  `Compute` that returns either the 21 exposed values or an error. This
  module also has the laws the results obey:
  - what a result means;
  - reversing the orientation;
  - translating the section;
  - mirror symmetry.
- `Sections` (sections.dfy): the five builders, and closed-form results:
  - the rectangle, the T section and the I section, proved equal to their
    decompositions into rectangles;
  - mirror symmetry of every outline;
  - the sections of the repository's unit tests, computed exactly.

Two behaviours of the code are modelled as written:

- The engine sums only the |ps| − 1 segments between consecutive vertices.
  It adds no closing edge: the builders repeat the first vertex
  themselves (as the comment at
  src/GeometricProps.Domain/GeometricProps.cs:16-17 documents).
- `TTriangularCorbel` draws both haunch corners even when the haunch is
  empty, which no comment mentions. `ITriangularCorbel` draws a haunch only when its width and height
  are both positive.

The unit tests' sections are stated in exact rationals. The T section's test expects
W2 = 9602.21 to zero decimal places; the exact value is
4618568/481 ≈ 9602.01, which rounds to the same integer.

## Model

All source paths are in the GeometricProps-cs repository.

| member | source | states |
|---|---|---|
| Geometry.MakeLine | src/GeometricProps.Domain/Geometry/GreenTheoremLine.cs:7-14 | An edge keeps its end points (in the order x0, x1, y0, y1), and its deltas carry the start point onto the end point. |
| Geometry.EdgeOf | src/GeometricProps.Domain/GeometricProps.cs:100-107 | The edge the loop builds from vertices i and i+1 starts at vertex i and its deltas reach vertex i+1. |
| Geometry.ZeroLengthEdge | src/GeometricProps.Domain/Geometry/GreenTheoremLine.cs:13-14 | Both deltas are zero exactly when the two end points coincide. |
| Geometry.SwapNegatesDeltas | src/GeometricProps.Domain/Geometry/GreenTheoremLine.cs:13-14 | Swapping the end points negates both deltas. |
| Moments.EdgeTerms | src/GeometricProps.Domain/GeometricProps.cs:150-232 | Every one of the six per-edge terms has Dy as a factor, so a horizontal edge contributes nothing. |
| Moments.EdgeVersusFan | src/GeometricProps.Domain/GeometricProps.cs:150-232 | Each edge's six terms equal the classical triangle (origin, p0, p1) terms plus the difference of a potential between the edge's two end points. |
| Moments.EdgeAntisymmetric | src/GeometricProps.Domain/GeometricProps.cs:150-232 | Traversing an edge backwards negates all six terms. |
| Moments.EdgeMirror | src/GeometricProps.Domain/GeometricProps.cs:150-232 | Reflecting an edge in x = 0 negates A, Sx, Ix and Iy and keeps Sy and Ixy. |
| Moments.EdgeShiftY | src/GeometricProps.Domain/GeometricProps.cs:150-232 | Moving an edge vertically by b changes its terms by the binomial expansion of (y + b). |
| Moments.EdgeShiftX | src/GeometricProps.Domain/GeometricProps.cs:150-232 | Moving an edge horizontally by a changes its terms by the binomial expansion of (x + a), up to end-point terms. |
| Integration.AccumulateIntegrals | src/GeometricProps.Domain/GeometricProps.cs:98-115 | The edge loop's six accumulators end equal to the recursive sum of the edge terms over the consecutive pairs. |
| Integration.SumTelescope | src/GeometricProps.Domain/GeometricProps.cs:98-115 | Edge functions that differ by a potential difference have sums that differ by the potential difference between the path's ends. |
| Integration.SumReverse | src/GeometricProps.Domain/GeometricProps.cs:98-115 | An antisymmetric edge function sums to the negated total along the reversed path. |
| Integration.SumShift | src/GeometricProps.Domain/GeometricProps.cs:98-115 | Translating the path shifts the sum when each edge term shifts, up to end terms that telescope. |
| Integration.SumMirror | src/GeometricProps.Domain/GeometricProps.cs:98-115 | Reflecting the path reflects the sum when each edge term reflects. |
| Integration.SumRotate | src/GeometricProps.Domain/GeometricProps.cs:98-115 | Around a closed outline, the sum does not depend on the starting vertex. |
| Integration.SumAppend | src/GeometricProps.Domain/GeometricProps.cs:98-115 | Joining two paths sums both parts plus the joining edge. |
| Integration.FlatEdgeAddsNothing | src/GeometricProps.Domain/GeometricProps.cs:150-232 | A horizontal or zero-length edge adds nothing to any of the six integrals. |
| Integration.IntegrateVersusFan | src/GeometricProps.Domain/GeometricProps.cs:98-115 | On any path, the engine's sums equal the classical polygon formulas plus the potential difference between the last vertex and the first. |
| Integration.ClosedOutlineFormulas | src/GeometricProps.Domain/GeometricProps.cs:98-115 | On a closed outline, the engine's sums are exactly the classical polygon area and moment formulas. |
| Integration.IntegrateReverse | src/GeometricProps.Domain/GeometricProps.cs:98-115 | Reversing the vertex order negates all six integrals. |
| Integration.IntegrateTranslate | src/GeometricProps.Domain/GeometricProps.cs:98-115 | Moving a closed outline by (a, b) keeps A and shifts the moments as moving the region does. |
| Integration.IntegrateShiftY | src/GeometricProps.Domain/GeometricProps.cs:98-115 | Moving any path, even an open one, vertically shifts its integrals exactly. |
| Integration.IntegrateShiftX | src/GeometricProps.Domain/GeometricProps.cs:98-115 | Moving any path horizontally shifts its integrals up to end-point terms, which vanish on a closed outline. |
| Integration.IntegrateMirror | src/GeometricProps.Domain/GeometricProps.cs:98-115 | Reflecting every vertex in x = 0 reflects the integrals. |
| Integration.IntegrateRotate | src/GeometricProps.Domain/GeometricProps.cs:98-115 | Where a closed outline starts does not change its integrals. |
| Integration.IntegrateRepeat | src/GeometricProps.Domain/GeometricProps.cs:98-115 | Repeating a vertex does not change the integrals. |
| Integration.SymmetricOutline | src/GeometricProps.Domain/GeometricProps.cs:98-115 | An outline that is its own mirror image, traversed backwards, has Sy = 0 and Ixy = 0. |
| Envelope.Observe | src/GeometricProps.Domain/GeometricProps.cs:334-361 | One scan step sets unset bounds to the vertex, never shrinks the box, covers the vertex, and takes each bound either from the vertex or from the previous bound. |
| Envelope.Scan | src/GeometricProps.Domain/GeometricProps.cs:127-133 | The scan gives an envelope exactly when there is a vertex, and that envelope is the tightest box around all the vertices, the last one included. |
| Envelope.ScanBounds | src/GeometricProps.Domain/GeometricProps.cs:127-133 | The loop over four nullable bounds, updated with `>=` for the maxima and `<=` for the minima, gives the tightest box. |
| Envelope.UpdateIsObserve | src/GeometricProps.Domain/GeometricProps.cs:334-361 | The four separate bound updates together are one step of the scan. |
| Envelope.Raise | src/GeometricProps.Domain/GeometricProps.cs:334-337 | An upper bound after the update is set, is at least the coordinate and the old bound, and is one of the two. |
| Envelope.Lower | src/GeometricProps.Domain/GeometricProps.cs:342-345 | A lower bound after the update is set, is at most the coordinate and the old bound, and is one of the two. |
| Envelope.TightUnique | src/GeometricProps.Domain/GeometricProps.cs:127-133 | There is only one tightest box, so the envelope does not depend on the vertex order. |
| Envelope.ScanSameVertices | src/GeometricProps.Domain/GeometricProps.cs:127-133 | Vertex lists with the same vertices, in any order and with any repetitions, have the same envelope. |
| Envelope.ScanTranslate | src/GeometricProps.Domain/GeometricProps.cs:127-133 | Moving every vertex moves the envelope by the same amount. |
| Engine.CentroidX | src/GeometricProps.Domain/GeometricProps.cs:240-243 | Xg times the area is Sy. |
| Engine.CentroidY | src/GeometricProps.Domain/GeometricProps.cs:251-254 | Yg times the area is Sx. |
| Engine.CentroidalOf | src/GeometricProps.Domain/GeometricProps.cs:260-281 | Ixg, Iyg and Ixyg are the second moments of the region moved so that its centroid sits at the origin. |
| Engine.ParallelAxis | src/GeometricProps.Domain/GeometricProps.cs:260-281 | The engine's formulas (Ix − Yg²·A and so on) equal the integrals about the centroid. |
| Engine.CentroidalFirstMoments | src/GeometricProps.Domain/GeometricProps.cs:240-254 | About the centroid, both first moments vanish. |
| Engine.FibresOf | src/GeometricProps.Domain/GeometricProps.cs:286-313 | After the sign correction, Y1 < 0 < Y2, where Y1 is ±(Yg − Ymin) and Y2 is ±(Ymax − Yg); so Y1 = −abs(Yg − Ymin) and Y2 = abs(Ymax − Yg) for every centroid, and Y1 = Ymin − Yg, Y2 = Ymax − Yg when the centroid lies inside the envelope's height. W1·Y1 = W2·Y2 = Ixg. |
| Engine.CentroidOutside | src/GeometricProps.Domain/GeometricProps.cs:286-313 | A centroid above Ymax or below Ymin, which an open path or a self-crossing outline can have, still gets the distances −abs(Yg − Ymin) and abs(Ymax − Yg). |
| Engine.Abs | src/GeometricProps.Domain/GeometricProps.cs:318-329 | The absolute value is non-negative and is the value or its negation. |
| Engine.Derive | src/GeometricProps.Domain/GeometricProps.cs:117-144 | The derivation fails with ZeroArea exactly when A = 0, and with ZeroFibreDistance exactly when the centroid lies on Ymin or Ymax. A success carries every exposed value, as Describes states. |
| Engine.Compute | src/GeometricProps.Domain/GeometricProps.cs:87-145 | The engine refuses exactly the lists of fewer than two vertices, and fails with ZeroArea exactly when the summed area is zero. A success describes the edge sums and an envelope that is the tightest box around the vertices. |
| Engine.SummaryDescribes | src/GeometricProps.Domain/GeometricProps.cs:318-329 | With bounds in order, Height and Base are the envelope's extents; together with the centroidal and fibre values, the record describes the integrals. |
| Engine.Described | src/GeometricProps.Domain/GeometricProps.cs:87-145 | Any successful result describes the outline's integrals and envelope. |
| Engine.SuccessCondition | src/GeometricProps.Domain/GeometricProps.cs:87-145 | The engine succeeds exactly when the area is non-zero and the centroid lies on neither the lowest nor the highest vertex level. |
| Engine.OnLevel | src/GeometricProps.Domain/GeometricProps.cs:251-254 | The centroid lies on level y exactly when Sx = y·A. |
| Engine.AboutCentroid | src/GeometricProps.Domain/GeometricProps.cs:260-281 | Shifting the integrals to the centroid gives A, zero first moments and the centroidal second moments. |
| Engine.CentroidalAboutCentroid | src/GeometricProps.Domain/GeometricProps.cs:260-281 | The centroidal values are the integrals of the same closed outline moved so that its centroid is at the origin. |
| Engine.SameSumsSameResult | src/GeometricProps.Domain/GeometricProps.cs:87-145 | Two vertex lists with the same segment sums and the same envelope get the same result: the engine reads nothing else of its input. |
| Engine.SymmetricSection | src/GeometricProps.Domain/GeometricProps.cs:240-281 | A section that is its own mirror image in x = 0 has Sy = Ixy = 0, Xg = 0 and Ixyg = 0. |
| Engine.ClosingEdge | src/GeometricProps.Domain/GeometricProps.cs:98-115 | The engine adds no closing edge: closing the list adds exactly the last-to-first edge's terms. |
| Engine.ComputeUnfold | src/GeometricProps.Domain/GeometricProps.cs:87-145 | On at least two vertices, the engine is the derivation from the edge sums and the envelope. |
| Engine.DeriveNeg | src/GeometricProps.Domain/GeometricProps.cs:240-313 | Negating the integrals keeps the outcome, and negates the integrals, the centroidal moments and the moduli of a success. The centroid, the envelope and Y1/Y2 stay. |
| Engine.ReverseOrientation | src/GeometricProps.Domain/GeometricProps.cs:87-145 | Tracing an outline the other way round gives the same outcome, with every quantity linear in the integrals negated. |
| Engine.DeriveShifted | src/GeometricProps.Domain/GeometricProps.cs:240-329 | Shifting the integrals and the envelope together keeps the outcome and moves a success. |
| Engine.TranslateSection | src/GeometricProps.Domain/GeometricProps.cs:87-145 | Moving a closed outline keeps the outcome and moves the centroid and the envelope. It leaves the centroidal moments, Height, Base, Y1, Y2, W1 and W2 unchanged. |
| Sections.Rectangular | src/GeometricProps.Application/UseCases/Sections/Rectangular.cs:23-30 | The rectangle outline has five vertices and is closed. |
| Sections.TWithoutCorbel | src/GeometricProps.Application/UseCases/Sections/T/TWithoutCorbel.cs:29-40 | The T outline has nine vertices and is closed. |
| Sections.TTriangularCorbel | src/GeometricProps.Application/UseCases/Sections/T/TTriangularCorbel.cs:35-48 | The T outline with haunches always has eleven vertices and is closed. |
| Sections.IWithoutCorbel | src/GeometricProps.Application/UseCases/Sections/I/IWithoutCorbel.cs:32-47 | The I outline has thirteen vertices and is closed. |
| Sections.ITriangularCorbel | src/GeometricProps.Application/UseCases/Sections/I/ITriangularCorbel.cs:40-99 | Each haunch drawn (width and height both positive) adds two vertices to the thirteen, and the outline is closed. |
| Sections.UprightEdge | src/GeometricProps.Domain/GeometricProps.cs:150-232 | The engine's terms for a vertical edge are the integrals of the strip between that edge and the y axis. |
| Sections.AxisOutline | src/GeometricProps.Domain/GeometricProps.cs:98-115 | The integrals of an outline with only axis-parallel edges are the total of its strips. |
| Sections.RectangleIntegrals | src/GeometricProps.Application/UseCases/Sections/Rectangular.cs:23-32 | The rectangle outline integrates to the direct integrals over [0, bw] × [0, h]. |
| Sections.RectangleEnvelope | src/GeometricProps.Application/UseCases/Sections/Rectangular.cs:23-32 | The rectangle's envelope is [0, bw] × [0, h]. |
| Sections.RectangleSucceeds | src/GeometricProps.Application/UseCases/Sections/Rectangular.cs:23-32 | A rectangle with positive sides always has its properties. |
| Sections.RectangleSection | src/GeometricProps.Application/UseCases/Sections/Rectangular.cs:23-32 | For a bw × h rectangle, every value takes its textbook form: Ixg = bw·h³/12, Y1 = −h/2, W2 = bw·h²/6, and the rest likewise. |
| Sections.RectangleExample | tests/GeometricProps.Application.Tests/RectangularTests.cs:58-76 | The 20 × 60 rectangle gives A = 1200, Ix = 1440000, Ixg = 360000, W1 = −12000 and the other expected values. |
| Sections.TIntegrals | src/GeometricProps.Application/UseCases/Sections/T/TWithoutCorbel.cs:29-42 | The T outline integrates to its web plus its flange. |
| Sections.TEnvelope | src/GeometricProps.Application/UseCases/Sections/T/TWithoutCorbel.cs:29-42 | For any non-negative widths and 0 ≤ hf ≤ h, a T section spans ± half the larger of bf and bw, and [0, h]: a web wider than the flange sets the width. |
| Sections.TSucceeds | src/GeometricProps.Application/UseCases/Sections/T/TWithoutCorbel.cs:29-42 | A T section with 0 < bw ≤ bf and 0 < hf < h always has its properties. |
| Sections.TSection | src/GeometricProps.Application/UseCases/Sections/T/TWithoutCorbel.cs:29-42 | The T section's result: the web and flange integrals, Xg = 0, Yg strictly inside (0, h), Ixg = Ix − Yg²A, Iyg = Iy, Ixyg = 0, Y1 = −Yg and Y2 = h − Yg. |
| Sections.TExample | tests/GeometricProps.Application.Tests/T/TWithoutCorbelTests.cs:53-70 | The 60/9/12/40 T section gives A = 912, Sx = 24936, Ix = 803344, Yg = 1039/38, Ixg = 2309284/19 and the exact fibre values. |
| Sections.IIntegrals | src/GeometricProps.Application/UseCases/Sections/I/IWithoutCorbel.cs:32-49 | The I outline integrates to its bottom flange, web and top flange. |
| Sections.IEnvelope | src/GeometricProps.Application/UseCases/Sections/I/IWithoutCorbel.cs:32-49 | For any non-negative widths and thicknesses with hi + hf ≤ h, an I section spans ± half the widest of bf, bi and bw, and [0, h]. |
| Sections.IProperEnvelope | src/GeometricProps.Application/UseCases/Sections/I/IWithoutCorbel.cs:32-49 | With the web no wider than either flange, the I section spans ± half its wider flange and [0, h]. |
| Sections.ISucceeds | src/GeometricProps.Application/UseCases/Sections/I/IWithoutCorbel.cs:32-49 | A proper I section always has its properties. |
| Sections.ISection | src/GeometricProps.Application/UseCases/Sections/I/IWithoutCorbel.cs:32-49 | The I section's result: the three rectangles' integrals, the centroid on the axis, the parallel-axis centroidal moments, Base = the wider flange, Y1 = −Yg and Y2 = h − Yg. |
| Sections.IExample | tests/GeometricProps.Application.Tests/I/IWithoutCorbelTests.cs:63-80 | The 80/20/20/120/60/20 I section gives A = 4400, Ix = 78560000/3, Yg = 710/11, Ixg = 259240000/33 and the exact fibre values. |
| Sections.TSymmetric | src/GeometricProps.Application/UseCases/Sections/T/TWithoutCorbel.cs:29-40 | The T outline, mirrored and traced backwards, is the same outline started at its eighth vertex. |
| Sections.TCorbelSymmetric | src/GeometricProps.Application/UseCases/Sections/T/TTriangularCorbel.cs:35-48 | The T outline with haunches is its own mirror image traced backwards. |
| Sections.ISymmetric | src/GeometricProps.Application/UseCases/Sections/I/IWithoutCorbel.cs:32-47 | The I outline is its own mirror image traced backwards. |
| Sections.ICorbelSymmetric | src/GeometricProps.Application/UseCases/Sections/I/ITriangularCorbel.cs:40-99 | For every combination of drawn and undrawn haunches, the I outline with haunches is its own mirror image traced backwards. |
| Sections.TCorbelSection | src/GeometricProps.Application/UseCases/Sections/T/TTriangularCorbel.cs:35-50 | Any result for a T section with haunches has Sy = Ixy = 0, Xg = 0 and Ixyg = 0. |
| Sections.ICorbelSection | src/GeometricProps.Application/UseCases/Sections/I/ITriangularCorbel.cs:40-101 | Any result for an I section with haunches has Sy = Ixy = 0, Xg = 0 and Ixyg = 0. |
| Sections.CorbelsNotDrawn | src/GeometricProps.Application/UseCases/Sections/I/ITriangularCorbel.cs:48-95 | When neither haunch is drawn, the I outline with haunches is the plain I outline, vertex for vertex. |
| Sections.EmptyHaunchOutline | src/GeometricProps.Application/UseCases/Sections/T/TTriangularCorbel.cs:35-48 | With zero-sized haunches, the T outline with haunches has the same segment sums and the same envelope as the plain T outline. |
| Sections.EmptyHaunches | src/GeometricProps.Application/UseCases/Sections/T/TTriangularCorbel.cs:35-48 | With zero-sized haunches, the T section with haunches gives exactly the plain T section's result, even though it repeats two corners and starts elsewhere. |

## Left out

- Floating point: the model computes over exact reals. IEEE doubles, their rounding and `Math.Pow` are not modelled. The sections of the unit tests are therefore stated in exact rationals where the tests compare rounded decimals.
- Division by zero: the engine's doubles become infinite or NaN, and the object is still built. The model reports these cases as `ZeroArea` or `ZeroFibreDistance` and gives no values for them.
- Null and exceptions: a null vertex list has no counterpart, because a Dafny sequence is never null. The `ArgumentException` for fewer than two vertices is the error `TooFewPoints`. The `InvalidOperationException` of an unset bound cannot arise, because a list of two or more vertices sets every bound.
- Interfaces, records and units: `IGeometricProps`, `IBidimensionalPoint`, `BidimensionalPoint` and the builders' `Dictionary` of `IDistance` values are not modelled. The builders take their dimensions as reals, and a missing dictionary key (which throws) is not modelled.
- Mutable object state: the constructor's fields are modelled by the pure function `Engine.Compute`. Its two loops are modelled as `Integration.AccumulateIntegrals` and `Envelope.ScanBounds`.
- Haunch integrals: the values of the T and I sections with haunches are not given in closed form. Their symmetry consequences and their reduction to the plain sections when the haunches are empty are proved.
- Sections.TSection and Sections.ISection: these state Yg, Ixg and the moduli through the relations they satisfy (Yg·A = Sx, Ixg = Ix − Yg²A, W·Y = Ixg) rather than as closed-form quotients. The members for the unit tests' sections state the quotients for those dimensions.
