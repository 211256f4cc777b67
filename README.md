# Distortable image overlay: projective warp and corner state machine

This project models the engine of a Leaflet plugin that places an image on a map by its four corners and warps it with a CSS `matrix3d` projective transform. Four parts are modelled:

- **`MatrixUtil`** (`matrix_util.dfy`). This is 3x3 homogeneous algebra on row-major `seq<real>` of length 9:
  - `adj`;
  - `multmm` and `multsm`, as loop methods;
  - `multmv`;
  - `basisToPoints`, which maps the canonical projective basis onto four points;
  - `project`, a homogeneous apply followed by a perspective divide;
  - `general2DProjection`, the quad-to-quad map normalised so that entry 8 is 1.
- **`TrigUtil`** (`trig.dfy`): conversion between degrees and radians.
- **`getMatrixString`'s embedding** (`css_matrix.dfy`): the 3x3 matrix is embedded column by column into the 4x4 matrix that the `matrix3d` function of CSS Transforms Module Level 2 takes.
- **The `DistortableImageOverlay` corner state machine** (`corner_geometry.dfy` for the geometry on values, `overlay.dfy` for the class). It covers:
  - the corner array;
  - the selected, edited and editing-enabled flags;
  - the initial dimensions;
  - a log of fired events;
  - `setCorner` and the all-or-nothing bulk setters with their latitude guard;
  - `getCenter`, `scaleBy`, `rotateBy`, `dragBy` and `restore`;
  - exclusive selection over the overlays on the map;
  - `_calculateProjectiveTransform`.

The main theorems are these:

- `adj` is the classical adjugate: `m . adj(m) = adj(m) . m = det(m) I`.
- `basisToPoints` sends e1, e2 and e3 to multiples of the first three points, and (1,1,1) to `det . (x4, y4, 1)`.
- For non-degenerate quadruples, `general2DProjection` is normalised and sends each source point to its destination point.
- Hence `_calculateProjectiveTransform` sends the image rectangle's corners (0,0), (w,0), (0,h) and (w,h) to the overlay's corners, taken relative to corner 0.

Corners are held as projected points. `map.project` and `map.unproject` are taken to be the identity. The map's current zoom, its pixel origin, the cartesian conversion of `_calculateProjectiveTransform`, and whether the overlay's group has collected items are all parameters. `fire` appends to the `events` log.

Three behaviours of the source are modelled as written:

- **The bulk setters ignore the keys.** `setCorners` and `setCornersFromPoints` write their values to corners 0, 1, ... in key order with a running counter. So a one-key object `{2: p}` overwrites corner 0 (`CornerGeometry.SingleKeyWritesCornerZero`).
- **The latitude guard mixes two divisors.** `_cornerExceedsMapLats` divides y by `zoom` for the top test and by `2^zoom` for the bottom test (`CornerGeometry.TopTestUsesZoomNotPow2`).
- **Selection skips some overlays.** `select` deselects only the overlays whose editing is enabled, because `deselect` returns early otherwise.

## Model

| member | source | states |
|---|---|---|
| MatrixUtil.MultMM | src/distortableImageOverlay.js:159-176 | the triple loop fills entry (i, j) with the dot product of row i of a and column j of b: the row-major matrix product |
| MatrixUtil.MultSM | src/distortableImageOverlay.js:188-196 | the push loop yields s times every entry of m |
| MatrixUtil.ProductApply | src/distortableImageOverlay.js:159-185 | applying multmm(a, b) to a vector is applying b and then a (associativity of multmm with multmv) |
| MatrixUtil.ApplyScaled | src/distortableImageOverlay.js:179-185 | multmv is linear in its vector: scaling the vector scales the image |
| MatrixUtil.ScaledApply | src/distortableImageOverlay.js:179-196 | applying multsm(k, m) is applying m and scaling by k |
| MatrixUtil.AdjugateLeft | src/distortableImageOverlay.js:150-156 | adj(m) applied after m scales every vector by det(m) |
| MatrixUtil.AdjugateRight | src/distortableImageOverlay.js:150-156 | m applied after adj(m) scales every vector by det(m) |
| MatrixUtil.AdjugateIdentity | src/distortableImageOverlay.js:150-156 | multmm(m, adj(m)) and multmm(adj(m), m) both equal det(m) times the identity |
| MatrixUtil.ColumnsDetermine | src/distortableImageOverlay.js:179-185 | two matrices that agree on the three unit vectors are equal |
| MatrixUtil.WeightsAreCrossProducts | src/distortableImageOverlay.js:198-204 | the point matrix's determinant and the weights adj(m)(x4, y4, 1) are the signed areas of Cramer's rule |
| MatrixUtil.NonDegenerateIffNoThreeCollinear | src/distortableImageOverlay.js:198-211 | the point matrix is invertible and all weights are nonzero exactly when no three of the four points are collinear |
| MatrixUtil.BasisImages | src/distortableImageOverlay.js:198-211 | basisToPoints sends e1, e2, e3 to the weights times (xi, yi, 1) and (1,1,1) to det(m) times (x4, y4, 1) |
| MatrixUtil.DetTimesDiagonal | src/distortableImageOverlay.js:206-210 | the determinant of m times the weight diagonal is det(m) times the product of the weights |
| MatrixUtil.BasisInvertible | src/distortableImageOverlay.js:198-211 | basisToPoints of a non-degenerate quadruple is invertible |
| MatrixUtil.AdjugatePreimage | src/distortableImageOverlay.js:150-156 | if m sends e to a multiple a of q, adj(m) sends q to det(m)/a times e |
| MatrixUtil.CarriesAt | src/distortableImageOverlay.js:219-227 | multmm(d, adj(s)) sends a source point to a nonzero multiple of the destination point when s and d send the same basis vector to them |
| MatrixUtil.CorrespondenceAt | src/distortableImageOverlay.js:219-233 | after normalisation by 1/m[8], project sends such a source point exactly to its destination |
| MatrixUtil.Project | src/distortableImageOverlay.js:213-217 | project defines a point exactly when the third homogeneous coordinate is nonzero, and that point times the third coordinate gives the first two |
| MatrixUtil.Normalise | src/distortableImageOverlay.js:226-232 | the result exists exactly when m[8] != 0; it then has entry 8 equal to 1 and is the multiple of m that m[8] scales back to m |
| MatrixUtil.ScaleInverse | src/distortableImageOverlay.js:188-196 | multsm(k, multsm(1/k, m)) is m for k != 0 |
| MatrixUtil.QuadToQuadCorrespondence | src/distortableImageOverlay.js:219-233 | for non-degenerate source and destination quadruples with unnormalised entry 8 nonzero, general2DProjection exists, has entry 8 equal to 1, and projects each source point onto its destination |
| MatrixUtil.OriginSourceNormalises | src/distortableImageOverlay.js:219-233 | when the first source point is the origin, the unnormalised entry 8 is nonzero for non-degenerate quadruples |
| Trig.DegreesRoundTrip | src/distortableImageOverlay.js:138-144 | radiansToDegrees(degreesToRadians(a)) = a |
| Trig.RadiansRoundTrip | src/distortableImageOverlay.js:138-144 | degreesToRadians(radiansToDegrees(a)) = a |
| Trig.DegreesToRadiansAdditive | src/distortableImageOverlay.js:142-144 | degreesToRadians is additive |
| Trig.HalfTurn | src/distortableImageOverlay.js:138-144 | 180 degrees is pi radians and 2 pi radians is 360 degrees |
| Trig.ConversionsMonotone | src/distortableImageOverlay.js:138-144 | both conversions are strictly increasing |
| CssMatrix.Matrix3dRoundTrip | src/distortableImageOverlay.js:302-307 | the 3x3 matrix is recovered from its matrix3d embedding |
| CssMatrix.Matrix3dActsAsMatrix | src/distortableImageOverlay.js:302-307 | read column by column, the embedding acts as the 3x3 matrix on (x, y, w) and as the identity on z |
| CssMatrix.Matrix3dInjective | src/distortableImageOverlay.js:302-307 | distinct matrices have distinct embeddings |
| CornerGeometry.CentroidOfFour | src/distortableImageOverlay.js:864-870 | the getCenter reduce is the sum of the four corners, left to right from (0,0), divided by 4 |
| CornerGeometry.KeyOrderBelowLength | src/distortableImageOverlay.js:613-616 | the write loop's values up to key n are one per key below n |
| CornerGeometry.InKeyOrderLength | src/distortableImageOverlay.js:613-616 | the write loop writes exactly as many corners as the object has keys |
| CornerGeometry.KeyOrderBelowRank | src/distortableImageOverlay.js:613-616 | the value under key k is written at the counter value reached when k is visited |
| CornerGeometry.InKeyOrderRank | src/distortableImageOverlay.js:613-616 | the value under key k is written at the index equal to the number of smaller keys |
| CornerGeometry.OverwriteStep | src/distortableImageOverlay.js:613-616 | one more iteration writes the next value at the running counter and leaves the rest |
| CornerGeometry.FullObjectInPlace | src/distortableImageOverlay.js:613-616 | an object with keys 0..3, as scaleBy, rotateBy and dragBy build, is written back corner for corner |
| CornerGeometry.SingleKeyWritesCornerZero | src/distortableImageOverlay.js:613-616 | a one-key object {k: p} overwrites corner 0 whatever k is and leaves corners 1..3 |
| CornerGeometry.CommittedAllOrNothing | src/distortableImageOverlay.js:597-628 | a bulk setter leaves the corners unchanged if any value exceeds; otherwise key k's value lands at index "number of smaller keys" and corners past the key count are untouched |
| CornerGeometry.GuardAtZoomZero | src/distortableImageOverlay.js:584-595 | at zoom 0 the guard holds exactly when y is outside [2, 255) |
| CornerGeometry.TopTestUsesZoomNotPow2 | src/distortableImageOverlay.js:590-593 | at zoom 3 a corner with y = 10 passes the guard, although y / 2^3 < 2 |
| CornerGeometry.GuardAtPositiveZoom | src/distortableImageOverlay.js:584-595 | at every zoom >= 1 the guard holds exactly when y < 2 zoom or y >= 255 2^zoom |
| CornerGeometry.ZoomBelowPow2 | src/distortableImageOverlay.js:591-592 | for zoom >= 1 the top test's divisor zoom is smaller than the bottom test's divisor 2^zoom |
| CornerGeometry.TopTestUsesZoomAtEveryZoom | src/distortableImageOverlay.js:590-593 | at every zoom >= 1 the corner with y = 2 zoom passes the guard although y / 2^zoom < 2 |
| CornerGeometry.ScaleKeepsMean | src/distortableImageOverlay.js:675-683 | moving four values about their mean by a common factor keeps the mean |
| CornerGeometry.ScaledKeepsCentroid | src/distortableImageOverlay.js:664-687 | the corners scaleBy proposes have the same centroid |
| CornerGeometry.ScaleByOne | src/distortableImageOverlay.js:664-687 | scaleBy(1) proposes the corners unchanged |
| CornerGeometry.ScaleAboutTwice | src/distortableImageOverlay.js:676-682 | scaling a point about a center by s and then by t is scaling by s t |
| CornerGeometry.ScaledTwice | src/distortableImageOverlay.js:664-687 | two scaleBy proposals compose to one by the product |
| CornerGeometry.ScaleUndone | src/distortableImageOverlay.js:664-687 | for s != 0, scaleBy(1/s) undoes scaleBy(s) |
| CornerGeometry.TurnKeepsMeanX | src/distortableImageOverlay.js:737-743 | turning four points about their mean keeps the x of the mean |
| CornerGeometry.TurnKeepsMeanY | src/distortableImageOverlay.js:737-743 | turning four points about their mean keeps the y of the mean |
| CornerGeometry.RotatedKeepsCentroid | src/distortableImageOverlay.js:725-749 | the corners rotateBy proposes have the same centroid |
| CornerGeometry.RotateAboutKeepsDistance | src/distortableImageOverlay.js:737-743 | for cos^2 + sin^2 = 1, the turned point is as far from the center as before |
| CornerGeometry.RotatedKeepsDistances | src/distortableImageOverlay.js:725-749 | every proposed corner keeps its distance from the centroid |
| CornerGeometry.RotateAboutTwice | src/distortableImageOverlay.js:737-743 | two turns compose by the angle-addition formulas |
| CornerGeometry.RotatedTwice | src/distortableImageOverlay.js:725-749 | two rotateBy proposals compose to one by the summed angle |
| CornerGeometry.DraggedMovesCentroid | src/distortableImageOverlay.js:751-764 | dragBy moves the centroid by newPoint - formerPoint |
| CornerGeometry.DraggedIsTranslation | src/distortableImageOverlay.js:751-764 | every corner moves by the same vector newPoint - formerPoint |
| CornerGeometry.DraggedTwice | src/distortableImageOverlay.js:751-764 | a drag from a to b then b to c is a drag from a to c |
| CornerGeometry.DragBack | src/distortableImageOverlay.js:751-764 | dragging back undoes a drag |
| CornerGeometry.InitialRectangleShape | src/distortableImageOverlay.js:766-776 | the restored rectangle is centred on the initial center, spans twice the offset, and has a horizontal top edge and a vertical left edge |
| Overlay.ImageRectangleNonDegenerate | src/distortableImageOverlay.js:896-901 | the image rectangle (0,0), (w,0), (0,h), (w,h) of positive size is a non-degenerate quadruple |
| Overlay.ProjectiveTransformCorrespondence | src/distortableImageOverlay.js:872-903 | with no three relative corners collinear, the transform exists, is normalised, and sends (0,0), (w,0), (0,h), (w,h) to the corners relative to corner 0, with w and h defaulting to 500 and 375 |
| Overlay.DifferingBelowZero | src/distortableImageOverlay.js:778-782 | no corner below n is rewritten exactly when those corners already match |
| Overlay.RestoreUpdatesIffMoved | src/distortableImageOverlay.js:766-788 | restore fires no update exactly when the corners already form the initial rectangle |
| Overlay.RestoreStep | src/distortableImageOverlay.js:778-782 | one restore iteration rewrites corner i only if it differs, and fires one update for each rewrite |
| Overlay.DistortableImageOverlay.constructor | src/distortableImageOverlay.js:357-366 | initialize records the selected option; as _initImageDimensions then does (lines 463-488), the corners are the given ones or the rectangle center -/+ offset and the initial dimensions are recorded; editing-enabled is an input of the model, since the source never enables editing during construction; nothing is edited or fired |
| Overlay.DistortableImageOverlay.GetCorners | src/distortableImageOverlay.js:855-857 | the four current corners |
| Overlay.DistortableImageOverlay.GetCorner | src/distortableImageOverlay.js:859-861 | corner i of getCorners |
| Overlay.DistortableImageOverlay.GetCenter | src/distortableImageOverlay.js:864-870 | the vertex centroid of the current corners |
| Overlay.DistortableImageOverlay.IsSelected | src/distortableImageOverlay.js:513-515 | the selected flag |
| Overlay.DistortableImageOverlay.SetCorner | src/distortableImageOverlay.js:567-582 | only corner i changes; update fires and edited becomes true; nothing else changes |
| Overlay.DistortableImageOverlay.SetCorners | src/distortableImageOverlay.js:597-628 | if any candidate fails the guard, the corners and edited are unchanged; otherwise the candidates are written to 0, 1, ... in key order and edited becomes true; update fires once either way |
| Overlay.DistortableImageOverlay.SetCornersFromPoints | src/distortableImageOverlay.js:630-662 | as setCorners, for the layer points shifted by the pixel origin |
| Overlay.DistortableImageOverlay.WriteInKeyOrder | src/distortableImageOverlay.js:613-627 | the counter loop overwrites corners 0, 1, ... with the values in key order, fires update and sets edited |
| Overlay.DistortableImageOverlay.ScaleBy | src/distortableImageOverlay.js:664-687 | scaleBy(0) changes nothing and fires nothing; otherwise the corners become the proposal scaled about the centroid unless a proposed corner fails the guard |
| Overlay.DistortableImageOverlay.RotateBy | src/distortableImageOverlay.js:725-749 | the corners become the proposal turned about the centroid unless a proposed corner fails the guard; update fires |
| Overlay.DistortableImageOverlay.DragBy | src/distortableImageOverlay.js:751-764 | the corners become the proposal moved by newPoint - formerPoint unless a proposed corner fails the guard; update fires |
| Overlay.DistortableImageOverlay.Restore | src/distortableImageOverlay.js:766-788 | the corners become the initial rectangle; one update fires per differing corner and then restore fires; edited ends false |
| Overlay.DistortableImageOverlay.Deselect | src/distortableImageOverlay.js:517-529 | with editing disabled nothing changes; otherwise selected becomes false and deselect fires |
| Overlay.DistortableImageOverlay.ProgrammaticGrouping | src/distortableImageOverlay.js:559-565 | every overlay on the map with editing enabled is deselected and fires deselect; the others are untouched |
| Overlay.DistortableImageOverlay.Select | src/distortableImageOverlay.js:531-557 | with editing disabled nothing changes; otherwise every other overlay with editing enabled is deselected, this one ends selected unless its group has collected items, and the events fire in source order |
| Overlay.DistortableImageOverlay.CalculateProjectiveTransform | src/distortableImageOverlay.js:872-903 | the loop's relative corners and the 500 x 375 defaults give exactly the specified transform, whose correspondence is ProjectiveTransformCorrespondence |

## Left out

- The Vue wrapper, `onAdd`/`onRemove`, and the click and single-click listener wiring are not modelled. Neither are `L.Map.addInitHook`, event delivery, the toolbar and marker calls, and `setBounds`. These are DOM, event and map plumbing. `fire` is modelled only as an entry in the event log.
- `_initImageDimensions` reads computed styles and uses `parseInt`. The constructor takes the projected center, the offset and the zoom as inputs instead.
- `_reset`, `_animateZoom`, `_getTranslateString` and the string-building half of `getMatrixString` write CSS strings to DOM elements. Only the matrix embedding is modelled.
- `getAngle`, `setAngle` and `TrigUtil.calcAngle` parse CSS strings and use `atan2` and rounding, and are not modelled.
- DistortableImageOverlay.RotateBy takes the cosine and sine of the angle as inputs. Its degree conversion is the separate `Trig.DegreesToRadians`.
- `map.project` and `map.unproject` are taken to be the identity. So `restore`'s unproject at the initial zoom does not depend on that zoom. `layerPointToLatLng` is the shift by the pixel origin.
- Overlay.DistortableImageOverlay.Restore compares corners with exact equality. LatLng.equals tolerates a small margin, and that margin is not modelled.
- Arithmetic is over `real`; IEEE floating point is not modelled. So `project` with a zero third coordinate and `general2DProjection` with a zero entry 8 give `None` where the source would compute infinities or NaN.
- Zoom levels are integers; fractional zoom is not modelled.
- MatrixUtil.MultSM is stated for 9-entry matrices. The source loops over whatever length it is given.
- DistortableImageOverlay.SetCorner requires an index in 0..3. An index outside that range would add a property to the JavaScript array.
- DistortableImageOverlay.GetCorner requires an index in 0..3. An index outside that range reads `undefined` in the source.
- DistortableImageOverlay.SetCorners and SetCornersFromPoints require the object's keys to be corner numbers 0..3. For-in order over other keys (strings, insertion order) is not modelled.
- DistortableImageOverlay.constructor copies the given corners into a fresh array. The source stores the `corners` option object itself, so its later in-place corner writes show through the caller's options; that aliasing is not modelled.
- DistortableImageOverlay.GetCorners returns the corners as a value. The source returns the array itself, so the caller aliases it.
- `_programmaticGrouping` and `select` take the map's overlays as a sequence without repeats, because the map keeps each layer once. Layers of other types are filtered out before the call.
