# PneumaticGateInkscape ribbon and node walker, modelled in Dafny

This project models two Inkscape extensions and a layer parser from the
PneumaticGateInkscape repository.

- **pneurouter.py** turns a polyline made of straight segments into a
  constant-width ribbon with filleted corners. It builds:
  - one unit direction and one left normal per edge;
  - a left and a right offset point per vertex, with perpendicular caps at
    the ends of an open path and intersections of shifted edge lines
    elsewhere;
  - per-vertex fillet commands (a line, or a line and a cubic);
  - an output path (`build_path`).
- **pneurouter_offset_only.py** runs the same offset engine without fillets.
  It joins the offset points into two polygons for a closed input, or one
  outline (left side, then the right side backwards) for an open one.
- **svg_layer_parser.py** collects node locations of SVG shapes:
  - a state machine over absolute path commands, where H and V reuse one
    coordinate of the current point, following the lineto commands of
    section 8.3.4 of SVG 1.1;
  - a points-attribute tokenizer;
  - fill detection;
  - namespace stripping of tag names;
  - a first-match layer lookup;
  - the fixed corner lists of rect, circle, ellipse and line.

Coordinates are exact `real`s. `math.hypot`, `math.acos` and `math.tan` are
parameters of the model (the `MathLib` datatype). `Geometry.Lawful` states the
only facts used about them: hypot is non-negative and zero only at (0, 0), and
acos lies in [0, π]. The SVG transform is a parameter `tf: Point -> Point`, and
Python's `float()` is a parameter `parse: string -> Option<real>`.

Each loop of the source is a `method` with its invariants. Its `ensures`
equates the result with a specification function, and lemmas prove the
program's properties about that function.

The modules are:
- `Geometry`: points and the math library;
- `Seqs`: `reversed`;
- `OffsetEngine`: the intersector, segment table, offset builder and radii;
- `Fillet`: `compute_fillet`;
- `Pneurouter`: `build_path` and the whole effect;
- `OffsetOnly`: the offset-only effect;
- `SvgPath`: `_points_from_path`;
- `SvgLayer`: the other parser helpers;
- `Outcomes`: `Option` and `Result`.

Errors are values. `TooFewPoints` and `ZeroLengthSegment` are the two
messages after which the effect returns. `ZeroDivision` is an uncaught Python
`ZeroDivisionError`. An unparsable shape attribute (`ValueError`) gives
`None`.

The effect checks only the consecutive edges for zero length
(pneurouter.py:186-193). The closing edge of a closed path is not checked, so
a closing edge of length zero divides by zero at pneurouter.py:204.
pneurouter_offset_only.py does the same at lines 83-101. The model returns
`Err(ZeroDivision)` in that case.

## Model

| member | source | states |
|---|---|---|
| Geometry.DistZeroIffSame | pneurouter.py:190-191 | with a lawful hypot, the distance of two points is non-negative and is zero exactly when the points coincide (the `L == 0` test) |
| OffsetEngine.Intersect | pneurouter.py:100-108 | definition of `intersect`: p1 when abs(cross(d1, d2)) < 1e-6, else p1 + t·d1 with t = cross(p2 − p1, d2) / cross(d1, d2); its meaning is stated by IntersectOnBothLines and IntersectUnique |
| OffsetEngine.IntersectAsStep | pneurouter.py:100-108 | away from the parallel fallback, the intersection is p1 moved along d1 by cross(p2 − p1, d2) / cross(d1, d2) |
| OffsetEngine.IntersectOnBothLines | pneurouter.py:100-108 | when abs(cross(d1, d2)) is below 1e-6 the result is p1 unchanged; otherwise it lies on both lines (cross(r − p1, d1) = 0 and cross(r − p2, d2) = 0); the same code is at pneurouter_offset_only.py:106-113 |
| OffsetEngine.IntersectUnique | pneurouter.py:106-108 | for non-parallel lines, any point on both lines is the point `intersect` returns |
| OffsetEngine.NormalPerpendicular | pneurouter.py:194-196 | the normal (−uy, ux) is perpendicular to its direction (dot product 0) |
| OffsetEngine.NormalsPerpendicular | pneurouter.py:184-206 | the normals list has one entry per direction, each perpendicular to its direction |
| OffsetEngine.UnitAndNormal | pneurouter.py:189-196 | for an edge of non-zero length L, the direction is (dx / L, dy / L) and the normal is its +90° rotation |
| OffsetEngine.ConsecutiveEdgeTable | pneurouter.py:184-196 | the loop reports a zero-length segment exactly when some consecutive pair is at distance 0; otherwise it returns n − 1 unit directions and their normals |
| OffsetEngine.DirectionsOfClosed | pneurouter.py:198-206 | the closed table is the open table followed by the closing edge last → first |
| OffsetEngine.SegmentTable | pneurouter.py:183-206 | definition of the dirs/norms table: a zero-length segment when some consecutive edge has hypot 0, a division by zero when the closing edge of a closed path has hypot 0, else the unit directions and their normals; stated by SegmentTableErrors, SegmentTableSizes and SegmentTablePerpendicular |
| OffsetEngine.BuildSegmentTable | pneurouter.py:183-206 | the table-building code, with its early return and its unchecked closing division, computes `SegmentTable` |
| OffsetEngine.SegmentTableSizes | pneurouter.py:186-206 | a built table has n − 1 directions and normals for an open path, n for a closed one |
| OffsetEngine.SegmentTablePerpendicular | pneurouter.py:194-206 | every normal of a built table is perpendicular to its direction |
| OffsetEngine.SegmentTableErrors | pneurouter.py:186-206 | with a lawful hypot, the table fails with a zero-length segment iff two consecutive points coincide; it fails by dividing by zero iff no consecutive pair coincides, the path is closed and its last point equals its first |
| OffsetEngine.CornerMirror | pneurouter.py:244-252 | the intersected corners at +half_w and −half_w are mirror images through the vertex, including in the parallel fallback |
| OffsetEngine.OffsetVertex | pneurouter.py:211-252 | definition of offset vertex i at signed distance h: the cap pts[i] + h·norms[0] or h·norms[−1] at the ends of an open path, else the intersection of the incoming and outgoing edge lines shifted by h (the closing edge is the incoming one at vertex 0 of a closed path); stated by OffsetMirror and OffsetSideFacts |
| OffsetEngine.OffsetSide | pneurouter.py:208-252 | definition of `left_pts` (h = half_w) and `right_pts` (h = −half_w): one offset vertex per input point; stated by OffsetSideFacts and BuildOffsets |
| OffsetEngine.OffsetMirror | pneurouter.py:211-252 | at every vertex (caps, wrap-around corners, interior corners), left + right = 2 · pts[i] |
| OffsetEngine.OffsetSideFacts | pneurouter.py:208-252 | both sides have one point per input vertex and are symmetric about the input; on an open path, the first points are pts[0] ± half_w · norms[0] and the last points are pts[n−1] ± half_w · norms[−1]; the same code is at pneurouter_offset_only.py:115-162 |
| OffsetEngine.ShiftedCorners | pneurouter.py:245-252 | the repeated block computes the corner of the edge lines shifted by +half_w, and the one shifted by −half_w |
| OffsetEngine.BuildOffsets | pneurouter.py:208-252 | the loop builds `left_pts` as the offset side at +half_w and `right_pts` as the one at −half_w |
| OffsetEngine.RibbonRadii | pneurouter.py:176-181 | half_w is width / 2; the fillet fraction is floored at 0.5; outer_r = design_r + half_w; inner_r ≥ 0; for width > 0, inner_r = design_r − half_w and outer_r − inner_r = width; for width ≤ 0, inner_r = 0 |
| OffsetEngine.WidthTwoRadii | pneurouter.py:176-181 | width 2 with fraction 0.6 gives half width 1, design radius 1.2, outer 2.2 and inner 0.2 |
| Seqs.ReverseInvolution | pneurouter.py:273 | reversing twice gives back the list |
| Seqs.ReverseAppend | pneurouter.py:273 | reversing a concatenation reverses each part and swaps them |
| Fillet.FilletAtShape | pneurouter.py:42-95 | a vertex gives exactly `[L p]`, or a line followed by one cubic; its only failure is a division by zero |
| Fillet.RawAngle | pneurouter.py:48-59 | definition of the raw turn angle: None when L1 or L2 is 0 (with a lawful hypot, when a raw neighbour coincides with the vertex), else acos of the clamped dot product of the unit vectors toward the raw neighbours; stated by ExteriorOnlyWhenStraight and FilletAtCases |
| Fillet.ArcCommands | pneurouter.py:72-95 | definition of one corner's commands: `[L p]` when θ < 1e-3 or abs(π − θ) < 1e-3, else L to the arc start and C with the two control points offset by r·k along the tangents' normals and the arc end; stated by ArcOnOffsetEdges and FilletAtCases |
| Fillet.FilletAt | pneurouter.py:42-95 | definition of one iteration of the vertex loop: `[L p]` at an open end or when a raw neighbour coincides, division by zero when an offset neighbour coincides, else the clamped corner commands; stated by FilletAtShape, FilletAtCases and FilletErrorMeansCoincidentOffsets |
| Fillet.FilletAtCases | pneurouter.py:49-80 | at a vertex that is not an open end and whose offset neighbours are apart from it, the commands are `[L p]` exactly when L1 or L2 is 0 (the raw angle is None) or the tangent angle θ satisfies θ < 1e-3 or abs(π − θ) < 1e-3, and a line followed by one cubic exactly otherwise |
| Fillet.FilletCmds | pneurouter.py:40-96 | definition of the commands of the first k vertices, stopping at the first division by zero; stated by ComputeFillet, ErrorPersists, FilletCount and FirstCommandKept |
| Fillet.FilletCmdsErrorAt | pneurouter.py:40-96 | when the fillet of the first k vertices fails, the iteration of one of those vertices raised |
| Fillet.FilletCmdsErrorCause | pneurouter.py:40-96 | when the fillet of the first k vertices fails, one of those vertices is not an open end and has an offset neighbour on top of it |
| Fillet.AppendVertex | pneurouter.py:42-95 | one iteration appends the vertex's commands to those already built and extends the prefix |
| Fillet.ComputeFillet | pneurouter.py:30-96 | the loop with its `continue` branches computes the fillet commands of all vertices, stopping at the first division by zero |
| Fillet.ErrorPersists | pneurouter.py:40-96 | once a vertex raises, every longer prefix has the same error |
| Fillet.FilletCmdsErrors | pneurouter.py:65-73 | the fillet of a loop fails only by dividing by zero |
| Fillet.FilletCount | pneurouter.py:42-95 | m vertices give between m and 2m commands |
| Fillet.FirstCommandKept | pneurouter.py:40-46 | the first vertex's commands stay at the front of every longer prefix |
| Fillet.OpenEndsAreLines | pneurouter.py:43-46 | on an open path, the commands start with `("L", pts_loop[0])` and end with `("L", pts_loop[-1])` |
| Fillet.FilletErrorMeansCoincidentOffsets | pneurouter.py:65-73 | a vertex fails only if it is not an open end and an offset neighbour coincides with it (d1 or d2 is 0) |
| Fillet.ExteriorOnlyWhenStraight | pneurouter.py:36-62 | the raw angle lies in [0, π], so the inner radius is chosen at every corner except where the raw path runs straight on through the vertex (u and v opposite, angle exactly π) |
| Fillet.ClampBounds | pneurouter.py:69 | the clamped radius is non-negative and at most half of each adjacent offset edge; it is r when r fits and 0.5 · min(d1, d2) otherwise |
| Fillet.StepAlongEdge | pneurouter.py:72-76 | p + ((q − p) / d) · r is the point a fraction r / d of the way from p to q |
| Fillet.ArcOnOffsetEdges | pneurouter.py:63-76 | where a vertex gets an arc, the arc start lies on the edge toward the previous offset vertex and the arc end on the edge toward the next one, each at a fraction of at most one half |
| Pneurouter.FlattenAppend | pneurouter.py:122-129 | flattening distributes over concatenation |
| Pneurouter.FlattenNumbers | pneurouter.py:122-129 | after flattening only numbers remain: one per number and two per pair |
| Pneurouter.FlattenIdempotent | pneurouter.py:122-129 | flattening an already flat list changes nothing |
| Pneurouter.FlattenRawArgs | pneurouter.py:119-129 | flattening a fillet command's own arguments gives its SVG arguments: 2 numbers for L, 6 for C |
| Pneurouter.FlattenArgs | pneurouter.py:122-129 | the inner loop flattens the arguments one level |
| Pneurouter.PathCommands | pneurouter.py:110-132 | definition of `build_path`'s output; stated by PathCommandsShape and BuildPath |
| Pneurouter.PathCommandsShape | pneurouter.py:110-132 | the output has one command per input command plus a final `['Z', []]`; with `move_first`, the first command is `['M', cmds[0][1]]`; every later command keeps its letter and flattens its points in order into numbers: x, y of the point for L, and c1, c2 and the end for C (6 numbers, the last two the curve's end) |
| Pneurouter.PathCommandAt | pneurouter.py:110-132 | command k of the output (k not the leading M) is the input command's letter with its flattened numbers |
| Pneurouter.FlatArgsShape | pneurouter.py:119-129 | the flattened numbers of an L are the point's x and y; those of a C are c1, c2 and the end's x and y, six in all, every one a number |
| Pneurouter.BuildPath | pneurouter.py:110-132 | the nested loops of `build_path` compute `PathCommands` |
| Pneurouter.FilletAndAssemble | pneurouter.py:255-276 | both `compute_fillet` calls, then the two loops for a closed input, or `build_path(left_loop + reversed(right_loop))` for an open one |
| Pneurouter.OpenOutline | pneurouter.py:270-276 | definition of the open ribbon: `build_path(left_loop + reversed(right_loop))`; stated by OpenOutlineEnds and OpenStage |
| Pneurouter.FilletStage | pneurouter.py:255-276 | definition of both `compute_fillet` calls and the output branch; stated by FilletStageErrors, FilletStageErrorCause, ClosedStage and OpenStage |
| Pneurouter.RibbonOutline | pneurouter.py:164-276 | definition of the effect from the extracted points on; stated by Effect, RibbonErrors, RibbonZeroLength, RibbonZeroDivision and OpenRibbon |
| Pneurouter.Effect | pneurouter.py:175-276 | the effect from the extracted points on computes `RibbonOutline` |
| Pneurouter.OffsetAndAssemble | pneurouter.py:208-276 | once the segment table is built, the offset loop and the fillet stage together compute the fillet stage on the two offset sides at ±half_w |
| Pneurouter.RibbonOutlineAfterTable | pneurouter.py:183-276 | on two or more points with a segment table, the effect is the fillet stage on the offset sides at ±half_w built from that table |
| Pneurouter.FilletStageErrors | pneurouter.py:255-256 | the fillet stage fails only by dividing by zero |
| Pneurouter.FilletStageErrorCause | pneurouter.py:255-256 | when the fillet stage fails, the error is a division by zero and some vertex of the left or the right offset side has an offset neighbour on top of it |
| Pneurouter.ClosedStage | pneurouter.py:255-268 | a closed input keeps the left loop as the outer and the right loop as the inner, each with n to 2n commands |
| Pneurouter.OpenOutlineEnds | pneurouter.py:270-276 | for fillet lists that start and end with lines, the outline is M to the first left point, the last left and last right points as consecutive L commands, L to the first right point, then Z |
| Pneurouter.OpenStage | pneurouter.py:270-276 | the open ribbon starts with M at left[0], joins left[n−1] to right[n−1] with consecutive lines, ends with L right[0] and then Z |
| Pneurouter.RibbonErrors | pneurouter.py:164-167 | the effect reports too few points exactly when there are fewer than 2 |
| Pneurouter.RibbonTableError | pneurouter.py:183-256 | on two or more points, the effect reports a zero-length segment exactly when the segment table does; the later stages never report one |
| Pneurouter.RibbonZeroLength | pneurouter.py:164-193 | with a lawful hypot, the effect reports a zero-length segment exactly when there are at least 2 points and two consecutive points coincide |
| Pneurouter.RibbonZeroDivision | pneurouter.py:198-256 | with a lawful hypot, a division by zero happens only on a closed path whose last point is its first (line 204), or when the table is built and some vertex of an offset side has an offset neighbour on top of it (lines 72-73 via 255-256) |
| Pneurouter.RibbonCollapseAt | pneurouter.py:208-256 | when the table is built and the effect still divides by zero, it names a vertex i of the input whose left or right offset point has an offset neighbour on top of it |
| Pneurouter.TableZeroDivision | pneurouter.py:198-206 | when the segment table itself fails and the effect divides by zero, the path is closed and its last point is its first |
| Pneurouter.StageErrorsDivide | pneurouter.py:255-256 | once the segment table is built, the only error the effect can still report is a division by zero |
| Pneurouter.OpenRibbon | pneurouter.py:223-276 | on an open path, the ribbon's flat caps are the end points shifted by ±half_w along the first and last normals, in the order M start-left … end-left, end-right … start-right, Z |
| OffsetOnly.PolygonCommands | pneurouter_offset_only.py:175-178 | a polygon is M to point 0, L to each later point, then Z: n + 1 commands |
| OffsetOnly.Polygon | pneurouter_offset_only.py:175-178 | definition of `[["M", pts[0]]] + [["L", p] for p in pts[1:]] + [["Z", []]]`; stated by PolygonCommands, PolygonVertices and ClosedLoopPath |
| OffsetOnly.PolygonVertices | pneurouter_offset_only.py:173-192 | a polygon visits exactly its points, in order |
| OffsetOnly.AppendLines | pneurouter_offset_only.py:176-177 | the loop appends `["L", p]` for every point, in order |
| OffsetOnly.ClosedLoopPath | pneurouter_offset_only.py:175-178 | the closed-branch loop builds the polygon through the given points |
| OffsetOnly.OpenRibbonPath | pneurouter_offset_only.py:195-201 | the open-branch loops build the polygon through `left_pts + reversed(right_pts)` |
| OffsetOnly.Effect | pneurouter_offset_only.py:61-201 | the effect from the extracted points on computes `OffsetOutline` |
| OffsetOnly.OffsetOutline | pneurouter_offset_only.py:61-201 | definition of the offset-only effect: too few points, then the segment table's error, else the polygons of the offset sides at ±width / 2; stated by Effect, FromTable and PolygonsShape |
| OffsetOnly.Polygons | pneurouter_offset_only.py:173-201 | definition of the output branch: two polygons through left_pts and right_pts when closed, one through left_pts + reversed(right_pts) otherwise; stated by Assemble and PolygonsShape |
| OffsetOnly.FromTable | pneurouter_offset_only.py:115-201 | the effect after the segment table stops on its error, or builds the offsets and the polygons |
| OffsetOnly.OffsetAndAssemble | pneurouter_offset_only.py:115-201 | the offset loop followed by the output branch gives the polygons of the two offset sides |
| OffsetOnly.Assemble | pneurouter_offset_only.py:173-201 | the output branch: two polygons when closed, one outline otherwise |
| OffsetOnly.PolygonsShape | pneurouter_offset_only.py:173-201 | closed: two polygons of n + 1 commands, the outer through `left_pts` and the inner through `right_pts`; open: one outline of 2n + 1 commands through left ++ reverse(right) |
| OffsetOnly.TwoPointRectangle | pneurouter_offset_only.py:131-151 | an open two-point path gives the rectangle p0 + h·n, p1 + h·n, p1 − h·n, p0 − h·n, with flat caps |
| SvgPath.ApplyCommand | svg_layer_parser.py:62-95 | one iteration of the command loop computes `Step` on the collected points and the current point |
| SvgPath.Step | svg_layer_parser.py:62-95 | definition of one command of the walk, one branch per letter; stated by ApplyCommand, StepAppends, CloseIgnored, HorizontalAndVertical, CurvePoints and LineToPoints |
| SvgPath.PathPoints | svg_layer_parser.py:57-96 | definition of `_points_from_path`'s result: the walk from (0, 0) over the commands, each point transformed; stated by PointsFromPath, TraceCount and CurrentIsLastPoint |
| SvgPath.AddPairs | svg_layer_parser.py:64-68 | the pair loop appends one point per coordinate pair, drops a trailing odd argument, and moves the current point to the last pair when asked to |
| SvgPath.PointsFromPath | svg_layer_parser.py:57-96 | `_points_from_path` computes `PathPoints`: the walk from (0, 0), with the transform applied to each point |
| SvgPath.StepAppends | svg_layer_parser.py:61-95 | a command only appends points: its contribution, after the points already collected |
| SvgPath.TraceCount | svg_layer_parser.py:57-96 | the number of points is the sum of the commands' contributions, and the transform is applied pointwise, so length and order are kept |
| SvgPath.RunAppend | svg_layer_parser.py:61-95 | walking a + b is walking a, then b from where a ended |
| SvgPath.PrefixPoints | svg_layer_parser.py:59-95 | the points of a prefix of the commands are a prefix of the points |
| SvgPath.RunKeeps | svg_layer_parser.py:61-95 | points already collected are never removed |
| SvgPath.CloseIgnored | svg_layer_parser.py:94-95 | Z adds no point and leaves the current point unchanged |
| SvgPath.CurrentIsLastPoint | svg_layer_parser.py:60-93 | for commands with their SVG argument counts, the current point is the last point collected, or (0, 0) before any |
| SvgPath.HorizontalAndVertical | svg_layer_parser.py:69-78 | H v adds (v, y of the last point) and V v adds (x of the last point, v) |
| SvgPath.StartsAtOrigin | svg_layer_parser.py:60 | a leading H or V takes its other coordinate from (0, 0) |
| SvgPath.CurvePoints | svg_layer_parser.py:79-93 | C adds all three pairs and moves to its third; S and Q add both pairs and move to the last; A adds only its end point and moves there |
| SvgPath.LineToPoints | svg_layer_parser.py:64-68 | M, L and T add one point per argument pair, in order, and move to the last pair |
| SvgLayer.CommasToSpaces | svg_layer_parser.py:135 | every comma becomes a space and nothing else changes |
| SvgLayer.TokenLength | svg_layer_parser.py:135 | a token runs up to the first whitespace character |
| SvgLayer.SplitTokens | svg_layer_parser.py:135 | `split()` gives non-empty tokens without whitespace, whose concatenation is the input without whitespace |
| SvgLayer.Split | svg_layer_parser.py:135 | definition of `str.split()` with no separator; stated by SplitTokens, SplitStepTokens, GapsCount, GapsAllSpace, GapsNonEmpty and SplitMaximal |
| SvgLayer.SplitStepTokens | svg_layer_parser.py:135 | on a string with a non-whitespace character, the first token starts after the leading whitespace, is non-empty and runs to the next whitespace character; the remaining tokens are those of the rest |
| SvgLayer.SplitStepGaps | svg_layer_parser.py:135 | the first gap is the leading whitespace and the remaining gaps are those of what follows the first token |
| SvgLayer.SplitStepParts | svg_layer_parser.py:135 | the string is its leading whitespace, its first token and the rest, and the rest starts with whitespace when it is not empty |
| SvgLayer.GapsCount | svg_layer_parser.py:135 | there is one whitespace gap more than there are tokens |
| SvgLayer.GapsAllSpace | svg_layer_parser.py:135 | every gap consists of whitespace only |
| SvgLayer.GapsNonEmpty | svg_layer_parser.py:135 | every gap between two tokens (all but the first and the last) is non-empty |
| SvgLayer.SplitMaximal | svg_layer_parser.py:135 | the input is exactly its gaps and its tokens interleaved, so with GapsAllSpace, GapsNonEmpty and SplitTokens the tokens are the maximal runs of non-whitespace characters |
| SvgLayer.PointsFromAttr | svg_layer_parser.py:131-143 | the method computes `AttrPoints` |
| SvgLayer.PointsOfTokens | svg_layer_parser.py:136-142 | the index-stepping loop computes `PairPoints` over the tokens |
| SvgLayer.PairPoints | svg_layer_parser.py:136-142 | definition of the pair loop: `(float(raw[i]), float(raw[i + 1]))` transformed for i = 0, 2, …, skipping a pair where either parse fails; stated by PointsOfTokens, PairPointsAppend, TrailingTokenIgnored and PairPointsCount |
| SvgLayer.AttrPoints | svg_layer_parser.py:131-143 | definition of `_points_from_points_attr`: nothing for a missing or empty attribute, else the pairs of the tokens of the attribute with commas as spaces; stated by PointsFromAttr and AttrPointsBound |
| SvgLayer.PairPointsAppend | svg_layer_parser.py:136-142 | pairing distributes over a concatenation whose first part has an even length |
| SvgLayer.TrailingTokenIgnored | svg_layer_parser.py:136 | a trailing odd token adds nothing |
| SvgLayer.PairPointsCount | svg_layer_parser.py:136-143 | at most tokens / 2 points; exactly that many when every token parses |
| SvgLayer.AttrPointsBound | svg_layer_parser.py:131-143 | a missing or empty attribute gives no points; otherwise at most half as many points as tokens |
| SvgLayer.LeadingSpace | svg_layer_parser.py:54 | the whitespace at the front of a string |
| SvgLayer.TrailingSpace | svg_layer_parser.py:54 | the whitespace at the back of a string |
| SvgLayer.Strip | svg_layer_parser.py:54 | definition of `str.strip()`; stated by StripShape, StripPadded and StripBlank |
| SvgLayer.StripShape | svg_layer_parser.py:54 | `strip()` returns a slice with only whitespace around it, and the slice starts and ends with non-whitespace |
| SvgLayer.StripPadded | svg_layer_parser.py:54 | a word padded with whitespace strips back to the word |
| SvgLayer.StripBlank | svg_layer_parser.py:54 | an all-whitespace string strips to "" |
| SvgLayer.IsFilled | svg_layer_parser.py:45-55 | definition of `is_filled`; stated by FillPrecedence, FilledUnlessNone and BlankNotFilled |
| SvgLayer.FillPrecedence | svg_layer_parser.py:46-53 | a style `fill` decides regardless of the attribute; without it the attribute decides; with neither the element is not filled |
| SvgLayer.FilledUnlessNone | svg_layer_parser.py:45-55 | an element whose fill is a word padded with whitespace is filled iff the word is not "none" in any case |
| SvgLayer.BlankNotFilled | svg_layer_parser.py:54-55 | a fill made only of whitespace is not filled |
| SvgLayer.FirstIndex | svg_layer_parser.py:169-170 | the index of the first "}" of the tag |
| SvgLayer.ElementType | svg_layer_parser.py:165-171 | path elements give "path"; a tag with "}" gives what follows its first "}"; any other tag is returned unchanged |
| SvgLayer.LocalName | svg_layer_parser.py:169-170 | `{ns}local`, with no "}" in ns, gives local |
| SvgLayer.LabelOf | svg_layer_parser.py:40 | definition of a layer's label: `inkscape:label` when present and not empty, else `label`; used by GetLayerByName |
| SvgLayer.GetLayerByName | svg_layer_parser.py:38-43 | returns the first layer whose inkscape:label (or else `label`) equals the name, and None iff no layer matches |
| SvgLayer.Numbers | svg_layer_parser.py:99-102 | reads each attribute, with 0 when it is missing; fails iff some present attribute does not parse |
| SvgLayer.RectCorners | svg_layer_parser.py:103 | the corners go round from (x, y): right by w, down by h, left by w, up by h |
| SvgLayer.AxisPoints | svg_layer_parser.py:118 | the four points are +rx and +ry from the centre, and opposite points are symmetric about it |
| SvgLayer.AxisPointsOnEllipse | svg_layer_parser.py:113-119 | all four points lie on the ellipse of radii rx and ry |
| SvgLayer.CirclePointsOnCircle | svg_layer_parser.py:106-111 | all four points of a circle are at distance r from its centre |
| SvgLayer.RectPoints | svg_layer_parser.py:98-104 | definition of `_points_from_rect`: the transformed corners, None where `float()` raises; stated by RectCorners and RectDefaults |
| SvgLayer.CirclePoints | svg_layer_parser.py:106-111 | definition of `_points_from_circle`: the four transformed axis points with rx = ry = r; stated by AxisPoints, CirclePointsOnCircle and CircleDefaults |
| SvgLayer.EllipsePoints | svg_layer_parser.py:113-119 | definition of `_points_from_ellipse`; stated by AxisPoints, AxisPointsOnEllipse and EllipseDefaults |
| SvgLayer.LinePoints | svg_layer_parser.py:121-129 | definition of `_points_from_line`: the two transformed end points; stated by LineDefaults |
| SvgLayer.NoAttributes | svg_layer_parser.py:99-102 | with no attributes every number is 0 |
| SvgLayer.RectDefaults | svg_layer_parser.py:98-104 | a rect without attributes gives four copies of the transformed origin |
| SvgLayer.CircleDefaults | svg_layer_parser.py:106-111 | a circle without attributes gives four copies of the transformed origin |
| SvgLayer.EllipseDefaults | svg_layer_parser.py:113-119 | an ellipse without attributes gives four copies of the transformed origin |
| SvgLayer.LineDefaults | svg_layer_parser.py:121-129 | a line without attributes gives two copies of the transformed origin |

## Left out

- Inkscape plugin plumbing is not modelled: option parsing, the selection checks, `inkex.errormsg` and the debug message at pneurouter.py:277, styles, `PathElement`/`Path` construction and `parent.add`. Each effect starts from the extracted points and a `closed` flag.
- The M/L point-extraction loop of both effects (pneurouter.py:151-162) is not modelled. It depends on inkex's `to_absolute` and `apply_to_point`, and its points are the effects' input.
- The closed branch of pneurouter.py (262-268) wraps whole fillet command tuples inside `Path(...)`, and their meaning is up to inkex. The model returns the two fillet command lists instead.
- Pneurouter.FilletAndAssemble reverses the right loop's commands but keeps each cubic's control points in their original order. The model makes no claim that reversed curves are geometrically right.
- Fillet.ArcCommands: k = 4/3 · tan(φ/2) is an uninterpreted real. The model does not show that the control points approximate a circular arc.
- Floating point is exact real arithmetic. The thresholds 1e-6 and 1e-3 are real constants, and `math.pi` is its decimal value. IEEE rounding of hypot, acos and tan is not modelled.
- pneurouter_offset_only.py computes `fillet_pct`, `design_r`, `outer_r` and `inner_r` but never uses them, so the offset-only model leaves them out.
- svg_layer_parser.py's XPath layer listing (32-36) is not modelled; GetLayerByName takes the list of layers. Also not modelled: `load_svg`, the ElementTree output and `json.dumps` (173-212), and the `__main__` block.
- `node_locations` (145-163) is not modelled, because it dispatches on inkex classes and `hasattr`. Each shape's function is modelled on its own.
- `to_absolute` is part of inkex; SvgPath takes the commands as absolute already.
- `composed_transform`/`apply_to_point` are a parameter `tf`.
- `float()` is a parameter `parse`. A `ValueError` raised by `float()` in a shape attribute becomes `None`, because the source does not catch it.
- SvgLayer.Lower lowers ASCII letters only. Python's `str.lower` is Unicode-aware, which does not change the comparison with "none" and "".
- SvgLayer.IsSpace is the whitespace set of Python's `str.split()`/`str.strip()`, Unicode separators included. Strings are sequences of code points, so no decoding is modelled.
- `element_type` decides "path" with `isinstance`, which the model takes as a boolean parameter.
