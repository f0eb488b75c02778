# Voltage, modelled in Dafny

Voltage drives a vector display, an oscilloscope in X/Y mode, through two DACs. One DAC gives the beam position and an optional third gives the beam brightness. A frame works like this:

- The application adds 2D lines and points, or 3D objects. The object pipeline turns the objects into lines.
- The renderer clips the lines to a viewport with the Liang-Barsky clip and keeps the points inside it.
- It rasterises every line with Bresenham's algorithm into a stream of DAC writes. Between lines it inserts blanking transits and brightness writes.

This project models the integer, index and clipping logic of that cycle:

- the fixed-capacity `Buffer` every stage allocates from;
- the Liang-Barsky and Cyrus-Beck clips;
- the rasterizer and the DAC scale arithmetic;
- the Renderer and the older Engine frame loops, as traces of device writes;
- the brightness transforms;
- the shared mesh topology: edge de-duplication, owning faces and per-face edge lists;
- the mesh builder's plane and cube tables, edge cache, midpoint cache, subdivision round and icosphere size formulas;
- the object pipeline's visibility, culling, near/far clip bookkeeping, perspective divide and line emission;
- the `utils.h` matrix helpers;
- the kaleidoscope effect, the scanline effect and the emulator's pixel writer;
- the Wavefront OBJ converter script.

Modelling conventions:

- Floating-point numbers are modelled as exact reals, and every `(uint32_t)` cast of a non-negative value as `Floor`.
- Pointers into the mesh become indices.
- Each device write becomes an event on one trace (`Writers.Device`). That makes the order of position and brightness writes observable.
- The camera, the model matrices and the near/far clipper are not part of this model. They are inputs: each face's angle to the camera, the transformed vertices, a `clip` function returning the clip classification and the new endpoints, and a `divide` function for the perspective divide.

Each core source file has its own module:

| source | module |
|---|---|
| Voltage/src/Array.h | `Arrays` (arrays.dfy) |
| Voltage/src/Writer.h | `Writers` (writers.dfy) |
| Voltage/Renderer.h | `DacScale` (dac_scale.dfy) |
| Voltage/src/Clipper.h | `Clipper` (clipper.dfy) |
| Voltage/src/Rasterizer.h, Rasterizer.cpp | `Rasterizing` (rasterizer.dfy) |
| Voltage/src/Renderer.h brightness transforms | `Brightness` (brightness.dfy) |
| Voltage/src/Renderer.cpp filters and viewport | `Frames` (frame.dfy) |
| Voltage/src/Renderer.cpp, Renderer.h | `Rendering` (renderer.dfy) |
| Voltage/src/Engine.cpp | `Engines` (engine.dfy) |
| Voltage/src/Object.h | `Objects` (object.dfy) |
| Voltage/src/Mesh.cpp | `Meshes` (mesh.dfy) |
| Voltage/src/MeshBuilder.h | `MeshBuilder` (mesh_builder.dfy) |
| Voltage/src/ObjectPipeline.cpp | `ObjectPipelines` (object_pipeline.dfy) |
| Voltage/src/utils.h, Utils.h | `MatrixUtils` (matrix_utils.dfy) |
| Voltage/src/Kaleidoscope.h | `CyrusBeck` (kaleidoscope.dfy) |
| Voltage/src/extra/Kaleidoscope.h, .cpp | `Kaleidoscopes` (kaleidoscope_process.dfy) |
| Voltage/src/ScanlineEffectRenderer.h | `Scanlines` (scanline.dfy) |
| emulator/SDL2Writer.h | `PixelWriters` (pixel_writer.dfy) |
| utils/parse-obj.py | `ObjConverter` (obj_converter.dfy) |

`Geometry`, `RealArith` and `Wrappers` hold the shared vectors, real-arithmetic facts and the `Option` type.

Clipper.h's `clipLine` returns `false` on every path, and `Matrix3Multiply` in utils.h has a misread entry (see Findings). The rest of the model uses the corrected versions, `Clipper.ClipSegment` and `MatrixUtils.Matrix3Multiply`. `Frames.FilterLinesAsWritten` states what the Renderer does with the clip as written.

## Model

| member | source | states |
|---|---|---|
| Arrays.FixedArray.constructor | Voltage/src/Array.h:18 | a new Array has exactly the requested capacity |
| Arrays.FixedArray.FromList | Voltage/src/Array.h:19-21 | the initializer-list constructor gives capacity = list length and the elements in list order |
| Arrays.FixedArray.Get | Voltage/src/Array.h:23 | the unchecked read needs index < capacity and returns that element |
| Arrays.FixedArray.Set | Voltage/src/Array.h:23 | a write through the returned reference changes that element only |
| Arrays.Buffer.Contents | Voltage/src/Array.h:29-35 | the live contents are the first `index` elements; their count is getSize() |
| Arrays.Buffer.constructor | Voltage/src/Array.h:32 | a new Buffer is empty with the requested capacity |
| Arrays.Buffer.Get | Voltage/src/Array.h:34 | the unchecked read needs index < capacity; below the size it is the pushed element |
| Arrays.Buffer.Set | Voltage/src/Array.h:34 | a write below the size replaces that entry and keeps the size |
| Arrays.Buffer.Clear | Voltage/src/Array.h:36 | clear empties the contents; capacity and stored elements are untouched (only `index` is modified) |
| Arrays.Buffer.Push | Voltage/src/Array.h:37 | push needs size < capacity, stores the element at the old size, grows the size by one, changes no other slot, and the new last element is the pushed one |
| Arrays.Buffer.GetLast | Voltage/src/Array.h:38 | getLast needs a non-empty buffer and returns the most recently pushed element |
| Writers.Device.constructor | Voltage/src/Writer.h:8-21 | a fresh device has recorded no writes and reports the two writers' maximum values |
| Writers.Device.WritePosition | Voltage/src/Writer.h:18-21 | a DualDACWriter write appends exactly one position event |
| Writers.Device.WriteLevel | Voltage/src/Writer.h:13-16 | a SingleDACWriter write appends exactly one level event |
| DacScale.ScaleBits | Voltage/Renderer.h:13-19 | scaleBits is computed in `uint8_t` and so stays below 256 |
| DacScale.ScaleBitsWraps | Voltage/Renderer.h:13-19 | for resolutionBits <= 12 the two widths sum to 12; above 12 the subtraction wraps to 268 - resolutionBits |
| DacScale.ShiftInRange | Voltage/Renderer.h:13-19 | a coordinate below 2^resolutionBits shifted by scaleBits lands below 2^12 |
| DacScale.ShiftInjective | Voltage/Renderer.h:15-19 | distinct device coordinates give distinct DAC values |
| DacScale.ShiftMonotone | Voltage/Renderer.h:15-19 | the shift preserves the order of coordinates |
| Clipper.NarrowMonotone | Voltage/src/Clipper.h:12-35 | an accepting clipTest never lowers u1 nor raises u2, keeps u1 <= u2, and leaves each bound either unchanged or where p*t = q |
| Clipper.NarrowBounds | Voltage/src/Clipper.h:16-29 | each bound an accepting clipTest leaves is the old bound or the ratio q/p |
| Clipper.NarrowExact | Voltage/src/Clipper.h:12-35 | the interval left by clipTest is exactly the old interval cut by the constraint p*t <= q; a rejection means that cut is empty (p<0: rejects iff q/p > u2; p>0: iff q/p < u1; p=0: iff q<0) |
| Clipper.VisibleIsFourConstraints | Voltage/src/Clipper.h:45-49 | a point of the segment lies in the viewport iff it meets the four constraints the tests check |
| Clipper.ClipFromExact | Voltage/src/Clipper.h:45-49 | the chain of tests leaves exactly the part of the interval meeting their constraints, and rejects exactly when that part is empty |
| Clipper.ClipParamsExact | Voltage/src/Clipper.h:40-49 | starting from [0, 1], the interval left is exactly the set of parameters whose point is in the viewport; a rejection means no point is |
| Clipper.ClipEndsAt | Voltage/src/Clipper.h:50-57 | within [0, 1] the two rewrites put b at the exit point and a at the entry point, both measured from the original a |
| Clipper.ParamsVisible | Voltage/src/Clipper.h:40-57 | the entry and exit parameters name visible points of the segment |
| Clipper.ClippedIsVisiblePart | Voltage/src/Clipper.h:40-57 | the clipped segment runs between the points at the entry and exit parameters and lies inside the viewport |
| Clipper.InsideSegmentUnchanged | Voltage/src/Clipper.h:40-57 | a segment inside the viewport keeps u1 = 0, u2 = 1 and is left unchanged |
| Clipper.OutsideNotVisible | Voltage/src/Clipper.h:45-49 | no point of a segment with both ends beyond one boundary is visible |
| Clipper.OutsideSegmentRejected | Voltage/src/Clipper.h:45-49 | a segment with both ends beyond one boundary is rejected |
| Clipper.TightOnBoundary | Voltage/src/Clipper.h:45-49 | where a test's constraint is tight, the point lies on that test's boundary line |
| Clipper.ParamsTight | Voltage/src/Clipper.h:40-49 | each final bound is an end of the segment or tight for one test |
| Clipper.ClippedEndsOnBoundary | Voltage/src/Clipper.h:50-57 | each end of a clipped segment is an original endpoint or lies on the viewport boundary |
| Clipper.ClipTest | Voltage/src/Clipper.h:12-35 | the method returns acceptance exactly as the narrowing function says, writes back the narrowed bounds on acceptance, leaves them on rejection, and never widens them |
| Clipper.MoveEnds | Voltage/src/Clipper.h:50-57 | the rewrites of b (if u2 < 1) then a (if u1 > 0) give the clipped ends |
| Clipper.ClipSegment | Voltage/src/Clipper.h:39-61 | with the intended result: true exactly when all four tests pass, with the ends rewritten to the visible part; on rejection a and b are unchanged |
| Clipper.ClipLine | Voltage/src/Clipper.h:39-63 | as written: the same rewrites, but the result is false on every path |
| Clipper.InsideSegmentReportedRejected | Voltage/src/Clipper.h:62 | a segment inside the viewport is kept unchanged yet reported rejected |
| Clipper.ClipExample | Voltage/src/Clipper.h:45-57 | (-2,0)-(2,0) against {-1,1,1,-1} becomes (-1,0)-(1,0) |
| Rasterizing.HalfScale | Voltage/src/Rasterizer.h:14-15 | scaleValueHalf is the floor of half the writer's maximum: 2*half <= maxValue <= 2*half + 1 |
| Rasterizing.TransformLandmarks | Voltage/src/Rasterizer.cpp:82-84 | transform maps -1, 0 and 1 to 0, half and 2*half |
| Rasterizing.TransformRange | Voltage/src/Rasterizer.cpp:82-84 | on [-1, 1] the unsigned cast is defined, transform is non-decreasing and stays within [0, maxValue] |
| Rasterizing.DecisionStep | Voltage/src/Rasterizer.cpp:50-55 | the minor coordinate advances exactly when D > 0, and D then moves by 2(dy - dx), otherwise by 2dy |
| Rasterizing.DecisionStart | Voltage/src/Rasterizer.cpp:45-46 | the loop starts at offset 0 with D = 2dy - dx |
| Rasterizing.NearestIdeal | Voltage/src/Rasterizer.cpp:45-56 | the visited minor coordinate is the one nearest the ideal line (within half a unit) |
| Rasterizing.OffsetAtMost | Voltage/src/Rasterizer.cpp:48-56 | within the line the minor coordinate never passes the far end |
| Rasterizing.OffsetEnd | Voltage/src/Rasterizer.cpp:48-56 | after the full major span the minor coordinate has moved exactly its span |
| Rasterizing.OffsetSteps | Voltage/src/Rasterizer.cpp:50-55 | each step moves the minor coordinate by 0 or 1 |
| Rasterizing.LowPoints | Voltage/src/Rasterizer.cpp:48 | the shallow routine visits exactly x1 - x0 points |
| Rasterizing.HighPoints | Voltage/src/Rasterizer.cpp:71 | the steep routine visits exactly y1 - y0 points |
| Rasterizing.Emit | Voltage/src/Rasterizer.cpp:49-72 | one write per visited point |
| Rasterizing.EmitAppend | Voltage/src/Rasterizer.cpp:49-72 | the writes of a longer point list extend those of the shorter by the shifted new point |
| Rasterizing.LinePointsSymmetric | Voltage/src/Rasterizer.cpp:15-34 | drawLine(a, b) and drawLine(b, a) produce identical write sequences |
| Rasterizing.LinePointsCount | Voltage/src/Rasterizer.cpp:21-71 | drawLine writes once per unit of the longer axis, and nothing when both endpoints map to the same device point |
| Rasterizing.MinorShape | Voltage/src/Rasterizer.cpp:39-56 | the minor coordinate starts at its first endpoint, stays between the two ends, changes by at most one per step, and ends within one step of the far end |
| Rasterizing.LowPointsShape | Voltage/src/Rasterizer.cpp:36-57 | drawLineLow writes x = x0 .. x1 - 1 in order, y starts at y0, moves by 0 or yi each step, never passes y1, and the endpoint x1 is not written |
| Rasterizing.HighPointsShape | Voltage/src/Rasterizer.cpp:59-80 | drawLineHigh is the mirror image: y runs y0 .. y1 - 1, x steps by 0 or xi and stays between x0 and x1 |
| Rasterizing.Rasterizer.constructor | Voltage/Renderer.h:13-19 | binds the one writer and fixes scaleValueHalf from its maximum, as Rasterizer.h lines 14-15 do; fixes scaleBits as 12 - resolutionBits, the way Voltage/Renderer.h computes it, from the resolution Engine.h line 32 passes |
| Rasterizing.Rasterizer.DrawPoint | Voltage/src/Rasterizer.cpp:9-11 | exactly one write, of the transformed coordinates shifted by scaleBits, and nothing else |
| Rasterizing.Rasterizer.DrawLine | Voltage/src/Rasterizer.cpp:15-34 | the writes are those of the shallow or steep routine, run with the major coordinate increasing |
| Rasterizing.Rasterizer.DrawLineLow | Voltage/src/Rasterizer.cpp:36-57 | the loop appends exactly the closed-form shallow points, shifted, with D kept equal to its closed form |
| Rasterizing.Rasterizer.DrawLineHigh | Voltage/src/Rasterizer.cpp:59-80 | the loop appends exactly the closed-form steep points, shifted |
| Brightness.ApplyLandmarks | Voltage/src/Renderer.h:30-36 | the linear transform maps 0 to 0 and 1 to maxValue; the inverted one maps 0 to maxValue and 1 to 0 |
| Brightness.LinearRange | Voltage/src/Renderer.h:30 | on [0, 1] the linear transform is defined, non-decreasing and at most maxValue |
| Brightness.InvertedRange | Voltage/src/Renderer.h:36 | on [0, 1] the inverted transform is defined, non-increasing and at most maxValue |
| Brightness.ApplyRange | Voltage/src/Renderer.h:27-37 | both transforms stay within [0, maxValue] on [0, 1]; the linear one is non-decreasing, the inverted one non-increasing |
| Brightness.EngineLevelIsInverted | Voltage/src/Engine.cpp:99-101 | transformBrightness is the inverted linear transform for maxValue 4095: 0 gives 4095, 1 gives 0 |
| Brightness.RampCountFirst | Voltage/src/Renderer.cpp:82-85 | with exact arithmetic the ramp takes the least number of 0.015 steps reaching the brightness |
| Brightness.RampContinues | Voltage/src/Renderer.cpp:82-85 | the ramp loop continues exactly while fewer than that many steps are done |
| Brightness.RampInDomain | Voltage/src/Renderer.cpp:82-85 | every intermediate ramp level is a defined transform when the final one is |
| Frames.ViewportLines | Voltage/src/Renderer.cpp:35-46 | addViewport adds exactly four lines |
| Frames.ViewportLinesClosed | Voltage/src/Renderer.cpp:35-46 | the four lines run (l,t), (r,t), (r,b), (l,b) at brightness 1.0, each ending where the next starts, cyclically, each along one side |
| Frames.KeptPoints | Voltage/src/Renderer.cpp:63-70 | only points with left <= x < right and bottom <= y < top are kept, each one of the input, never more than the input |
| Frames.KeptPointsAppend | Voltage/src/Renderer.cpp:63-70 | the filter keeps the original order: filtering a concatenation concatenates the filtered parts |
| Frames.KeptPointsComplete | Voltage/src/Renderer.cpp:63-70 | every point inside the half-open viewport is kept |
| Frames.ClippedLines | Voltage/src/Renderer.cpp:53-61 | with the corrected clip, the kept lines are no more than the input and lie inside the viewport |
| Frames.ClippedInViewport | Voltage/src/Clipper.h:39-63 | an accepted clip leaves both ends inside the viewport |
| Frames.ClippedLinesAppend | Voltage/src/Renderer.cpp:53-61 | the line filter keeps input order and judges each line on its own |
| Frames.InsideLinesKept | Voltage/src/Renderer.cpp:53-61 | lines inside the viewport pass unchanged, brightness included |
| Frames.FilterLines | Voltage/src/Renderer.cpp:53-61 | the loop leaves in clippedLines exactly the clipped lines, with their source brightness |
| Frames.FilterLinesAsWritten | Voltage/src/Renderer.cpp:53-61 | with clipLine as written, the loop leaves clippedLines empty |
| Frames.FilterPoints | Voltage/src/Renderer.cpp:63-70 | the loop leaves in clippedPoints exactly the kept points, in order |
| Engines.EngineLinesLevels | Voltage/src/Engine.cpp:69-75 | with a brightness writer, each clipped line is preceded by exactly one brightness write; without one there are none |
| Engines.EngineFrameLevels | Voltage/src/Engine.cpp:69-96 | a frame with a brightness writer has one level write per line, one per point and the closing one; without a writer it has none |
| Engines.EngineFinishIsOff | Voltage/src/Engine.cpp:91-101 | the closing write(4095) is the level for brightness 0 (beam off) |
| Engines.EngineLinesStep | Voltage/src/Engine.cpp:69-75 | each loop iteration appends the line's level and then its stroke |
| Engines.Engine.constructor | Voltage/src/Engine.cpp:7-18 | empty line and point buffers with the given capacities, the default viewport and blanking point |
| Engines.Engine.SetViewport | Voltage/src/Engine.cpp:7 | sets the viewport and nothing else |
| Engines.Engine.SetBlankingPoint | Voltage/src/Engine.cpp:9 | sets the blanking point and nothing else |
| Engines.Engine.Clear | Voltage/src/Engine.cpp:11-14 | empties lines and points |
| Engines.Engine.AddLine | Voltage/src/Engine.cpp:16 | appends exactly one line |
| Engines.Engine.AddPoint | Voltage/src/Engine.cpp:18 | appends exactly one point |
| Engines.Engine.AddViewport | Voltage/src/Engine.cpp:30-41 | appends the four cyclically connected viewport lines at brightness 1.0 |
| Engines.Engine.Render | Voltage/src/Engine.cpp:46-97 | render keeps the clipped lines and the half-open-contained points, leaves lines and points unchanged, and writes exactly the Engine frame: per line its level then stroke, per point its level then position, then 4095 or the blanking point |
| Engines.Engine.DrawLines | Voltage/src/Engine.cpp:69-75 | the line loop writes exactly the level-then-stroke sequence of the clipped lines |
| Engines.Engine.DrawLine | Voltage/src/Engine.cpp:70-74 | one iteration: the level (when there is a writer) then the stroke |
| Engines.Engine.DrawPoints | Voltage/src/Engine.cpp:77-82 | the point loop writes each point's level then its position |
| Engines.Engine.Finish | Voltage/src/Engine.cpp:91-96 | the frame ends with write(4095) when a brightness writer is set, otherwise with drawPoint(blankingPoint) |
| Rendering.LevelsAppend | Voltage/src/Renderer.cpp:73-116 | brightness writes of a concatenated trace add up |
| Rendering.EmitNoLevels | Voltage/src/Rasterizer.cpp:9-80 | the rasterizer never writes a brightness |
| Rendering.LinesNoLevels | Voltage/src/Renderer.cpp:74-91 | without a brightness writer the line loop writes positions only |
| Rendering.PointsLevels | Voltage/src/Renderer.cpp:97-102 | with a brightness writer each point brings one level write and one position write; without, one position write |
| Rendering.PointsEventsAt | Voltage/src/Renderer.cpp:97-102 | with a brightness writer, point i is drawn right after its own brightness write |
| Rendering.FrameWithoutWriter | Voltage/src/Renderer.cpp:51-116 | without a brightness writer a frame writes no brightness and ends with drawPoint(blankingPoint) |
| Rendering.FrameWithWriter | Voltage/src/Renderer.cpp:112-113 | with a brightness writer the last write is transform(1.0): maxValue for the linear transform, 0 for the inverted |
| Rendering.ChainedNoBlanking | Voltage/src/Renderer.cpp:76-90 | lines that follow on from each other, starting at the beam, are drawn without any blanking transit |
| Rendering.OutlineNoBlanking | Voltage/src/Renderer.cpp:35-90 | the viewport outline drawn from its top-left corner needs no transit |
| Rendering.RampShape | Voltage/src/Renderer.cpp:82-85 | the ramp writes, per step i, a drawPoint at the line start then the level of z = 0.015 i |
| Rendering.LinesEventsStep | Voltage/src/Renderer.cpp:74-91 | each iteration appends that line's writes and leaves the beam at its end |
| Rendering.PointsEventsStep | Voltage/src/Renderer.cpp:97-102 | each iteration appends the point's level (with a writer) then its position |
| Rendering.Renderer.constructor | Voltage/src/Renderer.h:39-77 | lines and clippedLines hold maxLines, points and clippedPoints maxPoints; viewport {-1,1,0.75,-0.75}, blanking point (1,1), beam (0,0), lightIntensity 10 |
| Rendering.Renderer.SetViewport | Voltage/src/Renderer.cpp:10 | sets the viewport only |
| Rendering.Renderer.SetBlankingPoint | Voltage/src/Renderer.cpp:12-14 | sets the blanking point only |
| Rendering.Renderer.Clear | Voltage/src/Renderer.cpp:16-19 | lines and points become empty |
| Rendering.Renderer.AddLine | Voltage/src/Renderer.cpp:21 | appends exactly one line |
| Rendering.Renderer.AddPoint | Voltage/src/Renderer.cpp:23 | appends exactly one point |
| Rendering.Renderer.AddViewport | Voltage/src/Renderer.cpp:35-46 | appends the four viewport lines |
| Rendering.Renderer.AddObject | Voltage/src/Renderer.cpp:25-33 | the pipeline's flags and clipped vertices are those of its stages, and the line buffer becomes the old lines followed by the emitted lines, one per drawn edge, in edge order |
| Rendering.Renderer.Render | Voltage/src/Renderer.cpp:51-117 | render leaves lines and points unchanged, keeps exactly the clipped lines and contained points, leaves the beam at the last drawn line's end (unchanged if none), and writes exactly the frame: per line a transit when needed then the stroke, beam off, per point its level and position, then the finish |
| Rendering.Renderer.DrawFrame | Voltage/src/Renderer.cpp:73-116 | the drawing half writes exactly the frame's writes |
| Rendering.Renderer.TurnOff | Voltage/src/Renderer.cpp:93-95 | with a brightness writer, one write of transform(0) |
| Rendering.Renderer.Finish | Voltage/src/Renderer.cpp:111-116 | transform(1.0) with a brightness writer, otherwise drawPoint(blankingPoint) |
| Rendering.Renderer.DrawLines | Voltage/src/Renderer.cpp:74-91 | the line loop writes exactly the lines' writes and tracks the beam |
| Rendering.Renderer.DrawClippedLine | Voltage/src/Renderer.cpp:76-90 | a transit only with a brightness writer and a beam away from the line's start, then the line; the beam ends at b |
| Rendering.Renderer.Blank | Voltage/src/Renderer.cpp:78-86 | beam off, drawLine to the start, the ramp, then the line's brightness |
| Rendering.Renderer.Ramp | Voltage/src/Renderer.cpp:82-85 | the ramp loop writes exactly the closed-form ramp |
| Rendering.Renderer.DrawPoints | Voltage/src/Renderer.cpp:97-102 | the point loop writes each point's level then its position |
| Objects.Object.constructor | Voltage/src/Object.h:21-30 | defaults: culling None, shading None, brightness 1.0, hiddenBrightness 0.5, zero rotation and translation, unit scaling |
| Objects.Object.Empty | Voltage/src/Object.h:32 | the default constructor: the same defaults with a null mesh |
| Objects.Object.SetRotation | Voltage/src/Object.h:34 | sets rotation and changes no other field |
| Objects.Object.SetTranslation | Voltage/src/Object.h:35 | sets translation and changes no other field |
| Objects.Object.SetScaling | Voltage/src/Object.h:36 | sets scaling and changes no other field |
| Objects.Object.SetUniformScaling | Voltage/src/Object.h:37 | sets all three scaling components to the one factor |
| Meshes.FaceSides | Voltage/src/Mesh.cpp:92-93 | one side per face vertex, vertex j to vertex (j + 1) mod n, so the last side closes the face |
| Meshes.Matches | Voltage/src/Mesh.cpp:79-80 | exactly the positions of the sides on an unordered vertex pair, in increasing order |
| Meshes.MatchesComplete | Voltage/src/Mesh.cpp:79-80 | every side on the pair is among its matches |
| Meshes.MatchesSymmetric | Voltage/src/Mesh.cpp:79-80 | the pair (a, b) and the pair (b, a) have the same matching sides |
| Meshes.EdgesOfShared | Voltage/src/Mesh.cpp:96-97 | a side on an existing edge sets that edge's second face, and the edge list still describes the sides seen so far |
| Meshes.EdgesOfNew | Voltage/src/Mesh.cpp:98-99 | a side on no existing edge appends a new edge owned by its face, and the edge list still describes the sides seen so far |
| Meshes.SidesInRange | Voltage/src/Mesh.cpp:89-93 | every side of a well-formed face list names a face and two vertices in range |
| Meshes.EdgesInRange | Voltage/src/Mesh.cpp:87-107 | every generated edge joins vertices in range and names faces in range |
| Meshes.FindEdge | Voltage/src/Mesh.cpp:76-85 | the first edge joining a and b in either direction, or none exactly when no edge joins them |
| Meshes.RecordSide | Voltage/src/Mesh.cpp:93-100 | after one side, the buffer holds the edge list of the sides seen so far; the buffer needs room only when the side's pair has no edge yet |
| Meshes.RecordFace | Voltage/src/Mesh.cpp:92-101 | after all sides of a face, the buffer holds the edge list of the sides seen so far; it needs room for the distinct vertex pairs only |
| Meshes.GenerateEdges | Voltage/src/Mesh.cpp:87-107 | the edges are distinct unordered pairs in first-visit order, each oriented and owned as its first side, shared with the face of its last side, covering every side, one per distinct vertex pair; the buffer needs room for the distinct pairs only |
| Meshes.FaceEdges | Voltage/src/Mesh.cpp:127-135 | the indices of edges owned by the face, strictly increasing |
| Meshes.FaceEdgesComplete | Voltage/src/Mesh.cpp:127-135 | every edge the face owns is listed |
| Meshes.AddFaceToEdgePointers | Voltage/src/Mesh.cpp:120-144 | one list per face, holding exactly the edges whose first or second face is that face, in edge order; the buffer is cleared per face, so only each face's own edges must fit in it |
| Meshes.FaceEdgesPrefix | Voltage/src/Mesh.cpp:127-133 | the edges a face owns among the first j edges are the first of those it owns among all, so the buffer never holds more than the face's own edges |
| Meshes.ClosedMeshEdgesShared | Voltage/src/Mesh.cpp:96-99 | on a closed mesh, where every side shares its pair with another side, every edge gets both faces |
| Meshes.DistinctPairCount | Voltage/src/Mesh.cpp:94-100 | an edge list without two edges on one unordered pair has as many edges as pairs |
| Meshes.EdgesOfCount | Voltage/src/Mesh.cpp:87-107 | the generated edge list has exactly one edge per distinct unordered vertex pair among the sides |
| Meshes.RoomForNew | Voltage/src/Mesh.cpp:94-99 | a side on a pair with no edge yet is pushed while the buffer is below the number of distinct pairs of all the sides, so a buffer of that size never overflows |
| Meshes.FaceRef | Voltage/src/Mesh.cpp:29-30 | an index above -1 names that face; any other index means no face |
| Meshes.Mesh.constructor | Voltage/src/Mesh.cpp:11-16 | keeps the vertices and faces, generates one edge per distinct vertex pair of the faces' sides and lists each face's edges; maxEdges need only cover the distinct pairs |
| Meshes.Mesh.WithEdges | Voltage/src/Mesh.cpp:18-34 | keeps the vertices and faces, takes all the edges from their definitions (face -1 meaning none), however many, and lists each face's edges; only each face's own edges must fit under maxEdges |
| Meshes.Mesh.Scale | Voltage/src/Mesh.cpp:70-74 | every original vertex is multiplied by the factor |
| MeshBuilder.PlaneVertices | Voltage/src/MeshBuilder.h:11-12 | the plane's four corners at plus or minus half the size on x and z |
| MeshBuilder.CubeVertices | Voltage/src/MeshBuilder.h:19-22 | the cube's eight corners at plus or minus half the size |
| MeshBuilder.TablesWellFormed | Voltage/src/MeshBuilder.h:12-13 | the plane is one quad over 4 vertices and the cube (lines 20-24) six quads over 8, every index in range; they have 4 and 24 sides |
| MeshBuilder.CreatePlane | Voltage/src/MeshBuilder.h:10-16 | a valid mesh over the plane table whose edges are generated from its sides: its 4 outline edges |
| MeshBuilder.CreateCube | Voltage/src/MeshBuilder.h:18-27 | a valid mesh over the cube table whose edges are generated from its sides: 12 edges, each with both faces set |
| MeshBuilder.PlanePairs | Voltage/src/MeshBuilder.h:12-13 | the plane's 4 sides lie on 4 distinct vertex pairs |
| MeshBuilder.CubePairs | Voltage/src/MeshBuilder.h:20-24 | the cube's 24 sides lie on exactly its 12 corner pairs: the two rings of four and the four uprights |
| MeshBuilder.CubeClosed | Voltage/src/MeshBuilder.h:20-24 | the cube is closed: every side's vertex pair is shared by another face's side |
| MeshBuilder.CubeEdges | Voltage/src/MeshBuilder.h:18-27 | generateEdges on the cube table yields 12 edges, each with both faces set |
| MeshBuilder.EdgeEqualsUnordered | Voltage/src/MeshBuilder.h:29-32 | edgeEquals holds exactly when the two pairs are equal as unordered pairs, and is symmetric |
| MeshBuilder.AddedUnique | Voltage/src/MeshBuilder.h:34-45 | addEdge keeps the buffer free of repeated pairs, lists the edge afterwards, and grows the buffer exactly when the pair was absent |
| MeshBuilder.AddEdge | Voltage/src/MeshBuilder.h:34-45 | the buffer becomes the old one with the edge appended when no entry equals it, and stays unchanged otherwise |
| MeshBuilder.AddedAllListed | Voltage/src/MeshBuilder.h:168-173 | after addEdge on each pair of a list in turn, every pair of the list is in the buffer |
| MeshBuilder.AddedAllFrom | Voltage/src/MeshBuilder.h:168-173 | after addEdge on each pair of a list in turn, the old entries are kept in front and each of at most as many new entries is a pair of the list |
| MeshBuilder.AddedAllUnique | Voltage/src/MeshBuilder.h:34-45 | addEdge on each pair of a list in turn keeps a buffer free of repeated pairs |
| MeshBuilder.Lookup | Voltage/src/MeshBuilder.h:63-69 | the midpoint search finds a record exactly when some record lies on the unordered pair |
| MeshBuilder.LookupBelow | Voltage/src/MeshBuilder.h:63-73 | a cache whose records name vertices below n answers with a vertex below n |
| MeshBuilder.LookupSymmetric | Voltage/src/MeshBuilder.h:65 | looking up (a, b) and (b, a) gives the same answer |
| MeshBuilder.LookupAppend | Voltage/src/MeshBuilder.h:82 | appending a record leaves earlier answers unchanged and answers a pair that had no record with the new record's index |
| MeshBuilder.LookupExtends | Voltage/src/MeshBuilder.h:63-73 | a pair the cache answers keeps its answer when more records follow |
| MeshBuilder.LookupListed | Voltage/src/MeshBuilder.h:63-69 | the cache answers a pair exactly when its records' pairs, compared as addEdge compares them, include it |
| MeshBuilder.GetMidpoint | Voltage/src/MeshBuilder.h:61-85 | a cached pair returns its index and changes nothing; otherwise the normalised midpoint is appended, the pair is cached under its index, and that index is returned |
| MeshBuilder.CacheMidpoint | Voltage/src/MeshBuilder.h:61-85 | the cache's pairs grow exactly as addEdge grows an edge buffer, one vertex is added per new record, and afterwards the cache answers the pair with the returned index; room is needed only on a miss |
| MeshBuilder.Split | Voltage/src/MeshBuilder.h:156-159 | a triangle splits into four triangles; SubdividedAt says which |
| MeshBuilder.Subdivided | Voltage/src/MeshBuilder.h:149-160 | a round yields four triangles per source triangle |
| MeshBuilder.SubdividedAt | Voltage/src/MeshBuilder.h:149-160 | the four triangles of source triangle j sit at positions 4j to 4j + 3 and are its split |
| MeshBuilder.SubdividedExtends | Voltage/src/MeshBuilder.h:149-160 | more cache records do not change a subdivision the cache already determines |
| MeshBuilder.SubdividedStep | Voltage/src/MeshBuilder.h:149-160 | splitting one more triangle extends the subdivision by its four triangles |
| MeshBuilder.MidpointsOf | Voltage/src/MeshBuilder.h:152-154 | the three midpoints of the triangle's sides are cached and returned; the cache grows by the sides not cached before, one vertex each, and needs room for those only |
| MeshBuilder.PushSplit | Voltage/src/MeshBuilder.h:156-159 | the four triangles are appended in the source's order |
| MeshBuilder.SplitTriangle | Voltage/src/MeshBuilder.h:150-159 | the target buffer gains the triangle's split; the cache grows by the triangle's sides not cached before, one vertex each, and needs room for those only |
| MeshBuilder.SplitAll | Voltage/src/MeshBuilder.h:147-160 | the target becomes the subdivision of the source; the cache grows by the source's side pairs not cached before, one vertex each, and needs room for those only |
| MeshBuilder.CopyBack | Voltage/src/MeshBuilder.h:162-165 | the source becomes a copy of the target |
| MeshBuilder.SubdivideRound | Voltage/src/MeshBuilder.h:147-165 | after a round, source and target both hold the subdivision of the old source; the cache and vertex buffer grow by one entry per side pair not cached before, and need room for those only |
| MeshBuilder.AddSides | Voltage/src/MeshBuilder.h:170-172 | the buffer becomes the result of addEdge on the triangle's three sides in turn; it needs room only for the sides not listed yet |
| MeshBuilder.CollectEdges | Voltage/src/MeshBuilder.h:168-173 | the buffer becomes the result of addEdge on every side of every triangle in turn: the old entries in front, every side listed, every new entry a side of some triangle, no pair repeated; it needs room for the distinct new pairs only |
| MeshBuilder.CollectedSides | Voltage/src/MeshBuilder.h:168-173 | after the edge loop every side of every triangle is listed, every added entry is a side of some triangle, and a buffer without repeated pairs keeps none |
| MeshBuilder.IcosphereCounts | Voltage/src/MeshBuilder.h:93-95 | 20 * 4^(s - 1) triangles and 30 * 4^(s - 1) edges, with V - E + F = 2; s = 1 gives the icosahedron's 12, 30 and 20 |
| MeshBuilder.IcosphereCountsStep | Voltage/src/MeshBuilder.h:93-95 | one round adds a vertex per edge, doubles the edges and adds three per triangle, and quadruples the triangles |
| ObjectPipelines.FaceVisibleRule | Voltage/src/ObjectPipeline.cpp:49-56 | Front and Back culling keep complementary faces and both drop a face seen edge-on; Hidden shading without culling sees what Back culling keeps; otherwise every face is visible |
| ObjectPipelines.FaceVisibilities | Voltage/src/ObjectPipeline.cpp:47-56 | one flag per face, each given by the face rule for that face's angle to the camera |
| ObjectPipelines.HideVertices | Voltage/src/ObjectPipeline.cpp:45 | every vertex flag is false afterwards |
| ObjectPipelines.ShowFaceVertices | Voltage/src/ObjectPipeline.cpp:58-61 | a vertex is visible afterwards exactly when it was before or is an endpoint of one of face f's edges |
| ObjectPipelines.MarkFaces | Voltage/src/ObjectPipeline.cpp:45-62 | the face flags are the face rule's, and a vertex is visible exactly when it is an endpoint of an edge of some face, visible or not |
| ObjectPipelines.CulledIffNoVisibleOwner | Voltage/src/ObjectPipeline.cpp:85-86 | an edge is culled exactly when none of the faces owning it is visible |
| ObjectPipelines.NewVertices | Voltage/src/ObjectPipeline.cpp:100-107 | an edge pushes no clipped vertex when inside or outside, one when one end is clipped, two when both are, a's copy first |
| ObjectPipelines.AddedBound | Voltage/src/ObjectPipeline.cpp:100-107 | the edge loop pushes at most two clipped vertices per edge |
| ObjectPipelines.RefsResolve | Voltage/src/ObjectPipeline.cpp:100-111 | a clipped endpoint points at the pushed copy holding the clipper's output, an unclipped one at the edge's own mesh vertex |
| ObjectPipelines.DrawnFlags | Voltage/src/ObjectPipeline.cpp:81-99 | an edge is visible exactly when culling does not skip it and the clipper does not put it outside |
| ObjectPipelines.Divided | Voltage/src/ObjectPipeline.cpp:124-126 | every clipped vertex is divided once, in place, in order |
| ObjectPipelines.LineBrightness | Voltage/src/ObjectPipeline.cpp:136-141 | a line gets the object's brightness, except a culled edge under Hidden shading, which gets the hidden brightness |
| ObjectPipelines.EmittedCount | Voltage/src/ObjectPipeline.cpp:130-143 | exactly one line per visible edge |
| ObjectPipelines.EmittedAt | Voltage/src/ObjectPipeline.cpp:130-143 | visible edge i's line comes after the lines of the visible edges before it, in edge order |
| ObjectPipelines.MarkedAlreadyTouched | Voltage/src/ObjectPipeline.cpp:58-61 | with face edge lists as the mesh builds them, the edge loop's marking of vertices (lines 109-110) adds none the face loop has not marked |
| ObjectPipelines.ObjectPipeline.constructor | Voltage/src/ObjectPipeline.h:18 | the clipped-vertex buffer is fresh, empty and holds maxLines vertices |
| ObjectPipelines.ObjectPipeline.ClipEdges | Voltage/src/ObjectPipeline.cpp:73-113 | the clipped buffer holds the vertices pushed for every drawn edge in order, the culled and visible flags follow the rules, and each drawn edge's references resolve |
| ObjectPipelines.ObjectPipeline.ClipEdge | Voltage/src/ObjectPipeline.cpp:77-112 | one pass: edge i gets its culled and visible flags; if drawn, its clipped copies are pushed, its references set and its unclipped endpoints shown; nothing else changes |
| ObjectPipelines.ObjectPipeline.PushClipped | Voltage/src/ObjectPipeline.cpp:100-107 | the clipped endpoints are appended and the references point at them |
| ObjectPipelines.ObjectPipeline.ShowEndpoints | Voltage/src/ObjectPipeline.cpp:109-110 | the endpoints the edge keeps from the mesh become visible |
| ObjectPipelines.ObjectPipeline.DivideVisible | Voltage/src/ObjectPipeline.cpp:118-126 | visible mesh vertices are divided and the others left alone; every clipped vertex is divided |
| ObjectPipelines.ObjectPipeline.EmitLines | Voltage/src/ObjectPipeline.cpp:130-143 | the output gains, after its old contents, exactly the lines of the visible edges in edge order |
| ObjectPipelines.ObjectPipeline.EdgeLine | Voltage/src/ObjectPipeline.cpp:132-141 | the line joins the (x, y) of the edge's two resolved endpoints at the brightness the shading rule gives |
| ObjectPipelines.ObjectPipeline.Process | Voltage/src/ObjectPipeline.cpp:34-144 | the face flags follow the face rule; the vertex, culled and visible flags follow their rules; visible vertices are divided; the output gains one line per visible edge, in order |
| MatrixUtils.TranslateMovesPoint | Voltage/src/utils.h:32 | the translation moves the homogeneous point (px, py, 1) by (x, y) under the transform of lines 53-58 |
| MatrixUtils.ScaleScalesPoint | Voltage/src/utils.h:16 | the scale multiplies the homogeneous point (px, py, 1) componentwise |
| MatrixUtils.AsWrittenRightIdentity | Voltage/src/utils.h:34-51 | the product as written leaves a matrix unchanged when the identity is on the right |
| MatrixUtils.AsWrittenLeftIdentityFails | Voltage/src/utils.h:44 | as written, the identity times a translation by (1, 0) gets 1 in m5, so the product is not that translation |
| MatrixUtils.AsWrittenCompositionFails | Voltage/src/utils.h:40-48 | as written, the product of the identity and a translation sends (0, 1, 1) to (1, 1, 2), where applying the two in turn gives (1, 1, 1) |
| MatrixUtils.MultiplyIdentity | Voltage/src/utils.h:34-51 | the corrected product has the identity as a unit on both sides |
| MatrixUtils.MultiplyComposes | Voltage/src/utils.h:34-58 | transforming by the corrected product of left and right is transforming by left, then by right |
| MatrixUtils.Vector4TransformIdentity | Voltage/src/utils.h:60-65 | the identity matrix leaves a 4-vector unchanged |
| MatrixUtils.Dot4Additive | Voltage/src/utils.h:61 | one matrix row applied to a sum is the sum of the row applied to each |
| MatrixUtils.Dot4Homogeneous | Voltage/src/utils.h:61 | one matrix row applied to a scaled vector is the scaled result |
| MatrixUtils.Vector4TransformAdditive | Voltage/src/Utils.h:10-19 | the 4x4 transform is additive in the vector |
| MatrixUtils.Vector4TransformHomogeneous | Voltage/src/Utils.h:10-19 | the 4x4 transform commutes with scaling the vector |
| MatrixUtils.Vector4LerpEnds | Voltage/src/Utils.h:21-30 | interpolation gives a at 0 and b at 1, and stays at a between equal points |
| MatrixUtils.Vector4LerpSplits | Voltage/src/utils.h:67-70 | the interpolated point is (1 - t) a + t b |
| MatrixUtils.Vector3MidpointProperties | Voltage/src/utils.h:72-74 | the midpoint is symmetric in its arguments, equidistant from both, and a itself between equal points |
| CyrusBeck.MaxValue | Voltage/src/Kaleidoscope.h:37 | the larger of the two values |
| CyrusBeck.MinValue | Voltage/src/Kaleidoscope.h:39 | the smaller of the two values |
| CyrusBeck.SideNormalPerpendicular | Voltage/src/Kaleidoscope.h:29-31 | a side's normal is perpendicular to the side and, before normalising, as long as it |
| CyrusBeck.ClipPolygon.constructor | Voltage/src/Kaleidoscope.h:17-20 | the vertices are the list's, in order, and the normals are those of their sides |
| CyrusBeck.ClipPolygon.GenerateNormals | Voltage/src/Kaleidoscope.h:27-34 | normal i is (-dy, dx) of the direction from vertex i to the next, wrapping at the last |
| CyrusBeck.SideAlongSegment | Voltage/src/Kaleidoscope.h:49-51 | along the segment, side i's inner-side test is num + t * den <= 0 |
| CyrusBeck.StepExact | Voltage/src/Kaleidoscope.h:53-63 | one side keeps exactly the part of [tE, tL] that meets its test and never widens it; a rejection means no parameter meets it |
| CyrusBeck.SweepExact | Voltage/src/Kaleidoscope.h:44-64 | after k sides, [tE, tL] is exactly the parameters in [0, 1] inside those sides; a rejection means no parameter is |
| CyrusBeck.SweepMonotone | Voltage/src/Kaleidoscope.h:48-64 | tE only rises and tL only falls as sides are seen, and a rejection is final |
| CyrusBeck.ClipExact | Voltage/src/Kaleidoscope.h:43-68 | when the clip accepts, [tE, tL] is exactly the parameters whose point is inside every side; when it rejects, no point of the segment is |
| CyrusBeck.InsideSegmentUnchanged | Voltage/src/Kaleidoscope.h:43-78 | a segment with both ends inside every side is kept whole and unchanged |
| CyrusBeck.SweepScaled | Voltage/src/Kaleidoscope.h:32 | normals scaled by positive factors, as normalising does, give the same sweep |
| CyrusBeck.SideStep | Voltage/src/Kaleidoscope.h:53-63 | one side's pass: rejects exactly when the step rejects, and otherwise returns its new tE and tL |
| CyrusBeck.Rewrite | Voltage/src/Kaleidoscope.h:70-76 | the new ends are the points at tE and tL along the original segment |
| CyrusBeck.ClipLine | Voltage/src/Kaleidoscope.h:43-78 | accepts exactly when the exact clip does and then returns its ends; on rejection the ends are untouched |
| Kaleidoscopes.MirrorsAct | Voltage/src/extra/Kaleidoscope.cpp:70-72 | under the transform of Kaleidoscope.h lines 42-44, the identity leaves points alone, and the three mirrors swap the coordinates, negate x and negate y |
| Kaleidoscopes.MirrorsInvolutive | Voltage/src/extra/Kaleidoscope.cpp:70-72 | each of the three mirrors undoes itself |
| Kaleidoscopes.TransformLinear | Voltage/src/extra/Kaleidoscope.h:42-44 | the 2x2 transform is additive and homogeneous in the point |
| Kaleidoscopes.Reflected | Voltage/src/extra/Kaleidoscope.cpp:82-86 | one mirrored copy per line |
| Kaleidoscopes.MirroredShape | Voltage/src/extra/Kaleidoscope.cpp:82-86 | mirror doubles the buffer, keeps its first half, and puts the image of entry n - 1 - k at n + k |
| Kaleidoscopes.MirroredSymmetric | Voltage/src/extra/Kaleidoscope.cpp:82-86 | under a self-undoing mirror, entry 2n - 1 - k of the result is the image of entry k |
| Kaleidoscopes.Mirror | Voltage/src/extra/Kaleidoscope.cpp:82-86 | the buffer becomes the old lines followed by their images, last line first |
| Kaleidoscopes.KeptLine | Voltage/src/extra/Kaleidoscope.cpp:62-66 | one line is kept, clipped, exactly when the clip accepts it |
| Kaleidoscopes.KeptBy | Voltage/src/extra/Kaleidoscope.cpp:61-67 | no more lines are kept than came in |
| Kaleidoscopes.KeptPrefix | Voltage/src/extra/Kaleidoscope.cpp:61-67 | filtering a longer prefix keeps at least as many lines |
| Kaleidoscopes.KeptStep | Voltage/src/extra/Kaleidoscope.cpp:61-67 | one more input line adds what the clip leaves of it |
| Kaleidoscopes.ProcessedSize | Voltage/src/extra/Kaleidoscope.cpp:56-80 | eight output lines per kept line: the line and its seven images |
| Kaleidoscopes.ProcessedStartsWithKept | Voltage/src/extra/Kaleidoscope.cpp:56-80 | the kept lines come first in the output, unchanged |
| Kaleidoscopes.Kaleidoscope.constructor | Voltage/src/extra/Kaleidoscope.h:51 | a fresh, empty line buffer of maxLines entries |
| Kaleidoscopes.Kaleidoscope.Process | Voltage/src/extra/Kaleidoscope.cpp:56-80 | returns its own buffer, holding the lines the triangle clip keeps, mirrored in the diagonal, then horizontally, then vertically |
| Kaleidoscopes.Kaleidoscope.KeepClipped | Voltage/src/extra/Kaleidoscope.cpp:59-67 | the buffer is cleared and then holds exactly the clipped lines the clip accepts, in input order |
| Kaleidoscopes.Kaleidoscope.KeepLine | Voltage/src/extra/Kaleidoscope.cpp:62-66 | the buffer gains the clipped line when the clip accepts it, and nothing otherwise |
| Scanlines.EndpointOnPlane | Voltage/src/ScanlineEffectRenderer.h:62 | an edge with an endpoint exactly at the height adds no crossing |
| Scanlines.CrossingOnSegment | Voltage/src/ScanlineEffectRenderer.h:62-66 | the pushed point lies strictly inside the edge, at parameter (h - a.y) / (b.y - a.y), at height h |
| Scanlines.FractionBetween | Voltage/src/ScanlineEffectRenderer.h:63-64 | the interpolation factor of a straddling edge lies strictly between 0 and 1 |
| Scanlines.Slice | Voltage/src/ScanlineEffectRenderer.h:51-69 | at most one crossing per edge |
| Scanlines.SliceOnPlane | Voltage/src/ScanlineEffectRenderer.h:52-69 | every crossing lies on the plane and is the crossing of some visible edge that straddles the height |
| Scanlines.SliceOfHidden | Voltage/src/ScanlineEffectRenderer.h:57 | with no vertex visible there are no crossings |
| Scanlines.SliceGrows | Voltage/src/ScanlineEffectRenderer.h:52-69 | a longer prefix of the edges has at least as many crossings |
| Scanlines.SlicePrefix | Voltage/src/ScanlineEffectRenderer.h:52-69 | one more edge adds its crossing if it straddles the height with both ends visible, and nothing otherwise |
| Scanlines.Compare | Voltage/src/ScanlineEffectRenderer.h:108-117 | -1, 0 or 1 exactly as the first angle is below, equal to or above the second |
| Scanlines.CompareOrders | Voltage/src/ScanlineEffectRenderer.h:108-117 | the comparison is antisymmetric and transitive, a consistent order for the sort |
| Scanlines.Chained | Voltage/src/ScanlineEffectRenderer.h:100-104 | n - 1 lines for n >= 2 points, none otherwise |
| Scanlines.ChainedConnects | Voltage/src/ScanlineEffectRenderer.h:100-104 | the chain starts at the first point and ends at the last, and each line starts where the one before it ends |
| Scanlines.Projected | Voltage/src/ScanlineEffectRenderer.h:92-97 | one projected point per crossing |
| Scanlines.HeightLinesCount | Voltage/src/ScanlineEffectRenderer.h:71-104 | whatever order the sort gives, n >= 2 crossings give n - 1 lines and fewer give none, and every line end is the projection of a crossing on the plane |
| Scanlines.MeshEdgesWithin | Voltage/src/ScanlineEffectRenderer.h:53-55 | the edges of a well-formed mesh join its vertices |
| Scanlines.ScanlineEffectRenderer.constructor | Voltage/src/ScanlineEffectRenderer.h:21-22 | keeps the engine and heights, with a fresh crossing buffer of maxLines entries |
| Scanlines.ScanlineEffectRenderer.Collect | Voltage/src/ScanlineEffectRenderer.h:51-69 | the crossing buffer holds exactly the crossings at the height, in edge order |
| Scanlines.ScanlineEffectRenderer.Connect | Voltage/src/ScanlineEffectRenderer.h:100-104 | the engine gains the chain of lines through the points, after what it held |
| Scanlines.ScanlineEffectRenderer.AddHeight | Voltage/src/ScanlineEffectRenderer.h:51-104 | the engine gains that height's lines after what it held |
| Scanlines.ScanlineEffectRenderer.AddMesh | Voltage/src/ScanlineEffectRenderer.h:50-105 | the engine gains each height's lines, height by height |
| PixelWriters.ShiftRightBounds | emulator/SDL2Writer.h:15 | the right shift by s divides by 2^s rounding down |
| PixelWriters.ShiftedBelow | emulator/SDL2Writer.h:15 | a 12-bit coordinate shifted right by 12 - resolution keeps resolution bits |
| PixelWriters.IndexNoWrap | emulator/SDL2Writer.h:15 | a row and a column inside the window give an index below the cell count, with no 32-bit wrap |
| PixelWriters.CellUnwrapped | emulator/SDL2Writer.h:15 | for 12-bit coordinates the cell index is the unwrapped row-major index, inside the window |
| PixelWriters.CellDecodes | emulator/SDL2Writer.h:15 | for 12-bit coordinates the cell lies in the window, and dividing it by the width gives back the shifted row and the remainder the shifted column |
| PixelWriters.SameCellIff | emulator/SDL2Writer.h:15 | two writes light the same cell exactly when their shifted coordinates agree |
| PixelWriters.WrittenOnlyCell | emulator/SDL2Writer.h:15 | a write sets its own cell to all ones and leaves every other cell, and writing the same point again changes nothing |
| PixelWriters.PixelWriter.constructor | emulator/SDL2Writer.h:11-12 | keeps the resolution and buffer, and the shift is 12 - resolution |
| PixelWriters.PixelWriter.Write | emulator/SDL2Writer.h:14-16 | the buffer becomes the written one: the cell set to all ones, nothing else changed |
| ObjConverter.Split | utils/parse-obj.py:5 | str.split with one separator: at least one piece, and no piece holds the separator |
| ObjConverter.JoinSplit | utils/parse-obj.py:5 | joining the pieces of a split with the separator gives the text back |
| ObjConverter.SplitAfter | utils/parse-obj.py:5 | text free of the separator, then the separator, then more: the split cuts off exactly that text |
| ObjConverter.SplitWhole | utils/parse-obj.py:8 | text free of the separator splits into itself |
| ObjConverter.SplitJoin | utils/parse-obj.py:5 | splitting a join gives back the items when none holds the separator |
| ObjConverter.StripSlice | utils/parse-obj.py:40 | stripping keeps a slice of the text with no white space at either end and drops only white space |
| ObjConverter.TrimStartAt | utils/parse-obj.py:5 | the white space int() and float() skip before a number is a prefix of spaces, and the kept text starts with no space |
| ObjConverter.TrimEndAt | utils/parse-obj.py:5 | the white space skipped after a number, such as the line's newline, is a suffix of spaces, and the kept text ends with no space |
| ObjConverter.StripUnspaced | utils/parse-obj.py:40 | text with no space at either end is its own strip |
| ObjConverter.DigitChar | utils/parse-obj.py:14 | the digit character of d is a digit whose value is d |
| ObjConverter.NatToStr | utils/parse-obj.py:14 | str() of a natural number: at least one decimal digit and no leading zero |
| ObjConverter.NatToStrValue | utils/parse-obj.py:14 | the digits str() writes read back as the number |
| ObjConverter.IntRoundTrip | utils/parse-obj.py:8 | int() reads back what str() writes for every integer |
| ObjConverter.FirstOf | utils/parse-obj.py:5 | the first position holding either character, or the end when there is none |
| ObjConverter.FloatOfInt | utils/parse-obj.py:5 | float() of an integer's decimal text is that integer |
| ObjConverter.SignedDigitsAsFloat | utils/parse-obj.py:5 | a signed run of digits with nothing around it is a float of that value |
| ObjConverter.DigitsAsFloat | utils/parse-obj.py:5 | a run of digits has no exponent and is a mantissa of its value |
| ObjConverter.CollectExact | utils/parse-obj.py:5 | a list comprehension over a conversion that can raise succeeds exactly when every item converts, and lists the values in order |
| ObjConverter.ParseVertexExact | utils/parse-obj.py:4-5 | parse_vertex gives one coordinate per field after the tag, each that field's float, and fails exactly when some field is not a number |
| ObjConverter.ParseFaceExact | utils/parse-obj.py:7-8 | parse_face gives one index per field, each the field's text before the first '/' as an int less one, and fails exactly when some field has no number there |
| ObjConverter.ParseFaceOfIndices | utils/parse-obj.py:7-8 | a face written with 1-based decimal indices parses to the 0-based indices |
| ObjConverter.ParseFaceOfReferences | utils/parse-obj.py:8 | fields index/texture/normal give only their vertex index, made 0-based |
| ObjConverter.DoubleSpaceFails | utils/parse-obj.py:8 | two neighbouring spaces leave an empty field, which int() rejects, so the face fails |
| ObjConverter.IndexFields | utils/parse-obj.py:8 | one all-digit field per index |
| ObjConverter.ReferenceFields | utils/parse-obj.py:8 | one field per index |
| ObjConverter.ConvertedCounts | utils/parse-obj.py:22-28 | a successful conversion has one vertex per line starting "v " and one face per line starting "f " |
| ObjConverter.SkipsOthers | utils/parse-obj.py:25-28 | a line that is neither a vertex nor a face record changes nothing |
| ObjConverter.ConvertedStops | utils/parse-obj.py:24-28 | once a prefix of the file fails, the whole conversion fails |
| ObjConverter.Convert | utils/parse-obj.py:22-28 | the loop computes the conversion: records in file order, stopping at the first malformed one |
| ObjConverter.FaceToStrExample | utils/parse-obj.py:13-14 | face_to_str of [0, 1, 2] is "{0, 1, 2}" |
| ObjConverter.OutputCounts | utils/parse-obj.py:30-40 | the printed text ends with the Mesh call carrying the numbers of vertex and face lines read |

## Left out

- Camera.h, `Object::getModelMatrix` and the raymath matrix products and inversions in ObjectPipeline.cpp lines 41-43 and 67-68 are not part of this model. Each face's angle to the camera and the transformed vertices are inputs, and `transformVisibleVertices` is one of those inputs.
- `clipLineNearAndFar` and `ClipResult` are defined outside the files modelled here. The pipeline takes the near/far clipper as the function parameter `clip`, and the perspective divide as `divide`.
- `Matrix3Rotate`, `Vector2Normalize`, `Vector3Normalize`, `Mesh::generateNormals`, `calculateBoundingSphere` and the icosphere vertex positions are transcendental float code. The normalisation in `getMidpoint` is the parameter `normalize`. `CyrusBeck.SweepScaled` shows that scaling the clip polygon's normals by a positive factor does not change the clip.
- The kaleidoscope's mirror matrices are built from `cos` and `sin`. The model uses their exact values: for the diagonal mirror, (0, 1, 1, 0).
- `createIcosphere` is not modelled as a whole, because its vertex positions and buffer sizes rest on float `pow` and `sqrt`. Its parts are modelled: the midpoint cache, one subdivision round (`MeshBuilder.SubdivideRound`), the edge loop (`MeshBuilder.CollectEdges`) and the size formulas. The model does not capture that with at most one subdivision the target buffer stays empty, so no edges are collected while the faces come from the source triangles.
- The scanline effect's centre, `atan2` angles and `qsort` are the parameter `arrange`, which must permute the crossings. The world-to-screen projection is the parameter `project`. The division by a possibly zero count at ScanlineEffectRenderer.h line 79 is left out with them.
- ScanlineEffectRenderer.h lines 38-47 call `cullFaces` and read `faceCulling`, neither of which is defined. They also transform the vertices with raymath. `Scanlines.ScanlineEffectRenderer.AddMesh` starts from the vertex flags and transformed vertices they leave.
- Brightness.RampCountFirst: the blanking ramp's iteration count depends on float accumulation of 0.015. The model counts its steps in exact arithmetic.
- Rounding is not modelled anywhere. Every real-valued contract holds for exact arithmetic only.
- DACWriter.h, tmp/Teensy36Rasterizer.h, Timer.h, Timer.cpp, emulator/emulator.h and emulator/main.cpp are hardware registers, timers and the SDL window loop. Writer.h's writers are the `Writers.Device` trace.
- parse-obj.py's argument check, file reading and printing (lines 16-24 and 40) are I/O. The model takes the file's lines as a sequence and states the printed text as `ObjConverter.Output`.
- ObjConverter.VertexToStr: Python's `str()` of a float (the shortest repr) is the parameter `show`.
- ObjConverter.ParseInt: accepts only ASCII white space and ASCII digits. It does not model Python's Unicode white space and digits, or underscores between digits.
- ObjConverter.ParseFloat: accepts decimal mantissas with an optional exponent, valued exactly. It does not model `inf`, `nan`, `infinity`, underscores, Unicode digits and white space, or rounding to a double.
- Mesh.h, Engine.h and ObjectPipeline.h declare types and members that disagree with the .cpp files. The model follows the .cpp files:
  - Mesh.h's `Edge` holds indices, while Mesh.cpp uses pointers. Both become indices here.
  - Engine.h lacks the brightness writer.
  - ObjectPipeline.h declares `render` where the .cpp defines `process`.
  - Rasterizer.h has no `scaleBits` member and no resolution parameter, yet Rasterizer.cpp lines 10, 49 and 72 use `scaleBits`, and Engine.h line 32 passes a resolution. `Rasterizing.Rasterizer.constructor` takes the resolution and computes `scaleBits` as Voltage/Renderer.h lines 13-19 do. It requires resolution <= 12. Above 12, Voltage/Renderer.h would wrap `12 - resolutionBits` in `uint8_t`, as `DacScale.ScaleBitsWraps` shows. The model leaves that case out.
- Rasterizing.Rasterizer.DrawLine: Rasterizer.h declares an `increment` parameter that Rasterizer.cpp never uses. The Renderer keeps the value, and the writes do not depend on it.
- The static one-element `Array` in `Renderer::add(Object*)` and `Engine::add(Object*)` is modelled as a plain call for one object (`Rendering.Renderer.AddObject`).
- `ClipPolygon(vertexCount)` allocates the vertex and normal arrays without filling them. Only the initializer-list constructor is modelled, because it is the only one used.
- Meshes.Mesh.constructor: `VOLTAGE_MESH_MAX_EDGES` is defined outside the files modelled here. It is the parameter `maxEdges`. The buffer's pushes are unchecked, so the distinct vertex pairs of the faces' sides must fit under it.
- MeshBuilder.SubdivideRound: the round needs room for one vertex and one cache record per side pair not cached yet. The model does not count these pairs for the icosahedron. So it does not prove that `createIcosphere`'s buffers of `vertexCount` vertices and `edgeCount` records always suffice.
- MeshBuilder.CollectEdges: the edge loop needs room for the distinct side pairs of the final triangles. The model does not prove that these number `IcosphereEdgeCount(s)`, so it does not prove that the edge buffer of `edgeCount` entries suffices.
- ObjectPipelines.Wired: every edge the pipeline processes must have a first face. An edge defined with first face index -1 has a null `faces.a` (Mesh.cpp line 29), and ObjectPipeline.cpp lines 84-85 dereference it, which is undefined behaviour. Such meshes are left out.
- PixelWriters.PixelWriter.constructor: requires resolution <= 12. Above 12, the `unsigned int` shift `12 - resolution` (emulator/SDL2Writer.h line 12) wraps, and line 15 would then shift by more than the word's width, which is undefined behaviour. That case is left out.
- Rendering.Renderer.constructor: the brightness writer and its transform are one `Option`, so the model cannot express a Renderer built with a brightness writer but no transform. Renderer.h lines 47-48 and 66-67 allow that. Renderer.cpp lines 78-113 then dereference a null transform, and that case is not modelled.

## Findings

| source | as written | input that shows it | evidently intended | confidence | as-written member | corrected member |
|---|---|---|---|---|---|---|
| Voltage/src/Clipper.h:62 | `clipLine` rewrites an accepted segment to its visible part but then reports it rejected, so the Renderer and Engine draw no lines | a = (-0.5, 0), b = (0.5, 0) inside the viewport {-1, 1, 1, -1}: kept unchanged, result false | true exactly when all four tests pass | not executed | Clipper.InsideSegmentReportedRejected | Clipper.ClipSegment |
| Voltage/src/utils.h:40 | the third row of the product (lines 40, 44 and 48) reads `right.m6` where `right.m5` belongs | the identity times a translation by (1, 0): m5 becomes 1 and (0, 1, 1) maps to (1, 1, 2), not (1, 1, 1) | the composition right * left, with the identity as unit | not executed | MatrixUtils.AsWrittenCompositionFails | MatrixUtils.MultiplyComposes |
