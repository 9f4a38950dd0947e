# Volume Cartographer: a verified model

This project models the computational core of Volume Cartographer (segmenting and flattening
scanned scrolls) in Dafny and proves what its code promises:

* **Splines.** `CBSpline::UpdateCurve` sets up a tridiagonal system, `ThomasTriDiagonal` solves it by
  two sweeps, and the result is the natural cubic spline through the control points, the only one.
  The sampled curve, with its repeated truncation to integers, stays near the exact curve.
* **Dense matrices.** The recursive determinant obeys Laplace expansion along every row and column, the
  adjugate inverse inverts on both sides, and the sort of singular values keeps the decomposition.
* **Segmentation.** Point cloud, annotation cloud and the decoded annotations of a segment are changed by
  many operations; runs in both directions are planned between anchors, queued, merged and cleaned up.
  Anchors keep all of their bits in every session, and it is stated exactly when they keep their points: a
  result that hands its starting chain back replaces the points of the tool slice unless the chain is the row
  the cloud has there.
* **Curve drags and undo.** A drag moves points with a range that can change while dragging; the undo
  command restores the curve for every drag, and the manual marks exactly when the recording order was kept;
  the starting path of the next run follows neither undo nor redo.
* **Pattern search, request handshake, file order, barycentric coordinates, alpha compositing.**

Real numbers stand for `float` and `double`. Objects that the source updates in place are classes
(`SegmentationStruct`, `CWindow`, `CBSpline`, `CXCurve`, `SegmentCurves`, `PathChangeCommand`, `UndoStack`,
`CVolumeViewerWithCurve`); their methods are proved against functions on values, and the theorems are
lemmas about those functions. Loops over arrays work on arrays.

| file | models |
|---|---|
| `Geometry.dfy` | points and vectors shared by the other modules |
| `RealSums.dfy`, `Determinant.dfy`, `DenseMatrix.dfy` | finite sums, determinants, matrix product, sub-matrix, inverse |
| `Reorder.dfy` | sorting of singular values with their columns |
| `Tridiagonal.dfy`, `CBSpline.dfy`, `BezierSamples.dfy` | tridiagonal solver, natural spline, sampling |
| `Segmentation.dfy`, `AnchorCache.dfy` | the state of one segment, its operations, the anchor cache |
| `SegmentationStruct.dfy` | the segment object |
| `SegmentationRuns.dfy`, `SegmentationSession.dfy` | planning and finishing runs, the whole session |
| `SessionPoints.dfy` | what a session does to anchors and their points |
| `SessionEvents.dfy` | what each event does to queue, anchors, annotations and buffers |
| `CWindow.dfy` | the window object that starts runs and takes results |
| `CurveEditing.dfy`, `CurveViewer.dfy` | drags, undo commands, the objects involved |
| `MinLoc.dfy`, `FetchSliceThread.dfy`, `SliceImage.dfy`, `Barycentric.dfy`, `AlphaCompositing.dfy` | as named |

Where code and documentation differ, the model follows the code:

* The release notes (README.md:67-70) promise that runs are planned so that anchors are protected against
  overwrites. Runs are planned so, but the window merges a resampled changed curve, makes the tool slice an
  anchor and then hands the segmenter the curve as it was before resampling; local reslice returns it as its
  first row. `SegmentationRuns.FinishKeepsIff` and `SessionPoints.PointsKeptIff` state exactly when points are
  kept, `SegmentationRuns.ChainOverwritesAnchor` and `SessionPoints.LocalResliceTakesPoints` are the failing
  families, `SessionPoints.DraggedSessionTakesPoints` is a failing session, and
  `SessionPoints.UndraggedSessionsProtect` gives the promise for sessions without dragged curves.
* After a run the flags of the planned slices are reset although the run may have stopped early: the sweep can
  write beyond the annotation cloud. `SegmentationRuns.ResetFitsIff` states exactly when it does not, and
  `SegmentationRuns.EarlyStopWritesBehind` is the failing family.
* `ResetAnnotations` is meant to clear whole slices, but stops one point before the end of the last one
  (`AnchorCache.ResetClearsIff`): `SegmentationRuns.FinishedRunLeavesMark` is a run that leaves a mark.
* Undo is meant to take back a drag, but can leave manual marks behind (`CurveEditing.ManualUndoIff`), leaves
  the starting path of the next run where the drag put it (`CurveEditing.StartIsLastDrag`,
  `CurveEditing.UndoKeepsStart`), and with another slice shown takes back the marks but not the curve
  (`CurveEditing.UndoRedoIsReplay`, `CurveEditing.UndoAwayKeepsCurve`).
* `Inverse` announces a zero matrix for a nearly singular one, but never writes the storage.

## Model

| member | source | states |
|---|---|---|
| Determinant.DetIsSum | apps/VC/UVecMatOperations.hpp:94-126 | the loop over the first row computes the alternating sum of entry times minor |
| Determinant.TwoByTwo | apps/VC/UVecMatOperations.hpp:90-92 | the special case for size two agrees with the general recursion |
| Determinant.OneByOne | apps/VC/UVecMatOperations.hpp:86-88 | the special case for size one agrees with the general recursion |
| Determinant.RowExpansion | apps/VC/UVecMatOperations.hpp:78-128 | for every size, expanding along any row gives the determinant defined by the first row |
| Determinant.ColumnExpansion | apps/VC/UVecMatOperations.hpp:78-128 | for every size, expanding along any column gives the same determinant |
| Determinant.EqualRows | apps/VC/UVecMatOperations.hpp:78-128 | two equal rows make the determinant zero |
| Determinant.EqualColumns | apps/VC/UVecMatOperations.hpp:78-128 | two equal columns make the determinant zero |
| Determinant.AdjugateIdentity | apps/VC/UVecMatOperations.hpp:187-203 | a row against the signed minors of another row gives the determinant or zero |
| Determinant.AdjugateColumnIdentity | apps/VC/UVecMatOperations.hpp:187-203 | the same for columns |
| DenseMatrix.Multiply | apps/VC/UVecMatOperations.hpp:405-426 | every entry of the result is the sum of products of a row and a column |
| DenseMatrix.GetSubMatrix | apps/VC/UVecMatOperations.hpp:130-167 | the result is the matrix without the given row and column, in order |
| DenseMatrix.SubMatrixDet | apps/VC/UVecMatOperations.hpp:130-167 | the determinant of a sub-matrix is the minor of the original |
| DenseMatrix.CalcDeterminantNxN | apps/VC/UVecMatOperations.hpp:78-128 | the recursion over copied sub-matrices computes the determinant |
| DenseMatrix.CopyMinor | apps/VC/UVecMatOperations.hpp:99-120 | the copied sub-matrix leaves out the first row and column i |
| DenseMatrix.AdjugateInverts | apps/VC/UVecMatOperations.hpp:169-206 | signed minors over a non-zero determinant invert on the left and on the right, for every size |
| DenseMatrix.Inverse | apps/VC/UVecMatOperations.hpp:169-206 | if the determinant is at least 1e-6 in magnitude, the result is the inverse on both sides |
| Reorder.InsertColumn | apps/VC/UVecMatOperations.hpp:453-482 | one insertion moves weight and both columns together: a permutation of the triples, with one more in order |
| Reorder.GapPass | apps/VC/UVecMatOperations.hpp:452-482 | a pass permutes the triples and leaves them sorted at distance inc |
| Reorder.SortTriples | apps/VC/UVecMatOperations.hpp:442-483 | the gap sequence ends in a pass with gap one, so the weights end up non-increasing |
| Reorder.NegativesOfNegated | apps/VC/UVecMatOperations.hpp:485-506 | a column and its negation have together no more negatives than entries |
| Reorder.FlippedIsMostlyPositive | apps/VC/UVecMatOperations.hpp:486-506 | after the flip at most half of the entries of a column pair are negative |
| Reorder.FlippedIff | apps/VC/UVecMatOperations.hpp:486-506 | both columns of a pair are negated exactly if more than half of their entries are negative, and stay as they are otherwise |
| Reorder.FlipColumn | apps/VC/UVecMatOperations.hpp:486-506 | one flip replaces the triple by its flipped one and nothing else |
| Reorder.RecombinedPermutation | apps/VC/UVecMatOperations.hpp:449-483 | permuting the triples keeps every sum of u times w times v |
| Reorder.RecombinedFlipped | apps/VC/UVecMatOperations.hpp:485-506 | flipping signs keeps every sum of u times w times v |
| Reorder.Reorder | apps/VC/UVecMatOperations.hpp:435-507 | a permutation of the triples up to a shared sign, non-increasing, mostly positive, with the recombined matrix unchanged |
| Tridiagonal.RowEquivalence | apps/VC/UVecMatOperations.hpp:870-891 | after elimination a row of the system holds exactly if the eliminated row does |
| Tridiagonal.BackSubstitutionSolves | apps/VC/UVecMatOperations.hpp:887-890 | the backward sweep yields a solution of the whole system |
| Tridiagonal.SolvesWholeIff | apps/VC/UVecMatOperations.hpp:870-891 | on a matrix that is zero off its three diagonals, solving those diagonals is solving the whole system, row by row |
| Tridiagonal.SolutionIsUnique | apps/VC/UVecMatOperations.hpp:870-891 | two solutions agree in every unknown when no pivot vanishes |
| Tridiagonal.DominantPivot | apps/VC/UVecMatOperations.hpp:877-886 | under row dominance every pivot is non-zero and every ratio is below one in magnitude |
| Tridiagonal.DominantIsRegular | apps/VC/UVecMatOperations.hpp:877-886 | the sweep never divides by zero on a dominant matrix |
| Tridiagonal.SolutionBound | apps/VC/UVecMatOperations.hpp:870-891 | a solution is bounded by right-hand side over dominance |
| Tridiagonal.EliminateRatios | apps/VC/UVecMatOperations.hpp:877-881 | the first sweep stores the ratio of every row |
| Tridiagonal.EliminateRhs | apps/VC/UVecMatOperations.hpp:882-886 | the second sweep stores the reduced right-hand sides |
| Tridiagonal.ThomasTriDiagonal | apps/VC/UVecMatOperations.hpp:870-891 | for every dominant matrix of size two or more the result solves the system and is its only solution |
| CBSpline.NaturalIsJoined | apps/VC/CBSpline.cpp:84-192 | a natural spline is what joins with equal value, slope and curvature and has no curvature at its ends |
| CBSpline.NaturalIffSolves | apps/VC/CBSpline.cpp:114-174 | segments form the natural spline exactly when their first control points solve the system |
| CBSpline.CubicTaylor | apps/VC/CBezierCurve.cpp:80-106 | slope and curvature, by which natural splines are defined, are the first and second derivative of the Bezier cubic |
| CBSpline.SplineIsDominant | apps/VC/CBSpline.cpp:116-127 | the matrix of the system is row-dominant for every number of control points |
| CBSpline.NaturalIsUnique | apps/VC/CBSpline.cpp:84-192 | there is only one natural spline through given control points |
| CBSpline.ControlBound | apps/VC/CBSpline.cpp:114-191 | control points lie within three and five times the largest coordinate |
| CBSpline.EvenKnots | apps/VC/CBSpline.cpp:114-191 | evenly spaced control points on a line give the first control points a third of the way |
| CBSpline.LineIsNatural | apps/VC/CBSpline.cpp:86-110 | two control points give the evenly parametrised line, which is natural |
| CBSpline.FillMatrix | apps/VC/CBSpline.cpp:116-127 | the loops fill in exactly the spline matrix |
| CBSpline.SolveComponent | apps/VC/CBSpline.cpp:138-160 | one coordinate of the first control points solves the spline system |
| CBSpline.SecondControls | apps/VC/CBSpline.cpp:165-174 | the second control points follow from the first ones and the knots |
| CBSpline.CBSpline.UpdateCurve | apps/VC/CBSpline.cpp:84-192 | the appended segments are the natural cubic spline through the control points |
| CBSpline.CBSpline.SetControlPoints | apps/VC/CBSpline.cpp:43-65 | the curve is the natural spline through the new points, or empty for fewer than two |
| BezierSamples.DeCasteljau | apps/VC/CBezierCurve.cpp:80-104 | without truncation the three rounds of interpolation give the Bezier point |
| BezierSamples.StepIs | apps/VC/CBezierCurve.cpp:17-21 | one step interpolates between its two end points without their fractions |
| BezierSamples.SampleNear | apps/VC/CBezierCurve.cpp:17-21 | with truncation at every step the sample is less than three away from the exact point |
| BezierSamples.SampleBound | apps/VC/CBezierCurve.cpp:80-106 | truncation never takes a sample outside the bound of the control points |
| BezierSamples.SampleCountIs | apps/VC/CBezierCurve.cpp:68-83 | as many samples as whole intervals fit into the length |
| BezierSamples.ParameterSteps | apps/VC/CBezierCurve.cpp:80-106 | the first sample belongs to the start of the curve and neighbours are one n-th of the parameter apart |
| BezierSamples.GetSamplePoints | apps/VC/CBezierCurve.cpp:68-107 | the samples are appended in order, as many as intervals fit; sample i of n lies within three units of the exact point at i n-ths of the curve, and the first is the start point without its fractions |
| BezierSamples.SplineSampleBound | apps/VC/CBezierCurve.cpp:68-107 | samples of a natural spline stay within five times the largest knot coordinate |
| Segmentation.MergedForm | apps/VC/SegmentationStruct.hpp:374-417 | closed form of the merged rows for any position of the incoming rows |
| Segmentation.MergeMeaning | apps/VC/SegmentationStruct.hpp:358-467 | a touching one-sided merge keeps both clouds contiguous and aligned; every slice has its new row, or else its old one, with its old flags |
| Segmentation.MergeAlignedIff | apps/VC/SegmentationStruct.hpp:358-467 | the clouds stay aligned exactly when the incoming rows touch the cloud and extend it on one side at most |
| Segmentation.AnyMergeAlignedIff | apps/VC/SegmentationStruct.hpp:358-467 | whatever is merged, the clouds stay aligned exactly when it is contiguous and ascending, touches the cloud and extends it on one side at most; a gap or a wrong order always misaligns them |
| Segmentation.PaddedAlignedIff | apps/VC/SegmentationStruct.hpp:524-548 | padding aligns the clouds exactly when no annotation lies outside the points, and keeps every annotation with its slice |
| Segmentation.NewAnnotationsAligned | apps/VC/SegmentationStruct.hpp:174-178 | annotations created for a segment without any are aligned with its points |
| Segmentation.RowIndexIs | apps/VC/SegmentationStruct.hpp:614-626 | the search for a slice finds its row, and only slices of the cloud have one |
| Segmentation.SweepFitsIff | apps/VC/SegmentationStruct.hpp:700-720 | a reset stays within the annotation cloud exactly if every point it goes through exists; with one column the skipped point may lie beside it |
| Segmentation.ChainIsRow | apps/VC/SegmentationStruct.hpp:229-237 | on entering the tool the starting chain is the row of the cloud, since no point of an aligned cloud is a dummy |
| Segmentation.WithoutDummiesIs | apps/VC/SegmentationStruct.hpp:232-237 | exactly the points marked as missing are dropped from a row, and the others keep their order |
| AnchorCache.AnchorMarks | apps/VC/SegmentationStruct.hpp:550-576 | the bit changes on all points of the slice and nothing else changes in the cloud |
| AnchorCache.ManualMarks | apps/VC/SegmentationStruct.hpp:628-648 | exactly the buffered points of the slice are marked and the buffer is empty afterwards |
| AnchorCache.UsedInRunMarks | apps/VC/SegmentationStruct.hpp:650-676 | the mark changes on all points of the slice and in its decoded entry, and nothing else |
| AnchorCache.PositionsStored | apps/VC/SegmentationStruct.hpp:679-691 | every slice of a contiguous point set gets the positions of its row, every other slice keeps its own |
| AnchorCache.ResetMarks | apps/VC/SegmentationStruct.hpp:694-721 | in either direction every point of the range that lies in the cloud loses its flags but one, and no other point does, even when the range leaves the cloud |
| AnchorCache.SetAnchorGood | apps/VC/SegmentationStruct.hpp:550-576 | toggling sets the anchor bits of one slice and of no other, and cache and bits still agree |
| AnchorCache.SetUsedInRunGood | apps/VC/SegmentationStruct.hpp:650-676 | marking a slice as used changes no anchor |
| AnchorCache.SetManualPointsGood | apps/VC/SegmentationStruct.hpp:628-648 | confirming manual points changes no anchor |
| AnchorCache.SetOriginalPosGood | apps/VC/SegmentationStruct.hpp:679-691 | storing positions changes no flag and no row index |
| AnchorCache.ResetGood | apps/VC/SegmentationStruct.hpp:694-721 | resetting an anchor-free range changes no anchor bit and nothing outside the range, even when the range leaves the cloud |
| AnchorCache.ResetClearsIff | apps/VC/SegmentationStruct.hpp:694-721 | all flags of the range are cleared exactly when the one skipped point had none |
| AnchorCache.SetUpAnnotationsGood | apps/VC/SegmentationStruct.hpp:286-313 | rebuilding makes the cache the exact decoding of the rows |
| AnchorCache.LookUpGood | apps/VC/SegmentationStruct.hpp:723-755 | the entries that searching inserts change nothing |
| AnchorCache.NearestLowerIs | apps/VC/SegmentationStruct.hpp:723-738 | the search below a slice returns the nearest anchor of the cloud, or -1 if there is none |
| AnchorCache.NearestHigherIs | apps/VC/SegmentationStruct.hpp:740-755 | the search above a slice returns the nearest anchor of the cloud within the volume, or -1 |
| AnchorCache.MergeGood | apps/VC/SegmentationStruct.hpp:358-467 | an aligned merge keeps cache and anchor bits in agreement |
| AnchorCache.ApplyGood | apps/VC/SegmentationStruct.hpp:286-755 | every operation keeps the agreement, and only toggling changes which slices are anchors |
| AnchorCache.RunGood | apps/VC/SegmentationStruct.hpp:286-755 | after any sequence of operations the cache agrees with the bits, and untoggled slices are anchors as before |
| SegmentationStructs.SegmentationStruct.MergePointSetIntoPointCloud | apps/VC/SegmentationStruct.hpp:358-467 | the object's clouds become the merged ones; nothing happens when dimensions do not fit |
| SegmentationStructs.SegmentationStruct.MergeRows | apps/VC/SegmentationStruct.hpp:374-417 | the points: rows before, incoming rows, rows behind |
| SegmentationStructs.SegmentationStruct.FindMergeStart | apps/VC/SegmentationStruct.hpp:378-393 | the first row not below the incoming points, and whether they begin before it |
| SegmentationStructs.SegmentationStruct.FindMergeEnd | apps/VC/SegmentationStruct.hpp:401-407 | the first row behind the incoming points |
| SegmentationStructs.SegmentationStruct.GrowAnnotations | apps/VC/SegmentationStruct.hpp:422-459 | default annotation rows are added on the side that grew |
| SegmentationStructs.SegmentationStruct.NewAnnotationRows | apps/VC/SegmentationStruct.hpp:494-522 | one default row per slice, in order |
| SegmentationStructs.SegmentationStruct.AlignAnnotationCloudWithPointCloud | apps/VC/SegmentationStruct.hpp:524-548 | the annotation cloud is padded at both ends when the row counts differ |
| SegmentationStructs.SegmentationStruct.GetAnnotationIndexForSliceIndex | apps/VC/SegmentationStruct.hpp:614-626 | the first row of a slice, or -1 |
| SegmentationStructs.SegmentationStruct.SetAnnotationAnchor | apps/VC/SegmentationStruct.hpp:550-576 | sets the bit on every point of the slice and in the decoded annotations |
| SegmentationStructs.SegmentationStruct.LookUpAnchor | apps/VC/SegmentationStruct.hpp:578-580 | returns the anchor mark and inserts a default entry when there is none |
| SegmentationStructs.SegmentationStruct.SetAnnotationManualPoints | apps/VC/SegmentationStruct.hpp:628-648 | marks the buffered points of the slice and empties the buffer |
| SegmentationStructs.SegmentationStruct.SetAnnotationUsedInRun | apps/VC/SegmentationStruct.hpp:650-676 | sets or clears the mark on every point of the slice |
| SegmentationStructs.SegmentationStruct.SetAnnotationOriginalPos | apps/VC/SegmentationStruct.hpp:679-691 | stores the positions of every row with its slice |
| SegmentationStructs.SegmentationStruct.ResetAnnotations | apps/VC/SegmentationStruct.hpp:694-721 | clears the flags point by point in either direction, one point short of the end, and tells exactly whether all points it goes through exist |
| SegmentationStructs.SegmentationStruct.SetUpAnnotations | apps/VC/SegmentationStruct.hpp:286-313 | decodes every row into the map |
| SegmentationStructs.SegmentationStruct.SetUpCurves | apps/VC/SegmentationStruct.hpp:254-268 | records the first and the last slice of the cloud |
| SegmentationStructs.SegmentationStruct.SplitCloud | apps/VC/SegmentationStruct.hpp:212-244 | the starting chain is the row of the tool slice without dummies, or empty outside the cloud, the upper part has the rows before it, and the clouds stay |
| SegmentationStructs.SegmentationStruct.GetPointIndexForSliceIndex | apps/VC/SegmentationStruct.hpp:601-612 | the row of the points of a slice, or -1 exactly for slices outside the cloud |
| SegmentationStructs.SegmentationStruct.FindNearestLowerAnchor | apps/VC/SegmentationStruct.hpp:723-738 | the search result, and exactly the entries its lookups insert |
| SegmentationStructs.SegmentationStruct.FindNearestHigherAnchor | apps/VC/SegmentationStruct.hpp:740-755 | the search result, and exactly the entries its lookups insert |
| SegmentationRuns.PlanIsAnchorFree | apps/VC/CWindow.cpp:1093-1135 | a run that is not skipped goes in its direction from beside the tool slice and its range holds no anchor |
| SegmentationRuns.PlanIsMaximal | apps/VC/CWindow.cpp:1093-1135 | a run goes as far as its mode allows, up to an anchor or the end slice, and is skipped only when no slice is left |
| SegmentationRuns.PlanRecordsAnchor | apps/VC/CWindow.cpp:1107-1107 | the plan records the nearest anchor in its direction, or -1 if there is none, whether it limits the run or not |
| SegmentationRuns.StepsFit | apps/VC/CWindow.cpp:1159-1182 | the stepped target never passes the planned one; in slice mode the length is the largest multiple of the step size that fits, or the run is skipped |
| SegmentationRuns.SteppedSlicesIs | apps/VC/CWindow.cpp:1162-1162 | truncating division gives the same number of whole steps in both directions |
| SegmentationRuns.WindowFits | apps/VC/CWindow.cpp:1184-1204 | the interpolation window lies within the run on both sides of its middle |
| SegmentationRuns.WindowIsNearest | apps/VC/CWindow.cpp:1202-1203 | the window covers the chosen share of the run to within one slice |
| SegmentationRuns.DistanceIsMiddle | apps/VC/CWindow.cpp:1194-1197 | the interpolation is centred on the middle of the run, with as many slices before it as behind it or one fewer |
| SegmentationRuns.RoundHalves | apps/VC/CWindow.cpp:1203-1203 | halves are rounded away from zero |
| SegmentationRuns.DeliveryMerges | apps/VC/CWindow.cpp:1394-1397 | merging any delivered rows, all planned ones or fewer, keeps every anchor bit, and the points of every anchor but a tool slice with another chain; the cloud grows by the delivered slices |
| SegmentationRuns.FinishKeepsAnchors | apps/VC/CWindow.cpp:1394-1439 | finishing a run, completed or not, keeps the bits of every anchor, the points of every anchor but a tool slice with another chain, and makes no slice an anchor |
| SegmentationRuns.FinishMeaning | apps/VC/CWindow.cpp:1394-1439 | every point after a run, completed or not: delivered or kept, the tool slice marked as used, positions stored, flags cleared on those of the run's slices that are in the cloud but for one point |
| SegmentationRuns.LocalResliceDelivers | segmentation/src/LocalResliceParticleSim.cpp:74-78 | the starting chain and any number of the rows behind it are a delivery, completed or not |
| SegmentationRuns.OpticalFlowDelivers | segmentation/src/OpticalFlowSegmentation.cpp:878-950 | the planned rows, or those reached from the start slice on, are a delivery |
| SegmentationRuns.EarlyReturnDelivers | segmentation/src/OpticalFlowSegmentation.cpp:753-768 | the starting chain alone is a delivery |
| SegmentationRuns.FinishKeepsIff | apps/VC/CWindow.cpp:1394-1439 | an anchor keeps its points through a run exactly if it is not the tool slice, or the result has no row there, or the starting chain is the row of the cloud |
| SegmentationRuns.ChainOverwritesAnchor | apps/VC/CWindow.cpp:1260-1289 | for every segment and every upward run from an anchor whose starting chain is not the row of the cloud, any result of local reslice gives the anchor the points of the chain |
| SegmentationRuns.DraggedChainOverwrites | apps/VC/SegmentationStruct.hpp:473-491 | an input: the middle one of three points was dragged, resampling has put it back in the cloud, and the run brings it back dragged |
| SegmentationRuns.ResetFitsIff | apps/VC/CWindow.cpp:1427-1432 | the reset after a run stays within the annotation cloud exactly if there is nothing to reset or the planned target is reached by cloud and result, or by all but one slice with a single column |
| SegmentationRuns.EarlyStopFitsIff | segmentation/src/LocalResliceParticleSim.cpp:276-283 | a forward run over several slices and columns: the reset fits exactly if the cloud reached the target before or the result does |
| SegmentationRuns.EarlyStopWritesBehind | segmentation/src/LocalResliceParticleSim.cpp:276-283 | every forward run over several slices and columns that stops before a target the cloud does not reach makes the reset write behind the annotation cloud |
| SegmentationRuns.StoppedRunWritesBehind | segmentation/src/LocalResliceParticleSim.cpp:276-283 | an input: a run to slice 20 from the end of the cloud on slice 10 stops after slice 14 |
| SegmentationRuns.RunLeavesMark | apps/VC/SegmentationStruct.hpp:700-720 | the point the reset leaves out keeps its flags through every run |
| SegmentationRuns.FinishedRunLeavesMark | apps/VC/SegmentationStruct.hpp:700-720 | an input: a completed run leaves a manual mark on the last point of its last slice |
| SegmentationRuns.StaysSafe | apps/VC/CWindow.cpp:1018-1078 | queued runs stay anchor-free while the anchors stay the same and the cloud only grows |
| SegmentationSession.PrepareKeeps | apps/VC/CWindow.cpp:1036-1049 | preparing a run makes the tool slice an anchor and keeps the bits of every other anchor |
| SegmentationSession.PrepareMeaning | apps/VC/CWindow.cpp:1036-1049 | every point after preparing: the changed curve is in the cloud, the tool slice is an anchor with the buffered points marked, all else is as before |
| SegmentationSession.RequestsAreSafe | apps/VC/CWindow.cpp:1051-1076 | every queued run is safe, in both modes and directions and with any step size |
| SegmentationSession.StartedKeeps | apps/VC/CWindow.cpp:1018-1078 | starting keeps the bits of all anchors of a segment and queues safe runs only |
| SegmentationSession.StartAllKeeps | apps/VC/CWindow.cpp:1018-1078 | the same over all segments taking part |
| SegmentationSession.CleanUpKeeps | apps/VC/CWindow.cpp:1457-1469 | leaving the tool keeps the bits of every anchor and readies every segment that has points for the next session |
| SegmentationSession.KeepChangesKeeps | apps/VC/CWindow.cpp:2607-2617 | keeping a changed curve makes the tool slice an anchor and keeps the bits of all others |
| SegmentationSession.NextKeeps | apps/VC/CWindow.cpp:1006-1450 | every event (toggle, buffering and unbuffering of points, start, keeping curves, result, failure) keeps the invariant and the bits of every anchor it does not toggle, with results of either algorithm, completed or not, and with segments that are still empty |
| SegmentationSession.ToggledKeeps | apps/VC/CWindow.cpp:2492-2498 | toggling a slice keeps the bits of every other anchor; on a slice outside the cloud it changes none |
| SegmentationSession.OpenedIsInv | apps/VC/SegmentationStruct.hpp:188-191 | freshly opened segments with aligned clouds, or with none yet, satisfy the session invariant |
| SessionEvents.StartQueues | apps/VC/CWindow.cpp:1018-1135 | a start queues, per segment in order and backward before forward, one run for every chosen direction with slices left: from beside the tool slice as far as mode, anchors and whole steps allow, with the chain of the segment |
| SessionEvents.PlannedRunsAs | apps/VC/CWindow.cpp:1093-1182 | the requests of one direction in terms of what the user chose and of the anchors alone |
| SessionEvents.QueuedOnce | apps/VC/CWindow.cpp:1018-1135 | there is only one queue of this kind |
| SessionEvents.QueueAfter | apps/VC/CWindow.cpp:1394-1450 | a result or a failure takes the first run off the queue and leaves the others in order, every other event but a start leaves the queue alone |
| SessionEvents.NextAnchors | apps/VC/CWindow.cpp:1006-1450 | which slices are anchors after any event: a toggle sets the toggled slice, a start and keeping a curve set the tool slice, nothing else changes any |
| SessionEvents.NextMarks | apps/VC/CWindow.cpp:1006-1450 | the annotation of any point of the cloud after any event, bit by bit, with slice and position |
| SessionEvents.NextBuffered | apps/VC/CWindow.cpp:1006-1450 | the buffered points after any event: more or fewer by hand, none after a start, keeping a curve or leaving the tool |
| SessionEvents.ToggleMeaning | apps/VC/CWindow.cpp:2492-2498 | toggling gives every point of a slice in the cloud the anchor bit the user wants and leaves all other bits, positions, points, segments and the queue alone |
| SessionEvents.KeepMeaning | apps/VC/CWindow.cpp:2612-2616 | every point after keeping a curve: the tool slice is an anchor with the curve, the buffered points marked as manual, and not used in a run; all else is as before |
| SessionPoints.AnchorsAreProtected | README.md:67-70 | in every session, with either algorithm, an anchor the user does not toggle stays one with all of its bits, and keeps its points as long as every event spares them |
| SessionPoints.NextRow | apps/VC/CWindow.cpp:1006-1450 | the points of any slice of the cloud after any event: those of the changed curve, of the result, or its own |
| SessionPoints.PointsKeptIff | apps/VC/CWindow.cpp:1006-1450 | an event leaves the points of an anchor as they are exactly if no other curve is merged on it and no result brings back another chain for it |
| SessionPoints.NextFaithful | apps/VC/CWindow.cpp:1006-1450 | if every run is started from the row of the cloud, every queued chain stays the row of the cloud until its result arrives |
| SessionPoints.FaithfulChainsProtect | README.md:67-70 | if every run is started from the row of the cloud, results take no points from any anchor |
| SessionPoints.UndraggedSessionsProtect | README.md:67-70 | in every session in which no curve is dragged, no run takes a bit or a point from an anchor that is not toggled |
| SessionPoints.LocalResliceTakesPoints | apps/VC/CWindow.cpp:1394-1439 | whenever the queued chain is not the row of the anchor the run starts from, the result of local reslice can happen and gives the anchor the points of the chain |
| SessionPoints.DraggedSessionTakesPoints | apps/VC/CWindow.cpp:1036-1049 | a whole session: the middle one of three points is dragged, the start resamples the curve into the cloud and makes the slice an anchor, and the result brings the curve back as dragged |
| Windows.CWindow.PrepareSegmentationBaseBefore | apps/VC/CWindow.cpp:1093-1135 | plans the range up to the nearest anchor, of which a segment without annotations has none, and says whether to skip the run |
| Windows.CWindow.PrepareSegmentationOFS | apps/VC/CWindow.cpp:1149-1258 | fits the run to the step size, chooses window, distance and the row beyond the target as chain for the way back, and queues the run with the starting path unless skipped |
| Windows.CWindow.PrepareSegmentationLRPS | apps/VC/CWindow.cpp:1260-1289 | queues the planned run with the starting path |
| Windows.CWindow.StartSegment | apps/VC/CWindow.cpp:1036-1076 | merges the changed curve, sets the anchor, and queues the runs of both directions with the unchanged starting path |
| Windows.CWindow.StartSegments | apps/VC/CWindow.cpp:1018-1081 | the loop starts every segment taking part and leaves the others alone |
| Windows.CWindow.DoSegmentation | apps/VC/CWindow.cpp:1006-1091 | carries out the start event of the session, and the queue is the one that choice, anchors and step size say |
| Windows.CWindow.ExecuteNextSegmentation | apps/VC/CWindow.cpp:1296-1349 | submits the first run of the queue, or cleans up every segment when there is none |
| Windows.CWindow.CleanupSegmentation | apps/VC/CWindow.cpp:1457-1469 | every segment forgets its buffers and rebuilds slice number and cache |
| Windows.CWindow.OnSegmentationFinished | apps/VC/CWindow.cpp:1394-1439 | carries out the event of a finished run, and tells exactly whether all that is written lies within the clouds |
| Windows.CWindow.OnSegmentationFailed | apps/VC/CWindow.cpp:1441-1450 | carries out the event of a failed run, which leaves its segment alone |
| Windows.CWindow.ToggleAnchor | apps/VC/CWindow.cpp:2492-2498 | carries out the toggle event on any slice: a slice in the cloud becomes an anchor if it was none and the other way round, no other slice changes |
| Windows.CWindow.KeepChangedCurves | apps/VC/CWindow.cpp:2607-2625 | carries out the event of keeping changed curves, with or without leaving the tool |
| Windows.CWindow.KeepChangedCurve | apps/VC/CWindow.cpp:852-860 | anchor, manual marks, used mark and curve of one segment |
| Windows.ResultFits | apps/VC/CWindow.cpp:1394-1432 | merging a result, marking the tool slice and storing positions never index outside the clouds, whatever part of the planned slices was delivered |
| CurveEditing.RecordedIs | apps/VC/CVolumeViewerWithCurve.cpp:356-374 | the recorded points are those nearer to the grabbed one than the widest range used so far |
| CurveEditing.DragSnapshot | apps/VC/CVolumeViewerWithCurve.cpp:295-381 | with any ranges, points outside the moved set are where they were at the press, and the snapshot holds the press-time state of the others |
| CurveEditing.GrabbedPointFollows | apps/VC/CXCurve.cpp:21-78 | after every move the grabbed point is at the mouse position |
| CurveEditing.DraggedFollows | apps/VC/CXCurve.cpp:21-78 | a point at the share q of the range follows by the impact of q from its last state, a point behind the range stays |
| CurveEditing.DragFollows | apps/VC/CVolumeViewerWithCurve.cpp:331-381 | through a whole drag with changing ranges every point has followed the last move that reached it by the impact of its share of that range |
| CurveEditing.UnreachedStays | apps/VC/CVolumeViewerWithCurve.cpp:331-381 | a point that no move of the drag reaches stays |
| CurveEditing.PlacedByLastReach | apps/VC/CXCurve.cpp:21-78 | with changing ranges every point is where the last move that reached it put it, relative to the press |
| CurveEditing.EditMovesNothingIff | apps/VC/CXCurve.cpp:21-78 | a drag leaves the curve as it was exactly if for every point the last move that reached it gave it no weight or came back |
| CurveEditing.CommandIs | apps/VC/CVolumeViewerWithCurve.cpp:416-443 | what a release hands over: the snapshot as recorded, and the moved points in ascending order |
| CurveEditing.UndoRestoresCurve | apps/VC/UndoCommands.cpp:14-29 | undo restores the whole curve for any ranges |
| CurveEditing.RedoRepeatsCurve | apps/VC/UndoCommands.cpp:31-46 | redo gives the dragged curve again |
| CurveEditing.CommandOverlays | apps/VC/SegmentationStruct.hpp:348-356 | on any curve of its length a command puts exactly the points nearer than the widest range of its drag back, or where the drag has moved them |
| CurveEditing.PushChangesNothing | apps/VC/UndoCommands.cpp:31-46 | the redo performed when a command is pushed changes neither curve nor marks |
| CurveEditing.UndoRestoresManual | apps/VC/UndoCommands.cpp:14-46 | with the recording order kept, undo and redo also restore the manual marks |
| CurveEditing.ManualUndoIff | apps/VC/UndoCommands.cpp:14-29 | undo restores the marks, whatever they were, exactly when no later range records points to the left of the first ones |
| CurveEditing.UndoLosesManual | apps/VC/UndoCommands.cpp:18-24 | the drag that shows it: a range growing to the left, with one point marked before |
| CurveEditing.PushLinks | apps/VC/UndoCommands.cpp:14-46 | a command moves the points its drag touches, of any curve, from the replayed document to the next and back, and the marks as well if the order was kept |
| CurveEditing.UndoRedoIsReplay | apps/VC/CWindow.cpp:2877-2889 | after any drags, undos and redos, also with another slice shown, every point is where the edits it is shown after put it, the curve is the replay of the applied edits exactly if these put all points there, and the marks are the replayed ones if all orders were kept |
| CurveEditing.AtToolIsReplay | apps/VC/CWindow.cpp:2877-2889 | if nothing is undone or redone while another slice is shown, curve and marks are the replay of the applied edits |
| CurveEditing.UndoAwayKeepsCurve | apps/VC/UndoCommands.cpp:14-29 | the failing family: a drag that ended elsewhere, undone while another slice is shown, keeps its curve although the command is used up |
| CurveEditing.StartIsLastDrag | apps/VC/SegmentationStruct.hpp:758-773 | after any drags, undos and redos the starting path is the curve with all edits on the stack applied; where the shown curve is the replay, it is the starting path if none is undone, and if one is, exactly when that drag moved nothing |
| CurveEditing.UndoKeepsStart | apps/VC/UndoCommands.cpp:14-29 | the failing family: undoing a drag that ended elsewhere leaves the next run with the undone curve |
| CurveViewers.CXCurve.SetPointByDifference | apps/VC/CXCurve.cpp:21-58 | the two-sided loop moves every point within the range from its last state, by the impact of its share of the range, and no other |
| CurveViewers.CXCurve.SetPointByDifferenceMt | apps/VC/CXCurve.cpp:60-78 | the parallel loop gives the same curve |
| CurveViewers.SegmentCurves.SetCurrentCurve | apps/VC/SegmentationStruct.hpp:315-335 | shows the changed curve of a slice if there is one, else its own, else none |
| CurveViewers.SegmentCurves.UpdateChangedCurvePoints | apps/VC/SegmentationStruct.hpp:348-356 | overwrites the listed points of the changed curve only |
| CurveViewers.SegmentCurves.OnPathChanged | apps/VC/SegmentationStruct.hpp:758-773 | the shown curve becomes the starting path and is buffered for its slice |
| CurveViewers.PathChangeCommand.Undo | apps/VC/UndoCommands.cpp:14-29 | the changed curve of the shown slice takes the positions from before, if there is one, and is shown; no longer manual points leave the buffer; the document becomes the undone one |
| CurveViewers.PathChangeCommand.Redo | apps/VC/UndoCommands.cpp:31-46 | the changed curve of the shown slice takes the positions from after, if there is one, and is shown; manual points enter the buffer; the document becomes the redone one |
| CurveViewers.PathChangeCommand.ManualChanges | apps/VC/UndoCommands.cpp:18-24 | the points whose entries differ in their mark, compared by position |
| CurveViewers.CVolumeViewerWithCurve.MousePress | apps/VC/CVolumeViewerWithCurve.cpp:295-316 | a press starts a fresh record and performs the first move |
| CurveViewers.CVolumeViewerWithCurve.MouseMove | apps/VC/CVolumeViewerWithCurve.cpp:331-381 | records points that move for the first time, then moves the curve; without a grab nothing happens |
| CurveViewers.CVolumeViewerWithCurve.MouseRelease | apps/VC/CVolumeViewerWithCurve.cpp:400-455 | hands over the lists, marks the moved points, and ends the drag |
| CurveViewers.OnPathChanged | apps/VC/CWindow.cpp:2877-2889 | with the tool on every segment takes the curve it shows, then the command is pushed on the stack of the tool slice |
| CurveViewers.UndoStack.Undo | apps/VC/UndoCommands.cpp:14-29 | one step down the stack is the undo of the editor, whichever slice is shown |
| CurveViewers.UndoStack.Redo | apps/VC/UndoCommands.cpp:31-46 | one step up the stack is the redo of the editor, whichever slice is shown |
| CurveViewers.UndoStack.ShowSlice | apps/VC/SegmentationStruct.hpp:315-335 | showing another slice, or the tool slice again, leaves document, stack and starting path alone |
| CurveViewers.Gesture | apps/VC/CVolumeViewerWithCurve.cpp:295-455 | press, moves and release through the handlers give the edited document and its command |
| CurveViewers.DragCurve | apps/VC/CVolumeViewerWithCurve.cpp:295-443 | a whole drag through the handlers is one edit of the document with its command on the stack; on another slice than the tool slice nothing happens |
| MinLoc.AtCell | apps/src/ZarrRenderBlur.cpp:105-121 | at a cell the interpolation is the cell |
| MinLoc.AtWithin | apps/src/ZarrRenderBlur.cpp:105-121 | an interpolated point lies in every box that holds the grid |
| MinLoc.AtIsBilinear | apps/src/ZarrRenderBlur.cpp:105-121 | if the four cells around a location are those of a bilinear function, which they always are, the interpolated point is its value there |
| MinLoc.SdistLaws | apps/src/ZarrRenderBlur.cpp:123-127 | the laws of the squared distance: steps at right angles add up, and along an axis it is the square |
| MinLoc.NeighboursAre | apps/src/ZarrRenderBlur.cpp:148-152 | the search looks left and right, and up and down if it goes in z |
| MinLoc.AcceptShrinks | apps/src/ZarrRenderBlur.cpp:171-179 | every accepted move leaves strictly fewer better places on a finite lattice |
| MinLoc.Round | apps/src/ZarrRenderBlur.cpp:158-182 | one round takes better neighbours as they come, finds none better, or meets the rim |
| MinLoc.Descend | apps/src/ZarrRenderBlur.cpp:155-188 | the search ends for every cost and rectangle, and no neighbour at the last step is better |
| MinLoc.MinLoc | apps/src/ZarrRenderBlur.cpp:129-191 | the result is the interpolated point at the location, no farther than at the start, and at an eighth of a cell to the left and right, and above and below if the search goes in z, no point is nearer; failure only at the rim |
| MinLoc.MinLocByDistances | apps/src/ZarrRenderBlur.cpp:212-273 | the other search ends as well, for any look-up and measure, with the point at the location found and no better neighbour; at the rim both are lost |
| FetchSliceThread.NextKeepsInv | app_support/src/FetchSliceThread.cpp:22-61 | every step of requester or worker keeps the handshake invariant |
| FetchSliceThread.HandshakeIsSafe | app_support/src/FetchSliceThread.cpp:22-61 | in every interleaving a blocked worker has emitted the latest request, no wake is lost, and emissions follow the order of requests |
| FetchSliceThread.QuietWorkerSettles | app_support/src/FetchSliceThread.cpp:35-61 | left alone the worker blocks within seven steps with the latest request answered |
| SliceImage.BeforeIsStrictWeakOrder | apps/src/SliceImage.cpp:22-35 | the comparison is a strict weak order, and only names that differ in case tie |
| SliceImage.AlphabeticalIff | apps/src/SliceImage.cpp:28-30 | names of equal length compare as in a dictionary, by the first character in which they differ |
| SliceImage.LengthFirst | apps/src/SliceImage.cpp:27-34 | the shorter name comes first, whatever its letters |
| SliceImage.LowerIs | apps/src/SliceImage.cpp:24-25 | two characters count as equal exactly if they are the same or the two cases of a letter |
| SliceImage.NumberedNamesByValue | apps/src/SliceImage.cpp:22-35 | numbered names are ordered by their numbers if the numerals are equally long or have no leading zeros |
| SliceImage.LeadingZeroIff | apps/src/SliceImage.cpp:32-34 | against all shorter numerals the order is by value exactly when there is no leading zero |
| Barycentric.CoordinatesRoundTrip | core/src/BarycentricCoordinates.cpp:10-42 | coordinates that sum to one come back from a trip through space |
| Barycentric.PlaneRoundTrip | core/src/BarycentricCoordinates.cpp:10-42 | points of the plane come back from a trip through coordinates |
| Barycentric.OrthogonalProjection | core/src/BarycentricCoordinates.cpp:10-33 | the coordinates of any point are those of its orthogonal projection |
| Barycentric.NearestInPlane | core/src/BarycentricCoordinates.cpp:10-33 | the projection is the nearest point of the plane |
| Barycentric.DenominatorIff | core/src/BarycentricCoordinates.cpp:20-25 | the denominator vanishes exactly for dependent edges |
| AlphaCompositing.WeightIsConserved | apps/src/ZarrAlphaComp.cpp:208-238 | the weights of the layers and what shines through add up to one |
| AlphaCompositing.TransparencyBounds | apps/src/ZarrAlphaComp.cpp:214-238 | what shines through stays between zero and one |
| AlphaCompositing.OpacityIs | apps/src/ZarrAlphaComp.cpp:227-231 | blurred values between zero and one are their own opacity, darker ones are clear, brighter ones opaque |
| AlphaCompositing.OneLayer | apps/src/ZarrAlphaComp.cpp:233-237 | one layer lets through what it is not opaque for and shows its value by its opacity |
| AlphaCompositing.StackedLayers | apps/src/ZarrAlphaComp.cpp:233-237 | of layers behind others, what is let through multiplies and what is shown is seen through those in front |
| AlphaCompositing.OffsetIs | apps/src/ZarrAlphaComp.cpp:217-217 | the layers are half a unit apart and the sixth is the surface |
| AlphaCompositing.VisibleIff | apps/src/ZarrAlphaComp.cpp:241-245 | the divisor is positive exactly when some layer is not clear |
| AlphaCompositing.OpaqueIff | apps/src/ZarrAlphaComp.cpp:233-237 | nothing shines through exactly when a layer is fully opaque |
| AlphaCompositing.OpaqueHides | apps/src/ZarrAlphaComp.cpp:233-237 | layers behind a fully opaque one do not count |
| AlphaCompositing.NormalisedIsConvex | apps/src/ZarrAlphaComp.cpp:241-245 | normalised sums are convex combinations of the values that are seen |
| AlphaCompositing.SurfaceStaysBetweenLayers | apps/src/ZarrAlphaComp.cpp:214-249 | the surface offset stays between the outermost layers, -2.5 to 7.5 for the 21 used |
| AlphaCompositing.PictureBounds | apps/src/ZarrAlphaComp.cpp:241-245 | the composed picture lies between zero and two |
| AlphaCompositing.SurfAlphaInteg | apps/src/ZarrAlphaComp.cpp:204-252 | the layer loop computes the weighted sums and what shines through |

## Left out

- Floating point: `float` and `double` are real numbers; rounding, overflow and not-a-number are not part of this model.
- Memory layout: points and annotations are rows of equal width, and an index into a cloud is a pair of row and column; the flags of an annotation are three booleans instead of bits of a `long`.
- Segmenters (optical flow, local reslice), `FittedCurve` and the resampling of a changed curve: the changed curve is a given row, and a result is empty or any contiguous ascending rows of the cloud's width between tool slice and target that touch the cloud, with the starting chain as the row of the tool slice if it has one. Optical flow with a step size above one that stops early in an interpolated run returns rows with gaps; merging those misaligns the clouds (`Segmentation.AnyMergeAlignedIff`), and the session model does not go on from there.
- Writes beyond the annotation cloud: the model tells when a reset leaves the cloud, and leaves the entries of the cloud as they are for it.
- Unbounded slice numbers; the spin boxes keep the end slices within the volume and on their side of the tool slice.
- Runs on segments that report no annotations: only the planning of one run covers them; segments that are still empty can be in a session.
- SegmentationStructs.SegmentationStruct.SplitCloud: the curve it shows when a row had dummies is left out.
- Windows.CWindow.DoSegmentation: the check of the parameters and the final target slices kept for the choice of the slice shown afterwards are left out, and the segments taking part are given with their changed curves.
- Windows.CWindow.ExecuteNextSegmentation: the choice of the slice shown after the last run, widget locking, progress display and sound are left out.
- Windows.CWindow.CleanupSegmentation: window state, tool buttons and shown curves are left out; the three loops over the segments are one here.
- SegmentationStructs.SegmentationStruct.SetUpCurves: the curves it rebuilds from the rows are left out.
- Windows.CWindow.KeepChangedCurves: the question to the user and clearing the undo stack are left out; the curves to keep are given.
- `MergeChangedCurveIntoPointCloud` beyond the merge.
- DenseMatrix.Inverse: nothing is stated of the entries for a nearly singular matrix, because the storage is never written.
- CBSpline.CBSpline.SetControlPoints: the overload for `cv::Vec2f` only; the one for `Vec2<double>` calls the update without a guard for fewer than two points.
- BezierSamples.GetSamplePoints: the length of the control polygon is a parameter, because its square roots are not modelled.
- CurveEditing.UndoRedoIsReplay: nothing is stated once a curve is dragged while it is not the replay of the applied edits, which takes an undo or redo with another slice shown before.
- The impact function of a drag is any function that is one at the grabbed point and zero at the range; the cosine itself is not modelled. `EvenlySpaceCurveCommand`, selection of the nearest point, panning and the drawing of curves are left out; the curves of a segment (`SegmentCurves`) and its clouds (`SegmentationStruct`) are two objects here and one in the source.
- MinLoc.MinLocByDistances: look-up and measure are any functions, because the rectangle of the source lets it read one cell beyond the grid.
- FetchSliceThread.HandshakeIsSafe: shutdown is left out, because the abort flag is looked at only at the top of the loop; loading a slice always succeeds. The threads for Canny edges and for projections follow the same protocol.
- SliceImage.BeforeIsStrictWeakOrder: lower-casing is that of the classic locale; the path is reduced to the file name beforehand.
- AlphaCompositing.SurfAlphaInteg: one pixel; the blurred values are inputs and not negative. Where no layer is seen the source divides by zero, and no picture is stated here.
- The iterative part of the singular value decomposition, the matrix helpers whose code and intent differ, and the copies of these files for VC3D.
- Qt, OpenCV, VTK, ITK and z5, file formats and image processing.
