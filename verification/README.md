# Fiducial detector service: a Dafny model

The service reads camera streams, finds fiducial tags and publishes their poses
over UDP. Two parts of it are modelled here, with the smaller parts they rest on.

**Guided calibration** (`tools/calibrate_camera.py`). `isodata.dfy`,
`threshold_grid.dfy` and `threshold_box.dfy` follow the adaptive thresholding from
a tile's prefix sums to the output image. `board_fit.dfy` and `fit_targets.dfy`
hold the geometry that decides which targets a board held upright can reach;
`held_board.dfy`, `held_fill.dfy` and `held_maximum.dfy` say what becomes of it for
boards held at any other angle. `target_queue.dfy` and `guided_capture.dfy` are the queue of targets and the
acceptance loop, as classes.

**The stream worker and what surrounds it** (`src/`, `tools/recv_fiducial.py`).
`app_config.dfy` and `yaml_heal.dfy` load, heal, write and validate the
configuration, through any codec for scalars that prints back what it reads;
`decimal_codec.dfy` is one. `gst_capture.dfy` owns the GStreamer references, `detector.dfy`
rescales intrinsics and gates markers, `udp_publisher.dfy` builds and sends
messages. `stream_worker.dfy` is the per-camera loop as a class; every input from
outside (frames, bus messages, markers, socket results, clock advances, the stop
flag) is an arbitrary argument. `worker_trace.dfy` says what the trace of a run looks
like and what follows from it, `run_log.dfy` sets each entry of the trace against
the inputs it was made of. `receiver.dfy` is the receiving end,
`gap_law.dfy` the theory of its gap counter, and `system.dfy` puts workers,
interleaving, loss and receiver together.

Conventions. Times are microseconds on one monotonic clock that never goes back; a
sleep lasts at least as long as asked. Geometry, stamps in seconds, fill fractions
and intrinsics are exact reals. Frame ids are unbounded integers. A method is
proved against a specification (a function, or a predicate on a log), and the
lemmas are about that specification, said where they can without it: in pixels,
microseconds, sizes and boards. `wrappers.dfy` holds Option and Result.

The main results, from which the rest of the table can be read:

- thresholding: `ThresholdBox.Threshold` with `ThresholdBox.OutputBetweenCentres` and
  `ThresholdBox.CutoffAlwaysInRange`, `ThresholdGrid.AffineFieldReproduced` and
  `Isodata.UncappedLoopSettles`;
- calibration: `BoardFit.MaxFillExact` and `HeldMaxima.FillReachedAtCorner`,
  `FitTargets.Fit`, `FitTargets.SurvivorIsReachable`, `HeldBoards.EscapesExactly`,
  `GuidedCaptures.GuidedCapture.Run`;
- configuration: `AppConfigs.Validate`, `YamlHeal.HealRoundTrip` with
  `DecimalCodecs.DecimalIsLossless`, `YamlHeal.HealedExactly`;
- the worker: `StreamWorkers.StreamWorker.Run` with `RunMeans`, `RebuildsAreWatched`
  and `OneSizeRun`, `RunLogs.PublishedStamp`, `WorkerTraces.PublishCadence`,
  `WorkerTraces.AmortisedRebuildBound`, `GstCaptures.AnyCalls`,
  `Detectors.RescaleRightExactly`;
- the whole: `Systems.SystemGapLaw`, `Systems.EndToEnd`, `Systems.LateNotedExactly`.

Where the code does something its comments do not say, the model follows the code:

- `include/app_config.h:189-190` has `healed` set when anything was missing. It is
  set exactly when a key read through the healer, or `dist_coeffs`, is absent. A
  default is also filled in, unreported, for an override without `size_m`, for
  `sizes` or `accept_ids` absent or no list, and for a `dist_coeffs` that is present
  but no list. So over the documents that load, the promise holds exactly for those
  that are incomplete or have none of these (`YamlHeal.HealedExactly`);
  `YamlHeal.SizeFilledUnreported` and `YamlHeal.CoeffsFilledUnreported` are documents
  for which it fails, `DecimalCodecs.UnreportedDocuments` two of them in full.
- A detection's capture stamp may lie up to 10 ms ahead of its publish stamp, which
  the receiver notes as a problem. It does so exactly when the frame's base time and
  PTS are valid on a monotonic clock, at most 10 ms ahead of the clock where the
  stamp is checked, and past the clock at publication (`RunLogs.LateExactly`, and
  `Systems.LateNotedExactly` for the whole system). `StreamWorkers.AheadOfPublication`
  is a run that sends such a datagram, `Systems.LateStampNoted` has it noted.
- `include/stream_worker.h:53` calls the heartbeat independent of frame delivery;
  none is sent in an iteration without a frame (`WorkerTraces.DatagramsNeedFrames`),
  as the comment at `src/stream_worker.cpp:320-322` wants it.
- Intrinsics are scaled in place at every initialisation, so they are right for the
  current frame size exactly when the factors of all earlier initialisations
  multiply to one (`Detectors.RescaleRightExactly`, with a failing history in
  `Detectors.RescaleCompounds`).
- A positive heartbeat rate above 1 MHz truncates to a period of zero, which turns
  heartbeats off (`WorkerTraces.HeartbeatsOnExactly`).
- The 10 s rebuild cap is never reached: waiting 8 s outlasts the 5 s window and
  resets the backoff (`WorkerTraces.BackoffValues`).
- A range that is not positive can be published exactly when the configured gate
  admits one; `validate` does not look at the gate
  (`Detectors.NonPositiveRangePossible`).
- `fit_targets` keeps thresholds at 15 or more only if the table's own were; its
  floor drops targets, it raises nothing (`FitTargets.ThresholdOnlyFalls`).
- `tools/calibrate_camera.py:778-797` wants the threshold region to hold the whole
  board. It pads by a square of an upright board; a board turned in the image plane
  can hang over further. Some board at some angle fits the frame, passes `contains`
  and leaves the region exactly when, on an axis where the region ends before the
  frame does, three sums of the padding, the box and the frame leave room for it
  (`HeldBoards.EscapesExactly`; along the shorter side of the pattern they never do,
  `HeldBoards.PaddingOfShorterSide`). `HeldFills.TurnedBoardLeavesRegion` is a 9x6
  board turned by a quarter, in a shipped target of a shipped frame size, with the
  white border running through its squares.
- `max_fill_pct` (line 685) is the largest fill of boards held upright only. It bounds
  boards turned by a quarter exactly when its figure for the turned pattern is no
  larger (`HeldFills.MaxFillBoundsExactly`), and boards at every angle exactly when
  none of at most 45 corners of a polygon fills more
  (`HeldMaxima.MaxFillBoundsEveryAngle`). So `fit_targets` (lines 716-730) drops
  targets that a turned board reaches (`HeldFills.DroppedYetReachable`, and exactly
  when in `HeldFills.DroppedIsOutOfReachExactly` and
  `HeldMaxima.OutOfReachAtEveryAngle`); what it keeps is always reachable.
- `max_fill_pct` divides by zero exactly for a one-column pattern over a nonempty
  box (`BoardFit.MaxFillRaises`).

## Model

| member | source | states |
|---|---|---|
| `Isodata.ClassesPartition` | tools/calibrate_camera.py:469-475 | dark and bright class partition the tile in number and in weight, so total minus prefix is the other class |
| `Isodata.Bincount` | tools/calibrate_camera.py:463 | bin v counts the pixels of value v |
| `Isodata.CumulativeSums` | tools/calibrate_camera.py:464-465 | the prefix sums are the number and weight of the pixels at most v, counted on the tile itself |
| `Isodata.OnePass` | tools/calibrate_camera.py:469-479 | a pass computed from prefix sums alone is the midpoint of the two direct class means, and stops exactly on an empty class or a move of at most 2 |
| `Isodata.TileThreshold` | tools/calibrate_camera.py:450-481 | the loop yields the cutoff specified on the tile's pixels, in 5..250 |
| `Isodata.MidpointMonotone` | tools/calibrate_camera.py:474-477 | the update never falls when the prediction it starts from rises |
| `Isodata.IterateStaysWithin` | tools/calibrate_camera.py:468-479 | no number of passes leaves the range of the tile's own pixels |
| `Isodata.DirectionPersists` | tools/calibrate_camera.py:476-479 | a pass that moves one way is never followed by one that moves back |
| `Isodata.OneDirection` | tools/calibrate_camera.py:468-479 | over a whole run the predictions move in one direction only |
| `Isodata.RunStops` | tools/calibrate_camera.py:468-479 | a run stops by itself within a third of the remaining grey levels |
| `Isodata.ExtraPassesChangeNothing` | tools/calibrate_camera.py:478-479 | once stopped, further passes change nothing |
| `Isodata.UncappedLoopSettles` | tools/calibrate_camera.py:453-457 | without the cap of 10 every tile settles, within 86 passes and within a third of its own pixel range |
| `Isodata.CutoffInRange` | tools/calibrate_camera.py:481 | the cutoff lies in 5..250 and between the adjusted, clamped darkest and brightest pixels |
| `Isodata.CutoffMeans` | tools/calibrate_camera.py:450-481 | the cutoff, said on the tile alone: the end of the chain of predictions that starts at the mean of the pixels, each the middle of the means of the pixels below the last one and of the others, ten at most, until one moves by at most 2 or a class is empty; then adjusted and clamped |
| `Isodata.StoppedIsSettled` | tools/calibrate_camera.py:478-479 | a loop that stopped stands within 2 of the midpoint it came from, or one class was empty |
| `ThresholdGrid.TilesAreUsable` | tools/calibrate_camera.py:506-521 | sides of at least 8 give 1..3 tiles an axis of at least 2 pixels: three on the long edge; on the short one 1, 2 or 3, as its length is below a half, up to five sixths, or above, of the long one's; the tile guard never fires |
| `ThresholdGrid.BuildKnots` | tools/calibrate_camera.py:530-540 | knots are the tile centres and one tile further on each side |
| `ThresholdGrid.KnotsAreIncreasing` | tools/calibrate_camera.py:530-540 | knots strictly increase, so interpolation is well defined |
| `ThresholdGrid.PixelsBetweenKnots` | tools/calibrate_camera.py:519-540 | despite the floor division every pixel of the region lies between the first and last knot |
| `ThresholdGrid.FillInterior` | tools/calibrate_camera.py:536-537 | interior nodes hold the tile cutoffs |
| `ThresholdGrid.FillColumns` | tools/calibrate_camera.py:544-549 | left and right ring are the row extrapolations, flat for a single column |
| `ThresholdGrid.FillRows` | tools/calibrate_camera.py:550-555 | top and bottom ring are the column extrapolations, flat for a single row |
| `ThresholdGrid.ClipAll` | tools/calibrate_camera.py:556-565 | every node is clipped to 5..250 |
| `ThresholdGrid.BiasCorners` | tools/calibrate_camera.py:561-564 | the four corners become the biased mean of their clipped neighbours and nothing else moves |
| `ThresholdGrid.BuildGrid` | tools/calibrate_camera.py:526-565 | the grid filled in place equals the closed form of every node |
| `ThresholdGrid.RingMeans` | tools/calibrate_camera.py:542-556 | a side node of the ring is the clipped straight continuation of the two tiles next to it, or a copy of the only one |
| `ThresholdGrid.CornersMean` | tools/calibrate_camera.py:557-565 | a corner of the grid is 12 below the mean of its two neighbours on the ring, clipped |
| `ThresholdGrid.SearchRightLocates` | tools/calibrate_camera.py:577 | searchsorted brackets the value between neighbouring knots |
| `ThresholdGrid.InterpOnCell` | tools/calibrate_camera.py:574-575 | np.interp is the straight line on every closed cell, whichever of two cells it looked up |
| `ThresholdGrid.SurfaceOnCell` | tools/calibrate_camera.py:567-580 | the two-pass surface is bilinear on each closed cell, so it agrees from both sides of every seam |
| `ThresholdGrid.SurfaceAtNode` | tools/calibrate_camera.py:574-580 | at a grid node the surface is the node's value |
| `ThresholdGrid.SurfaceWithin` | tools/calibrate_camera.py:577-580 | weights lie in [0,1] and no cutoff leaves the range of the nodes |
| `ThresholdGrid.ExtrapolationContinuesAffine` | tools/calibrate_camera.py:542-555 | the extrapolated ring continues an affine field of tile cutoffs exactly |
| `ThresholdGrid.AffineFieldReproduced` | tools/calibrate_camera.py:539-580 | with two tiles an axis and nothing clipped the surface reproduces an affine field outside the four corner cells |
| `ThresholdBox.ClipKeepsFramePixels` | tools/calibrate_camera.py:499-504 | clipping keeps exactly the box's pixels that are in the frame |
| `ThresholdBox.RavelAt` | tools/calibrate_camera.py:459 | the flattened tile is its pixels row by row |
| `ThresholdBox.CutoffAlwaysInRange` | tools/calibrate_camera.py:519-580 | every pixel of every usable region has a cutoff in 5..250 with weights in [0,1] |
| `ThresholdBox.CutoffAtTileCentre` | tools/calibrate_camera.py:523-540 | at a tile's centre the surface is that tile's entry of the coarse grid |
| `ThresholdBox.TileCutoffOfOwnPixels` | tools/calibrate_camera.py:530-537 | the cutoff of tile (i, j) is the isodata cutoff of any listing of the pixels in its own rows and columns |
| `ThresholdBox.CutoffAtCentreOfOwnPixels` | tools/calibrate_camera.py:523-580 | at a tile's centre a pixel is compared with the isodata cutoff of the pixels in that tile's own rows and columns |
| `ThresholdBox.CutoffBetweenCentres` | tools/calibrate_camera.py:567-580 | between the centres of four tiles the cutoff is blended, along rows and columns, from the isodata cutoffs of the pixels of each of the four |
| `ThresholdBox.OutputBetweenCentres` | tools/calibrate_camera.py:484-593 | there the output is 255 exactly where the pixel is at least that blend of the four |
| `ThresholdBox.OneTile` | tools/calibrate_camera.py:531-537 | the slice of one tile yields the isodata cutoff of that tile's own pixels |
| `ThresholdBox.BuildTileRow` | tools/calibrate_camera.py:533-537 | one row of the coarse grid, each entry the cutoff of its own tile |
| `ThresholdBox.BuildTileCutoffs` | tools/calibrate_camera.py:530-537 | the loops visit every tile once, and each gets the cutoff of its own pixels (`ThresholdBox.TileCutoffOfOwnPixels`) |
| `ThresholdBox.InterpolateRows` | tools/calibrate_camera.py:571-575 | the first pass interpolates each grid row at each column |
| `ThresholdBox.InterpolateGrid` | tools/calibrate_camera.py:567-580 | row pass plus blend is the two-dimensional surface |
| `ThresholdBox.CutoffRows` | tools/calibrate_camera.py:511-580 | from the region's pixels to the cutoff of every one of its pixels, blended from the tiles around it |
| `ThresholdBox.Binarise` | tools/calibrate_camera.py:582-583 | 255 exactly at or above the cutoff, 0 below, outside the region untouched |
| `ThresholdBox.WhiteBorder` | tools/calibrate_camera.py:585-592 | the one-pixel border is white and nothing else changes |
| `ThresholdBox.ThresholdRegion` | tools/calibrate_camera.py:509-592 | border white, inside compared with its own cutoff, outside as before |
| `ThresholdBox.Threshold` | tools/calibrate_camera.py:484-593 | the image computed in place is the specified output for every frame and box, small or off-frame boxes included |
| `ThresholdBox.OutputShape` | tools/calibrate_camera.py:484-496 | binary inside, white on the border, unchanged outside; near-black stays black and near-white stays white off the border |
| `BoardFit.AxisLimitExact` | tools/calibrate_camera.py:659-681 | sound and complete: a span has a placement exactly when it is at most the limit |
| `BoardFit.PixelRectExactly` | tools/calibrate_camera.py:760-765 | each corner of a target's box is the percentage of its own side of the frame, rounded down |
| `BoardFit.BestSpanExact` | tools/calibrate_camera.py:699-703 | a rigid board held upright, of a given square size, fits somewhere exactly when its span is at most the binding one |
| `BoardFit.MaxFillRaises` | tools/calibrate_camera.py:695-704 | it divides by zero exactly for a one-column pattern over a nonempty box |
| `BoardFit.MaxFillExact` | tools/calibrate_camera.py:684-704 | it is the maximum fill over all boards held upright that fit: an upper bound, attained, and not positive exactly when none fits |
| `BoardFit.ShoelaceIsDiagonals` | tools/calibrate_camera.py:904-906 | the shoelace sum is the cross product of the diagonals |
| `BoardFit.QuadAreaWithinBox` | tools/calibrate_camera.py:891-906 | four points of a box, convex or not, enclose at most the box's area |
| `BoardFit.QuadAreaInvariant` | tools/calibrate_camera.py:891-906 | translation, rotation of the vertex order and reversal keep the area |
| `BoardFit.ViewFillIsPercentage` | tools/calibrate_camera.py:1357-1359 | a view inside its box fills 0 to 100 percent of it, degenerate boxes included |
| `BoardFit.ViewFillMeans` | tools/calibrate_camera.py:1357-1359 | the fill of a view is the area of its outer quadrilateral in percent of the box's, or of one pixel where that is empty |
| `BoardFit.BoardIsContained` | tools/calibrate_camera.py:825-829 | the detected corners of a feasible upright board pass `contains` |
| `BoardFit.BoardAsView` | tools/calibrate_camera.py:1357-1359 | the fill the loop measures on an upright board is the fill `max_fill_pct` speaks of |
| `FitTargets.ShippedTargetsAreWellFormed` | tools/calibrate_camera.py:604-646 | every shipped table has boxes inside the frame, fills of at least 15 and at least one sample |
| `FitTargets.TargetsByShape` | tools/calibrate_camera.py:641-646 | the gentler fisheye table exactly for frames narrower than 1.45 to 1 |
| `FitTargets.Fit` | tools/calibrate_camera.py:707-741 | the survivors are exactly the targets of which some upright board that fits attains 15 percent with the headroom taken off, in table order; each keeps its threshold as long as some such board attains it, otherwise it gets the largest whole percentage one attains; it raises exactly when some target's maximum does |
| `FitTargets.FittedMeans` | tools/calibrate_camera.py:716-741 | the same of whatever satisfies the specification the loop is proved against |
| `FitTargets.ThresholdOnlyFalls` | tools/calibrate_camera.py:731-735 | thresholds only fall, never above reachable, and stay at 15 or more exactly when the table's was |
| `FitTargets.LowThresholdSurvives` | tools/calibrate_camera.py:726-734 | a table threshold below the floor passes through wherever a board covers 20 percent |
| `FitTargets.WholeFrameBoard` | tools/calibrate_camera.py:684-704 | such a board exists: 9x6 corners in a 1000x600 frame |
| `FitTargets.SurvivorIsReachable` | tools/calibrate_camera.py:716-735 | each surviving target has a concrete in-frame board that passes `contains` and its threshold |
| `FitTargets.DroppedIsOutOfReach` | tools/calibrate_camera.py:726-730 | no board held upright that fits a dropped target reaches the floor once the headroom is taken off |
| `HeldBoards.HeldByExtents` | tools/calibrate_camera.py:825-829 | a board held flat at any angle fits box and frame exactly when, on both axes, its span and its overhang do |
| `HeldBoards.SpansOfOverhang` | tools/calibrate_camera.py:785-797 | at every angle a board spans the shorter side of its pattern at least, and both sides together, in units of its overhang |
| `HeldBoards.EscapesExactly` | tools/calibrate_camera.py:778-804 | for every box, frame, pattern and margin: some board at some angle fits and leaves the threshold region exactly when the sums of padding, box and frame allow it |
| `HeldBoards.BorderClearAtEveryAngle` | tools/calibrate_camera.py:787-797 | where no board comes within two pixels of the region's sides, the white border meets none, at any angle, but at an edge of the frame |
| `HeldBoards.PaddingOfShorterSide` | tools/calibrate_camera.py:796-799 | along the shorter side of the pattern the padding is enough at every angle; a square pattern never leaves its region |
| `HeldFills.ViewContained` | tools/calibrate_camera.py:825-829 | the view of a board held at any angle passes `contains` exactly when its four outermost inner corners are in the box |
| `HeldFills.ViewArea` | tools/calibrate_camera.py:891-906 | the area measured of a board at any angle is its number of squares times the square of its step |
| `HeldFills.UprightFits` | tools/calibrate_camera.py:684-703 | an upright board that fits is a held board that fits |
| `HeldFills.StraightFits` | tools/calibrate_camera.py:684-703 | a board held straight, whichever way, fits as an upright board of the pattern or of the turned one |
| `HeldFills.MaxFillBoundsExactly` | tools/calibrate_camera.py:684-704 | the computed maximum bounds boards held straight, whichever way, exactly when the turned pattern's is no larger |
| `HeldFills.DroppedIsOutOfReachExactly` | tools/calibrate_camera.py:716-730 | a dropped target is out of reach of boards held straight exactly when the turned pattern would be dropped too |
| `HeldFills.TurnedBoardLeavesRegion` | tools/calibrate_camera.py:617 | in a shipped target a 9x6 board turned by a quarter fits, passes `contains`, fills more than 57 percent where 42 was the computed maximum, and has the white border through its squares |
| `HeldFills.DroppedYetReachable` | tools/calibrate_camera.py:726-730 | in a portrait frame that target is dropped although a turned board fills 45 percent of it |
| `HeldFills.SlantedBoardCoversMore` | tools/calibrate_camera.py:685-704 | at another angle a long pattern covers more than it does held straight |
| `HeldMaxima.FillReachedAtCorner` | tools/calibrate_camera.py:659-704 | some board at some angle fills a given share exactly when one of at most 45 corners of a polygon does |
| `HeldMaxima.MaxFillBoundsEveryAngle` | tools/calibrate_camera.py:684-704 | the computed maximum bounds boards at every angle exactly when no corner fills more |
| `HeldMaxima.OutOfReachAtEveryAngle` | tools/calibrate_camera.py:716-730 | a target is out of reach at every angle exactly when no corner reaches the floor with the headroom taken off |
| `TargetQueues.TargetInFrame` | tools/calibrate_camera.py:760-765 | percentages of the frame are pixels of the frame |
| `TargetQueues.RegionContainsBox` | tools/calibrate_camera.py:798-804 | the threshold region contains the target box and stays in the frame, so clipping it changes nothing |
| `TargetQueues.PadExactly` | tools/calibrate_camera.py:796-799 | the padding is 8 pixels more than the whole part of the side's share of a square |
| `TargetQueues.RegionExactly` | tools/calibrate_camera.py:798-804 | the threshold region is the box with that many columns and rows more on each side, as far as the frame goes |
| `TargetQueues.RegionHoldsWholeBoard` | tools/calibrate_camera.py:778-804 | the whole of a board held upright lies in the threshold region, with seven pixels to spare wherever the region's side is not the frame's |
| `TargetQueues.WhiteBorderMeetsBoardOnlyAtFrameEdge` | tools/calibrate_camera.py:787-797 | the white border can meet a board held upright only at an edge of the frame |
| `TargetQueues.FittedAreWellFormed` | tools/calibrate_camera.py:1327-1330 | what fitting hands to the queue is well formed |
| `TargetQueues.TargetQueue.constructor` | tools/calibrate_camera.py:747-754 | for any table: a new queue stands afresh at its first target with nothing taken |
| `TargetQueues.TargetQueue.Load` | tools/calibrate_camera.py:756-804 | the loaded fields are those of the current target; relaxation state starts afresh, at the time given |
| `TargetQueues.TargetQueue.Note` | tools/calibrate_camera.py:831-834 | best fill and hits summarise exactly the in-box fills observed |
| `TargetQueues.TargetQueue.MaybeRelax` | tools/calibrate_camera.py:836-875 | it fires exactly when the target has been up for the time allowed, 15 in-box fills or more were observed, all below the threshold and one of them at 15 or above, and not yet for this target; then to a percent below the best of them, or to 15; the warning comes at most once for a target |
| `TargetQueues.StuckExactly` | tools/calibrate_camera.py:836-875 | the same of the counters the queue keeps of its observations |
| `TargetQueues.TargetQueue.Accept` | tools/calibrate_camera.py:877-881 | one more sample taken, and more progress; the last one of a target moves on to a fresh attempt, an earlier one changes nothing else; a sample beyond what a target wanted is surplus |
| `TargetQueues.TargetQueue.Advance` | tools/calibrate_camera.py:883-888 | skipping counts the forfeited samples, so taken, remaining and later samples still add up, and progress does not fall |
| `TargetQueues.TargetQueue.ProgressIsShare` | tools/calibrate_camera.py:818-820 | progress times the total is what was taken; an empty table is done |
| `TargetQueues.TargetQueue.ProgressMeansDone` | tools/calibrate_camera.py:806-820 | when every target wants a sample, progress is a fraction, and 1 exactly when the queue is done |
| `GuidedCaptures.GuidedCapture.constructor` | tools/calibrate_camera.py:1282-1295 | a session starts with nothing kept |
| `GuidedCaptures.MeetingTheThresholdIsKept` | tools/calibrate_camera.py:1373-1374 | a settled view in the box that meets the threshold before the frame is kept; one that does not is kept only where relaxation is due and lowers it far enough |
| `GuidedCaptures.PassedInTurn` | tools/calibrate_camera.py:1297-1390 | a run over more frames goes on from where a run over the first ones stood |
| `GuidedCaptures.GuidedCapture.ThresholdInForce` | tools/calibrate_camera.py:870-872 | the threshold in force lies between 15 and the table's, and below the table's only where it was lowered |
| `GuidedCaptures.GuidedCapture.Skip` | tools/calibrate_camera.py:1340-1344 | a skip forfeits exactly what the target still wanted and moves on to a fresh attempt |
| `GuidedCaptures.GuidedCapture.Relax` | tools/calibrate_camera.py:1368-1370 | each target's threshold is lowered at most once, and the current one's is lowered exactly when the ledger says so |
| `GuidedCaptures.GuidedCapture.Look` | tools/calibrate_camera.py:1351-1367 | a view counts as inside exactly when all its corners are, and only then has a fill |
| `GuidedCaptures.GuidedCapture.Keep` | tools/calibrate_camera.py:1375-1384 | exactly this view is added, under the target and the threshold it was measured against |
| `GuidedCaptures.GuidedCapture.Sample` | tools/calibrate_camera.py:1351-1384 | a frame yields a view exactly when it is inside, settled, and at the threshold in force after this pass's relaxation |
| `GuidedCaptures.GuidedCapture.Process` | tools/calibrate_camera.py:1338-1390 | where a pass leaves the session is what the pass makes of its frame: a skip comes first, so its frame meets the next target; nothing is kept after stop or the end; progress never falls |
| `GuidedCaptures.GuidedCapture.Run` | tools/calibrate_camera.py:1297-1390 | over any frames and commands the views kept, the samples forfeited and the target reached are what the passes make of the frames, up to a stop or the end; every kept view is in its box at or above the threshold of its target, which is the table's unless it was lowered once, and never under 15; views come in target order and settled apart; kept plus forfeited equals the total exactly when done |
| `AppConfigs.FirstSizeMeaning` | include/app_config.h:76-81 | a tag's size is the first override with its id, else the default |
| `AppConfigs.MentionsExactly` | src/app_config.cpp:326-336 | the substring test holds exactly when the text stands somewhere in the other |
| `AppConfigs.FamiliesKnown` | include/aruco_compat.h:68-93 | the known families are the sixteen ArUco grids, the original one and four AprilTag ones |
| `AppConfigs.CheckPipeline` | src/app_config.cpp:323-336 | reports exactly the failing pipeline checks of a stream |
| `AppConfigs.CheckCamera` | src/app_config.cpp:338-354 | reports exactly the failing camera checks |
| `AppConfigs.CheckFamily` | src/app_config.cpp:356-366 | reports exactly the failing family and default-size checks |
| `AppConfigs.CheckSizes` | src/app_config.cpp:368-370 | reports exactly the overrides whose size is not positive |
| `AppConfigs.CheckStream` | src/app_config.cpp:319-375 | reports exactly the flaws of one stream |
| `AppConfigs.Validate` | src/app_config.cpp:313-386 | appends exactly the flaws of the configuration, and accepts exactly when there are none |
| `AppConfigs.CleanExactly` | src/app_config.cpp:313-386 | a configuration has no flaw exactly when there are streams, each with an id, a pipeline with its sink, intrinsics, a model with the right number of coefficients, a usable family, positive sizes and a watchdog, and UDP, if on, has a port of its own and a heartbeat rate |
| `AppConfigs.CleanGuarantees` | src/app_config.cpp:313-386 | what a run may rely on after acceptance: nonempty ids, valid intrinsics, positive sizes for every id, a watchdog, a heartbeat rate |
| `YamlHeal.Healer.constructor` | src/app_config.cpp:18-20 | nothing healed at first |
| `YamlHeal.Healer.GetInt` | src/app_config.cpp:22-38 | an absent key yields its default and marks the file healed; a present one reads or fails by name |
| `YamlHeal.Healer.GetReal` | src/app_config.cpp:22-38 | an absent number yields its default and marks the file healed; a present one reads or fails by name |
| `YamlHeal.Healer.GetBool` | src/app_config.cpp:22-38 | an absent switch yields its default and marks the file healed; a present one reads or fails by name |
| `YamlHeal.Healer.GetText` | src/app_config.cpp:22-38 | absent text yields its default and marks the file healed; present text reads or fails by name |
| `YamlHeal.Healer.Section` | src/app_config.cpp:40-50 | an absent section is undefined and marks the file healed |
| `YamlHeal.Healer.Coeffs` | src/app_config.cpp:53-60 | reads the list in order, fails on a bad element, and takes the default silently when it is not a list |
| `YamlHeal.Healer.Aruco` | src/app_config.cpp:62-79 | healed exactly when one of its keys was absent |
| `YamlHeal.ThresholdFields` | src/app_config.cpp:65-70 | each thresholding parameter is what its own key says, or its own default |
| `YamlHeal.RefinementFields` | src/app_config.cpp:71-77 | each refinement parameter, likewise |
| `YamlHeal.Healer.Camera` | src/app_config.cpp:81-97 | reads what the document means, healed exactly when a camera key was absent |
| `YamlHeal.CameraFields` | src/app_config.cpp:81-97 | each camera field is what its own key says, or its own default |
| `YamlHeal.CoeffsMean` | src/app_config.cpp:53-60 | the coefficients are the numbers listed, in order; five zeros when there is no list |
| `YamlHeal.Healer.Detector` | src/app_config.cpp:99-108 | the same for the detector section and its params |
| `YamlHeal.DetectorFields` | src/app_config.cpp:99-108 | each detector field is what its own key says, or its own default |
| `YamlHeal.Healer.OneSize` | src/app_config.cpp:117-125 | an entry needs an id and defaults its size |
| `YamlHeal.Healer.Sizes` | src/app_config.cpp:115-126 | every entry in order, or the first failure |
| `YamlHeal.Healer.Ids` | src/app_config.cpp:127-128 | every accepted id in order |
| `YamlHeal.Healer.Tags` | src/app_config.cpp:110-131 | the tags section; optional lists never count as healed |
| `YamlHeal.TagsFields` | src/app_config.cpp:110-131 | the sizes are those of the list, in order, each with its own id and size, the default size where it has none; the accepted ids are those listed |
| `YamlHeal.Healer.Stream` | src/app_config.cpp:133-149 | one stream reads as the document means it |
| `YamlHeal.StreamFields` | src/app_config.cpp:133-149 | each stream field is what its own key says, or its own default; the sections are those of the same name |
| `YamlHeal.Healer.Streams` | src/app_config.cpp:177 | all streams in order |
| `YamlHeal.Healer.Udp` | src/app_config.cpp:187-191 | the udp section, its port taken modulo 2^16 |
| `YamlHeal.Healer.Logging` | src/app_config.cpp:193-195 | the logging section |
| `YamlHeal.UdpFields` | src/app_config.cpp:187-191 | each UDP field is what its own key says, or its own default; the port differs from the number read by whole multiples of 65536 |
| `YamlHeal.LoggingFields` | src/app_config.cpp:193-195 | each logging field is what its own key says, or its own default |
| `YamlHeal.NothingSaid` | include/app_config.h:28-181 | what an empty stream, and absent UDP and logging sections, mean |
| `YamlHeal.FindDuplicate` | src/app_config.cpp:179-185 | finds a repeated camera id exactly when there is one |
| `YamlHeal.Load` | src/app_config.cpp:155-199 | succeeds exactly on documents that load, with the meaning of the document; reports healed exactly when a key read through the healer or `dist_coeffs` was absent; and nothing at all was missing exactly when it does not report and nothing was filled in silently |
| `YamlHeal.HealedExactly` | include/app_config.h:188-191 | over every document that loads: it already spells out the completed document exactly when no key read through the healer is absent, every override has its size, both lists are there and `dist_coeffs` is a list |
| `YamlHeal.SizeFilledUnreported` | src/app_config.cpp:120 | a document with an override that lacks only its size loads, has the size filled in, and is not reported healed |
| `YamlHeal.CoeffsFilledUnreported` | src/app_config.cpp:55 | a document whose `dist_coeffs` is no list loads with zeros and is not reported healed |
| `YamlHeal.WriteStreams` | src/app_config.cpp:208-272 | every stream is emitted, in order |
| `YamlHeal.Write` | src/app_config.cpp:203-286 | the emitted document is the one the round trip is about |
| `YamlHeal.StreamRoundTrip` | src/app_config.cpp:209-271 | a whole stream whose numbers print back reads back equal and complete: camera, detector with its params, tags, overrides and accepted ids |
| `YamlHeal.RoundTrip` | src/app_config.cpp:155-286 | every loadable configuration whose numbers print back, written and loaded, is itself again with no healing due |
| `YamlHeal.LoadIsFunctional` | src/app_config.cpp:155-199 | a document means at most one configuration |
| `YamlHeal.HealRoundTrip` | src/app_config.cpp:16-51 | for every document that loads, healing once loses no recognised value and healing twice changes nothing |
| `YamlHeal.LoadedPrints` | src/app_config.cpp:155-199 | every number of a configuration that was loaded prints back, whether read or a default |
| `DecimalCodecs.DecimalIsLossless` | src/app_config.cpp:22-38 | there is a codec that prints back every whole number, every switch, every number it reads and every default |
| `DecimalCodecs.UnreportedDocuments` | src/app_config.cpp:55-120 | in that codec, two documents load complete, with a default filled in that is not reported |
| `DecimalCodecs.DecimalHealRoundTrip` | src/app_config.cpp:16-51 | in that codec every document that loads is healed without loss |
| `Detectors.ScaledProjection` | src/detector.cpp:52-60 | rescaled intrinsics project every point to the original pixel, scaled |
| `Detectors.RawIsProduct` | src/detector.cpp:47-67 | over any history of sizes the matrix is the configured one times the product of all factors |
| `Detectors.RescaleRightExactly` | src/detector.cpp:52-77 | the intrinsics fit the current size exactly when all earlier factors multiply to one |
| `Detectors.RightBySizesExactly` | src/detector.cpp:52-77 | said with sizes alone: exactly when the widths of all earlier initialisations multiply to as many calibrated widths, and the heights likewise |
| `Detectors.OneSizeIsRight` | src/detector.cpp:124-143 | a detector that looked at any number of frames of one size initialised once; without undistortion fx and cx are to the configured ones as the frame's width to the calibrated one, fy and cy as the heights, and without a calibration size they are the configured ones |
| `Detectors.OneSizeOneChange` | src/detector.cpp:124-143 | frames of one size ask for one initialisation |
| `Detectors.CleanIsNotRefused` | src/detector.cpp:12-26 | no stream of a configuration that validates is refused by init |
| `Detectors.RefusedExactly` | src/detector.cpp:12-26 | init refuses exactly an unknown family and intrinsics of which one is not positive |
| `Detectors.RescaleCompounds` | src/detector.cpp:52-77 | a history that leaves them wrong |
| `Detectors.AcceptedExactly` | src/detector.cpp:150-223 | a marker is published exactly when some detection within all gates carries its id, corners and pose |
| `Detectors.JudgeMeans` | src/detector.cpp:150-223 | which verdict a marker gets, gate by gate in the order of the loop, from its id, corners, size, pose, range and the mean of its four errors |
| `Detectors.AcceptedInOrder` | src/detector.cpp:144-224 | what is handed on are the accepted detections, all of them, in the order of their markers |
| `Detectors.NonPositiveRangePossible` | src/detector.cpp:178-187 | a range that is not positive gets through exactly when the configured gate admits one |
| `Detectors.EveryMarkerHasOneFate` | src/detector.cpp:144-224 | decoded is the sum of the four rejections, the accepted and the uncounted; accepted counts exactly what is handed on |
| `Detectors.TallyCounts` | src/detector.cpp:144-224 | each counter is the number of markers with its own verdict |
| `Detectors.TallyConcat` | src/detector.cpp:229-234 | counting in two windows counts the same as counting once |
| `Detectors.NothingUncounted` | src/detector.cpp:155-158 | with a validated configuration and four-cornered markers nothing is dropped uncounted |
| `Detectors.DetectedWithinGates` | src/detector.cpp:146-224 | every detection handed on is within every gate |
| `Detectors.Detector.constructor` | src/detector.cpp:26-43 | a detector whose init succeeded has the configured matrix and no history |
| `Detectors.Detector.LazyInit` | src/detector.cpp:47-120 | one initialisation, which only the first frame or a new size asks for, records its size; it scales fx and cx by the ratio of the widths and fy and cy by that of the heights, when there is a calibration size |
| `Detectors.Detector.Sift` | src/detector.cpp:144-224 | the loop hands on the accepted markers in order and moves exactly one counter for each marker |
| `Detectors.Detector.Detect` | src/detector.cpp:124-225 | the output is cleared and refilled; initialisation happens exactly on the first frame and on a new size |
| `Detectors.Detector.TakeStats` | src/detector.cpp:229-234 | the window handed out tallies exactly the verdicts since the last one |
| `GstCaptures.GstCapture.constructor` | src/gst_capture.cpp:80-83 | nothing acquired at first |
| `GstCaptures.GstCapture.Acquire` | src/gst_capture.cpp:35-69 | a reference is new and live |
| `GstCaptures.GstCapture.Release` | src/gst_capture.cpp:138-159 | only a live reference is released, and none twice |
| `GstCaptures.GstCapture.DropHeld` | src/gst_capture.cpp:197-209 | the mapping goes before its sample, and both go |
| `GstCaptures.GstCapture.Close` | src/gst_capture.cpp:138-159 | after close nothing is outstanding |
| `GstCaptures.GstCapture.FindAppSink` | src/gst_capture.cpp:35-69 | one reference to the sink, or none; finds one exactly when the bin has one |
| `GstCaptures.GstCapture.ScanBin` | src/gst_capture.cpp:43-68 | the scan releases every element it looks at but the one it returns |
| `GstCaptures.GstCapture.DrainBus` | src/gst_capture.cpp:163-189 | flags rise exactly for messages seen, and no reference stays |
| `GstCaptures.GstCapture.PopMessages` | src/gst_capture.cpp:169-187 | the same for the message loop |
| `GstCaptures.GstCapture.Build` | src/gst_capture.cpp:92-109 | both references or none, on every failure path |
| `GstCaptures.GstCapture.Open` | src/gst_capture.cpp:87-134 | exactly when it plays, with fresh flags; otherwise nothing is outstanding |
| `GstCaptures.GstCapture.Stamp` | src/gst_capture.cpp:339-405 | the stamp is exact iff both times are valid, the clock is monotonic and base + PTS lies at most 10 ms past the clock beside it; then it is base + PTS to the whole microsecond below, otherwise the arrival time; the clock is known to be monotonic exactly as the frame says, if it says |
| `GstCaptures.AheadExactly` | src/gst_capture.cpp:369-383 | a stamp is past a later publication exactly when it is exact and base + PTS is; never more than 10 ms past the arrival |
| `GstCaptures.GstCapture.Keep` | src/gst_capture.cpp:250-256 | a mapping implies a held sample |
| `GstCaptures.GstCapture.Hold` | src/gst_capture.cpp:224-322 | a frame exactly for a usable sample in a supported format; every other path gives the sample back or keeps it held |
| `GstCaptures.DeliversExactly` | src/gst_capture.cpp:224-322 | a sample makes a frame exactly when nothing of it is missing, it has a size, and its format is one of the sixteen supported |
| `GstCaptures.GstCapture.Read` | src/gst_capture.cpp:193-410 | a frame exactly when open and delivered, stamped with its own base + PTS to the whole microsecond below when that is exact, with its arrival otherwise; what is known of the clock and the end and error flags change exactly as the pull says |
| `GstCaptures.AnyCalls` | src/gst_capture.cpp:80-410 | over any sequence of calls with any failures: playing, holding, end, error and clock are what the calls make of them one by one, after every one the references outstanding are those of an open pipeline and a held sample, and a final close leaves every reference ever acquired released exactly once |
| `GstCaptures.LiveCount` | src/gst_capture.cpp:138-159 | in any state the references outstanding are the pipeline with its sink and the sample with its mapping, each pair together or not at all |
| `GstCaptures.AtMostOneOfAKind` | src/gst_capture.cpp:138-159 | never two samples or two mappings outstanding |
| `UdpPublishers.UdpPublisher.constructor` | src/udp_publisher.cpp:49-75 | nothing sent after an init that succeeded |
| `UdpPublishers.UdpPublisher.DoSend` | src/udp_publisher.cpp:79-101 | the counters summarise the datagrams: errors are those refused, the maximum is attained, the warning fires exactly past the limit |
| `UdpPublishers.UdpPublisher.Header` | src/udp_publisher.cpp:23-43 | every header field is the caller's; the realtime stamp is clamped at zero |
| `UdpPublishers.RealtimeMeans` | src/udp_publisher.cpp:38-42 | the realtime stamp is the capture stamp moved by the offset, and never negative |
| `UdpPublishers.UdpPublisher.WireOf` | src/udp_publisher.cpp:117-143 | 3 translation and 9 row-major rotation floats, the flattened corners, the publisher's camera id |
| `UdpPublishers.WireMeans` | src/udp_publisher.cpp:117-143 | where everything of a detection stands on the wire: the rotation row after row, the corners point after point, x before y |
| `UdpPublishers.UdpPublisher.Send` | src/udp_publisher.cpp:105-152 | one datagram with one entry for each detection, in order |
| `UdpPublishers.UdpPublisher.SendHeartbeat` | src/udp_publisher.cpp:156-173 | one empty datagram |
| `WorkerTraces.IdsAreConsecutive` | src/stream_worker.cpp:118-121 | datagram ids are exactly 1..k, in order |
| `WorkerTraces.DatagramsNeedFrames` | src/stream_worker.cpp:185-253 | as many datagrams as iterations that sent, each of them one with a frame |
| `WorkerTraces.LastPublishIsPast` | src/stream_worker.cpp:171-236 | the last publish is the latest of all, and never ahead of the loop's clock reading |
| `WorkerTraces.PublishCadence` | src/stream_worker.cpp:113-122 | when every frame comes at most D after the one before it, two consecutive datagrams are less than period plus D apart |
| `WorkerTraces.NoPeriodNoHeartbeat` | src/stream_worker.cpp:115 | with a period of zero no heartbeat is ever sent |
| `WorkerTraces.HeartbeatsOnExactly` | src/stream_worker.cpp:37-39 | a positive rate yields heartbeats exactly up to 1 MHz |
| `WorkerTraces.PeriodExactly` | src/stream_worker.cpp:33-39 | the period is the largest whole number of microseconds that does not take the rate below the one asked for |
| `WorkerTraces.IdleSinceIsLatest` | src/stream_worker.cpp:187-318 | the idle time runs from the latest of all frames and all reopenings |
| `WorkerTraces.WatchdogRebuildsApart` | src/stream_worker.cpp:260-270 | between two rebuilds of which the watchdog asked for the second, more than its timeout passes: that many million microseconds |
| `WorkerTraces.RebuildMeans` | src/stream_worker.cpp:283-312 | a rebuild less than five seconds after the last one doubles the wait, from one second to ten at most, a later one does not wait; none comes before the last wait is over |
| `WorkerTraces.BackoffValues` | src/stream_worker.cpp:283-312 | the backoff is always 0, 1, 2, 4 or 8 s: the cap of 10 s is never reached |
| `WorkerTraces.AmortisedRebuildBound` | src/stream_worker.cpp:283-312 | any n consecutive gaps between rebuilds take at least 2n-3 seconds |
| `WorkerTraces.RebuildBoundIsTight` | src/stream_worker.cpp:283-312 | for every m, a run of rebuilds with 3m+2 gaps in a row that meet that bound |
| `WorkerTraces.RetryWaits` | src/stream_worker.cpp:76-109 | failed opens wait 1, 2, 4, 8 and then 10 s each |
| `StreamWorkers.WindowsAddUp` | src/stream_worker.cpp:126-159 | counter by counter, printed lines plus the live window equal the tally of the whole run |
| `StreamWorkers.StartWorker` | src/stream_worker.cpp:51-72 | init refuses exactly an unknown family, unset intrinsics or a failing socket, in that order; otherwise an idle worker |
| `StreamWorkers.StreamWorker.constructor` | src/stream_worker.cpp:27-47 | an idle worker with the configured periods; a publisher exactly when UDP is enabled |
| `StreamWorkers.StreamWorker.OpenCapture` | src/stream_worker.cpp:76-109 | it succeeds exactly when some attempt plays before one that is cut short, at the first such, after exactly the doubling waits of the failures before it; otherwise nothing is open |
| `RunLogs.FirstPlaying` | src/stream_worker.cpp:76-109 | the attempt that opens is the first that plays, with none before it that is cut short |
| `StreamWorkers.StreamWorker.Beat` | src/stream_worker.cpp:118-121 | a heartbeat takes the next id and carries the loop's time and the last frame size |
| `StreamWorkers.StreamWorker.MaybeHeartbeat` | src/stream_worker.cpp:113-122 | a heartbeat exactly when a period has passed since any publish |
| `StreamWorkers.StreamWorker.TakeWindow` | src/stream_worker.cpp:133-157 | the window reports the live counters and resets them |
| `StreamWorkers.StreamWorker.LogStats` | src/stream_worker.cpp:126-159 | one line exactly when its interval has passed, which then starts afresh; nothing counted is lost by printing, and the line balances by itself |
| `StreamWorkers.StreamWorker.Inspect` | src/stream_worker.cpp:221-228 | the frame's own size and markers reach the detector; what it accepts is owed to the wire until published |
| `StreamWorkers.StreamWorker.Due` | src/stream_worker.cpp:207-228 | exactly when a period has passed; every frame is detected or skipped |
| `StreamWorkers.StreamWorker.Publish` | src/stream_worker.cpp:230-236 | the detections go out whole, under the next id, with the frame's own capture stamp and size |
| `StreamWorkers.StreamWorker.DetectFrame` | src/stream_worker.cpp:217-248 | after it nothing accepted is owed to the wire |
| `StreamWorkers.StreamWorker.Emit` | src/stream_worker.cpp:213-250 | after a frame the last publish is less than a period old |
| `StreamWorkers.StreamWorker.Handle` | src/stream_worker.cpp:185-250 | a frame is counted once, the negotiated size wins, and its markers are judged exactly when the detector is due |
| `StreamWorkers.StreamWorker.OnFrame` | src/stream_worker.cpp:185-253 | a frame's iteration goes into the log as made of its inputs, restarts the idle time and leaves all accounts in order |
| `StreamWorkers.StreamWorker.BackOff` | src/stream_worker.cpp:281-312 | the rebuild is logged with the backoff chosen, which is waited out exactly when rebuilds are back to back; it is cut short exactly by a stop during that wait |
| `StreamWorkers.StreamWorker.Reopen` | src/stream_worker.cpp:280-316 | torn down, waited, reopened, exactly when no stop ends the wait and some attempt plays in time; nothing outstanding when it fails |
| `StreamWorkers.StreamWorker.Decide` | src/stream_worker.cpp:260-323 | without a frame: stop at the end of a stream that asks for it, else rebuild exactly when flagged or idle for more than the timeout, a million microseconds to its second, else wait; the run ends exactly in the first case and when a rebuild does not lead back to reading |
| `StreamWorkers.StreamWorker.OnIdle` | src/stream_worker.cpp:255-323 | an iteration without a frame goes into the log; the idle time restarts exactly at a rebuild, at the clock after reopening; it ends the run exactly as decided; no datagram |
| `StreamWorkers.StreamWorker.ReadFrame` | src/stream_worker.cpp:181-183 | a frame exactly when delivered, stamped for the clock readings taken around the read |
| `StreamWorkers.StreamWorker.Answer` | src/stream_worker.cpp:185-324 | after a frame the loop goes on and the idle time starts at that frame; after a rebuild that reopened, at the clock then; otherwise it goes on |
| `StreamWorkers.StreamWorker.Step` | src/stream_worker.cpp:179-324 | one iteration consumes one pass of inputs into the log, and ends the run exactly at the end of a stream that is to stop there or at a rebuild that does not lead back to reading |
| `StreamWorkers.StreamWorker.Begin` | src/stream_worker.cpp:170-171 | the first readings establish the invariant |
| `StreamWorkers.StreamWorker.Enter` | src/stream_worker.cpp:176-177 | entering the loop starts the idle time and establishes its invariant |
| `StreamWorkers.StreamWorker.BeginRebuilding` | src/stream_worker.cpp:172 | no rebuild yet |
| `StreamWorkers.StreamWorker.Run` | src/stream_worker.cpp:163-328 | over any inputs: none is consumed when no pipeline ever plays, otherwise all of them, or those up to the first iteration that ends the run; the log is made of them in order, all invariants hold at the end and no GStreamer reference is outstanding |
| `StreamWorkers.StreamWorker.RunMeans` | src/stream_worker.cpp:126-253 | for every run: ids 1..k, one datagram at most for each frame, all good, every accepted detection and heartbeat sent; frames in equal detected plus skipped on every printed line and live, and together they count every frame and every verdict |
| `StreamWorkers.StreamWorker.RebuildsAreWatched` | src/stream_worker.cpp:255-318 | over a run: the rebuilds are exactly the frameless iterations that do not end the stream and are flagged, or come more microseconds than a million times the timeout after the latest frame or reopening |
| `StreamWorkers.StreamWorker.OneSizeRun` | src/detector.cpp:124-143 | a run whose frames all have one size, undistortion off, solves throughout with fx and cx in the ratio of the widths, fy and cy in that of the heights |
| `StreamWorkers.AheadOfPublication` | src/stream_worker.cpp:230-236 | a validated stream whose run of one iteration publishes a detection 5 ms before its capture stamp |
| `RunLogs.LateExactly` | src/gst_capture.cpp:361-383 | in any run, a published detection's capture stamp is past its publish stamp exactly when base + PTS was exact, at most 10 ms ahead of the clock it was compared with, and past the clock at publication |
| `RunLogs.PublishedStamp` | src/gst_capture.cpp:339-405 | in any run, the stamp of a published detection is its own frame's base + PTS to the whole microsecond below where that was exact, otherwise when the frame had arrived; the publish stamp is the clock at publication |
| `RunLogs.MonotonicSeenExactly` | src/gst_capture.cpp:339-360 | the pipeline clock counts as monotonic exactly when the last frame that told what clock it is said so |
| `RunLogs.FlagsAreReports` | src/gst_capture.cpp:163-222 | the end and error flags stand for the reports since the last rebuild |
| `RunLogs.ReportsAreAnswered` | src/stream_worker.cpp:255-318 | an error on the bus, or caps that do not parse, lead to a rebuild at once; so does the end of the stream, unless the stream is to stop there |
| `RunLogs.LookedAtRate` | src/stream_worker.cpp:207-228 | the detector looks at two frames only a period apart, and passes over a frame only within a period of a look |
| `RunLogs.LoggedIsWatched` | src/stream_worker.cpp:255-318 | a logged run obeys the watchdog |
| `RunLogs.OneSizeLooked` | src/detector.cpp:124-143 | the sizes that reach the detector are those of the frames looked at |
| `Receivers.ComplainedExactly` | tools/recv_fiducial.py:224-231 | the list of problems is empty exactly when nothing was wrong |
| `Receivers.UnnotedExactly` | tools/recv_fiducial.py:132-179 | a datagram is noted for nothing exactly when it names camera and clock, was not published before its capture, is at most 1472 bytes, and carries no detections as a heartbeat and only sound ones otherwise |
| `Receivers.NoteMeans` | tools/recv_fiducial.py:153-179 | the figures in a note are the datagram's own |
| `Receivers.SharedEntryExactly` | tools/recv_fiducial.py:126-127 | two datagrams share an entry of the table exactly when their cameras have the same id, or one has none and the other is called like that entry |
| `Receivers.FiguresMean` | tools/recv_fiducial.py:126-163 | a camera's figures are its datagrams, heartbeats and detections since the last summary, the largest of all its datagrams, and the id of the last one |
| `Receivers.HeardExactly` | tools/recv_fiducial.py:116-137 | which cameras were heard of, which clocks were named, and whether anything came |
| `Receivers.RaisedExactly` | tools/recv_fiducial.py:99-212 | a note was raised exactly when some event gave cause for it when it came |
| `Receivers.Receiver.constructor` | tools/recv_fiducial.py:92-97 | nothing heard at first |
| `Receivers.Receiver.NoteProblem` | tools/recv_fiducial.py:99-102 | each problem is noted once |
| `Receivers.Receiver.CheckFrame` | tools/recv_fiducial.py:132-160 | notes exactly what is wrong with a frame |
| `Receivers.Receiver.CheckEntry` | tools/recv_fiducial.py:164-179 | notes exactly what is wrong with an entry; a wrong translation length ends its checks |
| `Receivers.Receiver.CheckEntries` | tools/recv_fiducial.py:163-179 | every entry is checked |
| `Receivers.Receiver.Check` | tools/recv_fiducial.py:132-179 | notes exactly what is wrong with a datagram |
| `Receivers.Receiver.Count` | tools/recv_fiducial.py:127-163 | one datagram's effect on its camera, a gap exactly when the id is not the next |
| `Receivers.Receiver.Deliver` | tools/recv_fiducial.py:116-179 | each camera's entry stays what a receiver of its own would hold; problems stay exactly those raised |
| `Receivers.Receiver.DeliverGarbled` | tools/recv_fiducial.py:120-124 | an undecodable datagram touches no camera |
| `Receivers.Receiver.Summarise` | tools/recv_fiducial.py:193-213 | interval counters restart, gaps do not; mixed clock domains are noted |
| `Receivers.Receiver.Finish` | tools/recv_fiducial.py:224-236 | status 1 exactly when checking and something was wrong or nothing came |
| `GapLaws.NoGapsExactly` | tools/recv_fiducial.py:139-144 | no gap exactly when the ids are contiguous |
| `GapLaws.SoloCountsGaps` | tools/recv_fiducial.py:139-144 | the counter counts the gaps in the camera's own received ids, whatever else arrives |
| `GapLaws.Demultiplexed` | tools/recv_fiducial.py:126-144 | a camera's state depends on its own datagrams only |
| `GapLaws.GapsAreLostRuns` | tools/recv_fiducial.py:139-144 | gaps are the maximal lost runs between first and last received |
| `GapLaws.RunsAtMostLost` | tools/recv_fiducial.py:139-144 | no more gaps than datagrams lost |
| `GapLaws.OwnSurvivors` | tools/recv_fiducial.py:126-144 | however logs interleave, a camera's received ids are the survivors of its own |
| `GapLaws.GapLaw` | tools/recv_fiducial.py:126-144 | the gap law for any workers with distinct cameras, any interleaving, any loss in order |
| `Systems.RunsAreWorkerLogs` | src/app_config.cpp:179-185 | runs of a loaded, validated configuration number 1..k under distinct ids |
| `Systems.WorkersRan` | src/stream_worker.cpp:163-328 | worker objects after their runs leave such traces and logs |
| `Systems.SystemGapLaw` | tools/recv_fiducial.py:126-144 | the whole-system gap law, from configuration to the receiver's counter |
| `Systems.GapsInTheTable` | tools/recv_fiducial.py:197-220 | the figure in the receiver's own table is that count |
| `Systems.GoodRaisesExactly` | tools/recv_fiducial.py:132-179 | a worker's datagram is noted exactly for its size and for a capture stamp past its publication, never for anything else the receiver checks |
| `Systems.ArrivingAreGood` | src/stream_worker.cpp:179-253 | whatever arrives was sent good by some worker |
| `Systems.OnlyHarmless` | tools/recv_fiducial.py:132-212 | good datagrams never raise a contract violation, and their clock domains never mix |
| `Systems.EndToEnd` | tools/recv_fiducial.py:132-212 | validated configuration and positive range gates: no missing id or domain, no loaded heartbeat, no wrong length, range, size or camera at the receiver |
| `Systems.ArrivalNotedExactly` | tools/recv_fiducial.py:146-151 | a datagram that arrives is noted for its capture stamp exactly when some worker sent it late |
| `Systems.LateNotedExactly` | tools/recv_fiducial.py:146-151 | the receiver notes a capture stamp past publication exactly when some datagram that arrived was a detection whose frame carried an exact stamp past the clock at its publication |
| `Systems.LateStampNoted` | tools/recv_fiducial.py:146-151 | it does happen: the run of a validated stream sends a datagram that is so noted |

## Left out

- Marker decoding, `solvePnP`, the chessboard search, `remap` and the matrix of the undistortion branch: results of OpenCV, taken as arbitrary inputs.
- GStreamer, sockets, protobuf bytes, files and the YAML text: libraries; calls say what the library answers. Serialisation is taken to succeed and its size is an input.
- Floating-point rounding: doubles and floats are exact reals, `round` keeps its ties-to-even rule.
- Wrap-around of the 32-bit frame id: ids are unbounded.
- YAML text: keys are an enumeration, scalar text goes through a codec that prints back every number it reads and every default, and `gst:` is a scalar like any other; no character-level round trip is claimed.
- Receiver notes print ranges with three decimals; here notes carry the exact value, so two ranges that print alike are two notes.
- The realtime offset is one constant for each publisher, read afresh for every message in the source.
- Log-only state (the `warned_*` and `logged_first_frame` flags, verbose lines, rate and latency averages, the receiver's rolling lists and liveness ages, its silence timeout).
- UdpPublishers.UdpPublisher.constructor: stands for a successful `init`; `StreamWorkers.StartWorker` has the failures.
- Detectors.Detector.constructor: stands for a successful `init`; `StreamWorkers.StartWorker` has the refusals.
- StreamWorkers.StreamWorker.constructor: stands for construction and a successful `init`; `StreamWorkers.StartWorker` has the failures.
- Receivers.Receiver: camera states are values in a map rather than shared objects; nothing else refers to them.
- YamlHeal.Load: which error a document fails with is not specified beyond its failing, except for a key of the wrong type.
- BoardFit.MaxFillExact: for boards held upright, see `HeldFills.MaxFillBoundsExactly` and `HeldMaxima.MaxFillBoundsEveryAngle` for others; for patterns with at least two inner corners each way; a one-column pattern raises (`BoardFit.MaxFillRaises`) and a one-row pattern already divides by zero in the guided loop.
- FitTargets.DroppedIsOutOfReach: for boards held upright; at other angles it holds exactly when `HeldFills.DroppedIsOutOfReachExactly` and `HeldMaxima.OutOfReachAtEveryAngle` say.
- TargetQueues.RegionHoldsWholeBoard: for boards held upright; at other angles it fails exactly when `HeldBoards.EscapesExactly` says, and so may `TargetQueues.WhiteBorderMeetsBoardOnlyAtFrameEdge`.
- Boards tilted towards or away from the camera, and the lens's distortion: only their detected corners are taken, as any view.
- GuidedCaptures.GuidedCapture.Run: warm-up, read failures, previews and saved images are not modelled.
- `clock_domain.cpp`, `main.cpp`, deployment scripts, `check_camera.sh`, `fake_publisher.py`, `make_test_video.py`, field-of-view reports, overlays, preview server and advice text: plumbing and user interface.
- Scheduling beyond a clock that never goes back and sleeps that last at least their deadline.
