# Verified models of the mosaic core and the PixInsight host

Mega Merge Mosaic merges linear astrophotography panels into one mosaic. Its core works on the L8 grid, one cell for
every 8 by 8 pixels; a PixInsight module hosts it as a worker process. This project models the parts where a small
mistake would be hard to see, and proves what they are for:

- the global photometric solve: elimination with pivoting, the sparse accumulation that feeds it, offsets, gains and
  background surfaces as constrained least squares;
- the grid algorithms: connected components, the two-pass distance transform, the dynamic-programming seam and the
  owner map, the flood fills, the layered fill of the pyramid base;
- the Laplacian pyramid: building, masking, blending and collapsing;
- the protocols: the decode cache shared by threads and processes that may crash, the host's serve loop against an
  arbitrary worker and concurrent cancels, its framing, slot arithmetic and command line, the per-thread band cache
  and the streaming panel scan on top of it.

Loops and buffers updated in place are methods over arrays and classes, each tied to a specification by its
postcondition; the laws about those specifications are lemmas. Protocols are step relations with an invariant kept by
every step, and safety theorems over all runs. Numbers of type f32 and f64 are reals.

`dafny verify dfyconfig.toml` checks everything.

## Files

| files | what they model |
|---|---|
| Basics, Reals, Indexing, Order | shared vocabulary, products, row-major planes, sorting and medians |
| Linalg, LeastSquares, Conditioning | elimination; normal equations, gauges and their minimisers; when no pivot is tiny |
| Photometry, OffsetSolvability, Surfaces | offsets, gain potentials and background surfaces |
| PivotSafety, SurfacePivots | which offset, gain and surface systems the pivot threshold accepts |
| OverlapGraph, EdgeFits, PanelSolve | the overlap graph, the pairs an edge fit keeps, the whole solve from the summaries |
| Components, Chamfer | overlap graph components, distance transform |
| SeamPath, Seam, SeamStars, Flood, Split | seams, owner map, masks and their components |
| OnionFill, FillDepth | the fill of the pyramid base |
| PyramidKernels, SmoothLaws, Pyramid, PyramidBlend, PyramidGuard, MaskPyramid, MaskPartition | the pyramid |
| DecodeCache, DecodeCounts, DecodeDelivery | the decode cache: safety, counts, delivery and progress |
| Wire, Frames, HostFrames, Slots, Serve, ServeAnswers, ServeEnds, CommandLine | the host, its wire format, its answers and how it ends |
| BandCache, Tally, Scan, ScanPanel, BlockLaws | the band cache and the panel scan |

## Where the code falls short of a promise

Each of these is stated exactly, by the condition under which the promise holds, by a concrete input that breaks it, or both:

- Seam positions are stored in 16 bits. The walk back is a cheapest seam for every cost plane if and only if the band
  is at most 65535 cells across (`SeamWidth.SeamsCheapestIff`, `SeamWidth.WideBandBreaks`).
- Owners are stored in 16 bits with 65535 for none, so labels are right if and only if there are at most 65535 panels
  (`Seam.PanelsFitIff`).
- The pivot threshold rejects some nonsingular systems (`PivotSafety.RegularRejected`), exactly those whose elimination
  meets a column with no pivot as large as the threshold (`Linalg.SolveDense`). The systems this code builds are not
  among them as long as their counts and weights stay below bounds a caller can compute: offsets (`PivotSafety.OffsetsSolvedIff`,
  `PanelSolve.SolvePanels`), gains (`PivotSafety.PotentialsSolved`), surfaces (`SurfacePivots.SmallFitSolved`).
- A masked cell whose raw cost reaches the unshared cost is not charged the star penalty. Seams cheaper than the penalty
  keep off the stars for every plane if and only if the penalty is at most the unshared cost
  (`SeamStars.AvoidsStarsIff`); `SeamStars.TrapCatches` has a plane for every larger penalty there can be.
- Row sizes of a panel wrap at 64 bits unless Init keeps its dimensions small; accepted requests stay inside their slot
  if and only if `Slots.FillsStayInsideIff` says so. The layout itself is sound if and only if its size does not wrap
  (`Slots.LayoutSoundIff`).
- The worker path is put between quotes unescaped, so the command line splits back if and only if the path holds no
  quote (`CommandLine.LineRoundTrip`).
- A decode whose rename fails with no valid file in place is repeated by the next call
  (`DecodeCounts.FailedRenameDecodesAgain`); a start is a repeated one if and only if an earlier decode was given up
  (`DecodeCounts.StartsAgainIffGivenUp`).

## Model

| member | source | states |
|---|---|---|
| Linalg.SolveDense | crates/mmm-core/src/linalg.rs:11-69 | Ok(x) means A x = b for the matrix and right-hand side as they were on entry, and x is the only solution; every singular A gives an error; an error names the first column of the exact elimination whose largest candidate pivot is below the threshold, and success means there is none; an error also means some vector with a unit component is sent below the threshold in every row |
| Linalg.ReduceColumn | crates/mmm-core/src/linalg.rs:39-57 | one whole elimination step, swap and column loop, gives exactly the cleared matrix of the recursive definition and keeps the solution set |
| Conditioning.NearlyFlat | crates/mmm-core/src/photometry.rs:452-462 | a vector that a gauged matrix sends below the threshold in every row leaves the objective almost flat: the homogeneous part is at most n times threshold times size times one plus the spread of the rows |
| Conditioning.MildIsSolved | crates/mmm-core/src/linalg.rs:15-38 | if the objective is bounded below by mu times the square of every unknown, and n times the threshold share times the two sizes of its rows is below mu, no pivot of the gauged matrix is below the threshold |
| PivotSafety.RegularRejected | crates/mmm-core/src/linalg.rs:15-38 | a concrete regular matrix, diagonal with entries 1 and 1e-14, is rejected at its second column |
| PivotSafety.AnchoredIsSafe | crates/mmm-core/src/photometry.rs:510-539 | with every panel joined to a reference by contributing edges, no pivot of an offset system with 4 n^2 max(1,E) (1 + 2E) below 1e13 is below the threshold, n the panels and E the edges |
| PivotSafety.OffsetsSolvedIff | crates/mmm-core/src/photometry.rs:510-539 | under that bound an offset solve succeeds if and only if every panel is joined to a reference by contributing edges |
| PivotSafety.PotentialsSolved | crates/mmm-core/src/photometry.rs:418-476 | a gain solve whose edge weights sum to little enough for its ridge, a bound a caller can compute, always succeeds |
| SurfacePivots.SmallFitSolved | crates/mmm-core/src/surfaces.rs:205-340 | a surface fit whose panel count, overlap count and coordinate range stay below a bound a caller can compute always succeeds |
| Linalg.FindPivot | crates/mmm-core/src/linalg.rs:24-38 | the chosen row holds the largest absolute entry of the column on or below the diagonal, and that size is returned |
| Linalg.SwapKeepsSolutions | crates/mmm-core/src/linalg.rs:39-44 | a pivot swap changes neither the solution set nor how large a vector's image is |
| Linalg.EliminateKeepsSolutions | crates/mmm-core/src/linalg.rs:45-56 | one elimination step keeps the solution set in both directions, and pulls a small image back to a small image |
| Linalg.EliminateColumn | crates/mmm-core/src/linalg.rs:45-56 | after the column loop the column is zero below its pivot, earlier columns stay reduced, and the system has the same solutions |
| Linalg.TriangularUnique | crates/mmm-core/src/linalg.rs:59-68 | a reduced system with nonzero diagonal has at most one solution |
| Linalg.BackSubstitute | crates/mmm-core/src/linalg.rs:59-68 | filling x backwards gives the sole solution of the reduced system |
| Linalg.SoleSolutionIsNonsingular | crates/mmm-core/src/linalg.rs:11-69 | a system with exactly one solution has no kernel: success excludes singularity |
| Linalg.TinyColumnIsNearlySingular | crates/mmm-core/src/linalg.rs:15-38 | when every candidate pivot is below the threshold, the original matrix nearly annihilates a vector of unit size |
| LeastSquares.EncodesMore | crates/mmm-core/src/photometry.rs:391-398 | adding weight times the outer product of a row, and its right-hand side, turns the normal equations of an objective into those of the objective with that squared residual added |
| LeastSquares.Expansion | crates/mmm-core/src/photometry.rs:444-462 | the objective at z + d is its value at z plus the gradient along d plus the homogeneous quadratic in d, exactly |
| LeastSquares.GaugedMinimiser | crates/mmm-core/src/photometry.rs:452-462 | the only solution of normal equations with gauge rows overwritten is the only minimiser among vectors that vanish on the gauge |
| LeastSquares.RegularIffPinned | crates/mmm-core/src/photometry.rs:452-462 | the gauged matrix is nonsingular if and only if no nonzero vector that vanishes on the gauge leaves the objective flat |
| LeastSquares.DiagonalIsCurvature | crates/mmm-core/src/surfaces.rs:317-323 | the diagonal entry the stabilizer scales is the objective's curvature along that unknown |
| Photometry.AddRow | crates/mmm-core/src/photometry.rs:391-398 | the sparse accumulation adds exactly the outer product of the dense coefficient vector and rhs times it, also when an index is listed twice |
| Photometry.OverwriteGauge | crates/mmm-core/src/photometry.rs:527-533 | exactly the listed rows become unit rows with a zero right-hand side; every other row is as before |
| Photometry.OffsetSolve | crates/mmm-core/src/photometry.rs:510-539 | Ok gives the only minimiser, zero on the references, of the sum of squared residuals the loop accumulated; failing is tied to the gauged matrix in both directions |
| Photometry.OffsetObjective | crates/mmm-core/src/photometry.rs:514-526 | the accumulated objective is the sum over contributing edges of (o_a - o_b - d_e)^2 |
| Photometry.ReferenceRowsHold | crates/mmm-core/src/photometry.rs:506-539 | with one reference per component, the rows overwritten by the gauge hold too: the solution satisfies every row of the ungauged system |
| Photometry.OffsetsOptimal | crates/mmm-core/src/photometry.rs:506-539 | those offsets minimise the mismatch over all offset vectors, not only over gauged ones |
| Photometry.ZeroMismatch | crates/mmm-core/src/photometry.rs:506-539 | the total mismatch is zero if and only if corrected mean levels agree on every contributing edge |
| Photometry.ConsistentEdgesAgree | crates/mmm-core/src/photometry.rs:506-539 | if any assignment matches all edges, the computed offsets match all of them exactly |
| Photometry.ChooseReference | crates/mmm-core/src/photometry.rs:158-176 | the gauge panel is a member of the component with the most fully covered cells, the lowest index among equals |
| Photometry.FullCovCounts | crates/mmm-core/src/photometry.rs:200-203 | the measure of a panel is the number of its fully covered cells |
| Photometry.Solve | crates/mmm-core/src/photometry.rs:144-198 | components, one gauge panel for each, one solve per channel, for any fits on the graph's edges: on success each channel's offsets are optimal and zero on the gauge; on failure the channel named has a system that gave up at the column named; every panel reaches exactly one gauge panel |
| EdgeFits.FitSums | crates/mmm-core/src/photometry.rs:231-277 | the in-place clip rounds report the sums of the pairs kept last: all pairs are kept at first, and twice a line is fitted to the kept pairs and the pairs near it, kept before or not, are kept next |
| EdgeFits.LineIsFitted | crates/mmm-core/src/photometry.rs:247-263 | the line of a round has the least squared residuals over the kept pairs of all lines, or, where their x hardly vary, slope one and residuals that sum to zero |
| EdgeFits.VariedAtMean | crates/mmm-core/src/photometry.rs:252-254 | the test on the running sums says whether the scatter of the kept x about every value exceeds the flat share of their squares |
| EdgeFits.ClipIsClip | crates/mmm-core/src/photometry.rs:271-276 | kept next are exactly the pairs whose squared residual is at most 6.25 times the mean one, or whose residual is at most 1e-7 |
| EdgeFits.ClipKeeps | crates/mmm-core/src/photometry.rs:255-276 | a clip round keeps at least 84 hundredths of the pairs it had, and never fewer than two of two or more |
| EdgeFits.MostSurvive | crates/mmm-core/src/photometry.rs:231-277 | an edge that starts with two pairs or more ends with at least two, and with at least 0.7056 of them |
| OverlapGraph.FullCovBox | crates/mmm-core/src/overlap.rs:154-168 | the tight box of the fully covered cells, none if there are none |
| OverlapGraph.CountShared | crates/mmm-core/src/overlap.rs:73-83 | counts the cells of a box fully covered in both panels, each once, with their tight box |
| OverlapGraph.PairOverlap | crates/mmm-core/src/overlap.rs:61-90 | a pair gives an edge if and only if it shares at least 16 fully covered cells anywhere, though only the intersection of two boxes is scanned |
| OverlapGraph.Build | crates/mmm-core/src/overlap.rs:46-93 | the graph has exactly one edge for every pair that shares enough cells, with their number and tight box, in order of the pairs |
| PanelSolve.Gather | crates/mmm-core/src/photometry.rs:217-226 | the pairs of an edge are the two means over exactly the shared cells of its box, each once, in scan order |
| PanelSolve.FitEdge | crates/mmm-core/src/photometry.rs:207-277 | the fit of an edge in a channel sums pairs of all its shared cells and keeps at least two of them |
| PanelSolve.FitEdges | crates/mmm-core/src/photometry.rs:150-156 | one fit for every edge and channel; in every channel all edges contribute |
| PanelSolve.AnchoredByAll | crates/mmm-core/src/photometry.rs:158-176 | one reference for each component joins every panel to a reference by contributing edges in every channel |
| PanelSolve.FailureIsTiny | crates/mmm-core/src/photometry.rs:178-192 | if the solve fails on such fits its system is regular and gave up on a tiny pivot, and the counts of panels and edges exceed the bound |
| PanelSolve.SolvePanels | crates/mmm-core/src/photometry.rs:144-198 | from the summaries alone: graph, fits, references and offsets; success is optimal in every channel, failure only a tiny pivot of a regular system, and with moderately many panels and edges there is no failure |
| Photometry.SolvePotentials | crates/mmm-core/src/photometry.rs:418-476 | one weighted solve of the gain potentials gives the sole minimiser of the weighted edge residuals plus the ridge, zero on the references |
| Photometry.MinimiserIsPotentials | crates/mmm-core/src/photometry.rs:439-462 | the rows scaled by the square root of their weight accumulate the weighted squares of the log-gain residuals, and the diagonal bumps accumulate the ridge |
| OffsetSolvability.OffsetsRegularIff | crates/mmm-core/src/photometry.rs:510-539 | the gauged offset matrix is nonsingular if and only if every panel is joined to a reference by edges that contribute cells in this channel |
| OffsetSolvability.OffsetVerdict | crates/mmm-core/src/photometry.rs:510-539 | an offset solve succeeds if and only if every panel is so joined and no column of the exact elimination has its largest pivot below the threshold; the system is regular if and only if every panel is so joined |
| OffsetSolvability.PinnedIffAnchored | crates/mmm-core/src/photometry.rs:510-539 | the offsets are pinned by the objective if and only if every panel is so joined |
| OffsetSolvability.ConsistentIffZero | crates/mmm-core/src/photometry.rs:506-539 | some offsets match every edge if and only if the optimal total mismatch is zero |
| OffsetSolvability.PotentialsVerdict | crates/mmm-core/src/photometry.rs:444-462 | the ridge keeps the gauged gain matrix nonsingular whatever the edges |
| Components.ConnectedComponents | crates/mmm-core/src/overlap.rs:118-150 | classes are exactly the path-connected sets of panels, each ascending, ordered by smallest member, covering 0..n once |
| Components.Find | crates/mmm-core/src/overlap.rs:120-132 | returns the root, keeps every node's root, points the node at it; terminates because parents never exceed their child |
| Components.CompressKeepsRoots | crates/mmm-core/src/overlap.rs:120-132 | pointing a node at its root changes no root and keeps parents at or below their child |
| Components.LinkMovesRoots | crates/mmm-core/src/overlap.rs:133-138 | hanging the larger root under the smaller moves exactly the nodes of the larger root |
| Components.Unite | crates/mmm-core/src/overlap.rs:133-138 | after all edges the forest describes the edge set |
| Components.RootsAreComponents | crates/mmm-core/src/overlap.rs:118-150 | two panels share a root if and only if a path of edges joins them |
| Chamfer.DistanceMap | crates/mmm-core/src/overlap.rs:173-224 | every cell ends with the least (max - min) + sqrt2 min of the offsets to any uncovered cell, and is infinite if and only if there is none |
| Chamfer.ForwardPass | crates/mmm-core/src/overlap.rs:183-202 | after the first pass every value is at least the length to some uncovered cell and at most the length to every uncovered cell in the already scanned half-plane |
| Chamfer.BackwardPass | crates/mmm-core/src/overlap.rs:203-222 | after the second pass the bound holds for uncovered cells in every direction |
| Chamfer.StepTriangle | crates/mmm-core/src/overlap.rs:173-182 | one chamfer step lengthens the closed-form distance by at most its own length |
| Chamfer.ForwardCellComplete | crates/mmm-core/src/overlap.rs:183-202 | relaxing against the left, upper, upper-left and upper-right neighbours suffices for every earlier direction |
| Chamfer.BackwardCellComplete | crates/mmm-core/src/overlap.rs:203-222 | relaxing against the four later neighbours completes a cell |
| Surfaces.FitChannel | crates/mmm-core/src/surfaces.rs:205-340 | Ok gives the sole minimiser, zero at the references' constant terms, of overlap residuals plus ridge plus stabilizer; the gauged matrix is never singular, and an error means exactly that the elimination met a pivot below the threshold |
| Surfaces.AddCell | crates/mmm-core/src/surfaces.rs:261-281 | one cell's eight-fold accumulation adds the weighted outer product of the basis at panel a and its negative at panel b, and the matching right-hand side |
| Surfaces.AddOverlap | crates/mmm-core/src/surfaces.rs:205-282 | the cells of an overlap add the mean squared disagreement of the corrected backgrounds |
| Surfaces.AddFootprints | crates/mmm-core/src/surfaces.rs:284-315 | the ridge adds, for every panel with covered cells, a fraction of the mean squared surface over them |
| Surfaces.Stabilize | crates/mmm-core/src/surfaces.rs:317-323 | the diagonal change adds a penalty on each unknown, relative to the curvature the data give it |
| Surfaces.EvalIsDot | crates/mmm-core/src/surfaces.rs:60-96 | evaluating a surface is the product of its coefficients with the basis the fit used, for every order |
| Surfaces.TermsOfDegree | crates/mmm-core/src/surfaces.rs:60-66 | one coefficient for each monomial up to the order's degree, none past the second |
| Surfaces.ObjectiveIsCost | crates/mmm-core/src/surfaces.rs:205-323 | the accumulated objective is the documented cost: overlap residuals, ridge and stabilizer |
| Surfaces.MinimiserIsSurfaces | crates/mmm-core/src/surfaces.rs:325-340 | the gauged minimiser is the documented set of surfaces |
| Surfaces.FitIsRegular | crates/mmm-core/src/surfaces.rs:317-340 | whatever cells were kept, the gauged matrix is nonsingular |
| SeamPath.CheapestSeam | crates/mmm-core/src/seam.rs:468-496 | the path walks the stored steps of a filled table back from its best end; with at most 65535 cells across the band it moves by at most one per slice, no such path costs less, and of the equally cheap ones it is the one preferred: back from the end it ends lower, goes straight on, or turns to the lower boundary |
| SeamPath.OnlyOneSeam | crates/mmm-core/src/seam.rs:468-496 | a cost plane has one seam: no two paths are both cheapest and preferred |
| SeamPath.WalkIsTheSeam | crates/mmm-core/src/seam.rs:468-496 | every walk back through a filled table, with at most 65535 cells across, is that one seam |
| SeamPath.FillTable | crates/mmm-core/src/seam.rs:468-486 | every table entry extends the best of the three reachable entries above it and stores which one, cut to 16 bits |
| SeamPath.EntryBounds | crates/mmm-core/src/seam.rs:468-486 | a table entry is a lower bound on the cost of every seam that ends there |
| SeamPath.FollowedCost | crates/mmm-core/src/seam.rs:488-496 | following the table backwards gives a seam whose cost is the entry it started from |
| SeamWidth.SeamsCheapestIff | crates/mmm-core/src/seam.rs:468-496 | the walk is a cheapest seam for every cost plane if and only if the band is at most 65535 cells across or has one slice |
| SeamWidth.WideBandBreaks | crates/mmm-core/src/seam.rs:468-496 | a concrete cost plane whose walk is no seam once the band is wider than a stored step can name |
| Seam.EdgeSeam | crates/mmm-core/src/seam.rs:382-525 | boxes less than 64 cells along both axes give nothing; else the seam is the preferred one of the cheapest of the penalised cost plane and the operations cut the box across its shorter axis, once in every column or row of the longer, the low side to the panel deeper at the low edge |
| Seam.SplitCutsAcross | crates/mmm-core/src/seam.rs:394-407 | a box at least as wide as high is cut column by column, any other row by row: its shared cells and no others are given to the low or the high panel by the side of the seam they are on |
| Seam.DeeperIs | crates/mmm-core/src/seam.rs:498-511 | the low side goes to the first panel if and only if its distances sum to at least the second's along the box's first row, or first column if it is higher than wide |
| Seam.BandPlane | crates/mmm-core/src/seam.rs:408-448 | each band cell costs its raw cost, the star penalty on top where masked in either panel, the unshared cost outside the shared band; the penalty is 100 times the upper median of the shared costs |
| Seam.CheapestAvoids | crates/mmm-core/src/seam.rs:450-496 | if some seam costs less than a bound, the cheapest seam touches no cell that costs the bound or more |
| Seam.SeamAvoidsStars | crates/mmm-core/src/seam.rs:411-496 | if some seam costs less than the star penalty, the chosen seam is adjacent to no masked shared cell, as long as the penalty or the cell's raw cost is below the unshared cost |
| SeamStars.AvoidsStarsIff | crates/mmm-core/src/seam.rs:411-496 | that every cheapest seam keeps off all masked shared cells whenever some seam is cheaper than the penalty holds for all planes with a penalty if and only if the penalty is at most the unshared cost; beyond 100 times the unshared cost there is none |
| SeamStars.TrapCatches | crates/mmm-core/src/seam.rs:411-496 | a concrete plane of two by 64 cells for every penalty in between, whose cheapest seams run beside the star though they cost less than the penalty |
| Seam.SeamStaysShared | crates/mmm-core/src/seam.rs:411-496 | if some seam stays in the shared band, both sides of the chosen one do |
| Seam.Relabels | crates/mmm-core/src/seam.rs:512-524 | the operations are exactly one per shared fully covered band cell, before the seam to one panel and behind it to the other, no cell named twice |
| Seam.VoronoiLabel | crates/mmm-core/src/seam.rs:303-327 | the label is the covering panel of largest feather weight, then distance, then lowest index; none if no panel covers the cell |
| Seam.FeatherRamp | crates/mmm-core/src/seam.rs:305-318 | for a positive feather the weight is the distance in pixels over the feather between its floor 0.0001 and one, which it reaches exactly at the feather's width |
| Seam.FeatherMonotone | crates/mmm-core/src/seam.rs:305-318 | deeper cells never weigh less |
| Seam.OwnerMap | crates/mmm-core/src/seam.rs:276-378 | distances are exact, labels are Voronoi except where an edge relabels, the last such edge decides; with at most 65535 panels a cell is unowned if and only if no panel covers it and otherwise its owner covers it; for every feather |
| Seam.PanelsFitIff | crates/mmm-core/src/seam.rs:305-327 | labels mean what they say for every list of n panels if and only if n is at most 65535 |
| Seam.OpOwned | crates/mmm-core/src/seam.rs:512-524 | an operation names a cell both panels cover and gives it to one of them |
| Seam.AppliedOwned | crates/mmm-core/src/seam.rs:366-375 | applying owned operations in any order keeps every cell owned |
| Seam.AppliedAt | crates/mmm-core/src/seam.rs:371-375 | a cell keeps its label unless an operation names it, and then has the label of one that does |
| Seam.RimDistances | crates/mmm-core/src/seam.rs:290-301 | the distances used are the exact chamfer distances with a finite stand-in for infinity |
| Reach.ReachedIsLeast | crates/mmm-core/src/seam.rs:160-176 | the reached cells lie in every closed set that contains the seeds: the fill computes the least one |
| Flood.FloodStep | crates/mmm-core/src/seam.rs:160-176 | taking any frontier cell and marking its neighbours in any order keeps the flood state: the result does not depend on the order |
| Flood.FloodDone | crates/mmm-core/src/seam.rs:160-176 | an empty frontier means exactly the reachable cells are marked |
| Flood.StarMask | crates/mmm-core/src/seam.rs:136-177 | the mask is exactly the cells reachable from seed cells through 8-adjacent grow cells; empty when no covered cell has detail |
| Flood.ExceedsIff | crates/mmm-core/src/seam.rs:143-158 | seed and grow cells are exactly the cells with any coverage whose detail in some channel exceeds three, or one and a half, times the middle one of the covered cells' details |
| Flood.CoveredDetailLists | crates/mmm-core/src/seam.rs:146-149 | those details are the largest over the channels at the fully covered cells, once each |
| Order.MedianIsMiddle | crates/mmm-core/src/seam.rs:153-155 | the selected element has at most half of the list below it and more than half up to it, and no other value does |
| Flood.FillHoles | crates/mmm-core/src/blend.rs:649-682 | a cell ends set if and only if it was set or no walk through side-adjacent false cells joins it to the border |
| Split.SplitComponents | crates/mmm-core/src/seam.rs:210-254 | compact and structure flags partition the mask and each 8-connected component is wholly one of them, by its area and bounding box |
| Split.MaxDimIsLonger | crates/mmm-core/src/seam.rs:240-240 | the size tested is the longer side of the box in cells |
| Split.CompactByShape | crates/mmm-core/src/seam.rs:241-243 | forty cells are compact however they lie; beyond that a shape longer than twelve cells is compact if and only if it covers at most six cells for each of its length, so a solid square is up to twelve cells a side |
| Split.Collect | crates/mmm-core/src/seam.rs:218-239 | one flood collects exactly the component of its start, each cell once, with its tight bounding box |
| Split.ComponentShared | crates/mmm-core/src/seam.rs:210-254 | joined cells have the same component |
| Split.CollectDone | crates/mmm-core/src/seam.rs:218-239 | an emptied stack means the collected cells are the whole component and the marks stay closed |
| OnionFill.SuppressStars | crates/mmm-core/src/blend.rs:546-644 | sources and cells out of reach keep their values; every filled cell lies within the sources' bounds in every channel; the local passes are the layers of the distance ball; the later rounds are the described ones, up to where and why they stop |
| OnionFill.Pass | crates/mmm-core/src/blend.rs:605-638 | the in-place pass gives the double-buffered pass, and sorts the unfilled cells into filled and left |
| OnionFill.GatheredMeans | crates/mmm-core/src/blend.rs:611-631 | sums over the partly updated plane are sums over the plane before the pass |
| OnionFill.BallIsDistance | crates/mmm-core/src/blend.rs:592-643 | a cell is in the k-th ball if and only if at most k 8-connected steps through reach lead to it from a source |
| OnionFill.MeanBounds | crates/mmm-core/src/blend.rs:611-631 | a mean of available cells lies within any bounds that hold of them |
| OnionFill.BaseReach | crates/mmm-core/src/blend.rs:688-707 | reach is exactly the cells within two columns and rows of a covered cell |
| OnionFill.BoundsAreSpread | crates/mmm-core/src/blend.rs:567-579 | each channel's bound is the middle one of its values at the source cells plus twenty times the middle one of their distances from it, or times 1e-7 where that is larger |
| OnionFill.TwiceNear | crates/mmm-core/src/blend.rs:688-707 | two dilations are one dilation by two |
| FillDepth.DeepFillsAreDim | crates/mmm-core/src/blend.rs:593-643 | a cell filled after the local layers ends at or below the background bound in every channel |
| FillDepth.RestIsIsolated | crates/mmm-core/src/blend.rs:635-643 | when the fill stops before the last allowed round, no cell left unfilled touches a cell that was spreading |
| FillDepth.FilledByRoundIff | crates/mmm-core/src/blend.rs:593-643 | a cell open after the local layers is filled by the m-th later round if and only if a walk of at most m steps through open cells leads to it from an available cell that is not bright |
| FillDepth.FilledIff | crates/mmm-core/src/blend.rs:593-643 | the finished fill reaches such a cell if and only if such a walk fits in the 248 rounds after the cut, whether or not the fill stopped early |
| FillDepth.ClosureAfterCut | crates/mmm-core/src/blend.rs:593-643 | from the cut on the available cells are exactly the ball around the dim cells through the open ones, and the rest of the open cells stays open |
| PyramidKernels.Smooth | crates/mmm-core/src/pyramid.rs:78-105 | the separable loops compute the 5-tap kernel with replicated borders at every cell |
| PyramidKernels.Downsample | crates/mmm-core/src/pyramid.rs:108-118 | the coarse cell is the smoothed value at the even position |
| PyramidKernels.Upsample | crates/mmm-core/src/pyramid.rs:122-140 | the fine cell interpolates its coarse neighbours, edges clamped; at twice the size every fine cell is the mean of the coarse cells around it |
| PyramidKernels.UpIffInterpolates | crates/mmm-core/src/pyramid.rs:122-140 | a plane is the bilinear sample at every cell if and only if it interpolates: nothing else is left open |
| PyramidKernels.CoarseCellsSitEven | crates/mmm-core/src/pyramid.rs:127-137 | coarse cell (i, j) sits at fine cell (2i, 2j), a cell between two coarse ones is their mean, one between four the mean of the four, and past the last coarse cell that cell goes on |
| PyramidKernels.SmoothClose | crates/mmm-core/src/pyramid.rs:78-105 | smoothing never widens the difference between two planes |
| PyramidKernels.UpClose | crates/mmm-core/src/pyramid.rs:122-140 | neither does upsampling |
| SmoothLaws.SmoothLinear | crates/mmm-core/src/pyramid.rs:78-105 | smoothing is linear |
| SmoothLaws.SmoothBetween | crates/mmm-core/src/pyramid.rs:78-105 | a smoothed product of data and weights lies between the bounds of the data times the smoothed weights |
| PyramidBlend.BuildMasked | crates/mmm-core/src/pyramid.rs:154-186 | levels are the normalised Gaussian chain minus the interpolation of its next level, with the residual last |
| PyramidBlend.BuildMask | crates/mmm-core/src/pyramid.rs:205-227 | levels are the smoothed mask chain, clamped at every step to where enough of the cell is valid |
| PyramidBlend.Collapse | crates/mmm-core/src/pyramid.rs:231-241 | the interpolation of the coarser plane plus the level, from coarse to fine |
| Pyramid.CollapseIsGauss | crates/mmm-core/src/pyramid.rs:231-241 | collapsing gives back every Gaussian level |
| Pyramid.RoundTrip | crates/mmm-core/src/pyramid.rs:154-241 | collapse after build_masked is the plane itself where validity exceeds EPS_WEIGHT and zero elsewhere |
| Pyramid.InvalidValuesIgnored | crates/mmm-core/src/pyramid.rs:154-186 | values where validity is zero reach no level |
| Pyramid.BlendStable | crates/mmm-core/src/pyramid.rs:258-330 | if all panels lie within e of a common plane, validity is one and mask sums exceed EPS_WEIGHT, the blend lies within (2n+1)e of it |
| MaskPartition.OwnershipBlendStable | crates/mmm-core/src/pyramid.rs:205-330 | the same for masks that share out every level-0 cell, with no condition on coarser levels; at e = 0 the blend is the common plane |
| MaskPartition.LevelShares | crates/mmm-core/src/pyramid.rs:205-227 | masks that sum to one at every level-0 cell sum to one at every cell of every level |
| MaskPartition.MaskLevelsNonNegative | crates/mmm-core/src/pyramid.rs:205-227 | nonnegative masks stay nonnegative at every level |
| MaskPyramid.ValiditySupport | crates/mmm-core/src/pyramid.rs:154-176 | a nonzero validity at level l has a valid level-0 cell within Chebyshev distance 2(2^l - 1) |
| MaskPyramid.ChainBetween | crates/mmm-core/src/pyramid.rs:154-176 | the weighted chain lies between the bounds that hold of the valid data within that radius, times the weight |
| MaskPyramid.MaskedCellIsGenuine | crates/mmm-core/src/pyramid.rs:154-227 | where a mask level is nonzero there is valid data within that radius and the Gaussian value lies within its bounds, never the zero sentinel |
| PyramidGuard.BlendLevel | crates/mmm-core/src/pyramid.rs:283-305 | each cell is the mask-weighted mean of the panels, zero where the weights do not exceed EPS_WEIGHT, and the reached flags say which |
| PyramidGuard.BlendGuarded | crates/mmm-core/src/pyramid.rs:258-330 | the plane is the collapse of the blended levels and a cell is defined as the levels above it say |
| PyramidGuard.AllReachedIff | crates/mmm-core/src/pyramid.rs:307-329 | the flag carried down level by level is set if and only if the masks reach the nearest cell of every level above the spot |
| DecodeCache.StepKeeps | crates/mmm-core/src/decoded.rs:116-226 | every step of every thread, a crash, a power cut and an outside removal keep the invariant of files, locks, temporary names and counts |
| DecodeCacheSafety.CacheFilesWhole | crates/mmm-core/src/decoded.rs:116-226 | in every run a file at a cache path with the expected length holds the whole decode and would survive a power cut |
| DecodeCacheSafety.SuccessfulCallsWhole | crates/mmm-core/src/decoded.rs:116-226 | every call that succeeded holds the complete decode, for as long as it is held |
| DecodeDelivery.FailureHasCause | crates/mmm-core/src/decoded.rs:116-226 | a call that returned a failure took a step that failed: an operation that went wrong, or no valid file after a failed rename |
| DecodeDelivery.UnharmedCallsDeliver | crates/mmm-core/src/decoded.rs:116-226 | a call that returned and none of whose steps failed or panicked holds the whole decode of its key, mapped from the cache or in memory when there is no cache directory |
| DecodeDelivery.ValidFileIsOpened | crates/mmm-core/src/decoded.rs:126-139 | a call that finds a valid file when it first looks never takes the lock and decodes nothing |
| DecodeDelivery.StepsDescend | crates/mmm-core/src/decoded.rs:116-226 | every step of a call takes it nearer its end, and no step of another moves it |
| DecodeDelivery.NoDeadlock | crates/mmm-core/src/decoded.rs:132-149 | where a call has not returned, it or the call whose lock it waits for can move |
| DecodeCacheSafety.OneDecodeInFlight | crates/mmm-core/src/decoded.rs:132-149 | at most one decode is in flight in each process |
| DecodeCacheSafety.DecodedAtMostOnce | crates/mmm-core/src/decoded.rs:116-226 | without outside removal a process publishes a decode of a key at most once |
| DecodeCacheSafety.TemporariesApart | crates/mmm-core/src/decoded.rs:171-189 | no two live decodes of any processes share a temporary name or file |
| DecodeCounts.DecodedAgainOnlyAfterFailure | crates/mmm-core/src/decoded.rs:116-226 | without outside removal the decodes of a key a process started are exactly those it gave up and one more while one runs or once one is published |
| DecodeCounts.StartsAgainIffGivenUp | crates/mmm-core/src/decoded.rs:133-149 | where a decode starts, the process gave up every decode of the key it started before and published none; the start is a repeated one if and only if an earlier one was given up |
| DecodeCounts.FailedRenameDecodesAgain | crates/mmm-core/src/decoded.rs:210-224 | a concrete run without outside removal in which a key is decoded twice: the rename failed and no valid file was there |
| CommandLine.AppendArg | integration/pixinsight/host/mmm_host.cpp:58-85 | the loop appends the argument bare, or quoted with its backslash runs doubled before quotes |
| CommandLine.BareIffKept | integration/pixinsight/host/mmm_host.cpp:58-66 | an argument without line breaks is written bare if and only if its bare text reads back as that one argument: quotes are put only where needed |
| CommandLine.BuildCommandLine | integration/pixinsight/host/mmm_host.cpp:96-112 | the worker path in quotes, then every argument, then the extra flag if there is one |
| CommandLine.TakeQuoted | integration/pixinsight/host/mmm_host.cpp:58-85 | reading an escaped argument back by Microsoft's rules gives the argument, up to its closing quote |
| CommandLine.LineRoundTrip | integration/pixinsight/host/mmm_host.cpp:54-112 | for every list of arguments, splitting the built line gives back the list if and only if the worker path holds no quote |
| LittleEndian.SpelledValue | integration/pixinsight/host/mmm_protocol.cpp:16-33 | decoding the little-endian bytes of a value gives the value |
| LittleEndian.ValueSpelled | integration/pixinsight/host/mmm_protocol.cpp:16-33 | encoding the value of some bytes gives the bytes |
| LittleEndian.GetU64 | integration/pixinsight/host/mmm_protocol.cpp:21-27 | the shifting loop computes the little-endian value |
| LittleEndian.PutU32 | integration/pixinsight/host/mmm_protocol.cpp:29-33 | appends the four low bytes, lowest first |
| Handles.FullRead | integration/pixinsight/host/mmm_protocol.cpp:42-58 | whatever the short reads and interruptions, it returns the first n bytes or all there are, and leaves the rest |
| Handles.FullWrite | integration/pixinsight/host/mmm_protocol.cpp:60-74 | success wrote everything; a fault leaves a prefix |
| Frames.ReadWorkerFrame | integration/pixinsight/host/mmm_protocol.cpp:107-187 | unless a read fails for good, the outcome and what is left depend on the byte stream alone |
| Frames.ParseFramed | integration/pixinsight/host/mmm_protocol.cpp:107-187 | a frame comes back off the stream with its meaning and takes no more of the stream |
| Frames.StreamRoundTrip | integration/pixinsight/host/mmm_protocol.cpp:76-187 | a stream of meaningful frames parses to their meanings in order, with nothing left |
| Frames.CutConcat | integration/pixinsight/host/mmm_protocol.cpp:76-105 | the frames of a stream, whole and then at most one cut, are the frames that went in |
| Frames.RequestRoundTrip | integration/pixinsight/host/mmm_protocol.cpp:128-141 | the five fields of a band request are read back from their fixed layout |
| Frames.OutputRoundTrip | integration/pixinsight/host/mmm_protocol.cpp:150-162 | the four fields of an output band are read back from their fixed layout |
| Frames.BuildFrame | integration/pixinsight/host/mmm_protocol.cpp:76-83 | tag, 32-bit length, payload |
| Frames.EncodeBandReply | integration/pixinsight/host/mmm_protocol.cpp:200-207 | id, slot and status in their fixed layout |
| Frames.WriteFrameRaw | integration/pixinsight/host/mmm_protocol.cpp:189-198 | success wrote exactly the frame; a fault leaves a prefix of it |
| HostFrames.HostFramesReadBack | crates/mmm-core/src/ipc/protocol.rs:631-645 | the worker's reader takes every answer and cancel of the host back to what was meant: tags, layouts and JSON texts of both sides agree |
| HostFrames.DigitsReadBack | integration/pixinsight/host/mmm_protocol.cpp:209-213 | the digits of an id spell it, without a leading zero |
| Slots.LayoutSoundIff | integration/pixinsight/host/mmm_shm.h:22-34 | all slots lie inside the segment and are pairwise disjoint if and only if the plain size fits 64 bits |
| Slots.FillStaysInside | integration/pixinsight/host/mmm_host.cpp:545-570 | an accepted band request writes only inside its own input slot, on rows of its panel |
| Slots.FillsStayInsideIff | integration/pixinsight/host/mmm_host.cpp:545-570 | that holds for every request of a panel if and only if its row size does not wrap, or no request of it can be accepted with rows |
| Slots.OutputStaysInside | integration/pixinsight/host/mmm_host.cpp:625-656 | an accepted output band reads only inside its output slot and lands on rows of the begun height; no product wraps |
| Slots.DecisionIs | integration/pixinsight/host/mmm_host.cpp:545-580 | where row sizes do not wrap, exactly the requests for existing rows of an existing nonempty panel that fit an input slot are filled, and exactly a missing slot or rows that do not fit end the run |
| Slots.BeginAcceptedIff | integration/pixinsight/host/mmm_host.cpp:584-618 | a begin is accepted if and only if none was before it, its sizes are positive and within the protocol, no cell of it lies off a canvas of known size, and its channels are those of the canvas |
| Slots.BandAcceptedIff | integration/pixinsight/host/mmm_host.cpp:625-653 | an output band is accepted if and only if its slot exists and it holds rows of the begun image that fit the slot |
| Serve.StepKeeps | integration/pixinsight/host/mmm_host.cpp:400-759 | every step of the loop, of the worker, of the pipe and of any number of concurrent cancels keeps the invariant |
| ServeSafety.StdinIsFrames | integration/pixinsight/host/mmm_host.cpp:400-417 | the worker's stdin is always whole frames and then at most the beginning of one, which stays cut only on a broken pipe |
| ServeSafety.WorkerSeesFrames | integration/pixinsight/host/mmm_host.cpp:400-417 | cutting that byte stream gives exactly the frames the host wrote |
| ServeSafety.AnswersInOrder | integration/pixinsight/host/mmm_host.cpp:545-656 | Init comes first; replies carry the ids of the requests, each once, in order of arrival; at most the last request is unanswered |
| ServeAnswers.KthAnswersKth | integration/pixinsight/host/mmm_host.cpp:545-656 | the k-th answer names kind, id and slot of the k-th request read; a band reply has status 0 if and only if the application was told of that request and reported the fill done; an acknowledged band was delivered |
| ServeAnswers.CallsAreAskedFor | integration/pixinsight/host/mmm_host.cpp:545-656 | every call into the application is the one a frame read asked for, in the order of the frames and once each, and every accepted band request gets its fill |
| ServeAnswers.WorkerReadsAnswers | integration/pixinsight/host/mmm_host.cpp:400-417 | the worker, cutting and reading its stdin by its own rules, finds every frame as the host meant it |
| ServeEnds.ThrowsIffFailed | integration/pixinsight/host/mmm_host.cpp:498-759 | a run throws if and only if one of its steps went wrong: Init not encoded, an answer the pipe did not take, a frame against the rules, a callback that threw, unreadable output, or a worker gone without Done and clean exit and without being cancelled |
| ServeEnds.StepsDescend | integration/pixinsight/host/mmm_host.cpp:498-759 | every step of the loop but a received frame takes it nearer its end, every write call by the bytes it wrote, and no step of a cancel moves it |
| ServeEnds.NeverStuck | integration/pixinsight/host/mmm_host.cpp:400-417 | no deadlock: until the run and every cancel are over, the holder of the stdin mutex can move, or nobody holds it and the loop or a waiting cancel can |
| ServeSafety.BeginOnceFirst | integration/pixinsight/host/mmm_host.cpp:587-656 | the application sees at most one begin, before every band and with the bands' geometry |
| ServeSafety.BandsFollowBegin | integration/pixinsight/host/mmm_host.cpp:625-630 | a band is delivered only after a begin |
| ServeSafety.CallsStayInside | integration/pixinsight/host/mmm_host.cpp:545-656 | every call addresses no more than one slot's bytes and rows of its panel or of the begun image, whenever requests of each panel stay inside their slots |
| ServeSafety.CallsKeepToTheirSlots | integration/pixinsight/host/mmm_host.cpp:545-656 | in a layout whose size fits 64 bits, the bytes a call reads or writes lie inside the segment, in its own slot and in no other |
| ServeSafety.ReturnsOnlyWhenOver | integration/pixinsight/host/mmm_host.cpp:657-759 | run returns normally only after Done and a clean exit, or after an Error that followed a cancel |
| ServeSafety.CancelNotLost | integration/pixinsight/host/mmm_host.cpp:406-417 | past the check, a requested cancel is on an unbroken pipe or some caller is still about to write it |
| Bands.BandCache.constructor | crates/mmm-core/src/band_cache.rs:169-189 | one empty cell per worker thread and one more, no error |
| Bands.BandCache.Refill | crates/mmm-core/src/band_cache.rs:240-315 | a fetched band fills the cell; a failed one leaves it invalid and latches the first error |
| Bands.BandCache.Row | crates/mmm-core/src/band_cache.rs:217-343 | a slice is the producer's row, also in a short last band and after an error; which cell and whether the error change is exact; only the caller's cell and the error are touched |
| Bands.SliceIsRow | crates/mmm-core/src/band_cache.rs:300-315 | the slice computed inside a band is the row asked for |
| Tally.BlocksAddUp | crates/mmm-core/src/analyze.rs:1100-1153 | the per-block totals add up to the total over the panel |
| Tally.CoveredIff | crates/mmm-core/src/analyze.rs:1060-1067 | covered are exactly the pixels of the row stored with no channel zero, and what is read there is what is stored |
| Scan.ScanPixel | crates/mmm-core/src/analyze.rs:1060-1085 | one covered pixel changes its own cell's sums, the totals, the channel extremes and the box, and nothing else |
| Scan.ScanRow | crates/mmm-core/src/analyze.rs:1046-1098 | a row brings all accumulators to the definitions up to the next row |
| ScanPanel.FlushRow | crates/mmm-core/src/analyze.rs:1100-1120 | flushing a cell row writes the blocks' coverage, means and detail by their definitions |
| BlockLaws.CoverageIsShare | crates/mmm-core/src/analyze.rs:1100-1107 | a cell's coverage is between zero and one, and one if and only if all its pixels on the canvas are covered, also in the last column and row of cells |
| BlockLaws.MeanIsBetween | crates/mmm-core/src/analyze.rs:1109-1111 | a cell's mean lies between any bounds of its covered samples |
| BlockLaws.DetailIsDeviation | crates/mmm-core/src/analyze.rs:1112-1113 | a cell's detail is the root of the mean squared deviation of its covered samples from their mean; the clamp at zero never acts |
| ScanPanel.ScanLines | crates/mmm-core/src/analyze.rs:1021-1160 | the streamed summary equals the definitions: coverage, means, detail, total, covered fraction, channel extremes and means, and the tight box |
| ScanPanel.FractionIsTrue | crates/mmm-core/src/analyze.rs:1127-1128 | the covered fraction lies between zero and one and times the canvas gives the covered pixels, when the canvas pixels number less than 2^64 |
| ScanPanel.ScanCached | crates/mmm-core/src/analyze.rs:1021-1160 | the scan succeeds if and only if the producer filled every band the first time it was asked for it, even if it would have filled it later; the summary is then that of the panel itself |
| ScanPanel.ReadLine | crates/mmm-core/src/analyze.rs:1046-1062 | a row read through the cache is the panel's; the error stays clear if and only if the band was held or the first fetch filled it |

## Left out

- Floating point: rounding, NaN and infinities; numbers are reals, so equalities and bounds hold without rounding error.
- Transcendental functions: the distance transform's diagonal step is the single-precision 1.41421353816986083984375,
  and its proof uses only that it lies between 1 and 2; the square root of the panel scan's detail is a parameter, the
  gain rows carry their scale together with its square, and the clip of an edge fit compares squares.
- Iteratively reweighted least squares: one weighted solve is modelled; the reweighting loop and its convergence are not.
- The reported gain of an edge fit (`detrended_moments`, the correlation test and the symmetric slope) and the background
  selection and sigma clipping of `fit_surfaces`: gain rows and the kept cells of surfaces are inputs.
- Graphs read from a file (`OverlapGraph::load`): `Photometry.Solve` takes any edges and fits, `PanelSolve.SolvePanels`
  those the code builds itself.
- Band cell cost: the panels' corrected disagreement plus weighted detail per cell is an input plane of the seam.
- Seam.OwnerMap: a zero feather divides by zero; the quotient is taken as IEEE division gives it, beyond every clamp
  inside a panel and the clamp's floor on its rim.
- OnionFill.SuppressStars: filled values are given by distance layers for the local passes only; for later rounds the
  layers say which cells are filled when, their values are described round by round.
- PyramidGuard.BlendGuarded: the defined flag looks at the nearest coarse cell only, as the code does; that upsampling
  also reads its neighbours is not accounted for.
- Pyramid level count from the feather (`n_levels_for_feather`): the number of levels is a parameter.
- The zero-copy backings of a panel reader.
- Bands.BandCache.Row: one call is one step; that threads on distinct cells do not interfere is stated by its frame, the
  caller's own cell and the error. The lock around the error and the cell index of a thread are not modelled.
- DecodeCache.StepKeeps: keys identify content and a file of the right length found at a cache path at the start is a
  decode; key collisions and outsiders who write files of the right length are excluded. That a path is a regular file,
  the wrap of the temporary-name counter and a reused process id among live processes are not modelled. A power cut may
  lose any directory entry and any contents not synced, but never mixes two files.
- The decode notice, disk-space reservation and its error messages.
- Serve.StepKeeps: the loop sees frames; how bytes become frames is `Frames.ReadWorkerFrame`. Reading the Init body,
  idle ticks, process spawning and Windows handles are not modelled. A pipe that failed once stays broken.
- Whether a blocked read or write of the serve loop ever returns: `ServeEnds` says that somebody can move and that steps
  descend. A Cancel that overtakes Init, and rows not delivered before Done, which the host does not refuse.
- JSON payloads: their reading is a parameter of the frame parser; of the host's own JSON frames the worker is taken to read
  exactly the texts the host writes.
- CommandLine.LineRoundTrip: strings hold no NUL character, and widening to UTF-16 is the identity.
- Bytes are numbers from 0 to 255, shifts and ors in the little-endian helpers are multiplication and addition.
- Alignment, WCS mathematics, reprojection, FITS and XISF reading and writing, PNG output, sessions, the command-line
  interface, tracing and the test-image generators.
