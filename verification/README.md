# abetter-pie in Dafny

abetter-pie is a pie (wheel) chart whose slices are edited by hand. Slices
can be added, removed, moved round the circle, rescaled and dragged into a
new order. The slices always go round the circle exactly once. Each slice is
stored by the angle at which it starts, and its arc runs clockwise to the
start of the next slice.

This project models the logic of that chart in Dafny and proves what it
promises. Angles are exact reals, `TWO_PI` is the exact value of the double
`2 * Math.PI`, and JavaScript's truncating `%` is written out next to the
floored `mod` of `src/util.ts`.

The modules follow the source files:

- `util.dfy` (`Util`) models `src/util.ts`: `mod`, `average`,
  `arcLength`, `angleBetween`, `distSq` and `pointIntersects`.
- `partition.dfy` (`Partition`) holds the slice value shared by
  `src/pie.ts`, `src/wheel.ts` and `src/index.ts`. It also holds
  `findIndex`, the arc lengths and what it means for the starts to
  partition the circle.
- `layout.dfy`, `move.dfy` and `scale.dfy` state, as functions of the old
  slice list, the lists that `addSlice`, `removeSlice`, `moveSliceFwd`,
  `moveSliceBwd` and `scaleSlice` build. They prove that each keeps a
  partition and gives every slice its intended arc length.
- `rebuild.dfy` holds the loops shared by those operations. Each loop is
  proved to compute the layout function.
- `pie.dfy` (`PieModel`) is the `Pie` class of `src/pie.ts`.
  `wheel.dfy` (`WheelModel`) is the `Wheel` class of `src/wheel.ts`.
- `spokes.dfy` (`Spokes`) models `src/index.ts`: the spoke functions on
  wheel values and the selection part of its click handler.
- `ui.dfy` (`UiGeometry`) holds the geometry shared by the UI views.
  `uipie.dfy` (`UIPieModel`) models `src/UI/uipie.ts`.
  `uiwheel.dfy` (`UIWheelModel`) models `src/UI/wheel.ts`.
- `sizechart.dfy` (`SizeChart`) models the size-based chart of
  `src/sketch.js`. Its slices are objects linked into a ring.
- `equalchart.dfy` (`EqualChart`) models the top-level `sketch.js`, the
  first prototype. Its slices all have size 1 and are laid out from angle 0.

Values that the host supplies become parameters:

- the angle and distance that `atan2` and `sqrt` give for the pointer;
- the uuid that `crypto.randomUUID` draws;
- whether a button is under the pointer.

Callbacks (`onSelect`, `onRelease`, `onScale`, `onSliceDrag`, the drag
callback of the wheel) become the signals that a method returns.

## Model

| member | source | states |
|---|---|---|
| `Util.IndexOf` | src/pie.ts:80 | the first position holding `x`, or -1 exactly when no entry is `x` (`findIndex`) |
| `Util.Trunc` | src/index.ts:215 | rounding toward zero: the floor for non-negative numbers, minus the floor of the negation otherwise, so the part cut off lies in (-1, 1) with the sign of `x` |
| `Util.Rem` | src/index.ts:215 | JavaScript's `%`: the remainder keeps the sign of `a`, lies within `n` of 0 and is `n` times the part of `a / n` lost by truncation |
| `Util.Mod` | src/util.ts:13-15 | the result always lies in [0, n) |
| `Util.ModIsJsFormula` | src/util.ts:13-15 | `Mod` equals the source's `((a % n) + n) % n` over the truncating remainder |
| `Util.RemOfNonNeg` | src/index.ts:215 | on a non-negative number `%` and `mod` agree |
| `Util.RaisedRemIsMod` | src/sketch.js:342-345 | `%` raised by `n` when negative (the start computation of `calc_sizes`) is `mod` |
| `Util.ModIsFloored` | src/util.ts:13-15 | `mod` removes a whole number of turns: `a - n * floor(a / n)` |
| `Util.ModShift` | src/util.ts:13-15 | adding whole turns does not change `mod` |
| `Util.ModAddMod` | src/util.ts:13-15 | reducing a summand first does not change `mod` of a sum |
| `Util.Average` | src/util.ts:17-24 | the average times the count is the sum; on sums of 1 it is 1/n |
| `Util.ArcLength` | src/util.ts:26-31 | between normalised angles it lies in (0, 2π] and carries `alpha` onto `beta`; equal angles give a full turn |
| `Util.ArcLengthOfStep` | src/util.ts:26-31 | stepping `d` in (0, 2π] from `alpha` and measuring back gives `d` |
| `Util.ArcLengthUnique` | src/util.ts:26-31 | the clockwise length is the only length in (0, 2π] that leads from `alpha` to `beta` |
| `Util.AngleBetween` | src/util.ts:33-39 | the midpoint is normalised and splits the clockwise arc into two equal halves |
| `Util.HalvesOfArc` | src/util.ts:33-39 | half the arc from `alpha` reaches a point from which the other half reaches `beta` |
| `Util.DistSq` | src/util.ts:53-55 | the squared distance is never negative |
| `Util.DistSqSymmetric` | src/util.ts:53-55 | the squared distance is symmetric |
| `Util.PointIntersects` | src/util.ts:57-85 | circle: within the radius; rect: within both half extents; arc: within the radius and inside the seam-aware angular range, each as an if-and-only-if |
| `Util.BetweenAnglesIsClockwiseSweep` | src/util.ts:72-77 | for distinct normalised ends the seam-aware test is exactly "on the clockwise sweep from t1 to t2" |
| `Util.DegenerateSectorIsRay` | src/util.ts:72-77 | a sector with equal ends contains only the ray at that angle |
| `Partition.CycIndex` | src/pie.ts:93 | the index `c` places after `i` in a cyclic list of length `n` lies below `n` |
| `Partition.CycIndexIsMod` | src/pie.ts:93 | `CycIndex` is the source's `(i + c) % n` |
| `Partition.Succ` | src/pie.ts:25 | the successor index `(i + 1) % n`, below `n` |
| `Partition.Pred` | src/pie.ts:142 | the predecessor index: below `n`, and its successor is `i` |
| `Partition.FindIndex` | src/pie.ts:80 | the first slice with the id, or -1 exactly when no slice has it |
| `Partition.FindDistinct` | src/pie.ts:80 | with distinct ids `findIndex` of a slice's id finds that slice |
| `Partition.SameIdSameIndex` | src/pie.ts:80 | with distinct ids two slices with the same id are the same position |
| `Partition.ArcLengths` | src/pie.ts:23-32 | one length per start, each in (0, 2π] when the starts are angles |
| `Partition.ArcBelowFullTurn` | src/pie.ts:82-84 | with two or more slices in a partition no arc is a full turn, so the remainder is never 0 |
| `Partition.WalkArcLengths` | src/pie.ts:58-72 | walking lengths that make a full turn gives a partition with exactly those lengths |
| `Partition.StartsAreWalk` | src/pie.ts:23-32 | normalised starts are recovered by walking their own arc lengths |
| `Partition.PartitionIsFullTurn` | src/pie.ts:23-32 | the arc lengths of a partition are positive, at most a turn, and add up to 2π |
| `Partition.Walk` | src/pie.ts:58-72 | walking from `a0` by the given lengths, each start reduced with `mod`, gives one angle per length |
| `Partition.WalkStep` | src/pie.ts:58-72 | on lengths making a full turn, each walked start is its length away from the next one, cyclically |
| `Partition.StartsFollowArcLengths` | src/pie.ts:23-32 | each start is the first start plus the lengths before it, reduced with `mod` |
| `Partition.Rotate` | src/pie.ts:92-93 | reading a list cyclically from `k`: entry `p` is the one `p` places after `k` |
| `Partition.ArcLengthsRotate` | src/pie.ts:23-32 | the arc lengths of a rotated list are the rotated arc lengths |
| `Partition.RotatePartition` | src/pie.ts:90-106 | a partition read from any slice is a partition, with its lengths rotated the same way |
| `Partition.PrefixBelowTotal` | src/pie.ts:58-72 | with positive terms each proper prefix sum is below the total by at least the next term |
| `Layout.Percents` | src/pie.ts:37 | one percentage per arc length |
| `Layout.Squeezed` | src/pie.ts:59-71 | one squeezed length per old arc |
| `Layout.InsertLayout` | src/pie.ts:34-75 | the new slice comes first and the old slices follow in order, each keeping its id, name and colour |
| `Layout.InsertIds` | src/pie.ts:47-54 | a new slice with a fresh id keeps the ids distinct |
| `Layout.AverageOfFullTurn` | src/wheel.ts:38-40 | when the old lengths make a full turn the average length is 2π/n: below a full turn for two or more, a full turn for one |
| `Layout.InsertFullTurn` | src/pie.ts:58-72 | the lengths of an insertion into a partition make one full turn |
| `Layout.InsertArcLengths` | src/pie.ts:34-75 | inserting into a partition with a length in (0, 2π) gives a partition whose first arc is the new length and whose other arcs are the old ones squeezed into the rest |
| `Layout.InsertStarts` | src/pie.ts:44-72 | the new slice starts half its length before 0, and old slice `i` starts half that length after 0 plus the squeezed lengths before it |
| `Layout.SqueezedSum` | src/pie.ts:59-71 | the squeezed lengths fill exactly what the new slice leaves of the circle |
| `Layout.InsertArcs` | src/pie.ts:58-72 | starts laid from the new slice's end with steps that fill the rest have exactly the steps as arc lengths |
| `Layout.Survivors` | src/pie.ts:90-106 | the survivors' lengths, listed from the successor, one fewer than before |
| `Layout.Stretched` | src/pie.ts:86 | one stretched length per survivor |
| `Layout.PartitionResizable` | src/pie.ts:82-86 | in a partition the slice exists and, unless alone, does not span the whole circle |
| `Layout.RemoveLayout` | src/pie.ts:77-108 | one slice fewer, the survivors in cyclic order from the successor of the removed slice, each keeping its id, name and colour |
| `Layout.RemoveDropsOnlyTarget` | src/pie.ts:77-108 | the removed id is gone, the ids stay distinct, and every other slice is found, unchanged but for its angle, at its cyclic offset |
| `Layout.SurvivorIds` | src/pie.ts:95-102 | a list carrying the ids of the slices after `ix` keeps every id but `ix`'s, distinct |
| `Layout.SurvivorsSum` | src/pie.ts:82-84 | the survivors' lengths make up 2π minus the removed length |
| `Layout.SharesOfRest` | src/pie.ts:86 | the other lengths divided by their sum and multiplied by `c` are positive, at most `c`, and add up to `c` |
| `Layout.RemoveArcLengths` | src/pie.ts:77-108 | removing from a partition of two or more gives a partition in which each survivor's length is multiplied by 2π/(2π − removed length) |
| `Layout.StretchedFullTurn` | src/pie.ts:86-106 | the stretched survivors of a partition of two or more make a full turn |
| `Layout.RemoveStartsWalk` | src/pie.ts:90-106 | the survivors' starts are the walk from the removed slice's start by the stretched lengths |
| `Layout.SurvivorsRotate` | src/pie.ts:92-93 | the survivors followed by the removed length are the lengths read cyclically from the successor |
| `Move.MoveFwdLayout` | src/pie.ts:110-137 | the list keeps its length and ids; positions `i` and its successor swap, the successor taking `i`'s start |
| `Move.MoveFwdSingle` | src/pie.ts:110-137 | a list of one slice is left as it is |
| `Move.MoveFwdArcLengths` | src/pie.ts:110-137 | moving forward keeps the partition and swaps the two arc lengths with the slices; every other length is unchanged |
| `Move.MovedArcAtFront` | src/pie.ts:119-132 | after the move, position `i` has the successor's old length |
| `Move.MovedArcAtBack` | src/pie.ts:119-132 | after the move, the successor's position has `i`'s old length |
| `Move.MovedArcElsewhere` | src/pie.ts:119-132 | every other position keeps its length |
| `Move.FollowingStart` | src/pie.ts:119-132 | the slice two after `i` starts where `i` starts plus both lengths between |
| `Move.MovedStarts` | src/pie.ts:119-132 | position `i` keeps its start, its successor now starts where `i` started plus the successor's old length, the slice after both keeps its start, and all starts stay angles |
| `Move.SumSwap` | src/pie.ts:134 | exchanging two entries keeps the sum |
| `Move.BwdIndex` | src/pie.ts:141-142 | the index handed on is below `n`, the predecessor of the id's slice, or the slice before last for a missing id |
| `Move.BwdIndexIsMod` | src/pie.ts:141-142 | `BwdIndex` is the source's `mod(i - 1, n)` for the `findIndex` result, -1 included |
| `Move.MoveBwdLayout` | src/pie.ts:139-145 | `None` exactly for an empty list; otherwise a list of the same length (what it is, is stated by `Move.FwdThenBwd`) |
| `Move.FwdThenBwd` | src/pie.ts:110-145 | moving forward and then backward by the same id gives back the original list, angles included, on a partition of two or more with distinct ids |
| `Move.MovedIds` | src/pie.ts:131-134 | moving a slice forward keeps the ids distinct |
| `Move.MoveBack` | src/pie.ts:110-137 | moving the slice now at `i` forward again restores both slices and their starts |
| `Scale.Advance` | src/pie.ts:160-173 | turning clockwise from `a` by `d` gives an angle |
| `Scale.ArcMidpoint` | src/pie.ts:160-165 | the midpoint `mod(start + len / 2)` is an angle; from a midpoint the same step gives the end `mod(mid + size / 2)` |
| `Scale.StartAround` | src/pie.ts:163 | the start `mod(mid - size / 2)` is an angle |
| `Scale.Midpoint` | src/pie.ts:160 | a slice's midpoint is an angle |
| `Scale.Placed` | src/pie.ts:163-174 | the placed list keeps every slice but its angle |
| `Scale.Rescaled` | src/pie.ts:173 | one rescaled length per other slice |
| `Scale.ScaleLayout` | src/pie.ts:147-176 | the list keeps its length and ids; only angles change |
| `Scale.ScaledStart` | src/pie.ts:160-163 | the scaled slice starts half the new size before its old midpoint |
| `Scale.ScaleKeepsMidpoint` | src/pie.ts:160-165 | the scaled slice keeps its old midpoint |
| `Scale.AdvanceTwice` | src/pie.ts:171-173 | turning by `d` and then by `e` is turning by `d + e` |
| `Scale.MidpointOfCentred` | src/pie.ts:163-165 | an arc centred on `mid` has `mid` as its midpoint |
| `Scale.EndAfterStart` | src/pie.ts:163-165 | the end of an arc centred on `mid` is its start advanced by its length |
| `Scale.ScaleArcLengths` | src/pie.ts:147-176 | scaling slice `i` of a partition of two or more to a size in (0, 2π) keeps a partition, gives `i` exactly `size` and every other slice its old length times (2π − size)/(2π − old length) |
| `Scale.ScaleIsPlaced` | src/pie.ts:160-174 | the scaled list places slice `i` centred on its old midpoint and the others from its end by the rescaled lengths |
| `Scale.RescaledAt` | src/pie.ts:173 | the rescaled length of every other slice is its old length times (2π − size)/(2π − old length) |
| `Scale.PlacedShares` | src/pie.ts:163-174 | placing with those rescaled lengths gives a partition in which `i` spans `size` and every other slice its rescaled length |
| `Scale.PlacedStart` | src/pie.ts:169-174 | the `m`-th slice after `i` starts at the end plus the first `m` steps, and the walk closes at the start of `i` |
| `Scale.CentredOn` | src/pie.ts:160-165 | the arc of an angle's own length centred on its midpoint starts at that angle |
| `Scale.RescaledShares` | src/pie.ts:157-173 | the rescaled lengths are positive, at most 2π, and fill what the new size leaves |
| `Scale.PlacedArcLengths` | src/pie.ts:169-174 | placing the others after the end with lengths that fill the rest gives a partition with `size` at `i` and each step at its slice |
| `Scale.ScaleToSameLength` | src/pie.ts:147-176 | scaling a slice to the length it already has changes nothing |
| `Scale.CentredOnOwnMidpoint` | src/pie.ts:160-165 | the arc of a slice's own length centred on its midpoint starts and ends where the slice does |
| `Scale.UnchangedShares` | src/pie.ts:173 | rescaling to the old length keeps every other length |
| `Scale.SameAngles` | src/pie.ts:163-171 | two lists that differ only in angles, with equal angles, are equal |
| `Rebuild.PushSqueezed` | src/pie.ts:58-72 | the insertion loop builds, in order, each old slice at the running start, which grows by its percentage of the rest |
| `Rebuild.PushStretched` | src/pie.ts:90-106 | the removal loop builds the survivors cyclically from `ix`, each at the running start, which grows by its stretched length and is reduced with `mod` |
| `Rebuild.PushStretchedStep` | src/pie.ts:92-106 | one turn of the removal loop keeps its invariant |
| `Rebuild.InsertedIs` | src/pie.ts:34-75 | the list the insertion builds from its computed values is `InsertLayout` with the old lengths |
| `Rebuild.RemovedIs` | src/pie.ts:77-108 | the list the removal builds from its computed values is `RemoveLayout` |
| `PieModel.NewSliceShare` | src/pie.ts:40-43 | when the old lengths make a full turn the new slice gets 2π/(n + 1), strictly between 0 and 2π |
| `PieModel.ShareOfOneMore` | src/pie.ts:41 | (1/n)/(1 + 1/n) = 1/(n + 1) |
| `PieModel.Pie.constructor` | src/pie.ts:18-21 | the pie holds the given list; it is valid exactly when the ids are distinct and the angles partition the circle |
| `PieModel.Pie.SliceArcLengths` | src/pie.ts:23-32 | entry `p` is the clockwise length to the cyclic successor; on a valid pie the lengths make one full turn |
| `PieModel.Pie.AddSlice` | src/pie.ts:34-75 | on a non-empty pie the list becomes `InsertLayout` with the new slice at 2π/(n + 1); the pie stays valid |
| `PieModel.Pie.RemoveSlice` | src/pie.ts:77-108 | for a present id the list becomes `RemoveLayout` at its index; a missing id throws before any change (`ok` false); the pie stays valid |
| `PieModel.Pie.MoveSliceFwd` | src/pie.ts:110-137 | for a present id the list becomes `MoveFwdLayout` at its index; a missing id throws before any change; the pie stays valid |
| `PieModel.Pie.MoveSliceBwd` | src/pie.ts:139-145 | on a non-empty pie the list becomes `MoveBwdLayout` of the id, even for a missing id; the pie stays valid |
| `PieModel.Pie.ScaleSlice` | src/pie.ts:147-176 | for a present id the list becomes `ScaleLayout` at its index; a missing id throws before any change; the pie stays valid when the size is in (0, 2π) or the pie has at most one slice |
| `PieModel.Pie.ScaleAt` | src/pie.ts:155-174 | once the index and lengths are known, the angles become `ScaleLayout` |
| `PieModel.Pie.PlaceRest` | src/pie.ts:169-174 | the loop moves the slices after `i` to `Placed` positions, `i` keeping its angle |
| `PieModel.PlaceStep` | src/pie.ts:169-174 | one turn of the loop places the next slice |
| `PieModel.ScaledIs` | src/pie.ts:147-176 | the list the loop leaves from its computed values is `ScaleLayout` |
| `PieModel.ScaleLayoutIs` | src/pie.ts:160-174 | the placing the loop does with the rescaled lengths is `ScaleLayout` |
| `PieModel.PlacedPointwise` | src/pie.ts:169-174 | a list placed slice by slice up to the end is `Placed` |
| `PieModel.RescaledIs` | src/pie.ts:155-173 | the lengths the source computes from `ogRestLen` and `restLen` are `Rescaled` |
| `PieModel.ScaleKeepsValid` | src/pie.ts:147-176 | scaling keeps the ids and, when the size leaves room for the others, the partition |
| `PieModel.SingleSliceIsPartition` | src/pie.ts:23-32 | a single slice covers the whole circle from any start |
| `WheelModel.AddToSingleWedge` | src/wheel.ts:34-72 | adding to a single wedge gives the new wedge a full turn: both wedges start at π, each spans 2π, and the partition is lost |
| `WheelModel.Wheel.constructor` | src/wheel.ts:19-21 | the wheel holds the given list; it is valid exactly when the ids are distinct and the angles partition the circle |
| `WheelModel.Wheel.WedgeArcLengths` | src/wheel.ts:23-32 | entry `p` is the clockwise length to the cyclic successor; on a valid wheel they make one full turn |
| `WheelModel.Wheel.AddWedge` | src/wheel.ts:34-72 | on a non-empty wheel the list becomes `InsertLayout` with the new wedge at 2π/n; the ids stay distinct, and the wheel stays valid unless it had one wedge |
| `WheelModel.Wheel.RemoveWedge` | src/wheel.ts:74-105 | for a present id the list becomes `RemoveLayout` at its index; a missing id throws before any change; the wheel stays valid |
| `WheelModel.Wheel.MoveWedgeFwd` | src/wheel.ts:107-134 | for a present id the list becomes `MoveFwdLayout` at its index; a missing id throws before any change; the wheel stays valid |
| `WheelModel.Wheel.MoveWedgeBwd` | src/wheel.ts:136-142 | on a non-empty wheel the list becomes `MoveBwdLayout` of the id; the wheel stays valid |
| `Spokes.SpokeArcLength` | src/index.ts:126-130 | between normalised starts the length lies in [0, 2π); 0 for equal starts, otherwise the util `arcLength` |
| `Spokes.SpokeArcLengths` | src/index.ts:121-140 | entry `i` is the spoke length from start `i` to start `(i + 1) % n` |
| `Spokes.PartitionSpokeLengths` | src/index.ts:121-140 | on a partition of two or more spokes the spoke lengths are the util lengths and add up to 2π, so the source's assertion holds |
| `Spokes.SingleSpokeLength` | src/index.ts:121-140 | a single spoke has length 0, so the sum the source asserts to be 2π is 0 |
| `Spokes.SpokeAngleBetween` | src/index.ts:36-46 | the midpoint is an angle; for equal starts it is the start; for distinct normalised starts it is the util midpoint |
| `Spokes.CreateWheel` | src/index.ts:90-115 | three placeholder spokes with ids 1, 2 and 3 |
| `Spokes.PlaceholderWheel` | src/index.ts:90-115 | the placeholder spokes span 0.55, 0.2 and 0.25 of the circle and form a partition |
| `Spokes.SpokeInsertLayout` | src/index.ts:145-185 | the new spoke comes first, then the old spokes in order with their ids, names and colours |
| `Spokes.AddSpoke` | src/index.ts:145-185 | a non-empty wheel gives `SpokeInsertLayout`; the input list is not changed |
| `Spokes.SpokeInsertIsInsertLayout` | src/index.ts:145-185 | on a partition of two or more spokes `addSpoke` is the wheel's insertion with length 2π/n |
| `Spokes.AddSpokeKeepsPartition` | src/index.ts:145-185 | adding a fresh spoke to a partition of two or more keeps a partition with distinct ids, the new spoke spanning 2π/n |
| `Spokes.AddToSingleSpoke` | src/index.ts:145-185 | adding to a single spoke gives the new spoke length 0 and start 2π, outside [0, 2π) |
| `Spokes.SpokeRemoveLayout` | src/index.ts:187-221 | one spoke fewer, the survivors cyclically from the successor with their ids, the first at the removed spoke's start |
| `Spokes.RemoveSpoke` | src/index.ts:187-221 | exactly when the id is there and its spoke is not a full turn, or is one of two, the result is `SpokeRemoveLayout`; the input list is not changed |
| `Spokes.RemoveAfterAddToSingle` | src/index.ts:145-221 | after adding to a single spoke, the old spoke spans the full turn, and removing it leaves the new spoke alone at angle 0 |
| `Spokes.PushWalked` | src/index.ts:202-216 | the loop builds the survivors at the angles the `%` walk reaches |
| `Spokes.RemWalkIsMod` | src/index.ts:214-215 | on a normalised start and non-negative steps `%` walks like `mod` |
| `Spokes.SpokeRemoveIsRemoveLayout` | src/index.ts:187-221 | on a partition `removeSpoke` gives the same survivors at the same angles as the wheel's removal |
| `Spokes.RemoveSpokeKeepsPartition` | src/index.ts:187-221 | removing from a partition of two or more with distinct ids gives a partition with distinct ids, without the removed id |
| `Spokes.RemCycledIsCycled` | src/index.ts:202-216 | with non-negative steps from a normalised start the `%` walk gives the same list as the `mod` walk |
| `Spokes.SharesOfRemainder` | src/index.ts:196-214 | stepping by percentages of the remainder times 2π is stepping by the stretched lengths |
| `Spokes.AnyHitIsSome` | src/index.ts:669-676 | some spoke is hit exactly when `AnyHit` holds |
| `Spokes.LastHit` | src/index.ts:669-676 | with no spoke hit the selection stays as it was |
| `Spokes.LastHitIsLast` | src/index.ts:669-676 | when some spoke is hit the selection is a hit spoke and no later spoke is hit |
| `Spokes.HitsStep` | src/index.ts:669-676 | one more spoke updates the selection and the hit flag as the loop does |
| `Spokes.WheelSketch.constructor` | src/index.ts:604-619 | the add button active, the remove button not, nothing selected |
| `Spokes.WheelSketch.SelectAt` | src/index.ts:669-681 | each spoke is selected exactly when it contains the pointer; the selection becomes the last such spoke and stays when none does; a hit inside the wheel turns add off and remove on; a click outside the wheel turns add on and remove off |
| `UiGeometry.ViewArcOfDistinct` | src/UI/uipie.ts:245-259 | with distinct ids a view is built with its own slice's arc |
| `UiGeometry.ViewArcsTile` | src/UI/wheel.ts:172-193 | the views of a partition with distinct ids each span their slice's arc length, and together they make one turn |
| `UiGeometry.LastIndexOf` | src/UI/uipie.ts:412-421 | the last position holding `x`, or none exactly when no entry is `x` |
| `UiGeometry.LastContaining` | src/UI/wheel.ts:284-295 | the last sector containing the pointer, or none exactly when none contains it |
| `UiGeometry.PickLast` | src/UI/uipie.ts:519-532 | the loop returns `LastContaining` |
| `UiGeometry.Floating` | src/UI/uipie.ts:552-557 | the floating arc has normalised ends |
| `UiGeometry.FloatingShape` | src/UI/uipie.ts:552-557 | the floating arc keeps the slice's arc length and has its midpoint at `theta` mod 2π |
| `UiGeometry.FloatingKeepsShape` | src/UI/uipie.ts:552-557 | the arc of length `len` centred on `theta` has length `len` and midpoint `theta` mod 2π |
| `UiGeometry.FloatingAtGrab` | src/UI/uipie.ts:528-557 | at the pointer angle of the press the floating arc is the slice's own arc |
| `UiGeometry.LeadingEdgeAhead` | src/UI/uipie.ts:582 | the leading edge lies half the arc's length from the centre angle, ahead in the drag direction |
| `UiGeometry.Neighbour` | src/UI/uipie.ts:577-579 | the successor going clockwise, the predecessor going counter-clockwise |
| `UiGeometry.NeighbourIsMod` | src/UI/uipie.ts:579 | the neighbour is the source's `mod(curr_i + sign, l)` |
| `UIPieModel.Presses` | src/UI/uipie.ts:202-205 | every view takes the press in place: an inactive view ignores it; an active one is selected exactly when it contains the pointer, and a press on its handle starts a scale drag there |
| `UIPieModel.LastScaling` | src/UI/uipie.ts:507-511 | the last view in a scale drag, or none exactly when none is |
| `UIPieModel.PressAll` | src/UI/uipie.ts:502-512 | every view takes the press; the result is the last view in a scale drag |
| `UIPieModel.ScaleFactor` | src/UI/uipie.ts:343-355 | a factor exactly when the view is in a scale drag with a start point off the centre; factor times start distance is the current distance |
| `UIPieModel.ScaleDrag` | src/UI/uipie.ts:535-542 | once the target is known every view's scale flag is whether it is the target; a view that reports becomes the target |
| `UIPieModel.ScaleDragOnlyFlags` | src/UI/uipie.ts:535-542 | the scale pass changes nothing in a view but its scale flag |
| `UIPieModel.ScaleDragReports` | src/UI/uipie.ts:535-542 | the reports are exactly those of the views as the pass leaves them |
| `UIPieModel.ScaleTargetSticks` | src/UI/uipie.ts:535-542 | a known target stays the target and only views with its id report |
| `UIPieModel.ScaleLoop` | src/UI/uipie.ts:535-542 | the loop computes `ScaleDrag` |
| `UIPieModel.ReportedSize` | src/UI/uipie.ts:423-426 | a reported size is the start length times the distance ratio |
| `UIPieModel.CorrectedPerp` | src/UI/uipie.ts:590-597 | the corrected perpendicular lies at or past the floating edge in the drag direction, within a turn |
| `UIPieModel.PerpendicularIsQuarterTurn` | src/UI/uipie.ts:586-588 | the perpendicular lies a quarter turn after the midpoint going clockwise and before it otherwise |
| `UIPieModel.ReorderDiff` | src/UI/uipie.ts:582-599 | the distance of the floating edge from the corrected perpendicular is non-negative and below a turn |
| `UIPieModel.ReorderSignals` | src/UI/uipie.ts:571-602 | a move reports `onSliceDrag(id, dir)` exactly when the heading is non-zero and the edge is within a quarter turn |
| `UIPieModel.ReorderNeighbour` | src/UI/uipie.ts:577-602 | with distinct ids the neighbour is the successor clockwise and the predecessor counter-clockwise, and the signal fires exactly when the edge is within a quarter turn of it |
| `UIPieModel.Selections` | src/UI/uipie.ts:478-483 | one `onSelect` per selected view, in order |
| `UIPieModel.ClickedAll` | src/UI/uipie.ts:318-323 | every view takes the click, which ends its scale drag and clears its start point |
| `UIPieModel.ClickAll` | src/UI/uipie.ts:477-483 | every view takes the click; the selected ones are reported |
| `UIPieModel.StoppedResetsHeld` | src/UI/uipie.ts:617-618 | stopping a drag snaps exactly one view back to its original arc, with distinct ids the held view, and no other view changes |
| `UIPieModel.BuildViews` | src/UI/uipie.ts:411-435 | one fresh view per slice in order, and the position of the last one with the held view's id |
| `UIPieModel.UIPie.constructor` | src/UI/uipie.ts:382-387 | no views, no drag and no scale session |
| `UIPieModel.UIPie.Refresh` | src/UI/uipie.ts:405-436 | one view per slice; the held view's id takes over its floating arc and becomes held; the scale target resumes its scale drag; a drag whose held view is gone throws after clearing the list |
| `UIPieModel.UIPie.StartDrag` | src/UI/uipie.ts:519-532 | the last view containing the press is held, the press is the last position, and the offset is its midpoint less the pointer angle |
| `UIPieModel.UIPie.MousePressed` | src/UI/uipie.ts:501-517 | every view takes the press; with views the pie enters a scale session at the press, targeting the last view in a scale drag with its arc length; a press inside the active pie starts a drag |
| `UIPieModel.UIPie.MouseDragged` | src/UI/uipie.ts:534-606 | the scale pass runs in a scale session; a held view floats on the offset plus the pointer angle and the reorder signal follows `ReorderSignals` |
| `UIPieModel.UIPie.StopDrag` | src/UI/uipie.ts:608-621 | the scale session ends; a drag with a held view ends, that view snaps back and nothing is held |
| `UIPieModel.UIPie.MouseClicked` | src/UI/uipie.ts:468-490 | the scale session ends; each selected view is reported and `onRelease` follows exactly when none is; then the drag stops |
| `UIWheelModel.DragIndex` | src/UI/wheel.ts:343-344 | the first wedge with the dragged id, or -1 |
| `UIWheelModel.BuildWedges` | src/UI/wheel.ts:242-251 | one fresh view per wedge, in order |
| `UIWheelModel.MarkAll` | src/UI/wheel.ts:284-308 | every wedge's flag is whether it contains the pointer, nothing else changes, and the result is the last containing wedge |
| `UIWheelModel.GrabAll` | src/UI/wheel.ts:310-326 | every wedge under the press is deactivated; the last is the one recorded |
| `UIWheelModel.ReleaseAfterGrab` | src/UI/wheel.ts:310-385 | with distinct ids the grabbed wedge is inactive and is the one that the later drag and stop find by its id; every other wedge is active exactly when it was and does not contain the press |
| `UIWheelModel.NearNeighbour` | src/UI/wheel.ts:328-376 | with distinct ids the neighbour is the successor clockwise and the predecessor otherwise, and the callback fires exactly when the edge is within 0.1 of its midpoint |
| `UIWheelModel.UIWheel.constructor` | src/UI/wheel.ts:235-240 | no wedges and no drag |
| `UIWheelModel.UIWheel.Refresh` | src/UI/wheel.ts:242-251 | one fresh view per wedge; the drag session is kept |
| `UIWheelModel.UIWheel.Select` | src/UI/wheel.ts:284-295 | each wedge is selected exactly when it contains the pointer; the result is the last such wedge |
| `UIWheelModel.UIWheel.Highlight` | src/UI/wheel.ts:297-308 | each wedge is highlighted exactly when it contains the pointer; the result is the last such wedge |
| `UIWheelModel.UIWheel.StartDrag` | src/UI/wheel.ts:310-326 | dragging from the press; every wedge under it deactivated; the last one's id, arc and offset recorded |
| `UIWheelModel.UIWheel.Drag` | src/UI/wheel.ts:328-376 | nothing unless dragging and moved; the floating copy is centred on offset plus angle, and the callback fires exactly when the edge is near the neighbour's midpoint |
| `UIWheelModel.UIWheel.StopDrag` | src/UI/wheel.ts:378-385 | the drag ends and the first wedge with the id is active again |
| `SizeChart.Piece.constructor` | src/sketch.js:198-295 | a slice with the given uuid, angle and size, not dragging, with no links |
| `SizeChart.Piece.StartDrag` | src/sketch.js:219-224 | a size drag starts, remembering the press distance and the size |
| `SizeChart.Piece.StopDrag` | src/sketch.js:226-228 | the drag ends |
| `SizeChart.Piece.Drag` | src/sketch.js:230-235 | the size becomes the start size scaled by the distance over the start distance |
| `SizeChart.TotalIsSum` | src/sketch.js:313-317 | `total_size` is the sum of the sizes |
| `SizeChart.TotalPositive` | src/sketch.js:313-317 | positive sizes have a positive total |
| `SizeChart.FollowersSum` | src/sketch.js:353-367 | the slices after one of them hold the rest of the total |
| `SizeChart.LaidOutContiguous` | src/sketch.js:330-368 | in a layout each slice after the selected one starts where the one before it stops |
| `SizeChart.StopIsAngle` | src/sketch.js:346 | a centred slice stops at an angle |
| `SizeChart.LaidOutCloses` | src/sketch.js:330-368 | with positive sizes adding up to one the last slice stops where the selected one starts |
| `SizeChart.SizeWithinOne` | src/sketch.js:323-328 | with positive sizes summing to 1 each size is at most 1 |
| `SizeChart.NormalizedSum` | src/sketch.js:323-328 | dividing every size by a non-zero total leaves sizes that add up to one |
| `SizeChart.PositiveQuotient` | src/sketch.js:323-328 | positive sizes divided by a positive total stay positive |
| `SizeChart.Centre` | src/sketch.js:341-346 | the selected slice is centred on its angle, 2π·size long, its start normalised |
| `SizeChart.LayFollowers` | src/sketch.js:349-367 | the loop follows `next` round the ring, laying each slice from where the previous one stopped |
| `SizeChart.LayNext` | src/sketch.js:353-367 | one pass lays the next follower |
| `SizeChart.LayOne` | src/sketch.js:356-365 | one slice laid from `stop` with length 2π·size |
| `SizeChart.Squeeze` | src/sketch.js:385-395 | the old slices are laid in order into the rest of the circle, each size divided by `total + avg` |
| `SizeChart.SqueezeOne` | src/sketch.js:386-394 | one slice laid and its size divided |
| `SizeChart.NewShare` | src/sketch.js:371-373 | on sizes adding up to one the new share is 1/(n + 1) |
| `SizeChart.SqueezeFills` | src/sketch.js:381-395 | the squeeze fills the rest of the circle |
| `SizeChart.AddedSizesSum` | src/sketch.js:373-394 | after dividing by `total + avg` the old sizes and the new share add up to one |
| `SizeChart.AddedRing` | src/sketch.js:407-412 | appending a slice linked between the last and the first keeps a ring |
| `SizeChart.SqueezeCloses` | src/sketch.js:377-403 | the squeezed slices end where the new slice starts, closing the circle |
| `SizeChart.AddedDistinct` | src/sketch.js:400 | a new uuid keeps the uuids distinct |
| `SizeChart.AddedTotal` | src/sketch.js:373-404 | after the squeeze the sizes add up to one |
| `SizeChart.Append` | src/sketch.js:397-412 | a new slice linked between the last and the first is appended, keeping a ring |
| `SizeChart.Without` | src/sketch.js:420-427 | the slices without the uuid, in order |
| `SizeChart.WithoutIs` | src/sketch.js:420-427 | with distinct uuids the filter cuts out the one slice with the uuid and keeps the rest in order |
| `SizeChart.Unlink` | src/sketch.js:420-427 | the filter returns the slices without the uuid; the predecessor and successor are linked to each other and no other link changes |
| `SizeChart.FilterStep` | src/sketch.js:420-427 | one call of the filter callback |
| `SizeChart.Bridge` | src/sketch.js:423-424 | predecessor and successor point at each other |
| `SizeChart.JoinedRing` | src/sketch.js:420-427 | taking a slice out of a joined ring leaves a ring of the others |
| `SizeChart.RemovedDistinct` | src/sketch.js:420-427 | leaving one slice out keeps the other uuids distinct |
| `SizeChart.RemoveFrom` | src/sketch.js:420-430 | the slice with the uuid is unlinked and left out, the rest stay a ring in order; an absent uuid leaves the list |
| `SizeChart.RemoveFromRing` | src/sketch.js:420-427 | from a ring of two or more, the slices without the uuid, still a ring of positive sizes |
| `SizeChart.RemovedRing` | src/sketch.js:420-427 | what the filter leaves is `Without` and is a ring |
| `SizeChart.FilteredAll` | src/sketch.js:420-427 | after the filter the rest is the list without the slice, whose neighbours are joined; an absent uuid leaves the ring as it was |
| `SizeChart.DivideSizes` | src/sketch.js:323-328 | each size divided by the sum |
| `SizeChart.DivideOne` | src/sketch.js:325-327 | one size divided by the sum |
| `SizeChart.LayOut` | src/sketch.js:334-367 | the selected slice centred and every follower laid after it round the ring, the selected slice keeping its angle |
| `SizeChart.LaidOutCentre` | src/sketch.js:341-346 | in a layout the selected slice starts at an angle and stops 2π·size later, reduced with `%` |
| `SizeChart.AddGeometry` | src/sketch.js:371-383 | the average, the divisor, the share 1/(n + 1), the new arc centred on 0, and the rest of the circle |
| `SizeChart.AddShares` | src/sketch.js:371-373 | `avg` is the average and `norm` one part in n + 1 |
| `SizeChart.AddTo` | src/sketch.js:370-417 | the old slices squeezed and a new one linked after the last, all in one ring |
| `SizeChart.LinkAndSqueeze` | src/sketch.js:385-412 | the new slice linked into the ring and the old ones squeezed before it |
| `SizeChart.SqueezeBeside` | src/sketch.js:385-395 | the old slices squeezed while the new slice and the ring stay as they were |
| `SizeChart.Chart.constructor` | src/sketch.js:538-544 | one slice of size 1 over 0..2π whose `next` and `last` are itself |
| `SizeChart.Chart.TotalSize` | src/sketch.js:313-317 | the sum of the sizes, positive when every size is |
| `SizeChart.Chart.NormalizeSizes` | src/sketch.js:323-328 | sizes keep their ratios, stay positive and add up to one |
| `SizeChart.Chart.CalcSizes` | src/sketch.js:330-368 | sizes normalised, the first slice selected when none is, and the layout rebuilt round the selected slice |
| `SizeChart.Chart.Relayout` | src/sketch.js:334-367 | the first slice selected when none is, and the layout rebuilt |
| `SizeChart.Chart.AddSlice` | src/sketch.js:370-417 | the new slice pushed, the sizes adding up to one, the selection unchanged |
| `SizeChart.Chart.Unhook` | src/sketch.js:419-430 | the slice unlinked and dropped, the others in order, the selection cleared |
| `SizeChart.Chart.Adopt` | src/sketch.js:429-430 | `selected_slice = null; slices = remaining` |
| `SizeChart.Chart.RemoveSlice` | src/sketch.js:419-432 | the slice dropped, the selection cleared, then `calc_sizes`: the first remaining slice selected and the layout rebuilt |
| `EqualChart.Slice.constructor` | sketch.js:137-150 | a slice of size 1 with the given uuid, not hovered or selected |
| `EqualChart.Sizes` | sketch.js:173 | one size per slice, in order |
| `EqualChart.Arcs` | sketch.js:173 | each arc is 2π·size/total |
| `EqualChart.PlaceNext` | sketch.js:172-176 | one pass places slice `i` from where the ones before it end |
| `EqualChart.LaidOutFrom` | sketch.js:168-178 | slices placed at the prefix sums of the arcs are laid out |
| `EqualChart.ArcsWhole` | sketch.js:168-178 | sizes against their own sum have arcs adding up to 2π |
| `EqualChart.ArcsPositive` | sketch.js:173 | positive sizes of a positive total have positive arcs |
| `EqualChart.LaidOutContiguous` | sketch.js:168-178 | the first slice starts at 0, each starts where the one before stops, each spans 2π·size/total |
| `EqualChart.LaidOutCloses` | sketch.js:168-178 | when the total is the sum of the sizes the last slice stops at 2π |
| `EqualChart.HitUnique` | sketch.js:271-273 | with positive sizes no angle is over two slices |
| `EqualChart.HitSome` | sketch.js:271-273 | every angle in (0, 2π] is over some slice |
| `EqualChart.HitNoneAtZero` | sketch.js:271-273 | the angle 0 is over no slice |
| `EqualChart.EqualSpans` | sketch.js:180-190 | sizes of 1 summing to the total make every slice span 2π/n |
| `EqualChart.EvenLayout` | sketch.js:180-190 | unit slices laid out against their sum each span 2π/n, the last stopping at 2π |
| `EqualChart.SumOfOnes` | sketch.js:183-188 | sizes of 1 add up to their count, so `total_size` counts the slices |
| `EqualChart.ArcsShare` | sketch.js:173 | the arcs add up to 2π times the sizes' share of the total |
| `EqualChart.DistinctPush` | sketch.js:185 | pushing a slice not yet in the chart keeps the slices distinct |
| `EqualChart.Keep` | sketch.js:193-199 | the kept slices are never more than before; which ones survive is stated by `EqualChart.KeepMembers` |
| `EqualChart.KeepMembers` | sketch.js:193-199 | a slice survives exactly when it was there and its uuid is not `id` |
| `EqualChart.KeepDistinct` | sketch.js:193-199 | dropping slices keeps the others distinct |
| `EqualChart.KeepSum` | sketch.js:193-199 | kept and dropped sizes add up to all the sizes |
| `EqualChart.KeepTotal` | sketch.js:193-200 | what `remove_slice` leaves in `total_size` is the sum of the kept sizes |
| `EqualChart.KeepUnits` | sketch.js:193-199 | the kept slices still have size 1 |
| `EqualChart.KeepWithin` | sketch.js:193-199 | every kept slice was in the chart |
| `EqualChart.LastHovered` | sketch.js:290-297 | the last hovered index, or -1 exactly when none is hovered |
| `EqualChart.Selection` | sketch.js:290-297 | a selection is a hovered slice of a chart of two or more; none exactly when no slice is hovered or there is at most one |
| `EqualChart.Picked` | sketch.js:290-297 | the selection so far is a hovered slice among those looked at |
| `EqualChart.LastHoveredStep` | sketch.js:291-296 | the last hovered index looks one slice further |
| `EqualChart.PointerAngle` | sketch.js:266-269 | the pointer angle moved into [0, 2π) |
| `EqualChart.Chart.constructor` | sketch.js:152-166 | no slices, total 0, no selection, not hovering |
| `EqualChart.Chart.CalcSizes` | sketch.js:168-178 | the slices are laid out from angle 0 in order, each spanning 2π·size/total; sizes unchanged |
| `EqualChart.Chart.AddSlice` | sketch.js:180-190 | total grows by 1, a new slice of size 1 is pushed, every slice spans 2π/n and the last stops at 2π |
| `EqualChart.Chart.Grow` | sketch.js:183-189 | the new slice counted, pushed and laid out |
| `EqualChart.Chart.Relayout` | sketch.js:189 | unit slices laid out: each spans 2π/n, the last stops at 2π, the chart valid |
| `EqualChart.Chart.Settled` | sketch.js:168-178 | a laid-out chart of unit slices is valid and evenly divided |
| `EqualChart.Chart.Push` | sketch.js:183-188 | the slice appended and the total grown by 1, still the sum of the sizes |
| `EqualChart.Chart.RemoveSlice` | sketch.js:192-202 | the slices become `Keep` of the old ones, the total drops by the dropped sizes, the layout is rebuilt |
| `EqualChart.Chart.Shrink` | sketch.js:200-201 | what the filter kept becomes the slices, laid out |
| `EqualChart.Chart.Filter` | sketch.js:193-199 | returns `Keep` and takes the dropped sizes off the total |
| `EqualChart.Chart.Keeping` | sketch.js:200 | the kept slices are distinct, of size 1 and add up to the total |
| `EqualChart.Chart.MouseMoved` | sketch.js:250-274 | hovering is whether the pointer is within the radius, and each slice is hovered exactly when the chart is and the angle is in (start, stop] |
| `EqualChart.Chart.Select` | sketch.js:290-297 | each slice is selected exactly when hovered in a chart of two or more; the selection is `Selection` |
| `EqualChart.Chart.SelectNext` | sketch.js:291-296 | one turn of the selection loop |
| `EqualChart.Chart.Reselect` | sketch.js:290-297 | the selection loop keeps the chart valid |
| `EqualChart.Chart.Click` | sketch.js:276-299 | throws exactly when remove is clicked with no selection; the chart stays valid; the buttons act as `Edited`; without a throw the selection is made again; every slice afterwards was there before or is new; a throw from the remove button alone leaves the array, the total and every slice as they were |
| `EqualChart.Chart.Edit` | sketch.js:277-284 | the add button then the remove button, throwing exactly when remove has no selection; a throw from the remove button alone changes nothing |
| `EqualChart.Chart.AddStep` | sketch.js:277-279 | a click on add appends a slice with the new uuid |
| `EqualChart.Chart.RemoveStep` | sketch.js:281-284 | a click on remove drops the selected slice's uuid, or throws with no selection before changing anything |

## Left out

- Drawing, colours, labels, `p5` set-up, window resizing and the add and remove buttons' own drawing and hit tests are not modelled. Whether a button was clicked is a parameter.
- `console.log` and `console.assert` produce no state and are not modelled. The assertion of `spokeArcLengths` is stated as a lemma instead (`Spokes.PartitionSpokeLengths`, `Spokes.SingleSpokeLength`).
- Numbers are exact reals, not doubles. `TWO_PI` is the exact value of the double `2 * Math.PI`, so rounding, `NaN` and `Infinity` are not modelled.
- `atan2` and `sqrt` are not modelled. The pointer comes as a reading that carries its angle and its distance from the centre.
- `crypto.randomUUID` is not modelled. A new slice's id is a parameter, and the callers must pass one that is not in use.
- `PieModel.Pie.AddSlice`: on an empty pie the source averages no lengths, gets `NaN` and pushes one slice with a `NaN` angle. The model cannot represent `NaN`, so it reports `ok == false` and keeps the list empty. The same holds for `WheelModel.Wheel.AddWedge` and `Spokes.AddSpoke` (which gives `None`).
- `WheelModel.Wheel.AddWedge`: the empty-wheel case is the `NaN` case above. Adding to a wheel of one wedge is modelled, but it gives two wedges that both start at π and each span the full turn (`WheelModel.AddToSingleWedge`). That wheel is not `Valid()`, which `RemoveWedge`, `MoveWedgeFwd` and `MoveWedgeBwd` require, so what the source does with it afterwards is outside the model. For example, removing the new wedge gives back a one-wedge wheel at π in the source.
- `Spokes.AddSpoke`: the empty-wheel case is the `NaN` case above.
- `Spokes.RemoveSpoke`: a missing id makes the source throw reading `spokes[-1].angle` (src/index.ts:201); the model gives `None`. A spoke spanning the full turn among three or more makes the source divide by a zero remainder, and every survivor after the first gets a `NaN` angle; the model gives `None` there too. With two spokes the full-turn case is modelled: the survivor takes the removed start.
- `PieModel.Pie.RemoveSlice`, `PieModel.Pie.MoveSliceFwd` and `PieModel.Pie.ScaleSlice`: a missing id makes `findIndex` give -1. The source then throws a `TypeError` reading a property of `undefined`, before it assigns anything. The model reports that throw as `ok == false` and leaves the state as it was. The same holds for `WheelModel.Wheel.RemoveWedge` and `WheelModel.Wheel.MoveWedgeFwd`.
- `UIWheelModel.UIWheel.Drag`: a drag whose id no wedge has makes the source throw reading `wedges[-1]` (src/UI/wheel.ts:344). The model leaves the state unchanged and gives no signal.
- `UIWheelModel.UIWheel.StopDrag`: with no wedge carrying the dragged id, the source ends the drag and then throws reading `undefined.active` (src/UI/wheel.ts:382-384). The model ends the drag and changes no wedge.
- `UIPieModel.ScaleFactor`: a scale drag that started on the centre divides by a zero distance. The source reports `Infinity` or `NaN` (src/UI/uipie.ts:350-354). The model gives no factor, so nothing is reported.
- `SizeChart.Piece.Drag`: a size drag that started on the centre divides by a zero distance (src/sketch.js:231-234). The model keeps the size.
- `PieModel.Pie.ScaleSlice`: a size outside (0, 2π) on a pie of two or more slices, such as the size 0 that a scale drag through the centre reports (src/UI/uipie.ts:423-425), still gives `ScaleLayout`, but the slices then no longer partition the circle. The pie leaves `Valid()`, which every other `Pie` method requires, so what the source does with such a pie afterwards is outside the model.
- `SizeChart.Chart.Valid` requires every size to be positive. A drag with the pointer exactly on the centre sets a size to 0, and such a chart is outside the model.
- `SizeChart.Chart.RemoveSlice`: removing the last slice empties the list. The source's `calc_sizes` then throws reading `slices[0]`, which is `undefined`. The model requires two or more slices when the uuid is present.
- `SizeChart`: the `mousemove`, `click`, `mousedown` and `mouseup` listeners of src/sketch.js are not modelled, apart from the drag arithmetic of `Piece`.
- `SizeChart.Unlink`: covers only the filter callback of `remove_slice` and its relinking. The selection reset and the recomputation are stated by `SizeChart.Chart.RemoveSlice`, which calls it through `SizeChart.RemoveFrom`.
- `UIPieModel.ClickedAll`: `UISlice.mouseClicked` calls `super.mouseClicked` (src/UI/uipie.ts:199), which `UIElement` in src/UI/element.ts does not define. At run time that call throws a `TypeError` at the first view, so `UIPie.mouseClicked` (src/UI/uipie.ts:468-490) stops after its scale reset whenever there is a view: no `onSelect`, no `onRelease` and no `stopDrag`. The model instead takes the evident intent, that the call has no effect, and lets the click go on through every view. `UIPieModel.ClickAll` and `UIPieModel.UIPie.MouseClicked` rest on the same reading.
- `UIWheelModel.UIWheel.constructor`: the source leaves `wedges` undefined until the first `refresh` (src/UI/wheel.ts:235-240), so a `select`, `highlight` or press before it throws. The model starts with no wedge views, and such an event changes nothing.
- `UIPieModel.UIPie.constructor`: the source leaves `slices` undefined until the first `refresh` (src/UI/uipie.ts:382-387), so a press or drag before it throws. The model starts with no views, and such an event changes nothing.
- `UIPieModel.UIPie`: `mouseMoved` (src/UI/uipie.ts:492-499) only forwards to handle highlighting, which is drawing state, and is not modelled.
- `Spokes.WheelSketch.SelectAt`: the buttons' half of `mouseClicked` (src/index.ts:661-667) is not a method of the model. It calls `addSpoke` and `removeSpoke`, which `Spokes.AddSpoke` and `Spokes.RemoveSpoke` model. Highlighting in `mouseMoved` (src/index.ts:684-689) is left out as drawing state.
- `EqualChart.Chart.CalcSizes`: an array with slices and a total of 0 divides by zero. The model requires a nonzero total in that case, and every chart the listeners build has one.
- `EqualChart.Slice.constructor`: the source creates a slice without `start` and `stop`. The model sets both to 0, and `calc_sizes`, which runs straight after, overwrites them.
- `EqualChart.Chart.MouseMoved`: the add button's show and hide calls are left out.
- `EqualChart.Chart.Click`: the add button's show call is left out. `Edited` leaves open what a click on both buttons at once does to the array; `Click` still states that the chart stays valid and that every slice was there before or is new.
