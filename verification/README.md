# Motion vectors on a grid — Dafny model

`script.js` drives a one-page physics demonstration. The user places four
points (slots t1 to t4) on a position grid and types four times. Three
derived views then draw:

- the change in displacement between consecutive slots;
- the velocity over each interval;
- the acceleration between consecutive velocities.

This project models the logic underneath that page and proves properties of
it. The drawing itself is not modelled.

- **Geometry** (`geometry.dfy`): the map from grid points to canvas pixels
  (`gridToCanvas`) and back (`canvasToGrid`, whose `Math.round` is written
  as `(n + 10) / 20` with floor division). It also holds the
  grid-aligned origin row of the derived views (`derivativeCenterY`).
- **TimeOrder** (`time_order.dfy`): the ascending sort applied to the time
  array after each accepted edit. An ascending permutation is unique, so
  the model's insertion sort yields exactly what `Array.prototype.sort`
  with `(a, b) => a - b` yields.
- **Kinematics** (`kinematics.dfy`): delta displacement, velocity, the
  `velocities` list with mid-times, and the accelerations between
  consecutive entries. Alongside these it has a reference definition per
  triple of slots, and physics facts:
  - uniformly accelerated motion is recovered exactly;
  - with even spacing, acceleration is the second difference.
- **Editor** (`editor.dfy`): the page state (selected slot, positions,
  times, drag flag and drag target), the pointer, slot-button and
  time-field handlers as pure transitions, the first-hit test, and the
  invariant every reachable state satisfies.
- **Optional** (`optional.dfy`): the `Option` type used for slots that may
  be empty.

Modelling decisions:

- Stored positions are integer grid points. The page only ever stores
  `canvasToGrid` results or its integer defaults.
- Kinematics works on `real` vectors; `Editor.Samples` converts.
- Pixels are integers.
- The three canvas sizes come from the HTML page, not from `script.js`, so
  they are a `Config` parameter.
- A time edit arrives as the already-parsed value: `None` stands for
  `NaN`.
- The delta displacement takes no time argument at all, so it cannot
  depend on the times.

## Model

| member | source | states |
|---|---|---|
| Geometry.CenterX | script.js:29 | the y axis sits on the middle column: twice the column is the width, or one less for an odd width |
| Geometry.CenterY | script.js:30 | the x axis of the position view sits on the middle row, in the same sense |
| Geometry.GridToCanvas | script.js:327-332 | a grid point lands on a grid line on both axes, right of the y axis exactly when x > 0 and above the x axis exactly when y > 0 (y is inverted) |
| Geometry.CanvasToGrid | script.js:335-340 | the grid point a pixel snaps to is drawn within half a cell of that pixel on each axis, ties going right on x and up on y |
| Geometry.DerivativeCenterY | script.js:32 | the derived views' origin row is a non-negative multiple of 20, at or above the middle row and less than one cell above it |
| Geometry.RoundToGrid | script.js:337-338 | the result is within half a unit of n/20, ties going up, as `Math.round` does |
| Geometry.RoundMultiple | script.js:337-338 | an exact multiple of 20 pixels rounds to exactly that many cells |
| Geometry.CanvasToGridInvertsGridToCanvas | script.js:327-340 | canvasToGrid undoes gridToCanvas on every integer grid point, for any origin row |
| Geometry.SnapIsNearest | script.js:335-340 | no grid point is drawn closer to the pixel, on either axis, than the one it snaps to |
| TimeOrder.Insert | script.js:702 | inserting into an ascending sequence keeps it ascending and adds exactly one copy of the value |
| TimeOrder.SortAscending | script.js:702 | the sorted times are ascending and a permutation of the input |
| TimeOrder.AscendingPermutationUnique | script.js:702 | two ascending sequences with the same elements are equal, so any correct ascending sort gives the page's result |
| TimeOrder.SortKeepsAscending | script.js:702 | sorting already ascending times changes nothing |
| TimeOrder.SortedElementsComeFromInput | script.js:702 | every sorted value was one of the input values |
| TimeOrder.SortIsAscendingPermutation | script.js:702 | the sort equals any ascending rearrangement of its input |
| TimeOrder.SortAfterRaisingFirst | script.js:698-702 | raising the first value past the last moves it to the end and shifts the others down, in order |
| Kinematics.DeltaDisplacement | script.js:430-440 | the delta over pair i is present exactly when both slots are, and added to slot i it gives slot i+1 |
| Kinematics.Interval | script.js:474 | the interval added to the earlier time gives the later one, and it is positive exactly when the times are strictly increasing |
| Kinematics.MidTime | script.js:521-523 | the time attached to a velocity is the average of the two times, between them when they are ordered |
| Kinematics.Velocity | script.js:467-478 | velocity is present exactly when the delta is, and velocity times the interval equals the delta |
| Kinematics.PresentPairsExactly | script.js:515-519 | the pairs the velocity loop keeps are exactly those from pair i on whose two slots are placed, each once, in increasing order |
| Kinematics.VelocitiesFrom | script.js:515-529 | the list from pair i on has one entry per present pair |
| Kinematics.VelocitiesFromEntries | script.js:515-529 | entry k of the list is the velocity of the k-th present pair, stamped with that pair's mid-time |
| Kinematics.Velocities | script.js:513-529 | the velocities list has at most three entries, one per present pair in pair order, each that pair's velocity at its mid-time |
| Kinematics.Guard | script.js:511 | the acceleration view computes anything only when slots 1, 2 and 3 are all placed; Kinematics.Accelerations states the effect |
| Kinematics.GuardedPairs | script.js:511-519 | when slots 1, 2 and 3 are placed the present pairs are 1, 2 and, if slot 4 is placed, 3 |
| Kinematics.VelocitiesUnderGuard | script.js:515-529 | the velocities list holds the velocities of pairs 1, 2 and (if slot 4 is placed) 3, in order, each at its mid-time |
| Kinematics.GuardedStepsDistinct | script.js:521-536 | under the guard and the no-zero-divisor condition, consecutive velocity times differ |
| Kinematics.Differences | script.js:532-540 | one entry fewer than the velocities, each times its time step equal to the change in velocity |
| Kinematics.Accelerations | script.js:511-540 | nothing unless slots 1, 2 and 3 are placed (and then no interval matters); otherwise one acceleration per consecutive velocity pair, times the mid-time gap equal to the velocity change |
| Kinematics.TripleAcceleration | script.js:521-540 | reference acceleration of a triple: present exactly when its three slots are, times the mid-time gap equal to the change in velocity |
| Kinematics.AccelerationsAreTriples | script.js:511-548 | entry k of the list is the acceleration of triple k+1, so the colour key names the right triple; the list has 0, 1 or 2 entries according to which slots are placed |
| Kinematics.AccelerationEntryIsTriple | script.js:532-548 | one entry of the list is the reference acceleration of the triple its colour key names |
| Kinematics.AllPlacedAccelerations | script.js:511-548 | with all four slots placed the list is exactly [a123, a234] |
| Kinematics.IncreasingTimesDefineAll | script.js:474-536 | strictly increasing times leave no zero divisor anywhere in the chain |
| Kinematics.DeltasTelescope | script.js:430-440 | the three deltas add up to slot 4 minus slot 1 |
| Kinematics.UnitIntervalVelocity | script.js:474-478 | over a one-second interval velocity equals the delta displacement |
| Kinematics.MotionDisplacement | script.js:521-528 | under uniform acceleration the displacement over an interval is the true velocity at its middle times its length |
| Kinematics.MotionVelocityAtMidTime | script.js:521-528 | for uniformly accelerated samples each velocity is the true velocity at the time attached to it |
| Kinematics.MotionTripleAcceleration | script.js:532-540 | for uniformly accelerated samples the acceleration of a placed triple is the true acceleration |
| Kinematics.MotionAccelerationEntry | script.js:532-540 | for uniformly accelerated samples one entry of the list is the true acceleration |
| Kinematics.UniformAccelerationRecovered | script.js:511-540 | for uniformly accelerated samples, at any times that keep the chain defined, every listed acceleration is the true acceleration |
| Kinematics.EvenSpacingSecondDifference | script.js:532-540 | with times h apart, h² times the acceleration of a triple is its central second difference |
| Kinematics.GuardedVelocity | script.js:474-478 | corrected velocity: absent when the interval is zero, otherwise equal to Velocity |
| Kinematics.GuardedTripleAcceleration | script.js:532-540 | corrected acceleration: present exactly when both corrected velocities are and their mid-times differ, otherwise equal to the reference |
| Kinematics.DefaultLayoutVelocity | script.js:467-478 | with the page's defaults the velocities are (0,1), (1,1) and (1,-1) |
| Kinematics.DefaultLayoutAcceleration | script.js:511-540 | with the page's defaults the accelerations are a123 = (1,0) and a234 = (0,-2) |
| Editor.HitInsideSquare | script.js:585-591 | a marker counts as hit only if the pointer is within 10 pixels of it on each axis |
| Editor.HitFrom | script.js:581-596 | the first slot from k on whose marker is within 10 pixels of the pointer, none being skipped |
| Editor.PointAt | script.js:581-596 | the lowest-numbered placed slot within 10 pixels of the pointer; none exactly when no slot qualifies |
| Editor.PointerGrid | script.js:626 | the grid point a press or move designates is drawn within half a cell of the pointer on each axis |
| Editor.MouseDown | script.js:599-634 | on a marker: drag it and select its slot, positions unchanged; elsewhere: only the selected slot moves, to the snapped pointer |
| Editor.MouseMove | script.js:637-659 | while dragging only the dragged slot changes, to the snapped pointer; otherwise nothing changes |
| Editor.MouseUp | script.js:662-668 | ends a drag when one is active; positions, selection and times never change |
| Editor.MouseLeave | script.js:671-676 | always leaves the state not dragging; when a drag was active it also clears the target, and otherwise nothing changes; positions, selection and times never change |
| Editor.SelectSlot | script.js:679-692 | selects the slot and changes nothing else |
| Editor.EditTime | script.js:695-712 | NaN or a negative value changes nothing; otherwise the times become an ascending permutation of the old times with field i replaced, and nothing else changes |
| Editor.Init | script.js:73-87 | the state loaded with the page is valid and has every slot placed |
| Editor.InitIsDefaultLayout | script.js:73-87 | the initial state, as vectors, is the default layout, and its chain has no zero divisor |
| Editor.Step | script.js:599-712 | dispatching an event: only a time field changes the times, and only a press or a move changes positions |
| Editor.Run | script.js:599-712 | over a sequence of events the times stay unchanged unless a time field fires, and positions stay unchanged unless a press or a move fires |
| Editor.MouseDownPreservesValid | script.js:599-634 | a press keeps the state valid and never empties a slot |
| Editor.MouseMovePreservesValid | script.js:637-659 | a move keeps the state valid and never empties a slot |
| Editor.EditTimePreservesValid | script.js:695-712 | a time edit keeps the times ascending and non-negative |
| Editor.StepPreservesValid | script.js:599-712 | every handler keeps the state valid and never empties a slot |
| Editor.RunPreservesValid | script.js:599-712 | any sequence of events keeps the state valid and every slot placed |
| Editor.ReachableStates | script.js:73-712 | every state reachable from the initial page is valid, with all four slots placed |
| Editor.UpAndLeaveAgree | script.js:662-676 | in a valid state pointer up and pointer leave have the same effect |
| Editor.DragGesture | script.js:599-676 | press on slot k's marker, move to q, leave: slot k sits at q's grid point, k is selected, no drag remains, nothing else changed |
| Editor.PlacementNearPointer | script.js:624-629 | a press away from every marker places the selected point within half a cell of the pointer |
| Editor.EditTimeUnchangedValue | script.js:695-712 | re-entering a field's current value changes nothing |
| Editor.EditFirstPastLast | script.js:695-702 | setting t1 past t4 gives the other three times shifted down, then the new value |
| Editor.EditTimeExample | script.js:695-702 | from times 1,2,3,4, setting t1 to 5 gives 2,3,4,5 |
| Editor.ValidIntervalsNonNegative | script.js:695-702 | in a valid state no interval is negative |
| Editor.SecondTimeToOne | script.js:695-702 | from times 1,2,3,4, setting t2 to 1 gives 1,1,3,4 |
| Editor.CoincidentFirstInterval | script.js:474-478 | with slots 1 and 2 placed and t1 equal to t2, velocity 1-2 divides by zero |
| Editor.ZeroIntervalReachable | script.js:474-478 | one edit from the initial page reaches times 1,1,3,4, a state where the source divides by zero |
| Editor.ReachableVelocityDrawn | script.js:474-478 | with the corrected velocity, a reachable state draws velocity i exactly when time i+1 is after time i |

## Left out

- Canvas drawing is not modelled: grids, markers, arrows (including the `atan2`/`cos`/`sin` arrowheads), colours, legends and MathJax.
- The displacement view draws each position unchanged from the origin; it holds no logic beyond `gridToCanvas`.
- DOM work is not modelled: cursor styles, the "Position" and "Selected time" readouts, button classes, writing the sorted times back into the input fields, and `getBoundingClientRect` offsets. None of it feeds back into the state.
- `vectorMagnitude` is not modelled: it uses `sqrt` and nothing calls it.
- `parseFloat`/`parseInt` are not modelled. A time edit is taken as an already-parsed `Option<real>`.
- Editor.EditTime: the source also accepts `Infinity`, because it rejects only `NaN` and negative values. `real` has no infinity, so that input is not modelled.
- IEEE floating point is not modelled: reals are exact. `-0` and rounding error do not arise.
- Kinematics.Velocity: the source divides by a zero interval without checking, producing `Infinity`/`NaN`. The model requires a non-zero interval instead; see Findings.
- Kinematics.Accelerations: when slots 1, 2 and 3 are placed, requires non-zero velocity intervals and consecutive mid-times that differ. The source divides by both without checking, in the same way. When the guard fails nothing is required, as the source divides nothing.
- Fractional pointer positions are not modelled. Pointer coordinates are whole pixels.
- The canvas width and heights are not modelled. They come from the page's HTML, so they are the `Config` parameter.
- The acceleration guard tests slots 1, 2 and 3, so triple 2-3-4 would be skipped while slot 1 is empty. No handler ever empties a slot, so every reachable state has all four slots placed (Editor.ReachableStates) and that case never shows.

## Findings

| source | as written | input that shows it | evidently intended | confidence | as-written member | corrected member |
|---|---|---|---|---|---|---|
| script.js:474-478 | velocity divides the delta by `timeValues[i] - timeValues[i-1]` without checking it, and the time edit accepts a value equal to a neighbour | from the initial page, type 1 into the t2 field: times become 1, 1, 3, 4 and velocity 1-2 divides (0, 1) by 0 | a zero interval leaves that velocity undrawn instead of drawing `Infinity`/`NaN` | not executed; the division is certain, how the canvas renders `Infinity` is not modelled | Editor.ZeroIntervalReachable | Kinematics.GuardedVelocity |
