/**
 * The editing state of the position view and its transitions: pointer
 * down / move / up / leave on the position canvas, the four slot buttons
 * and the four time fields (script.js:73-87, 580-712).
 */
module Editor {
  import opened Optional
  import opened Geometry
  import opened TimeOrder
  import K = Kinematics

  /** A position slot, t1 to t4; slot k is stored at index k - 1. */
  type Slot = k: int | 1 <= k <= 4 witness 1

  /** One of the four time fields, by zero-based array index. */
  type Field = i: int | 0 <= i <= 3 witness 0

  /** Hit radius around a marker, in pixels (script.js:591). */
  const HitRadius: int := 10

  datatype State = State(
    selected: Slot,                        // selectedTime
    positions: seq<Option<GridPoint>>,     // positions[1..4]
    times: seq<real>,                      // timeValues
    isDragging: bool,
    dragTime: Option<Slot>)

  /**
   * The default layout loaded with the page (script.js:74-87): a valid
   * state with all four points placed.
   */
  function Init(): (r: State)
    ensures Valid(r) && AllPlaced(r)
  {
    State(1,
          [Some(GridPoint(1, 0)), Some(GridPoint(1, 1)), Some(GridPoint(2, 2)), Some(GridPoint(3, 1))],
          [1.0, 2.0, 3.0, 4.0],
          false, None)
  }

  predicate WellFormed(s: State)
  {
    |s.positions| == 4 && |s.times| == 4
  }

  /**
   * What every transition keeps: times ascending and non-negative, the drag
   * flag and drag target set together, and a drag target always placed.
   */
  predicate Valid(s: State)
  {
    && WellFormed(s)
    && Ascending(s.times)
    && (forall i :: 0 <= i < 4 ==> s.times[i] >= 0.0)
    && (s.isDragging <==> s.dragTime.Some?)
    && (s.dragTime.Some? ==> s.positions[s.dragTime.value - 1].Some?)
  }

  /** Every slot holds a position. */
  predicate AllPlaced(s: State)
    requires WellFormed(s)
  {
    forall i :: 0 <= i < 4 ==> s.positions[i].Some?
  }

  function SquaredDistance(a: Pixel, b: Pixel): int
  {
    (a.x - b.x) * (a.x - b.x) + (a.y - b.y) * (a.y - b.y)
  }

  /**
   * The marker of slot k is placed and within the hit radius of p
   * (script.js:585-591); comparing squared distances avoids the square
   * root.
   */
  predicate IsHit(cfg: Config, ps: seq<Option<GridPoint>>, k: Slot, p: Pixel)
    requires |ps| == 4
  {
    ps[k-1].Some? && SquaredDistance(GridToCanvas(cfg, ps[k-1].value, CenterY(cfg)), p) <= HitRadius * HitRadius
  }

  /** A hit lies inside the square of half-side HitRadius around the marker. */
  lemma HitInsideSquare(cfg: Config, ps: seq<Option<GridPoint>>, k: Slot, p: Pixel)
    requires |ps| == 4 && IsHit(cfg, ps, k, p)
    ensures var c := GridToCanvas(cfg, ps[k-1].value, CenterY(cfg));
            Abs(c.x - p.x) <= HitRadius && Abs(c.y - p.y) <= HitRadius
  {
    var c := GridToCanvas(cfg, ps[k-1].value, CenterY(cfg));
    var dx, dy := c.x - p.x, c.y - p.y;
    assert dx * dx + dy * dy <= HitRadius * HitRadius;
    SquareAtMost(dx, dy);
    SquareAtMost(dy, dx);
  }

  /** If d^2 + e^2 <= 100 then |d| <= 10. */
  lemma SquareAtMost(d: int, e: int)
    requires d * d + e * e <= HitRadius * HitRadius
    ensures Abs(d) <= HitRadius
  {
    var a := Abs(d);
    assert a * a == d * d;
    if a > HitRadius {
      assert false;
    }
  }

  /** The first slot from k on whose marker p hits, scanning in slot order. */
  function HitFrom(cfg: Config, ps: seq<Option<GridPoint>>, p: Pixel, k: int): (r: Option<Slot>)
    requires |ps| == 4 && 1 <= k <= 5
    decreases 5 - k
    ensures r.Some? ==> k <= r.value && IsHit(cfg, ps, r.value, p)
    ensures r.Some? ==> forall j: Slot :: k <= j < r.value ==> !IsHit(cfg, ps, j, p)
    ensures r.None? ==> forall j: Slot :: k <= j ==> !IsHit(cfg, ps, j, p)
  {
    if k == 5 then None
    else if IsHit(cfg, ps, k, p) then Some(k)
    else HitFrom(cfg, ps, p, k + 1)
  }

  /** The lowest-numbered slot whose marker p hits, if any (script.js:581-596). */
  function PointAt(cfg: Config, ps: seq<Option<GridPoint>>, p: Pixel): (r: Option<Slot>)
    requires |ps| == 4
    ensures r.Some? ==> IsHit(cfg, ps, r.value, p)
    ensures r.Some? ==> forall j: Slot :: j < r.value ==> !IsHit(cfg, ps, j, p)
    ensures r.None? <==> forall j: Slot :: !IsHit(cfg, ps, j, p)
  {
    HitFrom(cfg, ps, p, 1)
  }

  /** The grid point the pointer p designates in the position view. */
  function PointerGrid(cfg: Config, p: Pixel): (r: GridPoint)
    ensures var q := GridToCanvas(cfg, r, CenterY(cfg));
            Abs(p.x - q.x) <= GridSize / 2 && Abs(p.y - q.y) <= GridSize / 2
  {
    CanvasToGrid(cfg, p, CenterY(cfg))
  }

  /**
   * Pointer down (script.js:599-634): on a marker, start dragging it and
   * select its slot; elsewhere, move the selected slot's point there.
   */
  function MouseDown(cfg: Config, s: State, p: Pixel): (r: State)
    requires WellFormed(s)
    ensures WellFormed(r) && r.times == s.times
    ensures (exists k: Slot :: IsHit(cfg, s.positions, k, p)) ==>
              && r.isDragging && r.dragTime == Some(r.selected)
              && IsHit(cfg, s.positions, r.selected, p)
              && (forall j: Slot :: j < r.selected ==> !IsHit(cfg, s.positions, j, p))
              && r.positions == s.positions
    ensures (forall k: Slot :: !IsHit(cfg, s.positions, k, p)) ==>
              && r.selected == s.selected && r.isDragging == s.isDragging && r.dragTime == s.dragTime
              && r.positions[s.selected - 1] == Some(PointerGrid(cfg, p))
              && (forall i :: 0 <= i < 4 && i != s.selected - 1 ==> r.positions[i] == s.positions[i])
  {
    match PointAt(cfg, s.positions, p)
    case Some(k) => s.(isDragging := true, dragTime := Some(k), selected := k)
    case None => s.(positions := s.positions[s.selected - 1 := Some(PointerGrid(cfg, p))])
  }

  /** Pointer move (script.js:637-659): while dragging, the dragged slot follows p. */
  function MouseMove(cfg: Config, s: State, p: Pixel): (r: State)
    requires WellFormed(s)
    ensures WellFormed(r)
    ensures r.selected == s.selected && r.times == s.times
    ensures r.isDragging == s.isDragging && r.dragTime == s.dragTime
    ensures forall k: Slot ::
              r.positions[k-1] == if s.isDragging && s.dragTime == Some(k) then Some(PointerGrid(cfg, p))
                                  else s.positions[k-1]
  {
    if s.isDragging && s.dragTime.Some? then
      s.(positions := s.positions[s.dragTime.value - 1 := Some(PointerGrid(cfg, p))])
    else s
  }

  /** Pointer up (script.js:662-668): ends a drag; never moves a point. */
  function MouseUp(s: State): (r: State)
    requires WellFormed(s)
    ensures WellFormed(r)
    ensures r.positions == s.positions && r.selected == s.selected && r.times == s.times
    ensures (s.isDragging <==> s.dragTime.Some?) ==> !r.isDragging && r.dragTime.None?
  {
    if s.isDragging && s.dragTime.Some? then s.(isDragging := false, dragTime := None) else s
  }

  /** Pointer leaving the canvas (script.js:671-676): ends a drag; never moves a point. */
  function MouseLeave(s: State): (r: State)
    requires WellFormed(s)
    ensures WellFormed(r)
    ensures r.positions == s.positions && r.selected == s.selected && r.times == s.times
    ensures !r.isDragging
    ensures s.isDragging ==> r.dragTime.None?
    ensures !s.isDragging ==> r == s
  {
    if s.isDragging then s.(isDragging := false, dragTime := None) else s
  }

  /** Slot button k (script.js:679-692): selects k and nothing else. */
  function SelectSlot(s: State, k: Slot): (r: State)
    requires WellFormed(s)
    ensures WellFormed(r) && r.selected == k
    ensures r.positions == s.positions && r.times == s.times
    ensures r.isDragging == s.isDragging && r.dragTime == s.dragTime
  {
    s.(selected := k)
  }

  /**
   * Time field i changed (script.js:695-712). `parsed` is the field's
   * `parseFloat` value, None for NaN. A rejected value changes nothing; an
   * accepted one replaces entry i and the four values are re-sorted.
   */
  function EditTime(s: State, i: Field, parsed: Option<real>): (r: State)
    requires WellFormed(s)
    ensures WellFormed(r)
    ensures parsed.None? || parsed.value < 0.0 ==> r == s
    ensures parsed.Some? && parsed.value >= 0.0 ==>
              && Ascending(r.times)
              && multiset(r.times) == multiset(s.times[i := parsed.value])
              && r.positions == s.positions && r.selected == s.selected
              && r.isDragging == s.isDragging && r.dragTime == s.dragTime
  {
    if parsed.Some? && parsed.value >= 0.0 then
      s.(times := SortAscending(s.times[i := parsed.value]))
    else s
  }

  /** An input event delivered to the page. */
  datatype Event =
    | Down(at: Pixel)
    | Move(at: Pixel)
    | Up
    | Leave
    | ClickSlot(slot: Slot)
    | ChangeTime(field: Field, parsed: Option<real>)

  /**
   * Dispatch of one event to its handler (script.js:599-712): only a time
   * field changes the times, and only a press or a move changes positions.
   */
  function Step(cfg: Config, s: State, e: Event): (r: State)
    requires WellFormed(s)
    ensures WellFormed(r)
    ensures !e.ChangeTime? ==> r.times == s.times
    ensures !e.Down? && !e.Move? ==> r.positions == s.positions
  {
    match e
    case Down(p) => MouseDown(cfg, s, p)
    case Move(p) => MouseMove(cfg, s, p)
    case Up => MouseUp(s)
    case Leave => MouseLeave(s)
    case ClickSlot(k) => SelectSlot(s, k)
    case ChangeTime(i, v) => EditTime(s, i, v)
  }

  /** The state after handling events in order. */
  function Run(cfg: Config, s: State, es: seq<Event>): (r: State)
    requires WellFormed(s)
    ensures WellFormed(r)
    ensures (forall k :: 0 <= k < |es| ==> !es[k].ChangeTime?) ==> r.times == s.times
    ensures (forall k :: 0 <= k < |es| ==> !es[k].Down? && !es[k].Move?) ==> r.positions == s.positions
    decreases |es|
  {
    if |es| == 0 then s else Run(cfg, Step(cfg, s, es[0]), es[1..])
  }

  /** Positions of the state as real vectors, the input of the derivative views. */
  function Samples(s: State): (r: seq<Option<K.Vec>>)
    requires WellFormed(s)
    ensures |r| == 4
    ensures forall i :: 0 <= i < 4 ==>
              (r[i].Some? <==> s.positions[i].Some?)
              && (r[i].Some? ==> r[i].value == K.Vec(s.positions[i].value.x as real, s.positions[i].value.y as real))
  {
    seq(4, i requires 0 <= i < 4 =>
      match s.positions[i]
      case Some(g) => Some(K.Vec(g.x as real, g.y as real))
      case None => None)
  }

  /** Every transition keeps the state valid and never empties a placed slot. */
  lemma StepPreservesValid(cfg: Config, s: State, e: Event)
    requires Valid(s)
    ensures Valid(Step(cfg, s, e))
    ensures AllPlaced(s) ==> AllPlaced(Step(cfg, s, e))
  {
    match e
    case Down(p) => MouseDownPreservesValid(cfg, s, p);
    case Move(p) => MouseMovePreservesValid(cfg, s, p);
    case Up =>
    case Leave =>
    case ClickSlot(k) =>
    case ChangeTime(i, v) => EditTimePreservesValid(s, i, v);
  }

  /** A press starts a drag only on a placed marker and only ever fills a slot. */
  lemma MouseDownPreservesValid(cfg: Config, s: State, p: Pixel)
    requires Valid(s)
    ensures Valid(MouseDown(cfg, s, p))
    ensures AllPlaced(s) ==> AllPlaced(MouseDown(cfg, s, p))
  {
    var r := MouseDown(cfg, s, p);
    match PointAt(cfg, s.positions, p)
    case Some(k) =>
      assert r.dragTime == Some(k) && r.positions == s.positions;
    case None =>
      assert r.positions == s.positions[s.selected - 1 := Some(PointerGrid(cfg, p))];
  }

  /** A move only ever overwrites the dragged slot with a point. */
  lemma MouseMovePreservesValid(cfg: Config, s: State, p: Pixel)
    requires Valid(s)
    ensures Valid(MouseMove(cfg, s, p))
    ensures AllPlaced(s) ==> AllPlaced(MouseMove(cfg, s, p))
  {
  }

  /** An accepted time edit leaves the times ascending and non-negative. */
  lemma EditTimePreservesValid(s: State, i: Field, v: Option<real>)
    requires Valid(s)
    ensures Valid(EditTime(s, i, v))
    ensures AllPlaced(s) ==> AllPlaced(EditTime(s, i, v))
  {
    var r := EditTime(s, i, v);
    if v.Some? && v.value >= 0.0 {
      var edited := s.times[i := v.value];
      forall k | 0 <= k < 4
        ensures r.times[k] >= 0.0
      {
        SortedElementsComeFromInput(edited, k);
      }
    }
  }

  /** Validity, and every slot being placed, hold after any sequence of events. */
  lemma {:induction false} RunPreservesValid(cfg: Config, s: State, es: seq<Event>)
    requires Valid(s)
    ensures Valid(Run(cfg, s, es))
    ensures AllPlaced(s) ==> AllPlaced(Run(cfg, s, es))
    decreases |es|
  {
    if |es| > 0 {
      StepPreservesValid(cfg, s, es[0]);
      RunPreservesValid(cfg, Step(cfg, s, es[0]), es[1..]);
    }
  }

  /** Every state the page can reach is valid and has all four points placed. */
  lemma ReachableStates(cfg: Config, es: seq<Event>)
    ensures Valid(Run(cfg, Init(), es)) && AllPlaced(Run(cfg, Init(), es))
  {
    RunPreservesValid(cfg, Init(), es);
  }

  /** In a valid state pointer up and pointer leave have the same effect. */
  lemma UpAndLeaveAgree(s: State)
    requires Valid(s)
    ensures MouseUp(s) == MouseLeave(s)
  {
  }

  /**
   * Press on the marker of slot k, drag to q, leave the canvas: slot k ends
   * at the grid point of q, k is selected, no drag remains, and nothing
   * else changed.
   */
  lemma DragGesture(cfg: Config, s: State, p: Pixel, q: Pixel, k: Slot)
    requires Valid(s)
    requires PointAt(cfg, s.positions, p) == Some(k)
    ensures var r := Run(cfg, s, [Down(p), Move(q), Leave]);
            && r.positions == s.positions[k - 1 := Some(PointerGrid(cfg, q))]
            && r.selected == k && r.times == s.times
            && !r.isDragging && r.dragTime.None?
  {
    var s1 := Step(cfg, s, Down(p));
    var s2 := Step(cfg, s1, Move(q));
    var s3 := Step(cfg, s2, Leave);
    assert Run(cfg, s2, [Leave]) == s3;
    assert [Down(p), Move(q), Leave][1..] == [Move(q), Leave];
    assert [Move(q), Leave][1..] == [Leave];
    assert Run(cfg, s, [Down(p), Move(q), Leave]) == s3;
  }

  /** A press away from every marker puts the selected point within half a cell of the pointer. */
  lemma PlacementNearPointer(cfg: Config, s: State, p: Pixel)
    requires WellFormed(s)
    requires PointAt(cfg, s.positions, p).None?
    ensures var q := GridToCanvas(cfg, MouseDown(cfg, s, p).positions[s.selected - 1].value, CenterY(cfg));
            && -GridSize / 2 <= p.x - q.x < GridSize / 2
            && -GridSize / 2 < p.y - q.y <= GridSize / 2
  {
  }

  /** Re-entering a time field's current value changes nothing in a valid state. */
  lemma EditTimeUnchangedValue(s: State, i: Field)
    requires Valid(s)
    ensures EditTime(s, i, Some(s.times[i])) == s
  {
    assert s.times[i := s.times[i]] == s.times;
    SortKeepsAscending(s.times);
  }

  /**
   * Setting t1 past t4 moves it to the end: the other three times shift
   * down one field, in order.
   */
  lemma EditFirstPastLast(s: State, v: real)
    requires Valid(s) && v >= s.times[3]
    ensures EditTime(s, 0, Some(v)).times == s.times[1..] + [v]
  {
    SortAfterRaisingFirst(s.times, v);
  }

  /** Setting t1 to 5 from the default times re-sorts them to 2, 3, 4, 5. */
  lemma EditTimeExample()
    ensures EditTime(Init(), 0, Some(5.0)).times == [2.0, 3.0, 4.0, 5.0]
  {
    EditFirstPastLast(Init(), 5.0);
    assert Init().times[1..] + [5.0] == [2.0, 3.0, 4.0, 5.0];
  }

  /** Valid times never run backwards, so every interval is non-negative. */
  lemma ValidIntervalsNonNegative(s: State, i: K.Pair)
    requires Valid(s)
    ensures K.Interval(s.times, i) >= 0.0
  {
  }

  /**
   * The source divides by a zero interval in a reachable state: from the
   * default page, typing 1 into the t2 field gives times 1, 1, 3, 4 with
   * slots 1 and 2 placed, so velocity 1-2 is outside Velocity's domain.
   */
  lemma ZeroIntervalReachable(cfg: Config)
    ensures var s := Run(cfg, Init(), [ChangeTime(1, Some(1.0))]);
            && s.times == [1.0, 1.0, 3.0, 4.0]
            && !K.VelocityDefined(Samples(s), s.times)
  {
    var ev := ChangeTime(1, Some(1.0));
    var e := EditTime(Init(), 1, Some(1.0));
    RunOne(cfg, Init(), ev);
    assert Step(cfg, Init(), ev) == e;
    SecondTimeToOne();
    assert e.positions == Init().positions;
    CoincidentFirstInterval(e);
  }

  /** Setting t2 to 1 from the default times gives 1, 1, 3, 4: the value ties with t1. */
  lemma SecondTimeToOne()
    ensures EditTime(Init(), 1, Some(1.0)).times == [1.0, 1.0, 3.0, 4.0]
  {
    var want := [1.0, 1.0, 3.0, 4.0];
    assert Init().times[1 := 1.0] == want;
    AscendingFour(1.0, 1.0, 3.0, 4.0);
    SortKeepsAscending(want);
  }

  /** With slots 1 and 2 placed and t1 == t2, velocity 1-2 would divide by zero. */
  lemma CoincidentFirstInterval(s: State)
    requires WellFormed(s) && s.positions[0].Some? && s.positions[1].Some?
    requires s.times[0] == s.times[1]
    ensures !K.VelocityDefined(Samples(s), s.times)
  {
    var ps := Samples(s);
    assert ps[0].Some? && ps[1].Some?;
    assert K.Interval(s.times, 1) == 0.0;
  }

  lemma RunOne(cfg: Config, s: State, e: Event)
    requires WellFormed(s)
    ensures Run(cfg, s, [e]) == Step(cfg, s, e)
  {
    assert [e][1..] == [];
  }

  /**
   * The page opens on the default drawing of the derivative views: as grid
   * vectors the four slots hold (1,0), (1,1), (2,2), (3,1) at times 1 to 4,
   * so the velocities and accelerations are those of K.DefaultLayoutVelocity
   * and K.DefaultLayoutAcceleration.
   */
  lemma InitIsDefaultLayout()
    ensures K.DefaultLayout(Samples(Init()), Init().times)
    ensures K.AccelerationDefined(Samples(Init()), Init().times)
  {
    var ps := Samples(Init());
    assert ps[0] == Some(K.Vec(1.0, 0.0)) && ps[1] == Some(K.Vec(1.0, 1.0));
    assert ps[2] == Some(K.Vec(2.0, 2.0)) && ps[3] == Some(K.Vec(3.0, 1.0));
    K.IncreasingTimesDefineAll(ps, Init().times);
  }

  /**
   * With the corrected velocity, every state the page can reach draws the
   * velocity of pair i exactly when time i + 1 is strictly after time i;
   * a tie is no longer a division by zero but an undrawn vector.
   */
  lemma ReachableVelocityDrawn(cfg: Config, es: seq<Event>, i: K.Pair)
    ensures var s := Run(cfg, Init(), es);
            K.GuardedVelocity(Samples(s), s.times, i).Some? <==> s.times[i-1] < s.times[i]
  {
    ReachableStates(cfg, es);
    var s := Run(cfg, Init(), es);
    ValidIntervalsNonNegative(s, i);
    assert Samples(s)[i-1].Some? && Samples(s)[i].Some?;
  }
}
