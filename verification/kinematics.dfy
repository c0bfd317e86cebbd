/**
 * The derivative chain drawn by the four derived-quantity views:
 * displacement, change in displacement between consecutive slots, velocity
 * over each slot interval and acceleration between consecutive velocities
 * (script.js:425-560). Slot k (1 to 4) reads `ps[k-1]` and `ts[k-1]`.
 */
module Kinematics {
  import opened Optional

  /** A two-dimensional vector in grid units. */
  datatype Vec = Vec(x: real, y: real)

  function Add(a: Vec, b: Vec): Vec
  {
    Vec(a.x + b.x, a.y + b.y)
  }

  function Sub(a: Vec, b: Vec): Vec
  {
    Vec(a.x - b.x, a.y - b.y)
  }

  function Scale(v: Vec, c: real): Vec
  {
    Vec(v.x * c, v.y * c)
  }

  function Div(v: Vec, c: real): Vec
    requires c != 0.0
  {
    Vec(v.x / c, v.y / c)
  }

  /** Pair i joins slot i to slot i + 1. */
  type Pair = i: int | 1 <= i <= 3 witness 1

  /** Triple j joins pairs j and j + 1, i.e. slots j, j + 1 and j + 2. */
  type Triple = j: int | 1 <= j <= 2 witness 1

  /** Four position slots and four time values. */
  predicate Shaped(ps: seq<Option<Vec>>, ts: seq<real>)
  {
    |ps| == 4 && |ts| == 4
  }

  /** Change in displacement over pair i (script.js:430-440); no time involved. */
  function DeltaDisplacement(ps: seq<Option<Vec>>, i: Pair): (r: Option<Vec>)
    requires |ps| == 4
    ensures r.Some? <==> ps[i-1].Some? && ps[i].Some?
    ensures r.Some? ==> Add(ps[i-1].value, r.value) == ps[i].value
  {
    if ps[i-1].Some? && ps[i].Some? then Some(Sub(ps[i].value, ps[i-1].value)) else None
  }

  /** Elapsed time over pair i (script.js:474). */
  function Interval(ts: seq<real>, i: Pair): (r: real)
    requires |ts| == 4
    ensures ts[i-1] + r == ts[i]
    ensures r > 0.0 <==> ts[i-1] < ts[i]
  {
    ts[i] - ts[i-1]
  }

  /** The time a velocity is attributed to: the middle of its interval (script.js:523). */
  function MidTime(ts: seq<real>, i: Pair): (r: real)
    requires |ts| == 4
    ensures r == (ts[i-1] + ts[i]) / 2.0
    ensures ts[i-1] <= ts[i] ==> ts[i-1] <= r <= ts[i]
  {
    ts[i-1] + Interval(ts, i) / 2.0
  }

  /**
   * Velocity over pair i (script.js:474-478). The source divides without
   * checking the interval, so a present pair needs a non-zero interval.
   */
  function Velocity(ps: seq<Option<Vec>>, ts: seq<real>, i: Pair): (r: Option<Vec>)
    requires Shaped(ps, ts)
    requires ps[i-1].Some? && ps[i].Some? ==> Interval(ts, i) != 0.0
    ensures r.Some? <==> DeltaDisplacement(ps, i).Some?
    ensures r.Some? ==> Scale(r.value, Interval(ts, i)) == DeltaDisplacement(ps, i).value
  {
    match DeltaDisplacement(ps, i)
    case None => None
    case Some(d) => Some(Div(d, Interval(ts, i)))
  }

  /** Every present pair has a non-zero interval. */
  predicate VelocityDefined(ps: seq<Option<Vec>>, ts: seq<real>)
    requires Shaped(ps, ts)
  {
    forall i: Pair :: ps[i-1].Some? && ps[i].Some? ==> Interval(ts, i) != 0.0
  }

  /** One entry of the source's `velocities` list (script.js:522-528). */
  datatype TimedVelocity = TimedVelocity(time: real, vector: Vec)

  /** The pairs from pair i on whose two slots are both placed, in pair order. */
  function PresentPairs(ps: seq<Option<Vec>>, i: int): seq<Pair>
    requires |ps| == 4 && 1 <= i <= 4
    decreases 4 - i
  {
    if i == 4 then []
    else if ps[i-1].Some? && ps[i].Some? then [i as Pair] + PresentPairs(ps, i + 1)
    else PresentPairs(ps, i + 1)
  }

  /**
   * PresentPairs lists exactly the pairs from i on whose slots are both
   * placed, each once, in increasing order.
   */
  lemma {:induction false} PresentPairsExactly(ps: seq<Option<Vec>>, i: int)
    requires |ps| == 4 && 1 <= i <= 4
    decreases 4 - i
    ensures var r := PresentPairs(ps, i);
            && (forall k :: 0 <= k < |r| ==> i <= r[k] && ps[r[k]-1].Some? && ps[r[k]].Some?)
            && (forall k, l :: 0 <= k < l < |r| ==> r[k] < r[l])
            && (forall j: Pair :: i <= j && ps[j-1].Some? && ps[j].Some? ==> j in r)
  {
    if i < 4 {
      PresentPairsExactly(ps, i + 1);
    }
  }

  /**
   * The velocities of the present pairs from pair i on, in pair order
   * (script.js:515-529): one entry per present pair. VelocitiesFromEntries
   * says what each entry holds.
   */
  function VelocitiesFrom(ps: seq<Option<Vec>>, ts: seq<real>, i: int): (r: seq<TimedVelocity>)
    requires Shaped(ps, ts) && VelocityDefined(ps, ts)
    requires 1 <= i <= 4
    decreases 4 - i
    ensures |r| == |PresentPairs(ps, i)|
  {
    if i == 4 then []
    else
      var rest := VelocitiesFrom(ps, ts, i + 1);
      if ps[i-1].Some? && ps[i].Some? then
        [TimedVelocity(MidTime(ts, i), Velocity(ps, ts, i).value)] + rest
      else
        rest
  }

  /** Entry k of the list is the velocity of the k-th present pair, at that pair's mid-time. */
  lemma {:induction false} VelocitiesFromEntries(ps: seq<Option<Vec>>, ts: seq<real>, i: int)
    requires Shaped(ps, ts) && VelocityDefined(ps, ts)
    requires 1 <= i <= 4
    decreases 4 - i
    ensures var r, pairs := VelocitiesFrom(ps, ts, i), PresentPairs(ps, i);
            forall k :: 0 <= k < |r| ==>
              Velocity(ps, ts, pairs[k]) == Some(r[k].vector) && r[k].time == MidTime(ts, pairs[k])
  {
    if i < 4 {
      VelocitiesFromEntries(ps, ts, i + 1);
      var r, pairs := VelocitiesFrom(ps, ts, i), PresentPairs(ps, i);
      var rest, later := VelocitiesFrom(ps, ts, i + 1), PresentPairs(ps, i + 1);
      if ps[i-1].Some? && ps[i].Some? {
        forall k | 1 <= k < |r|
          ensures Velocity(ps, ts, pairs[k]) == Some(r[k].vector) && r[k].time == MidTime(ts, pairs[k])
        {
          assert r[k] == rest[k-1] && pairs[k] == later[k-1];
        }
      }
    }
  }

  /** The source's `velocities` list: one entry per present pair, in pair order. */
  function Velocities(ps: seq<Option<Vec>>, ts: seq<real>): (r: seq<TimedVelocity>)
    requires Shaped(ps, ts) && VelocityDefined(ps, ts)
    ensures |r| <= 3
    ensures var pairs := PresentPairs(ps, 1);
            && |r| == |pairs|
            && forall k :: 0 <= k < |r| ==>
                 Velocity(ps, ts, pairs[k]) == Some(r[k].vector) && r[k].time == MidTime(ts, pairs[k])
  {
    VelocitiesFromEntries(ps, ts, 1);
    VelocitiesFrom(ps, ts, 1)
  }

  /** The source computes accelerations only when slots 1, 2 and 3 are placed (script.js:511). */
  predicate Guard(ps: seq<Option<Vec>>)
    requires |ps| == 4
  {
    ps[0].Some? && ps[1].Some? && ps[2].Some?
  }

  /**
   * No division by zero in the acceleration view: it divides nothing
   * unless the guard holds, and then velocity intervals are non-zero and
   * consecutive mid-times differ (they differ by half of `ts[i+1] - ts[i-1]`).
   */
  predicate AccelerationDefined(ps: seq<Option<Vec>>, ts: seq<real>)
    requires Shaped(ps, ts)
  {
    Guard(ps) ==> VelocityDefined(ps, ts) && ts[2] != ts[0] && (ps[3].Some? ==> ts[3] != ts[1])
  }

  /** Under the guard the list holds v12, v23 and, if slot 4 is placed, v34. */
  lemma VelocitiesUnderGuard(ps: seq<Option<Vec>>, ts: seq<real>)
    requires Shaped(ps, ts) && VelocityDefined(ps, ts) && Guard(ps)
    ensures var vs := Velocities(ps, ts);
            && |vs| == (if ps[3].Some? then 3 else 2)
            && forall k :: 0 <= k < |vs| ==>
                 Velocity(ps, ts, k + 1) == Some(vs[k].vector) && vs[k].time == MidTime(ts, k + 1)
  {
    var vs, pairs := Velocities(ps, ts), PresentPairs(ps, 1);
    GuardedPairs(ps);
    forall k | 0 <= k < |vs|
      ensures Velocity(ps, ts, k + 1) == Some(vs[k].vector) && vs[k].time == MidTime(ts, k + 1)
    {
      assert pairs[k] == k + 1;
    }
  }

  /** Under the guard the present pairs are 1, 2 and, if slot 4 is placed, 3. */
  lemma GuardedPairs(ps: seq<Option<Vec>>)
    requires |ps| == 4 && Guard(ps)
    ensures PresentPairs(ps, 1) == if ps[3].Some? then [1, 2, 3] else [1, 2]
  {
    assert PresentPairs(ps, 3) == if ps[3].Some? then [3] else [];
  }

  /**
   * Under the guard consecutive velocity times differ, because mid-times
   * k and k + 1 differ by half of `ts[k+1] - ts[k-1]`.
   */
  lemma GuardedStepsDistinct(ps: seq<Option<Vec>>, ts: seq<real>)
    requires Shaped(ps, ts) && AccelerationDefined(ps, ts) && Guard(ps)
    ensures DistinctSteps(Velocities(ps, ts))
  {
    VelocitiesUnderGuard(ps, ts);
    var vs := Velocities(ps, ts);
    forall k | 0 <= k < |vs| - 1
      ensures vs[k+1].time != vs[k].time
    {
      assert vs[k+1].time - vs[k].time == (ts[k+2] - ts[k]) / 2.0;
    }
  }

  /** Consecutive entries of a velocity list have distinct times. */
  predicate DistinctSteps(vs: seq<TimedVelocity>)
  {
    forall k :: 0 <= k < |vs| - 1 ==> vs[k+1].time != vs[k].time
  }

  /** Dividing by a non-zero factor and scaling back is the identity. */
  lemma DivThenScale(v: Vec, c: real)
    requires c != 0.0
    ensures Scale(Div(v, c), c) == v
  {
  }

  /** Rate of change between consecutive entries of a velocity list (script.js:532-540). */
  function Differences(vs: seq<TimedVelocity>): (r: seq<Vec>)
    requires DistinctSteps(vs)
    ensures |r| == if |vs| == 0 then 0 else |vs| - 1
    ensures forall k :: 0 <= k < |r| ==>
              Scale(r[k], vs[k+1].time - vs[k].time) == Sub(vs[k+1].vector, vs[k].vector)
  {
    if |vs| <= 1 then []
    else
      var d := Div(Sub(vs[1].vector, vs[0].vector), vs[1].time - vs[0].time);
      DivThenScale(Sub(vs[1].vector, vs[0].vector), vs[1].time - vs[0].time);
      [d] + Differences(vs[1..])
  }

  /** Acceleration between consecutive entries of the velocity list (script.js:511-540). */
  function Accelerations(ps: seq<Option<Vec>>, ts: seq<real>): (r: seq<Vec>)
    requires Shaped(ps, ts) && AccelerationDefined(ps, ts)
    ensures !Guard(ps) ==> r == []
    ensures Guard(ps) ==>
              var vs := Velocities(ps, ts);
              && |r| == |vs| - 1
              && forall k :: 0 <= k < |r| ==>
                   Scale(r[k], vs[k+1].time - vs[k].time) == Sub(vs[k+1].vector, vs[k].vector)
  {
    if !Guard(ps) then []
    else
      GuardedStepsDistinct(ps, ts);
      Differences(Velocities(ps, ts))
  }

  /**
   * Reference definition of the acceleration of triple j: the change
   * between its two velocities over the distance between their mid-times.
   */
  function TripleAcceleration(ps: seq<Option<Vec>>, ts: seq<real>, j: Triple): (r: Option<Vec>)
    requires Shaped(ps, ts)
    requires ps[j-1].Some? && ps[j].Some? && ps[j+1].Some? ==>
               Interval(ts, j) != 0.0 && Interval(ts, j + 1) != 0.0 && ts[j+1] != ts[j-1]
    ensures r.Some? <==> ps[j-1].Some? && ps[j].Some? && ps[j+1].Some?
    ensures r.Some? ==>
              Scale(r.value, MidTime(ts, j + 1) - MidTime(ts, j))
                == Sub(Velocity(ps, ts, j + 1).value, Velocity(ps, ts, j).value)
  {
    if ps[j-1].Some? && ps[j].Some? && ps[j+1].Some? then
      var dt := MidTime(ts, j + 1) - MidTime(ts, j);
      Some(Div(Sub(Velocity(ps, ts, j + 1).value, Velocity(ps, ts, j).value), dt))
    else None
  }

  /**
   * Entry k of the acceleration list is the acceleration of triple k + 1,
   * so the source's colour key `${k+1}-${k+2}-${k+3}` names the right
   * triple (script.js:548); there is one entry per triple whose slots are
   * placed, except that nothing is computed while slot 1, 2 or 3 is empty.
   */
  lemma AccelerationsAreTriples(ps: seq<Option<Vec>>, ts: seq<real>)
    requires Shaped(ps, ts) && AccelerationDefined(ps, ts)
    ensures var r := Accelerations(ps, ts);
            && |r| == (if !Guard(ps) then 0 else if ps[3].Some? then 2 else 1)
            && forall k :: 0 <= k < |r| ==> TripleAcceleration(ps, ts, k + 1) == Some(r[k])
  {
    if Guard(ps) {
      VelocitiesUnderGuard(ps, ts);
      var r := Accelerations(ps, ts);
      forall k | 0 <= k < |r|
        ensures TripleAcceleration(ps, ts, k + 1) == Some(r[k])
      {
        AccelerationEntryIsTriple(ps, ts, k);
      }
    }
  }

  lemma AccelerationEntryIsTriple(ps: seq<Option<Vec>>, ts: seq<real>, k: int)
    requires Shaped(ps, ts) && AccelerationDefined(ps, ts) && Guard(ps)
    requires 0 <= k < |Accelerations(ps, ts)|
    ensures k <= 1
    ensures TripleAcceleration(ps, ts, k + 1) == Some(Accelerations(ps, ts)[k])
  {
    VelocitiesUnderGuard(ps, ts);
    var vs := Velocities(ps, ts);
    var r := Accelerations(ps, ts);
    var v1, v2 := vs[k].vector, vs[k+1].vector;
    assert Velocity(ps, ts, k + 1) == Some(v1);
    assert Velocity(ps, ts, k + 2) == Some(v2);
    var dt := vs[k+1].time - vs[k].time;
    assert dt == MidTime(ts, k + 2) - MidTime(ts, k + 1);
    assert Scale(r[k], dt) == Sub(v2, v1);
    var t := TripleAcceleration(ps, ts, k + 1);
    assert t.Some?;
    assert Scale(t.value, dt) == Sub(v2, v1);
    ScaleCancels(t.value, r[k], dt);
  }

  /** Two vectors scaled by the same non-zero factor to the same vector are equal. */
  lemma ScaleCancels(a: Vec, b: Vec, c: real)
    requires c != 0.0 && Scale(a, c) == Scale(b, c)
    ensures a == b
  {
    assert a.x * c == b.x * c;
    assert a.y * c == b.y * c;
  }

  /** Strictly increasing times make every division in the chain safe. */
  lemma IncreasingTimesDefineAll(ps: seq<Option<Vec>>, ts: seq<real>)
    requires Shaped(ps, ts)
    requires ts[0] < ts[1] < ts[2] < ts[3]
    ensures AccelerationDefined(ps, ts)
  {
  }

  /** The change in displacement over the three pairs adds up to the total displacement. */
  lemma DeltasTelescope(ps: seq<Option<Vec>>)
    requires |ps| == 4 && forall k :: 0 <= k < 4 ==> ps[k].Some?
    ensures Add(Add(DeltaDisplacement(ps, 1).value, DeltaDisplacement(ps, 2).value),
                DeltaDisplacement(ps, 3).value)
            == Sub(ps[3].value, ps[0].value)
  {
  }

  /** Position at time t under constant acceleration a from p0 with velocity v0. */
  function Motion(p0: Vec, v0: Vec, a: Vec, t: real): Vec
  {
    Vec(Quadratic(p0.x, v0.x, a.x, t), Quadratic(p0.y, v0.y, a.y, t))
  }

  /** One coordinate of Motion: p + v t + a t^2 / 2. */
  function Quadratic(p: real, v: real, a: real, t: real): real
  {
    p + v * t + a * (t * t / 2.0)
  }

  /**
   * The change of a quadratic over [t1, t2] is its rate at the middle
   * times the length of the interval.
   */
  lemma QuadraticDifference(p: real, v: real, a: real, t1: real, t2: real)
    ensures Quadratic(p, v, a, t2) - Quadratic(p, v, a, t1) == (v + a * ((t1 + t2) / 2.0)) * (t2 - t1)
  {
    assert t2 * t2 - t1 * t1 == (t2 - t1) * (t2 + t1);
    assert a * (t2 * t2 / 2.0) - a * (t1 * t1 / 2.0) == a * ((t2 - t1) * (t2 + t1)) / 2.0;
    assert v * t2 - v * t1 == v * (t2 - t1);
  }

  /**
   * Under uniform acceleration the displacement over [t1, t2] is the
   * velocity at the middle of the interval times its length.
   */
  lemma MotionDisplacement(p0: Vec, v0: Vec, a: Vec, t1: real, t2: real)
    ensures Sub(Motion(p0, v0, a, t2), Motion(p0, v0, a, t1))
            == Scale(Add(v0, Scale(a, (t1 + t2) / 2.0)), t2 - t1)
  {
    var d := Sub(Motion(p0, v0, a, t2), Motion(p0, v0, a, t1));
    var w := Add(v0, Scale(a, (t1 + t2) / 2.0));
    assert d.x == w.x * (t2 - t1) by {
      QuadraticDifference(p0.x, v0.x, a.x, t1, t2);
    }
    assert d.y == w.y * (t2 - t1) by {
      QuadraticDifference(p0.y, v0.y, a.y, t1, t2);
    }
  }

  /**
   * For uniformly accelerated motion, the velocity over a pair is the true
   * velocity at the pair's mid-time.
   */
  lemma MotionVelocityAtMidTime(p0: Vec, v0: Vec, a: Vec, ps: seq<Option<Vec>>, ts: seq<real>, i: Pair)
    requires Shaped(ps, ts) && Interval(ts, i) != 0.0
    requires ps[i-1] == Some(Motion(p0, v0, a, ts[i-1])) && ps[i] == Some(Motion(p0, v0, a, ts[i]))
    ensures Velocity(ps, ts, i) == Some(Add(v0, Scale(a, MidTime(ts, i))))
  {
    MotionDisplacement(p0, v0, a, ts[i-1], ts[i]);
    var w := Add(v0, Scale(a, MidTime(ts, i)));
    assert Scale(w, Interval(ts, i)) == DeltaDisplacement(ps, i).value;
    ScaleCancels(Velocity(ps, ts, i).value, w, Interval(ts, i));
  }

  /**
   * For uniformly accelerated motion sampled at any times that keep the
   * chain defined, every computed acceleration is the true acceleration:
   * the mid-time scheme is exact.
   */
  lemma UniformAccelerationRecovered(p0: Vec, v0: Vec, a: Vec, ps: seq<Option<Vec>>, ts: seq<real>)
    requires Shaped(ps, ts) && AccelerationDefined(ps, ts)
    requires forall k :: 0 <= k < 4 && ps[k].Some? ==> ps[k].value == Motion(p0, v0, a, ts[k])
    ensures forall k :: 0 <= k < |Accelerations(ps, ts)| ==> Accelerations(ps, ts)[k] == a
  {
    AccelerationsAreTriples(ps, ts);
    forall k | 0 <= k < |Accelerations(ps, ts)|
      ensures Accelerations(ps, ts)[k] == a
    {
      MotionAccelerationEntry(p0, v0, a, ps, ts, k);
    }
  }

  lemma MotionAccelerationEntry(p0: Vec, v0: Vec, a: Vec, ps: seq<Option<Vec>>, ts: seq<real>, k: int)
    requires Shaped(ps, ts) && AccelerationDefined(ps, ts) && Guard(ps)
    requires forall k :: 0 <= k < 4 && ps[k].Some? ==> ps[k].value == Motion(p0, v0, a, ts[k])
    requires 0 <= k < |Accelerations(ps, ts)|
    ensures Accelerations(ps, ts)[k] == a
  {
    AccelerationEntryIsTriple(ps, ts, k);
    var t := TripleAcceleration(ps, ts, k + 1);
    assert ps[k].Some? && ps[k+1].Some? && ps[k+2].Some?;
    MotionTripleAcceleration(p0, v0, a, ps, ts, k + 1);
  }


  /** For uniformly accelerated motion, the acceleration of a placed triple is a. */
  lemma MotionTripleAcceleration(p0: Vec, v0: Vec, a: Vec, ps: seq<Option<Vec>>, ts: seq<real>, j: Triple)
    requires Shaped(ps, ts)
    requires Interval(ts, j) != 0.0 && Interval(ts, j + 1) != 0.0 && ts[j+1] != ts[j-1]
    requires ps[j-1] == Some(Motion(p0, v0, a, ts[j-1]))
    requires ps[j] == Some(Motion(p0, v0, a, ts[j]))
    requires ps[j+1] == Some(Motion(p0, v0, a, ts[j+1]))
    ensures TripleAcceleration(ps, ts, j) == Some(a)
  {
    MotionVelocityAtMidTime(p0, v0, a, ps, ts, j);
    MotionVelocityAtMidTime(p0, v0, a, ps, ts, j + 1);
    var m1, m2 := MidTime(ts, j), MidTime(ts, j + 1);
    assert a.x * m2 - a.x * m1 == a.x * (m2 - m1);
    assert a.y * m2 - a.y * m1 == a.y * (m2 - m1);
    assert Sub(Add(v0, Scale(a, m2)), Add(v0, Scale(a, m1))) == Scale(a, m2 - m1);
    ScaleCancels(TripleAcceleration(ps, ts, j).value, a, m2 - m1);
  }

  /**
   * With evenly spaced times h apart, the acceleration of triple j is the
   * central second difference: h^2 a == p(j+2) - 2 p(j+1) + p(j).
   */
  lemma EvenSpacingSecondDifference(ps: seq<Option<Vec>>, ts: seq<real>, j: Triple, h: real)
    requires Shaped(ps, ts) && h != 0.0
    requires ps[j-1].Some? && ps[j].Some? && ps[j+1].Some?
    requires Interval(ts, j) == h && Interval(ts, j + 1) == h
    ensures Scale(TripleAcceleration(ps, ts, j).value, h * h)
            == Add(Sub(ps[j+1].value, Scale(ps[j].value, 2.0)), ps[j-1].value)
  {
    var p1, p2, p3 := ps[j-1].value, ps[j].value, ps[j+1].value;
    var v1, v2 := Velocity(ps, ts, j).value, Velocity(ps, ts, j + 1).value;
    var a := TripleAcceleration(ps, ts, j).value;
    assert Scale(v1, h) == Sub(p2, p1);
    assert Scale(v2, h) == Sub(p3, p2);
    assert MidTime(ts, j + 1) - MidTime(ts, j) == h;
    assert Scale(a, h) == Sub(v2, v1);
    assert a.x * (h * h) == (a.x * h) * h;
    assert a.y * (h * h) == (a.y * h) * h;
  }

  /**
   * Corrected velocity: a zero interval gives "not drawn" instead of the
   * source's unguarded division. Total, and equal to Velocity wherever
   * that is defined.
   */
  function GuardedVelocity(ps: seq<Option<Vec>>, ts: seq<real>, i: Pair): (r: Option<Vec>)
    requires Shaped(ps, ts)
    ensures r.Some? <==> DeltaDisplacement(ps, i).Some? && Interval(ts, i) != 0.0
    ensures Interval(ts, i) != 0.0 ==> r == Velocity(ps, ts, i)
    ensures r.Some? ==> Scale(r.value, Interval(ts, i)) == DeltaDisplacement(ps, i).value
  {
    if Interval(ts, i) == 0.0 then None else Velocity(ps, ts, i)
  }

  /**
   * Corrected acceleration of triple j: "not drawn" when either velocity
   * is not drawn or the two mid-times coincide. Total, and equal to
   * TripleAcceleration wherever that is defined.
   */
  function GuardedTripleAcceleration(ps: seq<Option<Vec>>, ts: seq<real>, j: Triple): (r: Option<Vec>)
    requires Shaped(ps, ts)
    ensures r.Some? <==>
              && GuardedVelocity(ps, ts, j).Some? && GuardedVelocity(ps, ts, j + 1).Some?
              && MidTime(ts, j + 1) != MidTime(ts, j)
    ensures Interval(ts, j) != 0.0 && Interval(ts, j + 1) != 0.0 && ts[j+1] != ts[j-1] ==>
              r == TripleAcceleration(ps, ts, j)
  {
    if Interval(ts, j) != 0.0 && Interval(ts, j + 1) != 0.0 && ts[j+1] != ts[j-1] then
      TripleAcceleration(ps, ts, j)
    else None
  }

  /** With all four slots placed there are exactly two accelerations, a123 then a234. */
  lemma AllPlacedAccelerations(ps: seq<Option<Vec>>, ts: seq<real>)
    requires Shaped(ps, ts) && AccelerationDefined(ps, ts)
    requires forall k :: 0 <= k < 4 ==> ps[k].Some?
    ensures Accelerations(ps, ts)
            == [TripleAcceleration(ps, ts, 1).value, TripleAcceleration(ps, ts, 2).value]
  {
    AccelerationsAreTriples(ps, ts);
    var r := Accelerations(ps, ts);
    assert TripleAcceleration(ps, ts, 0 + 1) == Some(r[0]);
    assert TripleAcceleration(ps, ts, 1 + 1) == Some(r[1]);
    PairOfVectors(r);
  }

  /** Over a one-second interval velocity equals change in displacement. */
  lemma UnitIntervalVelocity(ps: seq<Option<Vec>>, ts: seq<real>, i: Pair)
    requires Shaped(ps, ts) && Interval(ts, i) == 1.0
    ensures Velocity(ps, ts, i) == DeltaDisplacement(ps, i)
  {
    if DeltaDisplacement(ps, i).Some? {
      ScaleCancels(Velocity(ps, ts, i).value, DeltaDisplacement(ps, i).value, 1.0);
    }
  }

  /** The page's default layout (1,0), (1,1), (2,2), (3,1) at times 1 to 4. */
  predicate DefaultLayout(ps: seq<Option<Vec>>, ts: seq<real>)
  {
    && |ps| == 4 && |ts| == 4
    && ps[0] == Some(Vec(1.0, 0.0)) && ps[1] == Some(Vec(1.0, 1.0))
    && ps[2] == Some(Vec(2.0, 2.0)) && ps[3] == Some(Vec(3.0, 1.0))
    && ts[0] == 1.0 && ts[1] == 2.0 && ts[2] == 3.0 && ts[3] == 4.0
  }

  /** Default layout: v12 = (0, 1), v23 = (1, 1), v34 = (1, -1). */
  lemma DefaultLayoutVelocity(ps: seq<Option<Vec>>, ts: seq<real>, i: Pair)
    requires DefaultLayout(ps, ts)
    ensures Velocity(ps, ts, i) == Some([Vec(0.0, 1.0), Vec(1.0, 1.0), Vec(1.0, -1.0)][i-1])
  {
    assert Interval(ts, i) == 1.0;
    UnitIntervalVelocity(ps, ts, i);
  }

  /** Default layout: a123 = (1, 0) and a234 = (0, -2). */
  lemma DefaultLayoutAcceleration(ps: seq<Option<Vec>>, ts: seq<real>, j: Triple)
    requires DefaultLayout(ps, ts)
    ensures TripleAcceleration(ps, ts, j) == Some([Vec(1.0, 0.0), Vec(0.0, -2.0)][j-1])
  {
    var want := [Vec(1.0, 0.0), Vec(0.0, -2.0)][j-1];
    EvenSpacingSecondDifference(ps, ts, j, 1.0);
    DefaultSecondDifference(ps, ts, j);
    ScaleCancels(TripleAcceleration(ps, ts, j).value, want, 1.0);
  }

  lemma DefaultSecondDifference(ps: seq<Option<Vec>>, ts: seq<real>, j: Triple)
    requires DefaultLayout(ps, ts)
    ensures Add(Sub(ps[j+1].value, Scale(ps[j].value, 2.0)), ps[j-1].value)
            == Scale([Vec(1.0, 0.0), Vec(0.0, -2.0)][j-1], 1.0 * 1.0)
  {
  }

  lemma PairOfVectors(r: seq<Vec>)
    requires |r| == 2
    ensures r == [r[0], r[1]]
  {
  }
}
