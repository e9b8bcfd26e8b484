/** The interpolated path of a long drag, on the real integer bounds of the source. */
module DragPath {
  import opened Basics
  import opened InputTypes

  const DRAG_STEP_PX: nat := 64
  const DRAG_STEP_CAP: nat := 4_096
  const I32_MIN: int := -0x8000_0000

  predicate IsI32(v: int) {
    I32_MIN <= v <= I32_MAX
  }

  /** Chebyshev distance. */
  function Reach(from: Point, to: Point): nat {
    Max(Abs(to.x - from.x), Abs(to.y - from.y))
  }

  /** How many points a drag emits, or none when it would emit too many. */
  function PointCount(from: Point, to: Point): Option<nat> {
    var dist := Reach(from, to);
    var steps := if dist <= DRAG_STEP_PX then 1 else (dist + DRAG_STEP_PX - 1) / DRAG_STEP_PX;
    if steps > DRAG_STEP_CAP then None else Some(steps)
  }

  /** Integer division that truncates toward zero, as on `i64`. */
  function Quotient(a: int, n: nat): int
    requires n > 0
  {
    if a >= 0 then a / n else -(-a / n)
  }

  /** The checked narrowing to 32 bits, which clamps what does not fit. */
  function Clamp32(v: int): int {
    if IsI32(v) then v else if v > 0 then I32_MAX else I32_MIN
  }

  /** The `i`th of `n` points; point 0 is the start. */
  function Waypoint(from: Point, to: Point, n: nat, i: nat): Point
    requires n > 0
  {
    Point(Clamp32(from.x + Quotient((to.x - from.x) * i, n)), Clamp32(from.y + Quotient((to.y - from.y) * i, n)))
  }

  // ----- one axis

  lemma MulMonotone(n: nat, x: int, y: int)
    requires x <= y
    ensures n * x <= n * y
  {
    assert n * y - n * x == n * (y - x);
  }

  /** The quotient is the only number whose multiple brackets the value. */
  lemma QuotientIs(v: nat, n: nat, q: int)
    requires n > 0 && n * q <= v < n * q + n
    ensures v / n == q
  {
    var p := v / n;
    assert n * p <= v < n * p + n;
    if p < q {
      MulMonotone(n, p + 1, q);
    } else if q < p {
      MulMonotone(n, q + 1, p);
    }
  }

  lemma DivMonotone(a: nat, b: nat, n: nat)
    requires n > 0 && a <= b
    ensures a / n <= b / n
  {
    var p, q := a / n, b / n;
    assert n * p <= a && b < n * q + n;
    if q < p {
      MulMonotone(n, q + 1, p);
    }
  }

  /** Going `i` of `n` parts along a span `d` stays within the span and ends at it. */
  lemma AxisStaysInside(d: nat, n: nat, i: nat)
    requires n > 0 && i <= n
    ensures 0 <= (d * i) / n <= d
    ensures (d * n) / n == d
  {
    MulMonotone(d, i, n);
    DivMonotone(d * i, d * n, n);
    QuotientIs(d * n, n, d);
  }

  /** One part of a span of at most 64 pixels per part moves at most 64 pixels. */
  lemma AxisStepIsShort(d: nat, n: nat, i: nat)
    requires n > 0 && d <= DRAG_STEP_PX * n
    ensures 0 <= (d * (i + 1)) / n - (d * i) / n <= DRAG_STEP_PX
  {
    var a := d * i;
    assert d * (i + 1) == a + d;
    var top := a + DRAG_STEP_PX * n;
    DivMonotone(a, a + d, n);
    DivMonotone(a + d, top, n);
    var q := a / n;
    assert n * (q + DRAG_STEP_PX) == n * q + DRAG_STEP_PX * n;
    QuotientIs(top, n, q + DRAG_STEP_PX);
  }

  /** A coordinate on the way from `start` by `d`, as the source computes it. */
  function OnAxis(start: int, d: int, n: nat, i: nat): int
    requires n > 0
  {
    start + Quotient(d * i, n)
  }

  /** Truncation toward zero mirrors the axis. */
  lemma AxisMirrors(d: int, n: nat, i: nat)
    requires n > 0
    ensures Quotient(d * i, n) == if d >= 0 then (Abs(d) * i) / n else -((Abs(d) * i) / n)
  {
    if d >= 0 {
      assert d * i == Abs(d) * i;
      MulMonotone(i, 0, d);
    } else {
      assert d * i == -(Abs(d) * i);
      MulMonotone(i, d, 0);
    }
  }

  lemma AxisFacts(start: int, d: int, n: nat, i: nat)
    requires n > 0 && Abs(d) <= DRAG_STEP_PX * n && i <= n
    ensures d >= 0 ==> start <= OnAxis(start, d, n, i) <= start + d
    ensures d <= 0 ==> start + d <= OnAxis(start, d, n, i) <= start
    ensures i == n ==> OnAxis(start, d, n, i) == start + d
    ensures i == 0 ==> OnAxis(start, d, n, i) == start
    ensures Abs(OnAxis(start, d, n, i + 1) - OnAxis(start, d, n, i)) <= DRAG_STEP_PX
  {
    AxisMirrors(d, n, i);
    AxisMirrors(d, n, i + 1);
    AxisStaysInside(Abs(d), n, i);
    AxisStepIsShort(Abs(d), n, i);
  }

  // ----- the whole path

  /** A drag is accepted exactly up to 64 pixels for each of 4096 points. */
  lemma AcceptedExactly(from: Point, to: Point)
    ensures PointCount(from, to).Some? <==> Reach(from, to) <= DRAG_STEP_PX * DRAG_STEP_CAP
    ensures PointCount(from, to).Some? ==>
              var n := PointCount(from, to).value;
              1 <= n <= DRAG_STEP_CAP && Reach(from, to) <= DRAG_STEP_PX * n
  {
  }

  predicate IsI32Point(p: Point) {
    IsI32(p.x) && IsI32(p.y)
  }

  predicate Between(a: int, v: int, b: int) {
    if a <= b then a <= v <= b else b <= v <= a
  }

  predicate InBox(from: Point, p: Point, to: Point) {
    Between(from.x, p.x, to.x) && Between(from.y, p.y, to.y)
  }

  /**
   Every point of an accepted drag lies in the box its ends span, so inside any rectangle
   that holds both ends; the narrowing never clamps; no step is longer than 64 pixels on
   either axis; and the last point is the target.
   */
  lemma PathIsSound(from: Point, to: Point, i: nat)
    requires PointCount(from, to).Some? && i <= PointCount(from, to).value
    requires IsI32Point(from) && IsI32Point(to)
    ensures var n := PointCount(from, to).value;
            var p := Waypoint(from, to, n, i);
            && InBox(from, p, to)
            && p == Point(OnAxis(from.x, to.x - from.x, n, i), OnAxis(from.y, to.y - from.y, n, i))
            && (i == 0 ==> p == from) && (i == n ==> p == to)
            && (i < n ==> Reach(p, Waypoint(from, to, n, i + 1)) <= DRAG_STEP_PX)
  {
    var n := PointCount(from, to).value;
    AcceptedExactly(from, to);
    AxisFacts(from.x, to.x - from.x, n, i);
    AxisFacts(from.y, to.y - from.y, n, i);
    if i < n {
      AxisFacts(from.x, to.x - from.x, n, i + 1);
      AxisFacts(from.y, to.y - from.y, n, i + 1);
    }
  }

  /** Both ends on the root window: every point of the drag is. */
  lemma PathStaysOnRoot(from: Point, to: Point, i: nat, width: nat, height: nat)
    requires PointCount(from, to).Some? && i <= PointCount(from, to).value
    requires width <= 0xffff && height <= 0xffff
    requires 0 <= from.x < width && 0 <= from.y < height && 0 <= to.x < width && 0 <= to.y < height
    ensures var p := Waypoint(from, to, PointCount(from, to).value, i);
            0 <= p.x < width && 0 <= p.y < height
  {
    PathIsSound(from, to, i);
  }

  /** The products of the interpolation stay far inside 64 bits. */
  lemma ProductsFit(from: Point, to: Point, i: nat)
    requires PointCount(from, to).Some? && i <= PointCount(from, to).value
    ensures Abs((to.x - from.x) * i) <= 0x4000_0000 && Abs((to.y - from.y) * i) <= 0x4000_0000
  {
    AcceptedExactly(from, to);
    ProductBound(to.x - from.x, i);
    ProductBound(to.y - from.y, i);
  }

  lemma ProductBound(d: int, i: nat)
    requires Abs(d) <= DRAG_STEP_PX * DRAG_STEP_CAP && i <= DRAG_STEP_CAP
    ensures Abs(d * i) <= DRAG_STEP_PX * DRAG_STEP_CAP * DRAG_STEP_CAP
  {
    assert Abs(d * i) == Abs(d) * i;
    assert Abs(d) * i <= Abs(d) * DRAG_STEP_CAP;
  }

  // ----- the steps of a drag

  /** Move to the start, press, walk the points, release. */
  function Plan(from: Point, to: Point, button: Button): seq<PointerStep>
    requires PointCount(from, to).Some?
  {
    var n := PointCount(from, to).value;
    [MoveTo(from.x, from.y), Press(button, true)]
    + seq(n, (i: int) requires 0 <= i < n => var p := Waypoint(from, to, n, i + 1); MoveTo(p.x, p.y))
    + [Press(button, false)]
  }

  /** n+3 steps; the button goes down once before every point of the walk and up once after the target. */
  lemma PlanShape(from: Point, to: Point, button: Button)
    requires PointCount(from, to).Some? && IsI32Point(from) && IsI32Point(to)
    ensures var n := PointCount(from, to).value;
            var plan := Plan(from, to, button);
            && |plan| == n + 3
            && plan[0] == MoveTo(from.x, from.y)
            && (forall k :: 0 <= k < |plan| ==> (plan[k].Press? <==> k == 1 || k == n + 2))
            && plan[1] == Press(button, true) && plan[n + 2] == Press(button, false)
            && plan[n + 1] == MoveTo(to.x, to.y)
  {
    AcceptedExactly(from, to);
    PathIsSound(from, to, PointCount(from, to).value);
  }

  // ----- the source's iterators

  class DragWaypoints {
    const from: Point
    const to: Point
    const steps: nat
    var nextIndex: nat

    ghost predicate Valid()
      reads this
    {
      PointCount(from, to) == Some(steps) && 1 <= nextIndex <= steps + 1
    }

    constructor (from: Point, to: Point, steps: nat)
      requires PointCount(from, to) == Some(steps)
      ensures Valid() && nextIndex == 1 && this.from == from && this.to == to
    {
      this.from, this.to, this.steps := from, to, steps;
      nextIndex := 1;
      new;
      AcceptedExactly(from, to);
    }

    method Next() returns (p: Option<Point>)
      requires Valid()
      modifies this
      ensures Valid()
      ensures old(nextIndex) <= steps ==>
              p == Some(Waypoint(from, to, steps, old(nextIndex))) && nextIndex == old(nextIndex) + 1
      ensures old(nextIndex) > steps ==> p == None && nextIndex == old(nextIndex)
    {
      if nextIndex > steps {
        return None;
      }
      var i := nextIndex;
      nextIndex := nextIndex + 1;
      var x := from.x + Quotient((to.x - from.x) * i, steps);
      var y := from.y + Quotient((to.y - from.y) * i, steps);
      p := Some(Point(Clamp32(x), Clamp32(y)));
    }
  }

  class DragSteps {
    const button: Button
    const waypoints: DragWaypoints
    var phase: nat

    ghost predicate Valid()
      reads this, waypoints
    {
      waypoints.Valid() && phase <= 3 && (phase < 2 ==> waypoints.nextIndex == 1) &&
      (phase == 3 ==> waypoints.nextIndex == waypoints.steps + 1)
    }

    ghost function All(): seq<PointerStep>
      reads this, waypoints
      requires Valid()
    {
      Plan(waypoints.from, waypoints.to, button)
    }

    /** How many steps have been yielded. */
    ghost function Position(): nat
      reads this, waypoints
      requires Valid()
    {
      if phase < 2 then phase
      else if phase == 2 then waypoints.nextIndex + 1
      else waypoints.steps + 3
    }

    constructor (from: Point, to: Point, steps: nat, button: Button)
      requires PointCount(from, to) == Some(steps)
      ensures Valid() && fresh(waypoints) && Position() == 0 && All() == Plan(from, to, button)
    {
      this.button := button;
      this.waypoints := new DragWaypoints(from, to, steps);
      phase := 0;
    }

    /** Yields exactly the plan, one step a call, then nothing. */
    method Next() returns (step: Option<PointerStep>)
      requires Valid()
      modifies this, waypoints
      ensures Valid() && All() == old(All())
      ensures old(Position()) < |All()| ==> step == Some(All()[old(Position())]) && Position() == old(Position()) + 1
      ensures old(Position()) == |All()| ==> step == None && Position() == old(Position())
    {
      if phase == 0 {
        phase := 1;
        return Some(MoveTo(waypoints.from.x, waypoints.from.y));
      }
      if phase == 1 {
        phase := 2;
        return Some(Press(button, true));
      }
      if phase == 2 {
        var p := waypoints.Next();
        if p.Some? {
          return Some(MoveTo(p.value.x, p.value.y));
        }
        phase := 3;
        return Some(Press(button, false));
      }
      step := None;
    }
  }

  /** `drag_steps`: refused when the span is too long, otherwise the iterator over its plan. */
  method Steps(from: Point, to: Point, button: Button) returns (steps: Option<DragSteps>)
    ensures steps.Some? <==> Reach(from, to) <= DRAG_STEP_PX * DRAG_STEP_CAP
    ensures steps.Some? ==> fresh(steps.value) && fresh(steps.value.waypoints) && steps.value.Valid()
                            && steps.value.Position() == 0 && steps.value.All() == Plan(from, to, button)
  {
    AcceptedExactly(from, to);
    var count := PointCount(from, to);
    if count == None {
      return None;
    }
    var all := new DragSteps(from, to, count.value, button);
    steps := Some(all);
  }
}
