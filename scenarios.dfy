/** End-to-end uses of the solver and the shield as their callers drive them: one
    projectile step against one circle, and a shield configured as the Beta
    kamikaze enemy configures it. */
module Scenarios {
  import opened Wrappers
  import opened EquationSolving
  import opened Shields

  /** The root of 36 is 6. */
  lemma SqrtOf36(sqrt: real -> real)
    requires IsSqrt(sqrt)
    ensures sqrt(36.0) == 6.0
  {
    SqrtOfSquare(sqrt, 6.0);
    assert 6.0 * 6.0 == 36.0;
  }

  /** A square root returns v for v².  */
  lemma SqrtOfSquare(sqrt: real -> real, v: real)
    requires IsSqrt(sqrt) && v >= 0.0
    ensures sqrt(v * v) == v
  {
    var s := sqrt(v * v);
    assert s >= 0.0 && s * s == v * v;
    assert (s - v) * (s + v) == 0.0;
    if s != v {
      ZeroProduct(s + v, s - v);
    }
  }

  /** With a positive discriminant whose root is s, the two crossings are at the
      roots for +s and −s, in that order. */
  lemma TwoCrossings(l: LineEquation, c: CircleEquation, index: int, sqrt: real -> real,
                     s: real, t1: real, t2: real)
    requires Discriminant(Substituted(l, c)) > 0.0 && sqrt(Discriminant(Substituted(l, c))) == s
    requires Root(Substituted(l, c), s) == t1 && Root(Substituted(l, c), -s) == t2
    ensures Intersections(l, c, index, sqrt)
            == [IntersectionPoint(index, PointAt(l, t1)), IntersectionPoint(index, PointAt(l, t2))]
  {
  }

  /** x² − 9 = 0 has discriminant 36 and the roots 3 and −3. */
  lemma VerticalQuadratic()
    ensures Substituted(LineEquation(-1.0, 0.0, 0.0, Vertical), CircleEquation(0.0, 0.0, 9.0)) == Quadratic(1.0, 0.0, -9.0)
    ensures Discriminant(Quadratic(1.0, 0.0, -9.0)) == 36.0
    ensures Root(Quadratic(1.0, 0.0, -9.0), 6.0) == 3.0 && Root(Quadratic(1.0, 0.0, -9.0), -6.0) == -3.0
  {
  }

  /** x² − 40x + 391 = 0 has discriminant 36 and the roots 23 and 17. */
  lemma HorizontalQuadratic()
    ensures Substituted(LineEquation(0.0, 1.0, 0.0, Horizontal), CircleEquation(-20.0, 0.0, 9.0)) == Quadratic(1.0, -40.0, 391.0)
    ensures Discriminant(Quadratic(1.0, -40.0, 391.0)) == 36.0
    ensures Root(Quadratic(1.0, -40.0, 391.0), 6.0) == 23.0 && Root(Quadratic(1.0, -40.0, 391.0), -6.0) == 17.0
  {
  }

  /** On y = 0 the root t is the point (t, 0). */
  lemma HorizontalPoints(t: real)
    ensures PointAt(LineEquation(0.0, 1.0, 0.0, Horizontal), t) == Point(t, 0.0)
  {
  }

  /** The crossings of the vertical line x = 0 with the circle of radius 3 at the origin. */
  lemma VerticalCrossings(sqrt: real -> real)
    requires sqrt(36.0) == 6.0
    ensures Intersections(LineEquation(-1.0, 0.0, 0.0, Vertical), CircleEquation(0.0, 0.0, 9.0), 0, sqrt)
            == [IntersectionPoint(0, Point(0.0, 3.0)), IntersectionPoint(0, Point(0.0, -3.0))]
  {
    VerticalQuadratic();
    TwoCrossings(LineEquation(-1.0, 0.0, 0.0, Vertical), CircleEquation(0.0, 0.0, 9.0), 0, sqrt, 6.0, 3.0, -3.0);
  }

  /** The crossings of the horizontal line y = 0 with the circle of radius 3 at (20, 0). */
  lemma HorizontalCrossings(sqrt: real -> real)
    requires sqrt(36.0) == 6.0
    ensures Intersections(LineEquation(0.0, 1.0, 0.0, Horizontal), CircleEquation(-20.0, 0.0, 9.0), 0, sqrt)
            == [IntersectionPoint(0, Point(23.0, 0.0)), IntersectionPoint(0, Point(17.0, 0.0))]
  {
    HorizontalQuadratic();
    HorizontalPoints(23.0);
    HorizontalPoints(17.0);
    TwoCrossings(LineEquation(0.0, 1.0, 0.0, Horizontal), CircleEquation(-20.0, 0.0, 9.0), 0, sqrt, 6.0, 23.0, 17.0);
  }

  /** The intersections a projectile step from start to end can hit: the crossings
      of the line through both ends with the circle, in the solver's order, that lie
      ahead of the start in the step's direction. */
  function StepCandidates(start: Point, end: Point, centreX: real, centreY: real, radius: real,
                          index: int, sqrt: real -> real): seq<IntersectionPoint>
  {
    var crossings := Intersections(LineThroughPoints(start, end), CircleFromCentre(centreX, centreY, radius), index, sqrt);
    FilterDirection(crossings, start, Point(end.x - start.x, end.y - start.y))
  }

  /** Resets the solver and collects the crossings of the line through start and end
      with one circle; the solver is left valid, holding that line and circle, ready
      for the next step. */
  method SolveStep(solver: EquationSolver, start: Point, end: Point,
                   centreX: real, centreY: real, radius: real, index: int, sqrt: real -> real)
    requires solver.Valid()
    modifies solver, solver.lineEquationDataHolder
    ensures solver.Valid() && fresh(solver.lineEquationDataHolder)
    ensures solver.line == LineThroughPoints(start, end)
    ensures solver.circle == CircleFromCentre(centreX, centreY, radius)
    ensures solver.intersectionPoints
            == Intersections(LineThroughPoints(start, end), CircleFromCentre(centreX, centreY, radius), index, sqrt)
    ensures solver.intersectionCount == |solver.intersectionPoints|
  {
    solver.Flush();
    solver.SetLineEquationFromPoints(start, end);
    solver.SetCircleEquation(centreX, centreY, radius);
    solver.SolveLineCircleIntersection(index, sqrt);
  }

  /** One projectile step against one circle, as a caller drives the solver: reset it,
      set the line through both ends and the circle, solve, keep the points ahead of
      the start and take the one nearest to it. The solver is left valid, holding the
      step's line, circle and surviving points, so the next step can reuse it. */
  method ProjectileStep(solver: EquationSolver, start: Point, end: Point,
                        centreX: real, centreY: real, radius: real, index: int, sqrt: real -> real)
    returns (hit: Option<IntersectionPoint>)
    requires solver.Valid()
    modifies solver, solver.lineEquationDataHolder
    ensures var pts := StepCandidates(start, end, centreX, centreY, radius, index, sqrt);
            && (hit.None? <==> pts == [])
            && (hit.Some? ==> exists k :: FirstClosestAmong(pts, |pts|, k, start) && hit.value == pts[k])
    ensures solver.Valid() && fresh(solver.lineEquationDataHolder)
    ensures solver.line == LineThroughPoints(start, end)
    ensures solver.circle == CircleFromCentre(centreX, centreY, radius)
    ensures solver.intersectionPoints == StepCandidates(start, end, centreX, centreY, radius, index, sqrt)
    ensures solver.intersectionCount
            == |Intersections(LineThroughPoints(start, end), CircleFromCentre(centreX, centreY, radius), index, sqrt)|
  {
    SolveStep(solver, start, end, centreX, centreY, radius, index, sqrt);
    solver.FilterPointsWithCorrectDirection(start, Point(end.x - start.x, end.y - start.y));
    assert solver.intersectionPoints == StepCandidates(start, end, centreX, centreY, radius, index, sqrt);
    hit := solver.GetClosestIntersectionPoint(start);
  }

  /** The line of the vertical step, in the solver's form. */
  lemma VerticalStepLine()
    ensures LineThroughPoints(Point(0.0, -50.0), Point(0.0, 0.0)) == LineEquation(-1.0, 0.0, 0.0, Vertical)
  {
  }

  /** The two circles, in the solver's form. */
  lemma StepCircles()
    ensures CircleFromCentre(0.0, 0.0, 3.0) == CircleEquation(0.0, 0.0, 9.0)
    ensures CircleFromCentre(20.0, 0.0, 3.0) == CircleEquation(-20.0, 0.0, 9.0)
  {
  }

  /** Both crossings lie ahead of the vertical step's start. */
  lemma StepFilters()
    ensures var pts := [IntersectionPoint(0, Point(0.0, 3.0)), IntersectionPoint(0, Point(0.0, -3.0))];
            FilterDirection(pts, Point(0.0, -50.0), Point(0.0, 50.0)) == pts
  {
    var pts := [IntersectionPoint(0, Point(0.0, 3.0)), IntersectionPoint(0, Point(0.0, -3.0))];
    FilterDirectionKeepsAll(pts, Point(0.0, -50.0), Point(0.0, 50.0));
  }

  /** For a step along y = 0 that starts left of both crossings (23, 0) and (17, 0):
      heading right keeps both, heading left drops both. */
  lemma LevelStepFilters(start: Point, end: Point)
    requires start.y == 0.0 && end.y == 0.0 && start.x < 17.0
    ensures var pts := [IntersectionPoint(0, Point(23.0, 0.0)), IntersectionPoint(0, Point(17.0, 0.0))];
            var direction := Point(end.x - start.x, end.y - start.y);
            && (start.x < end.x ==> FilterDirection(pts, start, direction) == pts)
            && (end.x < start.x ==> FilterDirection(pts, start, direction) == [])
  {
    var pts := [IntersectionPoint(0, Point(23.0, 0.0)), IntersectionPoint(0, Point(17.0, 0.0))];
    var direction := Point(end.x - start.x, end.y - start.y);
    if start.x < end.x {
      FilterDirectionKeepsAll(pts, start, direction);
    } else if end.x < start.x {
      assert !HeadsInDirection(pts[0], start, direction) && !HeadsInDirection(pts[1], start, direction);
      assert FilterDirection(pts[..1], start, direction) == [];
    }
  }

  /** The crossings of the vertical step's line with the circle at the origin. */
  lemma VerticalStepCrossings(sqrt: real -> real)
    requires sqrt(36.0) == 6.0
    ensures Intersections(LineThroughPoints(Point(0.0, -50.0), Point(0.0, 0.0)), CircleFromCentre(0.0, 0.0, 3.0), 0, sqrt)
            == [IntersectionPoint(0, Point(0.0, 3.0)), IntersectionPoint(0, Point(0.0, -3.0))]
  {
    VerticalStepLine();
    StepCircles();
    VerticalCrossings(sqrt);
  }

  /** The crossings of a horizontal step's line, either way along y = 0, with the
      circle at (20, 0). */
  lemma HorizontalStepCrossings(sqrt: real -> real, start: Point, end: Point)
    requires sqrt(36.0) == 6.0
    requires start.y == 0.0 && end.y == 0.0 && start.x != end.x
    ensures Intersections(LineThroughPoints(start, end), CircleFromCentre(20.0, 0.0, 3.0), 0, sqrt)
            == [IntersectionPoint(0, Point(23.0, 0.0)), IntersectionPoint(0, Point(17.0, 0.0))]
  {
    LineThroughLevelPoints(start, end);
    assert LineThroughPoints(start, end) == LineEquation(0.0, 1.0, 0.0, Horizontal);
    StepCircles();
    HorizontalCrossings(sqrt);
  }

  /** Of two crossings, the second strictly nearer, the closest-point query returns the second. */
  lemma ClosestOfTwo(pts: seq<IntersectionPoint>, origin: Point, hit: Option<IntersectionPoint>)
    requires |pts| == 2
    requires SquaredDistance(pts[1].coordinates, origin) < SquaredDistance(pts[0].coordinates, origin)
    requires hit.None? <==> pts == []
    requires hit.Some? ==> exists k :: FirstClosestAmong(pts, |pts|, k, origin) && hit.value == pts[k]
    ensures hit == Some(pts[1])
  {
    assert hit.Some?;
    ClosestOfTwoIsSecond(pts, origin, hit.value);
  }

  lemma ClosestOfTwoIsSecond(pts: seq<IntersectionPoint>, origin: Point, hit: IntersectionPoint)
    requires |pts| == 2
    requires SquaredDistance(pts[1].coordinates, origin) < SquaredDistance(pts[0].coordinates, origin)
    requires exists k :: FirstClosestAmong(pts, |pts|, k, origin) && hit == pts[k]
    ensures hit == pts[1]
  {
    var k :| FirstClosestAmong(pts, |pts|, k, origin) && hit == pts[k];
    assert k != 0 by {
      var d0, d1 := SquaredDistance(pts[0].coordinates, origin), SquaredDistance(pts[1].coordinates, origin);
      assert d1 < d0;
    }
  }

  /** (0, −3) is nearer the vertical step's start than (0, 3). */
  lemma StepDistances()
    ensures SquaredDistance(Point(0.0, -3.0), Point(0.0, -50.0)) < SquaredDistance(Point(0.0, 3.0), Point(0.0, -50.0))
  {
  }

  /** From any point of y = 0 left of 17, (17, 0) is nearer than (23, 0). */
  lemma LevelStepDistances(start: Point)
    requires start.y == 0.0 && start.x < 17.0
    ensures SquaredDistance(Point(17.0, 0.0), start) < SquaredDistance(Point(23.0, 0.0), start)
  {
    var u, v := 17.0 - start.x, 23.0 - start.x;
    assert v * v - u * u == (v - u) * (v + u);
  }

  /** Solves one step and filters it by the step's direction, given what the crossings
      and the surviving points are; the solver is left valid, holding the survivors. */
  method FilteredStep(solver: EquationSolver, start: Point, end: Point,
                      centreX: real, centreY: real, radius: real, index: int, sqrt: real -> real,
                      ghost crossings: seq<IntersectionPoint>, ghost kept: seq<IntersectionPoint>)
    requires solver.Valid()
    requires Intersections(LineThroughPoints(start, end), CircleFromCentre(centreX, centreY, radius), index, sqrt)
             == crossings
    requires FilterDirection(crossings, start, Point(end.x - start.x, end.y - start.y)) == kept
    modifies solver, solver.lineEquationDataHolder
    ensures solver.Valid() && solver.intersectionPoints == kept
  {
    SolveStep(solver, start, end, centreX, centreY, radius, index, sqrt);
    solver.FilterPointsWithCorrectDirection(start, Point(end.x - start.x, end.y - start.y));
  }

  /** The segment (0, −50) → (0, 0) against the circle of radius 3 at the origin:
      both crossings lie ahead, and the one nearer the start, (0, −3), is the hit. */
  method VerticalStepHitsNearSide(sqrt: real -> real) returns (hit: Option<IntersectionPoint>)
    requires sqrt(36.0) == 6.0
    ensures hit == Some(IntersectionPoint(0, Point(0.0, -3.0)))
  {
    var start, end := Point(0.0, -50.0), Point(0.0, 0.0);
    var crossings := [IntersectionPoint(0, Point(0.0, 3.0)), IntersectionPoint(0, Point(0.0, -3.0))];
    var solver := new EquationSolver();
    VerticalStepCrossings(sqrt);
    StepFilters();
    FilteredStep(solver, start, end, 0.0, 0.0, 3.0, 0, sqrt, crossings, crossings);
    hit := solver.GetClosestIntersectionPoint(start);
    StepDistances();
    ClosestOfTwo(solver.intersectionPoints, start, hit);
  }

  /** A rightward step along y = 0 that starts left of 17, against the circle of
      radius 3 at (20, 0): the solver works on the whole line, not the segment, so it
      reports (17, 0) wherever the step ends, even short of the circle. */
  method HorizontalStepHitsBeyondSegment(sqrt: real -> real, start: Point, end: Point)
    returns (hit: Option<IntersectionPoint>)
    requires sqrt(36.0) == 6.0
    requires start.y == 0.0 && end.y == 0.0 && start.x < end.x && start.x < 17.0
    ensures hit == Some(IntersectionPoint(0, Point(17.0, 0.0)))
  {
    var solver := new EquationSolver();
    ghost var crossings := Intersections(LineThroughPoints(start, end), CircleFromCentre(20.0, 0.0, 3.0), 0, sqrt);
    ghost var kept := FilterDirection(crossings, start, Point(end.x - start.x, end.y - start.y));
    FilteredStep(solver, start, end, 20.0, 0.0, 3.0, 0, sqrt, crossings, kept);
    HorizontalStepCrossings(sqrt, start, end);
    LevelStepFilters(start, end);
    hit := solver.GetClosestIntersectionPoint(start);
    LevelStepDistances(start);
    ClosestOfTwo(solver.intersectionPoints, start, hit);
  }

  /** A leftward step along y = 0 that starts left of 17, away from the same circle:
      both crossings lie behind the start, so the filter drops them and there is no hit. */
  method StepAwayFromCircleMisses(sqrt: real -> real, start: Point, end: Point)
    returns (hit: Option<IntersectionPoint>)
    requires sqrt(36.0) == 6.0
    requires start.y == 0.0 && end.y == 0.0 && end.x < start.x < 17.0
    ensures hit == None
  {
    var solver := new EquationSolver();
    ghost var crossings := Intersections(LineThroughPoints(start, end), CircleFromCentre(20.0, 0.0, 3.0), 0, sqrt);
    ghost var kept := FilterDirection(crossings, start, Point(end.x - start.x, end.y - start.y));
    FilteredStep(solver, start, end, 20.0, 0.0, 3.0, 0, sqrt, crossings, kept);
    HorizontalStepCrossings(sqrt, start, end);
    LevelStepFilters(start, end);
    hit := solver.GetClosestIntersectionPoint(start);
  }

  /** The Beta enemy's shield (minimum 200, maximum 500, regeneration 2): one tick at
      full health regenerates past the maximum, so the ratio exceeds 1 and the
      intensity exceeds maximumIntensity; a hit of 600 breaks it; the next tick
      leaves it broken with its intensity unchanged; and
      destroying it twice destroys its tree once. */
  method BetaShieldLifecycle() returns (ratioAfterFirstTick: real, intensityAfterFirstTick: real, brokenAfterHit: bool,
                                        brokenAfterSecondTick: bool, intensityAfterSecondTick: real,
                                        treeDestroyRequests: nat)
    ensures ratioAfterFirstTick > 1.0 && intensityAfterFirstTick > 1.0
    ensures brokenAfterHit && brokenAfterSecondTick
    ensures intensityAfterSecondTick == intensityAfterFirstTick
    ensures treeDestroyRequests == 1
  {
    var shield := new CrescentShield(Some(200.0), 500.0, 2.0);
    shield.Update();
    ratioAfterFirstTick := shield.viableHealthRatio;
    intensityAfterFirstTick := shield.currentIntensity;
    shield.AcknowledgeSignal(CollisionSignal(true, Some(600.0)));
    brokenAfterHit := shield.isBroken;
    shield.Update();
    brokenAfterSecondTick := shield.isBroken;
    intensityAfterSecondTick := shield.currentIntensity;
    shield.Destroy();
    shield.Destroy();
    treeDestroyRequests := shield.collisionTree.destroyRequests;
  }
}
