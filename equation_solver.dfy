/** The line–circle intersection solver: a reusable scratch object that turns two
    points into a line in general form, a centre and radius into a circle in
    negated general form, and collects the tagged intersection points of the two,
    with a closest-point query and an in-place direction filter over them.

    Numbers are reals; the host's square root is passed in as `sqrt` and is only
    ever assumed to satisfy `IsSqrt`. */
module EquationSolving {
  import opened Wrappers

  // ---------------------------------------------------------------------------
  // Data model
  // ---------------------------------------------------------------------------

  /** ELineEquationType. */
  datatype LineKind = Regular | Horizontal | Vertical

  /** coA·x + coB·y + coC = 0, tagged with the branch the solver takes. */
  datatype LineEquation = LineEquation(coA: real, coB: real, coC: real, kind: LineKind)

  /** A circle in negated general form: (px + x)² + (py + y)² − r = 0, where
      (x, y) is the negated centre and r the squared radius. */
  datatype CircleEquation = CircleEquation(x: real, y: real, r: real)

  /** A 2D point (the x and y of a THREE vector). */
  datatype Point = Point(x: real, y: real)

  /** A solution, tagged with the index of the circle that produced it. */
  datatype IntersectionPoint = IntersectionPoint(index: int, coordinates: Point)

  /** The single-variable quadratic a·t² + b·t + c = 0. */
  datatype Quadratic = Quadratic(a: real, b: real, c: real)

  /** The line and circle a freshly constructed or flushed solver holds. */
  const ClearedLine := LineEquation(0.0, 0.0, 0.0, Regular)
  const ClearedCircle := CircleEquation(0.0, 0.0, 0.0)

  // ---------------------------------------------------------------------------
  // Geometry
  // ---------------------------------------------------------------------------

  predicate OnLine(l: LineEquation, p: Point) {
    l.coA * p.x + l.coB * p.y + l.coC == 0.0
  }

  /** The left-hand side of the circle's general equation at p. */
  function CircleValue(c: CircleEquation, p: Point): real {
    (p.x + c.x) * (p.x + c.x) + (p.y + c.y) * (p.y + c.y) - c.r
  }

  predicate OnCircle(c: CircleEquation, p: Point) {
    CircleValue(c, p) == 0.0
  }

  /** A line as built from two points: x = coC when vertical, y on the left otherwise. */
  predicate ThroughTwoPoints(l: LineEquation) {
    if l.kind == Vertical then l.coA == -1.0 && l.coB == 0.0 else l.coB == 1.0
  }

  /** Every line the solver can hold: one built from two points, or the cleared one. */
  predicate WellFormedLine(l: LineEquation) {
    ThroughTwoPoints(l) || l == ClearedLine
  }

  /** The square-root function of the host, as far as the model relies on it. */
  ghost predicate IsSqrt(sqrt: real -> real) {
    forall d :: d >= 0.0 ==> sqrt(d) >= 0.0 && sqrt(d) * sqrt(d) == d
  }

  /** setLineEquationFromPoints: the general form of the line through v1 and v2. */
  function LineThroughPoints(v1: Point, v2: Point): (l: LineEquation)
    ensures ThroughTwoPoints(l)
    ensures l.kind == Vertical <==> v1.x == v2.x
    ensures l.kind == Horizontal <==> v1.x != v2.x && v1.y == v2.y
  {
    var yDifference := v2.y - v1.y;
    var xDifference := v2.x - v1.x;
    if xDifference != 0.0 then
      var slope := yDifference / xDifference;
      assert slope * xDifference == yDifference;
      LineEquation(-1.0 * slope, 1.0, -v1.y + (slope * -v1.x) * -1.0,
                   if slope == 0.0 then Horizontal else Regular)
    else
      LineEquation(-1.0, 0.0, v1.x, Vertical)
  }

  /** setCircleEquation: the negated centre and the squared radius. */
  function CircleFromCentre(positionX: real, positionY: real, radius: real): (c: CircleEquation)
    ensures c.r >= 0.0
  {
    CircleEquation(-positionX, -positionY, radius * radius)
  }

  /** The circle built from a centre and radius holds exactly the points at that
      distance from the centre. */
  lemma CircleFromCentreIsCircle(positionX: real, positionY: real, radius: real, p: Point)
    ensures OnCircle(CircleFromCentre(positionX, positionY, radius), p) <==>
            (p.x - positionX) * (p.x - positionX) + (p.y - positionY) * (p.y - positionY) == radius * radius
  {
  }

  /** getCircleGeneralEquationVariables: (x, y, k) with (px + x)² + (py + y)² + k = 0. */
  function GeneralEquationVariables(c: CircleEquation): (g: (real, real, real))
    ensures forall p :: OnCircle(c, p) <==> (p.x + g.0) * (p.x + g.0) + (p.y + g.1) * (p.y + g.1) + g.2 == 0.0
    ensures c.r >= 0.0 ==> g.2 <= 0.0
  {
    (c.x, c.y, c.r * -1.0)
  }

  /** setLineHolderYfunction: (k, m) with y = k·x + m, signs flipped once only when coB > 0. */
  function ExplicitY(l: LineEquation): (real, real) {
    if l.coB > 0.0 then (l.coA * -1.0, l.coC * -1.0) else (l.coA, l.coC)
  }

  /** setLineHolderXfunction: (k, m) with x = k·y + m, signs flipped once only when coA > 0. */
  function ExplicitX(l: LineEquation): (real, real) {
    if l.coA > 0.0 then (l.coB * -1.0, l.coC * -1.0) else (l.coB, l.coC)
  }

  /** The explicit form the solver substitutes: y = f(x), or x = f(y) for a vertical line. */
  function ExplicitForm(l: LineEquation): (real, real) {
    if l.kind != Vertical then ExplicitY(l) else ExplicitX(l)
  }

  /** The point of the explicit line at parameter t (x for y = f(x), y for x = f(y)). */
  function PointAt(l: LineEquation, t: real): Point {
    var (k, m) := ExplicitForm(l);
    ExplicitPoint(l.kind == Vertical, k, m, t)
  }

  /** Converts a root back to a point: (t, k·t + m), or (m, t) on a vertical line,
      which has no slope, only the constant. */
  function ExplicitPoint(vertical: bool, k: real, m: real, t: real): Point {
    if !vertical then Point(t, k * t + m) else Point(m, t)
  }

  /** The coefficients of (t + soBr)² + (k·t + altBr)² + circleSquaredRadius = 0. */
  function SubstitutionQuadratic(altBrVarCoeff: real, soBrValue: real, altBrValue: real,
                                 circleSquaredRadius: real): (q: Quadratic)
    ensures q.a >= 1.0
  {
    assert altBrVarCoeff * altBrVarCoeff >= 0.0;
    Quadratic(1.0 + altBrVarCoeff * altBrVarCoeff,
              (2.0 * soBrValue) + (2.0 * altBrVarCoeff * altBrValue),
              circleSquaredRadius + altBrValue * altBrValue + soBrValue * soBrValue)
  }

  /** The quadratic obtained by substituting the explicit line into the circle. */
  function Substituted(l: LineEquation, c: CircleEquation): (q: Quadratic)
    ensures q.a >= 1.0
  {
    var (circleX, circleY, circleSquaredRadius) := GeneralEquationVariables(c);
    var (altBrVarCoeff, lineConstant) := ExplicitForm(l);
    var soBrValue := if l.kind != Vertical then circleX else circleY;
    var altBrValue := (if l.kind != Vertical then circleY else circleX) + lineConstant;
    SubstitutionQuadratic(altBrVarCoeff, soBrValue, altBrValue, circleSquaredRadius)
  }

  function Evaluate(q: Quadratic, t: real): real {
    q.a * t * t + q.b * t + q.c
  }

  function Discriminant(q: Quadratic): real {
    q.b * q.b + (-4.0 * q.a * q.c)
  }

  /** The root (−b + s) / 2a; with s = −√D it is the other root. */
  function Root(q: Quadratic, s: real): real
    requires q.a != 0.0
  {
    (-q.b + s) / (2.0 * q.a)
  }

  /** The points solveLineCircleIntersection appends: two when the discriminant is
      positive (the +√D root first), one when it is zero, none when it is negative. */
  function Intersections(l: LineEquation, c: CircleEquation, index: int, sqrt: real -> real)
    : (r: seq<IntersectionPoint>)
    ensures |r| == (var d := Discriminant(Substituted(l, c));
                    if d > 0.0 then 2 else if d == 0.0 then 1 else 0)
    ensures forall p :: p in r ==> p.index == index
    ensures r != [] ==>
              var q := Substituted(l, c);
              r[0].coordinates == PointAt(l, Root(q, sqrt(Discriminant(q))))
  {
    var q := Substituted(l, c);
    var d := Discriminant(q);
    if d < 0.0 then []
    else
      var s := sqrt(d);
      var first := IntersectionPoint(index, PointAt(l, Root(q, s)));
      if d > 0.0 then [first, IntersectionPoint(index, PointAt(l, Root(q, -s)))]
      else [first]
  }

  // ---------------------------------------------------------------------------
  // Lemmas: the line, the substitution and the quadratic
  // ---------------------------------------------------------------------------

  /** The coefficients of the line through two points: x = v1.x when they are stacked
      vertically, y = slope·x + (v1.y − slope·v1.x) otherwise. */
  lemma LineThroughPointsCoefficients(v1: Point, v2: Point)
    ensures var l := LineThroughPoints(v1, v2);
            v1.x == v2.x ==> l.coA == -1.0 && l.coB == 0.0 && l.coC == v1.x
    ensures var l := LineThroughPoints(v1, v2);
            v1.x != v2.x ==>
              var slope := (v2.y - v1.y) / (v2.x - v1.x);
              l.coB == 1.0 && l.coA == -slope && l.coC == -v1.y + slope * v1.x
  {
  }

  /** The line built from two points passes through both of them (for equal points,
      it is the vertical line through them). */
  lemma LineThroughPointsContainsEnds(v1: Point, v2: Point)
    ensures OnLine(LineThroughPoints(v1, v2), v1) && OnLine(LineThroughPoints(v1, v2), v2)
  {
    var dx, dy := v2.x - v1.x, v2.y - v1.y;
    if dx != 0.0 {
      var slope := dy / dx;
      assert slope * dx == dy;
    }
  }

  /** For two distinct points, a point lies on their line exactly when it is collinear with them. */
  lemma LineThroughPointsIsCollinear(v1: Point, v2: Point, p: Point)
    requires v1 != v2
    ensures OnLine(LineThroughPoints(v1, v2), p) <==>
            (p.x - v1.x) * (v2.y - v1.y) == (p.y - v1.y) * (v2.x - v1.x)
  {
    var l := LineThroughPoints(v1, v2);
    var dx, dy := v2.x - v1.x, v2.y - v1.y;
    if dx != 0.0 {
      var slope := dy / dx;
      assert slope * dx == dy;
      assert l.coA * p.x + l.coB * p.y + l.coC == (p.y - v1.y) - slope * (p.x - v1.x);
      calc {
        ((p.y - v1.y) - slope * (p.x - v1.x)) * dx;
        (p.y - v1.y) * dx - (p.x - v1.x) * (slope * dx);
        (p.y - v1.y) * dx - (p.x - v1.x) * dy;
      }
      ZeroProduct((p.y - v1.y) - slope * (p.x - v1.x), dx);
    } else {
      assert dy != 0.0;
      ZeroProduct(p.x - v1.x, dy);
    }
  }

  /** Two points at the same height, side by side, give the horizontal line y = v1.y
      with slope 0. */
  lemma LineThroughLevelPoints(v1: Point, v2: Point)
    requires v1.y == v2.y && v1.x != v2.x
    ensures LineThroughPoints(v1, v2) == LineEquation(0.0, 1.0, -v1.y, Horizontal)
  {
    var slope := (v2.y - v1.y) / (v2.x - v1.x);
    assert slope == 0.0;
  }

  /** In a field, a product with a non-zero factor vanishes exactly when the other factor does. */
  lemma ZeroProduct(u: real, v: real)
    requires v != 0.0
    ensures u * v == 0.0 <==> u == 0.0
  {
  }

  /** With y on the left (coB = 1), the y function describes the line: a point is on
      it exactly when y = k·x + m. */
  lemma ExplicitYIsLine(l: LineEquation, p: Point)
    requires l.coB == 1.0
    ensures OnLine(l, p) <==> p.y == ExplicitY(l).0 * p.x + ExplicitY(l).1
  {
  }

  /** With x on the left (coA = −1), the x function describes the line: a point is on
      it exactly when x = k·y + m. */
  lemma ExplicitXIsLine(l: LineEquation, p: Point)
    requires l.coA == -1.0
    ensures OnLine(l, p) <==> p.x == ExplicitX(l).0 * p.y + ExplicitX(l).1
  {
  }

  /** On a line the solver holds, every point of its explicit form satisfies the line equation. */
  lemma ExplicitFormOnLine(l: LineEquation, t: real)
    requires WellFormedLine(l)
    ensures OnLine(l, PointAt(l, t))
  {
  }

  /** On a line built from two points, every point of the line is a point of its explicit form. */
  lemma OnLineIsExplicit(l: LineEquation, p: Point)
    requires ThroughTwoPoints(l) && OnLine(l, p)
    ensures p == PointAt(l, if l.kind != Vertical then p.x else p.y)
  {
  }

  /** Substituting the explicit line into the circle yields the quadratic. */
  lemma SubstitutionIsExact(l: LineEquation, c: CircleEquation, t: real)
    requires WellFormedLine(l)
    ensures CircleValue(c, PointAt(l, t)) == Evaluate(Substituted(l, c), t)
  {
    var (k, m) := ExplicitForm(l);
    if l.kind != Vertical {
      ExpandedSquares(t, c.x, k, c.y + m, c.r);
    } else {
      assert k == 0.0;
      ExpandedSquares(t, c.y, k, c.x + m, c.r);
    }
  }

  /** The polynomial identity behind the substitution. */
  lemma ExpandedSquares(t: real, so: real, k: real, alt: real, r: real)
    ensures (t + so) * (t + so) + (k * t + alt) * (k * t + alt) - r
            == (1.0 + k * k) * t * t + (2.0 * so + 2.0 * k * alt) * t + (-r + alt * alt + so * so)
  {
  }

  /** Only zero squares to zero. */
  lemma SquareIsZero(s: real)
    requires s * s == 0.0
    ensures s == 0.0
  {
    if s != 0.0 {
      ZeroProduct(s, s);
    }
  }

  /** Completing the square: 4a·q(t) = (2at + b)² − D. */
  lemma CompletedSquare(q: Quadratic, t: real)
    ensures 4.0 * q.a * Evaluate(q, t) == (2.0 * q.a * t + q.b) * (2.0 * q.a * t + q.b) - Discriminant(q)
  {
  }

  /** Both roots of the quadratic formula solve the quadratic when s² = D. */
  lemma RootSolves(q: Quadratic, s: real)
    requires q.a != 0.0 && s * s == Discriminant(q)
    ensures Evaluate(q, Root(q, s)) == 0.0
  {
    var t := Root(q, s);
    assert 2.0 * q.a * t + q.b == s;
    CompletedSquare(q, t);
    ZeroProduct(Evaluate(q, t), 4.0 * q.a);
  }

  /** Every root of the quadratic is one of the two the formula gives, and there is
      none when the discriminant is negative. */
  lemma RootsComplete(q: Quadratic, s: real, t: real)
    requires q.a != 0.0 && s >= 0.0 && s * s == Discriminant(q)
    requires Evaluate(q, t) == 0.0
    ensures t == Root(q, s) || t == Root(q, -s)
  {
    var u := 2.0 * q.a * t + q.b;
    CompletedSquare(q, t);
    assert u * u == s * s;
    assert (u - s) * (u + s) == 0.0;
    if u == s {
      assert t == (s - q.b) / (2.0 * q.a);
    } else {
      assert u + s == 0.0 by { ZeroProduct(u + s, u - s); }
      assert t == (-s - q.b) / (2.0 * q.a);
    }
  }

  lemma NoRootWhenNegative(q: Quadratic, t: real)
    requires q.a != 0.0 && Discriminant(q) < 0.0
    ensures Evaluate(q, t) != 0.0
  {
    CompletedSquare(q, t);
    var u := 2.0 * q.a * t + q.b;
    assert u * u >= 0.0;
  }

  // ---------------------------------------------------------------------------
  // Lemmas: the intersection points
  // ---------------------------------------------------------------------------

  /** Every point solveLineCircleIntersection appends lies on the stored line and on
      the stored circle, in both the explicit-y and the vertical branch. */
  lemma IntersectionsAreOnLineAndCircle(l: LineEquation, c: CircleEquation, index: int, sqrt: real -> real)
    requires WellFormedLine(l) && IsSqrt(sqrt)
    ensures forall p :: p in Intersections(l, c, index, sqrt) ==>
              OnLine(l, p.coordinates) && OnCircle(c, p.coordinates)
  {
    var q := Substituted(l, c);
    var d := Discriminant(q);
    if d >= 0.0 {
      var s := sqrt(d);
      var p1, p2 := PointAt(l, Root(q, s)), PointAt(l, Root(q, -s));
      RootPointsAreOnLineAndCircle(l, c, s);
      assert Intersections(l, c, index, sqrt) ==
             if d > 0.0 then [IntersectionPoint(index, p1), IntersectionPoint(index, p2)]
             else [IntersectionPoint(index, p1)];
    }
  }

  /** The points of both formula roots lie on the line and on the circle. */
  lemma RootPointsAreOnLineAndCircle(l: LineEquation, c: CircleEquation, s: real)
    requires WellFormedLine(l) && s * s == Discriminant(Substituted(l, c))
    ensures var p := PointAt(l, Root(Substituted(l, c), s));
            OnLine(l, p) && OnCircle(c, p)
    ensures var p := PointAt(l, Root(Substituted(l, c), -s));
            OnLine(l, p) && OnCircle(c, p)
  {
    var q := Substituted(l, c);
    RootSolves(q, s);
    RootSolves(q, -s);
    SubstitutionIsExact(l, c, Root(q, s));
    SubstitutionIsExact(l, c, Root(q, -s));
    ExplicitFormOnLine(l, Root(q, s));
    ExplicitFormOnLine(l, Root(q, -s));
  }

  /** Appending the intersections to any list adds only points on the line and the circle. */
  lemma AppendedAreOnLineAndCircle(before: seq<IntersectionPoint>, l: LineEquation, c: CircleEquation,
                                   index: int, sqrt: real -> real)
    requires WellFormedLine(l) && IsSqrt(sqrt)
    ensures var after := before + Intersections(l, c, index, sqrt);
            forall i :: |before| <= i < |after| ==> OnLine(l, after[i].coordinates) && OnCircle(c, after[i].coordinates)
  {
    var added := Intersections(l, c, index, sqrt);
    IntersectionsAreOnLineAndCircle(l, c, index, sqrt);
    forall i | |before| <= i < |before + added|
      ensures OnLine(l, (before + added)[i].coordinates) && OnCircle(c, (before + added)[i].coordinates)
    {
      assert (before + added)[i] == added[i - |before|];
      assert added[i - |before|] in added;
    }
  }

  /** For a line built from two points, every common point of the line and the circle
      is among the appended ones (so there is none when the discriminant is negative). */
  lemma IntersectionsAreComplete(l: LineEquation, c: CircleEquation, index: int, sqrt: real -> real, p: Point)
    requires ThroughTwoPoints(l) && IsSqrt(sqrt)
    requires OnLine(l, p) && OnCircle(c, p)
    ensures IntersectionPoint(index, p) in Intersections(l, c, index, sqrt)
  {
    var q := Substituted(l, c);
    var t := if l.kind != Vertical then p.x else p.y;
    OnLineIsExplicit(l, p);
    SubstitutionIsExact(l, c, t);
    if Discriminant(q) < 0.0 {
      NoRootWhenNegative(q, t);
    } else {
      var s := sqrt(Discriminant(q));
      RootsComplete(q, s, t);
      if Discriminant(q) == 0.0 {
        SquareIsZero(s);
        assert Root(q, -s) == Root(q, s);
      }
    }
  }

  /** When the discriminant is positive the two appended points are distinct. */
  lemma TwoIntersectionsAreDistinct(l: LineEquation, c: CircleEquation, index: int, sqrt: real -> real)
    requires IsSqrt(sqrt) && Discriminant(Substituted(l, c)) > 0.0
    ensures Intersections(l, c, index, sqrt)[0] != Intersections(l, c, index, sqrt)[1]
  {
    var q := Substituted(l, c);
    var s := sqrt(Discriminant(q));
    assert s > 0.0;
    DistinctRoots(q, s);
    DistinctParametersDistinctPoints(l, Root(q, s), Root(q, -s));
  }

  /** A non-zero root of the discriminant separates the two roots of the formula. */
  lemma DistinctRoots(q: Quadratic, s: real)
    requires q.a != 0.0 && s != 0.0
    ensures Root(q, s) != Root(q, -s)
  {
    assert 2.0 * q.a * Root(q, s) - 2.0 * q.a * Root(q, -s) == 2.0 * s;
  }

  /** Different parameters give different points of the explicit line. */
  lemma DistinctParametersDistinctPoints(l: LineEquation, t1: real, t2: real)
    requires t1 != t2
    ensures PointAt(l, t1) != PointAt(l, t2)
  {
    if l.kind != Vertical {
      assert PointAt(l, t1).x == t1;
    } else {
      assert PointAt(l, t1).y == t1;
    }
  }

  // ---------------------------------------------------------------------------
  // Closest point and direction filter: specifications
  // ---------------------------------------------------------------------------

  /** The squared Euclidean distance; it orders points as `distanceTo` does
      (SquaredDistanceOrdersLikeDistance). */
  function SquaredDistance(p: Point, origin: Point): real {
    (p.x - origin.x) * (p.x - origin.x) + (p.y - origin.y) * (p.y - origin.y)
  }

  /** Among the first n points, pts[k] is nearest to origin and no earlier point is as near. */
  ghost predicate FirstClosestAmong(pts: seq<IntersectionPoint>, n: nat, k: int, origin: Point)
    requires n <= |pts|
  {
    && 0 <= k < n
    && (forall j :: 0 <= j < n ==> SquaredDistance(pts[k].coordinates, origin) <= SquaredDistance(pts[j].coordinates, origin))
    && (forall j :: 0 <= j < k ==> SquaredDistance(pts[k].coordinates, origin) < SquaredDistance(pts[j].coordinates, origin))
  }

  /** Math.sign. */
  function Sign(v: real): int {
    if v > 0.0 then 1 else if v < 0.0 then -1 else 0
  }

  /** One axis of the direction test: it is ignored when the displacement or the
      direction component is zero, and otherwise their signs must agree. */
  predicate AgreesOnAxis(displacement: real, direction: real) {
    Sign(displacement) == 0 || direction == 0.0 || Sign(displacement) == Sign(direction)
  }

  /** A point lies ahead of position in the given direction, axis by axis. */
  predicate HeadsInDirection(p: IntersectionPoint, position: Point, direction: Point) {
    && AgreesOnAxis(p.coordinates.x - position.x, direction.x)
    && AgreesOnAxis(p.coordinates.y - position.y, direction.y)
  }

  /** The points that survive filterPointsWithCorrectDirection, in their original order. */
  function FilterDirection(s: seq<IntersectionPoint>, position: Point, direction: Point)
    : (r: seq<IntersectionPoint>)
    ensures |r| <= |s|
    decreases |s|
  {
    if s == [] then []
    else
      var kept := FilterDirection(s[..|s| - 1], position, direction);
      if HeadsInDirection(s[|s| - 1], position, direction) then kept + [s[|s| - 1]] else kept
  }

  /** a can be obtained from b by deleting elements. */
  ghost predicate IsSubsequence<T>(a: seq<T>, b: seq<T>)
    decreases |b|
  {
    || a == []
    || (&& b != []
        && (|| (a[|a| - 1] == b[|b| - 1] && IsSubsequence(a[..|a| - 1], b[..|b| - 1]))
            || IsSubsequence(a, b[..|b| - 1])))
  }

  // ---------------------------------------------------------------------------
  // Lemmas: closest point and direction filter
  // ---------------------------------------------------------------------------

  /** Comparing squared distances decides the same as comparing the distances themselves. */
  lemma SquaredDistanceOrdersLikeDistance(sqrt: real -> real, a: real, b: real)
    requires IsSqrt(sqrt) && a >= 0.0 && b >= 0.0
    ensures sqrt(a) < sqrt(b) <==> a < b
  {
    var sa, sb := sqrt(a), sqrt(b);
    assert sa * sa == a && sb * sb == b;
    if sa < sb {
      NonNegativeProduct(sb - sa, sb + sa);
      assert (sb - sa) * (sb + sa) == b - a;
      assert b - a != 0.0 by { ZeroProduct(sb - sa, sb + sa); }
    } else {
      NonNegativeProduct(sa - sb, sa + sb);
      assert (sa - sb) * (sa + sb) == a - b;
    }
  }

  /** A product of two non-negative reals is non-negative. */
  lemma NonNegativeProduct(u: real, v: real)
    requires u >= 0.0 && v >= 0.0
    ensures u * v >= 0.0
  {
  }

  /** At most one index is the first closest one. */
  lemma FirstClosestIsUnique(pts: seq<IntersectionPoint>, k1: int, k2: int, origin: Point)
    requires FirstClosestAmong(pts, |pts|, k1, origin) && FirstClosestAmong(pts, |pts|, k2, origin)
    ensures k1 == k2
  {
    var d1 := SquaredDistance(pts[k1].coordinates, origin);
    var d2 := SquaredDistance(pts[k2].coordinates, origin);
    assert d1 <= d2 && d2 <= d1;
    assert !(k1 < k2) && !(k2 < k1);
  }

  /** The filter keeps exactly the points heading in the direction, each with all its copies. */
  lemma {:induction false} FilterDirectionCounts(s: seq<IntersectionPoint>, position: Point, direction: Point,
                                                 x: IntersectionPoint)
    ensures multiset(FilterDirection(s, position, direction))[x] ==
            if HeadsInDirection(x, position, direction) then multiset(s)[x] else 0
    decreases |s|
  {
    if s != [] {
      var init, last := s[..|s| - 1], s[|s| - 1];
      assert s == init + [last];
      FilterDirectionCounts(init, position, direction, x);
    }
  }

  /** A point is kept exactly when it was stored and heads in the direction. */
  lemma FilterDirectionMembers(s: seq<IntersectionPoint>, position: Point, direction: Point, x: IntersectionPoint)
    ensures x in FilterDirection(s, position, direction) <==> x in s && HeadsInDirection(x, position, direction)
  {
    FilterDirectionCounts(s, position, direction, x);
  }

  /** The filter preserves the order of the points it keeps. */
  lemma {:induction false} FilterDirectionIsSubsequence(s: seq<IntersectionPoint>, position: Point, direction: Point)
    ensures IsSubsequence(FilterDirection(s, position, direction), s)
    decreases |s|
  {
    if s != [] {
      var init, last := s[..|s| - 1], s[|s| - 1];
      var kept := FilterDirection(init, position, direction);
      FilterDirectionIsSubsequence(init, position, direction);
      if HeadsInDirection(last, position, direction) {
        assert (kept + [last])[..|kept + [last]| - 1] == kept;
      }
    }
  }

  /** The filter leaves a list of points that all head in the direction unchanged. */
  lemma {:induction false} FilterDirectionKeepsAll(s: seq<IntersectionPoint>, position: Point, direction: Point)
    requires forall i :: 0 <= i < |s| ==> HeadsInDirection(s[i], position, direction)
    ensures FilterDirection(s, position, direction) == s
    decreases |s|
  {
    if s != [] {
      FilterDirectionKeepsAll(s[..|s| - 1], position, direction);
      assert s[..|s| - 1] + [s[|s| - 1]] == s;
    }
  }

  /** Filtering twice with the same position and direction equals filtering once. */
  lemma FilterDirectionIsIdempotent(s: seq<IntersectionPoint>, position: Point, direction: Point)
    ensures FilterDirection(FilterDirection(s, position, direction), position, direction)
            == FilterDirection(s, position, direction)
  {
    var r := FilterDirection(s, position, direction);
    forall i | 0 <= i < |r|
      ensures HeadsInDirection(r[i], position, direction)
    {
      FilterDirectionMembers(s, position, direction, r[i]);
    }
    FilterDirectionKeepsAll(r, position, direction);
  }

  // ---------------------------------------------------------------------------
  // The solver object
  // ---------------------------------------------------------------------------

  /** The shared scratch object: the current line and circle, the explicit-form
      holder and the accumulated intersection points. */
  class EquationSolver {
    var intersectionCount: int
    var intersectionPoints: seq<IntersectionPoint>
    var line: LineEquation
    var lineEquationDataHolder: array<real>
    var circle: CircleEquation

    /** The holder has its three slots, the line is one the solver can produce, the
        squared radius is non-negative and every stored point has been counted. */
    ghost predicate Valid()
      reads this
    {
      && lineEquationDataHolder.Length == 3
      && WellFormedLine(line)
      && circle.r >= 0.0
      && |intersectionPoints| <= intersectionCount
    }

    /** The state of a newly constructed solver. */
    ghost predicate IsCleared()
      reads this, lineEquationDataHolder
    {
      && intersectionCount == 0
      && intersectionPoints == []
      && lineEquationDataHolder[..] == [0.0, 0.0, 0.0]
      && line == ClearedLine
      && circle == ClearedCircle
    }

    constructor ()
      ensures Valid() && IsCleared() && fresh(lineEquationDataHolder)
    {
      intersectionCount := 0;
      lineEquationDataHolder := new real[3] [0.0, 0.0, 0.0];
      intersectionPoints := [];
      line := LineEquation(0.0, 0.0, 0.0, Regular);
      circle := CircleEquation(0.0, 0.0, 0.0);
    }

    /** Resets every field to its constructed value; the holder is a new array. */
    method Flush()
      modifies this
      ensures Valid() && IsCleared() && fresh(lineEquationDataHolder)
    {
      intersectionCount := 0;
      intersectionPoints := intersectionPoints[..0];
      lineEquationDataHolder := new real[3] [0.0, 0.0, 0.0];
      line := line.(coA := 0.0, coB := 0.0, coC := 0.0, kind := Regular);
      circle := circle.(x := 0.0, y := 0.0, r := 0.0);
    }

    method SetLineEquationFromPoints(v1: Point, v2: Point)
      requires Valid()
      modifies this`line
      ensures Valid()
      ensures line == LineThroughPoints(v1, v2)
      ensures OnLine(line, v1) && OnLine(line, v2)
    {
      line := LineThroughPoints(v1, v2);
      LineThroughPointsContainsEnds(v1, v2);
    }

    /** Stores y = k·x + m in the holder as [coB, k, m]. */
    method SetLineHolderYfunction()
      requires Valid()
      modifies lineEquationDataHolder
      ensures lineEquationDataHolder[..] == [line.coB, ExplicitY(line).0, ExplicitY(line).1]
    {
      var rightedCoA := line.coA;
      var rightedCoC := line.coC;
      if line.coB > 0.0 {
        rightedCoA := rightedCoA * -1.0;
        rightedCoC := rightedCoC * -1.0;
      }
      lineEquationDataHolder[0] := line.coB;
      lineEquationDataHolder[1] := rightedCoA;
      lineEquationDataHolder[2] := rightedCoC;
    }

    /** Stores x = k·y + m in the holder as [1, k, m]. */
    method SetLineHolderXfunction()
      requires Valid()
      modifies lineEquationDataHolder
      ensures lineEquationDataHolder[..] == [1.0, ExplicitX(line).0, ExplicitX(line).1]
    {
      var rightedCoB := line.coB;
      var rightedCoC := line.coC;
      if line.coA > 0.0 {
        rightedCoB := rightedCoB * -1.0;
        rightedCoC := rightedCoC * -1.0;
      }
      lineEquationDataHolder[0] := 1.0;
      lineEquationDataHolder[1] := rightedCoB;
      lineEquationDataHolder[2] := rightedCoC;
    }

    method SetCircleEquation(positionX: real, positionY: real, radius: real)
      requires Valid()
      modifies this`circle
      ensures Valid()
      ensures circle == CircleFromCentre(positionX, positionY, radius)
      ensures GeneralEquationVariables(circle) == (-positionX, -positionY, -(radius * radius))
    {
      circle := CircleFromCentre(positionX, positionY, radius);
    }

    /** Appends the intersections of the stored line and circle, tagged with index;
        the line, the circle and the points already stored are left as they were. */
    method SolveLineCircleIntersection(index: int, sqrt: real -> real)
      requires Valid()
      modifies this`intersectionCount, this`intersectionPoints, lineEquationDataHolder
      ensures Valid()
      ensures lineEquationDataHolder[..] ==
              if line.kind != Vertical then [line.coB, ExplicitY(line).0, ExplicitY(line).1]
              else [1.0, ExplicitX(line).0, ExplicitX(line).1]
      ensures intersectionPoints == old(intersectionPoints) + Intersections(line, circle, index, sqrt)
      ensures intersectionCount == old(intersectionCount) + |Intersections(line, circle, index, sqrt)|
      ensures IsSqrt(sqrt) ==>
                forall i :: |old(intersectionPoints)| <= i < |intersectionPoints| ==>
                  OnLine(line, intersectionPoints[i].coordinates) && OnCircle(circle, intersectionPoints[i].coordinates)
    {
      ghost var added := Intersections(line, circle, index, sqrt);
      if IsSqrt(sqrt) {
        AppendedAreOnLineAndCircle(intersectionPoints, line, circle, index, sqrt);
      }
      var lineType := line.kind;
      var (circleXValue, circleYValue, circleSquaredRadius) := GeneralEquationVariables(circle);
      var leftSideLineCoefficient, lineConstant, soBrValue, altBrValue;

      if lineType != Vertical {
        SetLineHolderYfunction();
        leftSideLineCoefficient := lineEquationDataHolder[1];
        lineConstant := lineEquationDataHolder[2];
        soBrValue := circleXValue;
        altBrValue := circleYValue + lineConstant;
      } else {
        SetLineHolderXfunction();
        leftSideLineCoefficient := lineEquationDataHolder[1];
        lineConstant := lineEquationDataHolder[2];
        soBrValue := circleYValue;
        altBrValue := circleXValue + lineConstant;
      }

      assert (leftSideLineCoefficient, lineConstant) == ExplicitForm(line);
      var altBrVarCoeff := leftSideLineCoefficient;
      var quadratic := SubstitutionQuadratic(altBrVarCoeff, soBrValue, altBrValue, circleSquaredRadius);
      var discriminant := Discriminant(quadratic);
      assert quadratic == Substituted(line, circle);

      var localIntersectionCount := 0;
      if discriminant > 0.0 {
        localIntersectionCount := 2;
      } else if discriminant == 0.0 {
        localIntersectionCount := 1;
      } else {
        return;
      }

      var squaredDiscriminant := sqrt(discriminant);
      var result1 := Root(quadratic, squaredDiscriminant);
      var result2 := Root(quadratic, -squaredDiscriminant);

      var Point(x1, y1) := ExplicitPoint(lineType == Vertical, leftSideLineCoefficient, lineConstant, result1);
      var Point(x2, y2) := ExplicitPoint(lineType == Vertical, leftSideLineCoefficient, lineConstant, result2);

      ghost var first, second := IntersectionPoint(index, Point(x1, y1)), IntersectionPoint(index, Point(x2, y2));
      assert added == if localIntersectionCount == 2 then [first, second] else [first];
      if localIntersectionCount == 2 {
        intersectionCount := intersectionCount + 2;
        AddIntersectionPoint(index, x1, y1);
        AddIntersectionPoint(index, x2, y2);
        assert intersectionPoints == old(intersectionPoints) + added;
      } else if localIntersectionCount == 1 {
        intersectionCount := intersectionCount + 1;
        AddIntersectionPoint(index, x1, y1);
      }
    }

    method AddIntersectionPoint(index: int, x: real, y: real)
      modifies this`intersectionPoints
      ensures intersectionPoints == old(intersectionPoints) + [IntersectionPoint(index, Point(x, y))]
    {
      intersectionPoints := intersectionPoints + [IntersectionPoint(index, Point(x, y))];
    }

    /** The stored point nearest to origin, the first one on a tie; nothing when none is stored. */
    method GetClosestIntersectionPoint(origin: Point) returns (candidate: Option<IntersectionPoint>)
      ensures candidate.None? <==> intersectionPoints == []
      ensures candidate.Some? ==>
                exists k :: FirstClosestAmong(intersectionPoints, |intersectionPoints|, k, origin)
                            && candidate.value == intersectionPoints[k]
    {
      var minDistance: Option<real> := None;  // Infinity
      candidate := None;
      ghost var k := 0;
      for i := 0 to |intersectionPoints|
        invariant candidate.None? <==> i == 0
        invariant minDistance.None? <==> i == 0
        invariant i > 0 ==>
                    && FirstClosestAmong(intersectionPoints, i, k, origin)
                    && candidate == Some(intersectionPoints[k])
                    && minDistance == Some(SquaredDistance(intersectionPoints[k].coordinates, origin))
      {
        var point := intersectionPoints[i];
        var currentDistance := SquaredDistance(point.coordinates, origin);
        if minDistance.None? || currentDistance < minDistance.value {
          minDistance := Some(currentDistance);
          candidate := Some(point);
          k := i;
        }
      }
    }

    /** Compacts the stored points in place, keeping in order those that head in
        direction from position, and truncates the list; the count is untouched. */
    method FilterPointsWithCorrectDirection(position: Point, direction: Point)
      requires Valid()
      modifies this`intersectionPoints
      ensures Valid()
      ensures intersectionPoints == FilterDirection(old(intersectionPoints), position, direction)
    {
      var readIndex := 0;
      var writeIndex := 0;
      var length := |intersectionPoints|;
      var xPosFromZero := position.x;
      var yPosFromZero := position.y;

      while readIndex < length
        invariant 0 <= writeIndex <= readIndex <= length == |intersectionPoints|
        invariant intersectionPoints[..writeIndex] == FilterDirection(old(intersectionPoints)[..readIndex], position, direction)
        invariant intersectionPoints[readIndex..] == old(intersectionPoints)[readIndex..]
      {
        var point := intersectionPoints[readIndex];
        var normalizedPointX := point.coordinates.x - xPosFromZero;
        var normalizedPointY := point.coordinates.y - yPosFromZero;
        var directionSignX := Sign(direction.x);
        var directionSignY := Sign(direction.y);
        var normalizedPointSignX := Sign(normalizedPointX);
        var normalizedPointSignY := Sign(normalizedPointY);

        var rejected :=
          || (normalizedPointSignX != 0 && direction.x != 0.0 && normalizedPointSignX != directionSignX)
          || (normalizedPointSignY != 0 && direction.y != 0.0 && normalizedPointSignY != directionSignY);
        assert !rejected <==> HeadsInDirection(point, position, direction);
        assert old(intersectionPoints)[..readIndex + 1] == old(intersectionPoints)[..readIndex] + [point];
        assert intersectionPoints[readIndex + 1..] == old(intersectionPoints)[readIndex + 1..];
        if !rejected {
          intersectionPoints := intersectionPoints[writeIndex := point];
          writeIndex := writeIndex + 1;
        }
        readIndex := readIndex + 1;
      }

      assert old(intersectionPoints)[..readIndex] == old(intersectionPoints);
      var newLength := length - (readIndex - writeIndex);
      intersectionPoints := intersectionPoints[..newLength];
    }
  }
}
