/** The square-root-free parts of `LineEquation` and `LineSegment`. */
module Line2d {
  import opened Vectors
  import opened NumTools
  import BoundingBoxes

  /** `A*x + B*y + C = 0`, with `(A, B)` stored as `Normal`. */
  datatype LineEquation = LineEquation(Normal: Vector2, C: real)
  {
    function A(): real { Normal.X }
    function B(): real { Normal.Y }

    function MultiplyThrough(p: Vector2): (r: real)
      ensures r == Dot(Normal, p) + C
    {
      A() * p.X + B() * p.Y + C
    }
  }

  /** `LineEquation(point, normal)`: `normal.Normalize()` works on the
      parameter's copy after `Normal` was assigned, so the stored normal keeps
      its length; `C` is chosen so that `point` lies on the line. */
  function FromPointNormal(point: Vector2, normal: Vector2): (r: LineEquation)
    ensures r.Normal == normal
    ensures r.MultiplyThrough(point) == 0.0
    ensures forall p :: r.MultiplyThrough(p) == Dot(normal, p.Sub(point))
  {
    LineEquation(normal, -LineEquation(normal, 0.0).MultiplyThrough(point))
  }

  /** Default tolerance of `WithinBoundingBox`. */
  const DefaultTolerance: real := 0.004

  datatype LineSegment = LineSegment(Start: Vector2, End: Vector2)
  {
    function Diff(): Vector2 { End.Sub(Start) }

    function LengthSquared(): (r: real)
      ensures r >= 0.0
      ensures Start == End ==> r == 0.0
    {
      Square(Diff().X);
      Square(Diff().Y);
      Diff().LengthSquared()
    }

    /** `GetEquation` before its final division by the length of `(A, B)`. */
    function RawEquation(): (r: LineEquation)
      ensures r.Normal == LeftHandNormal()
      ensures r.MultiplyThrough(Start) == 0.0 && r.MultiplyThrough(End) == 0.0
    {
      var diff := End.Sub(Start);
      var a := -diff.Y;
      var b := diff.X;
      LineEquation(Vector2(a, b), -(a * End.X + b * End.Y))
    }

    function RightHandNormal(): (r: Vector2)
      ensures Dot(r, Diff()) == 0.0
      ensures r == LeftHandNormal().Neg()
    {
      var diff := End.Sub(Start);
      Vector2(diff.Y, -diff.X)
    }

    function LeftHandNormal(): (r: Vector2)
      ensures Dot(r, Diff()) == 0.0
      ensures r.LengthSquared() == LengthSquared()
      ensures Diff().X * r.Y - Diff().Y * r.X == LengthSquared()
    {
      var diff := End.Sub(Start);
      Vector2(-diff.Y, diff.X)
    }

    /** `p` is inside the segment's bounding box widened by `tolerance`. */
    predicate WithinBoundingBox(p: Vector2, tolerance: real) {
      p.X >= MinReal(Start.X, End.X) - tolerance &&
      p.Y >= MinReal(Start.Y, End.Y) - tolerance &&
      p.X <= MaxReal(Start.X, End.X) + tolerance &&
      p.Y <= MaxReal(Start.Y, End.Y) + tolerance
    }
  }

  lemma Square(x: real)
    ensures x * x >= 0.0
  {
    if x < 0.0 {
      assert x * x == (-x) * (-x);
    }
  }

  /** Every point of the infinite line through the segment satisfies the raw
      equation; the equation's sign tells the left side from the right. */
  lemma RawEquationOnLine(seg: LineSegment, t: real)
    ensures seg.RawEquation().MultiplyThrough(seg.Start.Add(seg.Diff().Scale(t))) == 0.0
  {
  }

  lemma RawEquationSide(seg: LineSegment, p: Vector2)
    ensures seg.RawEquation().MultiplyThrough(p) == Dot(seg.LeftHandNormal(), p.Sub(seg.Start))
  {
  }

  /** With a non-negative tolerance both endpoints pass the test. */
  lemma EndpointsWithinBoundingBox(seg: LineSegment, tolerance: real)
    requires tolerance >= 0.0
    ensures seg.WithinBoundingBox(seg.Start, tolerance) && seg.WithinBoundingBox(seg.End, tolerance)
  {
  }

  lemma WithinBoundingBoxReversed(seg: LineSegment, p: Vector2, tolerance: real)
    ensures seg.WithinBoundingBox(p, tolerance) == LineSegment(seg.End, seg.Start).WithinBoundingBox(p, tolerance)
  {
  }

  /** With zero tolerance the test is containment in the box the `AABBox`
      constructor builds from the two endpoints. */
  lemma WithinBoundingBoxIsAABBox(seg: LineSegment, p: Vector2)
    ensures seg.WithinBoundingBox(p, 0.0) == BoundingBoxes.FromCorners(seg.Start, seg.End).IsContainedIn(p)
  {
  }
}
