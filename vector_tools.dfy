/** `VectorTools.GetCentroid`: the mean of a sequence of vertices. */
module VectorTools {
  import opened Vectors

  /** Componentwise sum, accumulated from the front as the loop does. */
  function Sum(vs: seq<Vector2>): Vector2
  {
    if vs == [] then Zero else Sum(vs[..|vs| - 1]).Add(vs[|vs| - 1])
  }

  /** The centroid: the sum divided by the number of vertices, and the zero
      vector when there are none. */
  function Centroid(vs: seq<Vector2>): Vector2
  {
    if |vs| == 0 then Zero
    else Vector2(Sum(vs).X / |vs| as real, Sum(vs).Y / |vs| as real)
  }

  method GetCentroid(vertices: seq<Vector2>) returns (output: Vector2)
    ensures output == Centroid(vertices)
  {
    output := Zero;
    var count := 0;
    for k := 0 to |vertices|
      invariant count == k
      invariant output == Sum(vertices[..k])
    {
      assert vertices[..k + 1][..k] == vertices[..k];
      output := output.Add(vertices[k]);
      count := count + 1;
    }
    assert vertices[..|vertices|] == vertices;
    if count > 0 {
      output := Vector2(output.X / count as real, output.Y / count as real);
    }
  }

  function Repeat(v: Vector2, n: nat): (r: seq<Vector2>)
    ensures |r| == n
    ensures forall i :: 0 <= i < n ==> r[i] == v
  {
    if n == 0 then [] else Repeat(v, n - 1) + [v]
  }

  lemma {:induction false} SumOfCopies(v: Vector2, n: nat)
    ensures Sum(Repeat(v, n)) == Vector2(n as real * v.X, n as real * v.Y)
  {
    if n > 0 {
      assert Repeat(v, n)[..n - 1] == Repeat(v, n - 1);
      SumOfCopies(v, n - 1);
    }
  }

  /** The centroid of `n >= 1` copies of one vertex is that vertex; in
      particular the centroid of a single vertex is the vertex itself. */
  lemma CentroidOfCopies(v: Vector2, n: nat)
    requires n >= 1
    ensures Centroid(Repeat(v, n)) == v
  {
    var copies := Repeat(v, n);
    var k := n as real;
    SumOfCopies(v, n);
    assert Sum(copies).X == k * v.X && Sum(copies).Y == k * v.Y;
    ScaleDivides(k, v.X);
    ScaleDivides(k, v.Y);
    assert Centroid(copies) == Vector2(Sum(copies).X / k, Sum(copies).Y / k);
  }

  lemma ScaleDivides(k: real, x: real)
    requires k > 0.0
    ensures (k * x) / k == x
  {
  }

  lemma CentroidOfOne(v: Vector2)
    ensures Centroid([v]) == v
  {
    assert [v] == Repeat(v, 1);
    CentroidOfCopies(v, 1);
  }

  /** The centroid scaled back by the count gives the sum of the vertices. */
  lemma CentroidTimesCount(vs: seq<Vector2>)
    requires |vs| > 0
    ensures Centroid(vs).Scale(|vs| as real) == Sum(vs)
  {
  }
}
