/** The parts of the XNA `Vector2` value type used by the game, over exact reals. */
module Vectors {

  datatype Vector2 = Vector2(X: real, Y: real)
  {
    function Add(other: Vector2): Vector2 {
      Vector2(X + other.X, Y + other.Y)
    }

    function Sub(other: Vector2): Vector2 {
      Vector2(X - other.X, Y - other.Y)
    }

    function Neg(): Vector2 {
      Vector2(-X, -Y)
    }

    function Scale(k: real): Vector2 {
      Vector2(k * X, k * Y)
    }

    /** Squared Euclidean length, the sqrt-free half of `Length`. */
    function LengthSquared(): real {
      X * X + Y * Y
    }
  }

  const Zero := Vector2(0.0, 0.0)

  function Dot(a: Vector2, b: Vector2): real {
    a.X * b.X + a.Y * b.Y
  }
}
