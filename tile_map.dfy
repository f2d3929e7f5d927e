/** The tile layer: collision templates, tile ranges, the `TileMap` grid and
    the text loader. */
module Tiles {
  import opened Vectors
  import opened Wrappers
  import opened BoundingBoxes
  import opened Line2d

  /** `CollisionType` is a C# enum, which can hold any int (the loader stores
      `char - '0'` unchecked), so the model keeps the raw code. */
  type CollisionType = int

  const Empty: CollisionType := 0
  const SolidBox: CollisionType := 1
  const AngleBottomRight: CollisionType := 2
  const AngleBottomLeft: CollisionType := 3
  const AngleTopLeft: CollisionType := 4
  const AngleTopRight: CollisionType := 5

  /** The number of names in `CollisionType`, which sizes the template table. */
  const NumCollisionTypes := 6

  const TileSize := 16

  datatype Tile = Tile(Collision: CollisionType)

  const EmptyTile := Tile(Empty)

  datatype TileIndex = TileIndex(X: int, Y: int)

  /** Template corners in tile-local coordinates. `TopRight` is written with
      the same coordinates as `BottomRight`. */
  const BottomLeft := Vector2(0.0, 0.0)
  const TopLeft := Vector2(0.0, 16.0)
  const BottomRight := Vector2(16.0, 0.0)
  const TopRight := Vector2(16.0, 0.0)

  /** `CollisionTypeGeometry.GetGeometryTemplate`: the segments of one tile
      type; a code outside the table is an index error (`None`). */
  function GetGeometryTemplate(c: CollisionType): (r: Option<seq<LineSegment>>)
    ensures r.Some? <==> 0 <= c < NumCollisionTypes
    ensures r.Some? ==> forall s :: s in r.value ==> IsCorner(s.Start) && IsCorner(s.End)
  {
    if c == Empty then Some([])
    else if c == SolidBox then
      Some([LineSegment(TopLeft, TopRight), LineSegment(TopRight, BottomRight),
            LineSegment(BottomRight, BottomLeft), LineSegment(BottomLeft, TopLeft)])
    else if c == AngleBottomRight then
      Some([LineSegment(BottomLeft, TopRight), LineSegment(TopRight, BottomRight),
            LineSegment(BottomRight, BottomLeft)])
    else if c == AngleBottomLeft then
      Some([LineSegment(TopLeft, BottomRight), LineSegment(BottomRight, BottomLeft),
            LineSegment(BottomLeft, TopLeft)])
    else if c == AngleTopLeft then
      Some([LineSegment(TopRight, BottomLeft), LineSegment(BottomLeft, TopLeft),
            LineSegment(TopLeft, TopRight)])
    else if c == AngleTopRight then
      Some([LineSegment(BottomRight, TopLeft), LineSegment(TopLeft, TopRight),
            LineSegment(TopRight, BottomRight)])
    else None
  }

  predicate IsCorner(p: Vector2) {
    p == BottomLeft || p == TopLeft || p == BottomRight || p == TopRight
  }

  /** Every template point lies in the tile-local square [0,16]x[0,16]. */
  lemma CornersAreLocal(p: Vector2)
    requires IsCorner(p)
    ensures 0.0 <= p.X <= TileSize as real && 0.0 <= p.Y <= TileSize as real
  {
  }

  lemma TemplateSizes()
    ensures |GetGeometryTemplate(Empty).value| == 0
    ensures |GetGeometryTemplate(SolidBox).value| == 4
    ensures |GetGeometryTemplate(AngleBottomRight).value| == 3
    ensures |GetGeometryTemplate(AngleBottomLeft).value| == 3
    ensures |GetGeometryTemplate(AngleTopLeft).value| == 3
    ensures |GetGeometryTemplate(AngleTopRight).value| == 3
  {
  }

  /** Because `TopRight` coincides with `BottomRight`, the solid box's second
      segment has no length and its first runs diagonally. */
  lemma SolidBoxAsWritten()
    ensures GetGeometryTemplate(SolidBox).value[1].LengthSquared() == 0.0
    ensures GetGeometryTemplate(SolidBox).value[0] == LineSegment(Vector2(0.0, 16.0), Vector2(16.0, 0.0))
  {
  }

  /** A rectangle of tile indices, both ends inclusive. */
  datatype TileRange = TileRange(Left: int, Bottom: int, Right: int, Top: int)
  {
    predicate Contains(t: TileIndex) {
      Bottom <= t.Y <= Top && Left <= t.X <= Right
    }

    /** `IterateTiles`: rows from `Bottom` up to `Top`, each row from `Left` to
        `Right`. */
    function IterateTiles(): (r: seq<TileIndex>)
      ensures forall t :: t in r <==> Contains(t)
      ensures RowMajorSorted(r)
      ensures Left > Right || Bottom > Top ==> r == []
    {
      var r := RowsFrom(Bottom);
      assert |r| > 0 ==> r[0] in r && Contains(r[0]);
      r
    }

    function RowsFrom(y: int): (r: seq<TileIndex>)
      ensures forall t :: t in r <==> Left <= t.X <= Right && y <= t.Y <= Top
      ensures RowMajorSorted(r)
      ensures forall i :: 0 <= i < |r| ==> y <= r[i].Y
      decreases Top - y
    {
      if y > Top then []
      else
        var row := Row(Left, y);
        var rest := RowsFrom(y + 1);
        assert forall i, j :: 0 <= i < |row| && 0 <= j < |rest| ==> Before(row[i], rest[j]);
        SortedAppend(row, rest);
        assert forall t :: t in row + rest <==> t in row || t in rest;
        row + rest
    }

    function Row(x: int, y: int): (r: seq<TileIndex>)
      ensures forall t :: t in r <==> t.Y == y && x <= t.X <= Right
      ensures forall i :: 0 <= i < |r| ==> r[i].Y == y && x <= r[i].X
      ensures RowMajorSorted(r)
      decreases Right - x
    {
      if x > Right then []
      else
        var rest := Row(x + 1, y);
        SortedAppend([TileIndex(x, y)], rest);
        [TileIndex(x, y)] + rest
    }
  }

  /** Row-major order: by `Y`, then by `X`. */
  predicate Before(a: TileIndex, b: TileIndex) {
    a.Y < b.Y || (a.Y == b.Y && a.X < b.X)
  }

  /** Strictly increasing, hence every index occurs at most once. */
  predicate RowMajorSorted(s: seq<TileIndex>) {
    forall i, j :: 0 <= i < j < |s| ==> Before(s[i], s[j])
  }

  lemma SortedAppend(a: seq<TileIndex>, b: seq<TileIndex>)
    requires RowMajorSorted(a) && RowMajorSorted(b)
    requires forall i, j :: 0 <= i < |a| && 0 <= j < |b| ==> Before(a[i], b[j])
    ensures RowMajorSorted(a + b)
  {
  }

  /** A sorted sequence has no repeated index. */
  lemma SortedIsDuplicateFree(s: seq<TileIndex>, i: int, j: int)
    requires RowMajorSorted(s) && 0 <= i < |s| && 0 <= j < |s| && s[i] == s[j]
    ensures i == j
  {
  }

  /** The iteration yields (Right-Left+1)*(Top-Bottom+1) indices. */
  lemma {:induction false} RowLength(range: TileRange, x: int, y: int)
    ensures |range.Row(x, y)| == if x > range.Right then 0 else range.Right - x + 1
    decreases range.Right - x
  {
    if x <= range.Right {
      RowLength(range, x + 1, y);
    }
  }

  lemma {:induction false} RowsLength(range: TileRange, y: int)
    requires range.Left <= range.Right
    ensures |range.RowsFrom(y)| == if y > range.Top then 0 else (range.Top - y + 1) * (range.Right - range.Left + 1)
    decreases range.Top - y
  {
    if y <= range.Top {
      var row := range.Row(range.Left, y);
      var rest := range.RowsFrom(y + 1);
      assert range.RowsFrom(y) == row + rest;
      RowLength(range, range.Left, y);
      RowsLength(range, y + 1);
      var n := range.Right - range.Left + 1;
      var k := range.Top - y;
      assert |rest| == k * n;
      MulSucc(k, n);
    }
  }

  lemma MulSucc(k: int, n: int)
    ensures (k + 1) * n == n + k * n
  {
  }

  lemma IterateTilesLength(range: TileRange)
    requires range.Left <= range.Right && range.Bottom <= range.Top
    ensures |range.IterateTiles()| == (range.Top - range.Bottom + 1) * (range.Right - range.Left + 1)
  {
    RowsLength(range, range.Bottom);
  }

  /** Floor and ceiling of a real, as `Math.Floor`/`Math.Ceiling` followed by a
      cast to int. */
  function Floor(z: real): (r: int)
    ensures r as real <= z < r as real + 1.0
  {
    z.Floor
  }

  function Ceiling(z: real): (r: int)
    ensures r as real - 1.0 < z <= r as real
  {
    -((-z).Floor)
  }

  /** The index of the tile holding a world point (cells are closed on the
      low side). */
  function TileOf(p: Vector2): TileIndex {
    TileIndex(Floor(p.X / TileSize as real), Floor(p.Y / TileSize as real))
  }

  lemma MulLeMul(a: int, b: int, w: int)
    requires a <= b && 0 <= w
    ensures a * w <= b * w
  {
  }

  /** Row `y`, column `x` of a grid `w` wide splits back into `y` and `x`. */
  lemma RowMajorDivMod(x: int, y: int, w: int)
    requires 0 <= x < w
    ensures (y * w + x) / w == y && (y * w + x) % w == x
    ensures y * w + x < (y + 1) * w
  {
    var i := y * w + x;
    var q, m := i / w, i % w;
    assert i == q * w + m && 0 <= m < w;
    if q < y {
      MulLeMul(q + 1, y, w);
      assert false;
    } else if q > y {
      MulLeMul(y + 1, q, w);
      assert false;
    }
  }

  class TileMap {
    const Width: int
    const Height: int
    const tiles: array<Tile>

    /** The array holds exactly one tile per cell. */
    predicate Valid() {
      0 <= Width && 0 <= Height && tiles.Length == Width * Height
    }

    constructor (width: int, height: int)
      requires 0 <= width && 0 <= height
      ensures Valid() && Width == width && Height == height && fresh(tiles)
      ensures forall x, y :: InRange(x, y) ==> GetTile(x, y) == EmptyTile
    {
      Width := width;
      Height := height;
      tiles := new Tile[width * height](_ => EmptyTile);
    }

    /** Row-major position of a cell; for cells in range a valid array index,
        and distinct cells get distinct positions. */
    function Index2d(x: int, y: int): (r: int)
      requires Valid()
      ensures InRange(x, y) ==> 0 <= r < tiles.Length
      ensures InRange(x, y) ==> r / Width == y && r % Width == x
    {
      if InRange(x, y) then
        MulLeMul(y + 1, Height, Width);
        RowMajorDivMod(x, y, Width);
        y * Width + x
      else
        y * Width + x
    }

    predicate InRange(x: int, y: int) {
      x >= 0 && y >= 0 && x < Width && y < Height
    }

    lemma Index2dInjective(x1: int, y1: int, x2: int, y2: int)
      requires Valid() && InRange(x1, y1) && InRange(x2, y2)
      ensures Index2d(x1, y1) == Index2d(x2, y2) <==> x1 == x2 && y1 == y2
    {
    }

    /** Every array slot is the position of exactly one in-range cell. */
    lemma Index2dOnto(i: int)
      requires Valid() && 0 <= i < tiles.Length
      ensures InRange(i % Width, i / Width) && Index2d(i % Width, i / Width) == i
    {
      if i / Width >= Height {
        MulLeMul(Height, i / Width, Width);
        assert false;
      }
    }

    /** Out-of-range cells read as the shared empty tile. */
    function GetTile(x: int, y: int): (t: Tile)
      requires Valid()
      reads tiles
      ensures !InRange(x, y) ==> t == EmptyTile
      ensures InRange(x, y) ==> t == tiles[Index2d(x, y)]
    {
      if InRange(x, y) then tiles[Index2d(x, y)] else EmptyTile
    }

    /** No bounds check: the computed position only has to fall inside the
        array, so an out-of-range `x` writes into a neighbouring row. */
    method SetTile(x: int, y: int, tile: Tile)
      requires Valid() && 0 <= Index2d(x, y) < tiles.Length
      modifies tiles
      ensures tiles[Index2d(x, y)] == tile
      ensures forall i :: 0 <= i < tiles.Length && i != Index2d(x, y) ==> tiles[i] == old(tiles[i])
      ensures InRange(x, y) ==> GetTile(x, y) == tile
      ensures forall x', y' :: InRange(x', y') && Index2d(x', y') != Index2d(x, y) ==> GetTile(x', y') == old(GetTile(x', y'))
    {
      tiles[Index2d(x, y)] := tile;
    }

    /** The tile rectangle covering a box: floor of the low corner and ceiling
        of the high corner, in tile units. */
    function GetTileRange(box: AABBox): (r: TileRange)
      ensures (r.Left * TileSize) as real <= box.Min.X < ((r.Left + 1) * TileSize) as real
      ensures (r.Bottom * TileSize) as real <= box.Min.Y < ((r.Bottom + 1) * TileSize) as real
      ensures ((r.Right - 1) * TileSize) as real < box.Max.X <= (r.Right * TileSize) as real
      ensures ((r.Top - 1) * TileSize) as real < box.Max.Y <= (r.Top * TileSize) as real
    {
      var min := Vector2(box.Min.X / TileSize as real, box.Min.Y / TileSize as real);
      var max := Vector2(box.Max.X / TileSize as real, box.Max.Y / TileSize as real);
      TileRange(Floor(min.X), Floor(min.Y), Ceiling(max.X), Ceiling(max.Y))
    }

    function GetTileBox(x: int, y: int): (r: AABBox)
      ensures r.Min == GetTileOffset(x, y) && r.Max == GetTileOffset(x + 1, y + 1)
      ensures r.WellFormed()
    {
      var location := Vector2((x * TileSize) as real, (y * TileSize) as real);
      var offset := Vector2(TileSize as real, TileSize as real);
      FromCorners(location, location.Add(offset))
    }

    /** The world position of a tile's bottom-left corner; that point belongs
        to the tile itself. */
    function GetTileOffset(x: int, y: int): (r: Vector2)
      ensures TileOf(r) == TileIndex(x, y)
    {
      Vector2((x * TileSize) as real, (y * TileSize) as real)
    }

    /** The offset is the tile's bottom-left corner: no point of the tile
        lies below or to the left of it. */
    lemma TileOffsetIsCorner(x: int, y: int, p: Vector2)
      requires TileOf(p) == TileIndex(x, y)
      ensures GetTileOffset(x, y).X <= p.X && GetTileOffset(x, y).Y <= p.Y
    {
    }

    /** The untranslated template of the tile's type; `None` stands for the
        index error a code outside the table raises. */
    function GetTileGeometry(x: int, y: int): (r: Option<seq<LineSegment>>)
      requires Valid()
      reads tiles
      ensures r.Some? <==> 0 <= GetTile(x, y).Collision < NumCollisionTypes
      ensures GetTile(x, y).Collision == Empty ==> r == Some([])
      ensures r.Some? ==> forall s :: s in r.value ==> IsCorner(s.Start) && IsCorner(s.End)
    {
      var t := GetTile(x, y);
      if t.Collision == Empty then Some([])
      else GetGeometryTemplate(t.Collision)
    }

    /** Geometry depends only on the tile type: no offset, no neighbours. */
    lemma GeometryIgnoresPosition(x1: int, y1: int, x2: int, y2: int)
      requires Valid() && GetTile(x1, y1) == GetTile(x2, y2)
      ensures GetTileGeometry(x1, y1) == GetTileGeometry(x2, y2)
      ensures GetTileGeometry(x1, y1) == GetGeometryTemplate(GetTile(x1, y1).Collision)
    {
    }

    /** Every point of a box lies in a tile of the range computed for it. */
    lemma TileRangeCoversBox(box: AABBox, p: Vector2)
      requires box.IsContainedIn(p)
      ensures GetTileRange(box).Contains(TileOf(p))
    {
      var r := GetTileRange(box);
      var t := TileOf(p);
      assert (t.X * TileSize) as real <= p.X < ((t.X + 1) * TileSize) as real;
      assert (t.Y * TileSize) as real <= p.Y < ((t.Y + 1) * TileSize) as real;
    }

    /** A tile's own box maps back to the tile and its upper neighbours: the
        ceiling of the exact top edge is the next index. */
    lemma TileBoxRange(x: int, y: int)
      ensures GetTileRange(GetTileBox(x, y)) == TileRange(x, y, x + 1, y + 1)
    {
      var r := GetTileRange(GetTileBox(x, y));
      assert r.Left == x && r.Bottom == y;
      assert r.Right == x + 1 && r.Top == y + 1;
    }
  }

  /** The collision code loaded for cell (x, y): the text lists rows from the
      top (`y = height - 1`) down, each row from `x = 0`. */
  function TextCollision(data: string, width: int, height: int, x: int, y: int): CollisionType
    requires 0 <= x < width && 0 <= y < height && width * height <= |data|
  {
    MulLeMul(height - 1 - y, height - 1, width);
    data[(height - 1 - y) * width + x] as int - '0' as int
  }

  /** Character `i` lands in column `i mod width` of row `height-1-(i div width)`. */
  lemma TextPosition(data: string, width: int, height: int, i: int)
    requires 0 < width && 0 <= height && width * height <= |data| && 0 <= i < width * height
    ensures 0 <= height - 1 - i / width < height
    ensures TextCollision(data, width, height, i % width, height - 1 - i / width) == data[i] as int - '0' as int
  {
    if i / width >= height {
      MulLeMul(height, i / width, width);
      assert false;
    }
  }

  /** `TileMapLoader.LoadFromText`. Reading past the end of `data` is the index
      error C# raises; the half-filled map is then lost. */
  method LoadFromText(data: string, width: int, height: int) returns (r: Result<TileMap>)
    requires 0 <= width && 0 <= height
    ensures r.Success? <==> width * height <= |data|
    ensures r.Success? ==> fresh(r.value) && fresh(r.value.tiles) && r.value.Valid()
    ensures r.Success? ==> r.value.Width == width && r.value.Height == height
    ensures r.Success? ==> forall x, y :: 0 <= x < width && 0 <= y < height ==>
              r.value.GetTile(x, y).Collision == TextCollision(data, width, height, x, y)
  {
    var tileMap := new TileMap(width, height);
    var i := 0;
    var y := height - 1;
    while y >= 0
      invariant -1 <= y < height
      invariant i == (height - 1 - y) * width
      invariant i <= |data|
      invariant forall x', y' :: 0 <= x' < width && y < y' < height && width * height <= |data| ==>
                  tileMap.GetTile(x', y').Collision == TextCollision(data, width, height, x', y')
      decreases y
    {
      var x := 0;
      while x < width
        invariant 0 <= x <= width
        invariant i == (height - 1 - y) * width + x
        invariant i <= |data|
        invariant forall x', y' :: 0 <= x' < width && y < y' < height && width * height <= |data| ==>
                    tileMap.GetTile(x', y').Collision == TextCollision(data, width, height, x', y')
        invariant forall x' :: 0 <= x' < x && width * height <= |data| ==>
                    tileMap.GetTile(x', y).Collision == TextCollision(data, width, height, x', y)
      {
        if i >= |data| {
          MulLeMul(height - y, height, width);
          assert i < (height - y) * width;
          return Failure("Index was outside the bounds of the array.");
        }
        MulLeMul(height - 1 - y, height - 1, width);
        tileMap.SetTile(x, y, Tile(data[i] as int - '0' as int));
        i := i + 1;
        x := x + 1;
      }
      y := y - 1;
    }
    return Success(tileMap);
  }

  /** The 4x4 level "0000111101011010": the bottom-left column reads
      SolidBox, Empty, SolidBox, Empty from the bottom up. */
  lemma LoadExample()
    ensures var d := "0000111101011010";
            TextCollision(d, 4, 4, 0, 0) == SolidBox && TextCollision(d, 4, 4, 0, 1) == Empty &&
            TextCollision(d, 4, 4, 0, 2) == SolidBox && TextCollision(d, 4, 4, 0, 3) == Empty
  {
  }
}
