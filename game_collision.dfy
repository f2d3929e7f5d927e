/** `GameCollision`: the swept bounds of a moving object and the choice of its
    first collision among the segments of the tiles it may touch. The
    ellipse-versus-segment solver itself is a parameter. */
module GameCollision {
  import opened Vectors
  import opened Wrappers
  import opened BoundingBoxes
  import opened Line2d
  import opened Tiles

  datatype Ellipse = Ellipse(Position: Vector2, Size: Vector2)

  /** What an `EllipseCollisionObject` exposes. */
  datatype EllipseObject = EllipseObject(Position: Vector2, Velocity: Vector2, RoughBounds: AABBox, Collision: Ellipse)

  /** `CollisionResult`; `Type` is the solver's geometry tag. */
  datatype CollisionResult = CollisionResult(Type: int, Time: real, Position: Vector2, Normal: Vector2, Hit: bool)

  /** `new CollisionResult() { Time = 0, Hit = false }`. */
  const NoCollision := CollisionResult(0, 0.0, Zero, Zero, false)

  /** `Collide.CollideEllipseWithLine(ellipse, velocity, segment, out result)`:
      `None` when it returns false. */
  type Solver = (Ellipse, Vector2, LineSegment) -> Option<CollisionResult>

  /** `1.0f - 0.001f`, taken as an exact real. */
  const NormalThreshold: real := 0.999

  /** The box swept by the object's rough bounds over one velocity step. */
  function MovingBounds(obj: EllipseObject): (box: AABBox)
    ensures box.WellFormed()
    ensures box.IsContainedIn(obj.RoughBounds.Min.Add(obj.Velocity)) && box.IsContainedIn(obj.RoughBounds.Max.Add(obj.Velocity))
    ensures forall q :: obj.RoughBounds.IsContainedIn(q) ==> box.IsContainedIn(q) && box.IsContainedIn(q.Add(obj.Velocity))
  {
    var bounds := obj.RoughBounds;
    var velocity := obj.Velocity;
    bounds.AddInternalPoint(bounds.Min.Add(velocity)).AddInternalPoint(bounds.Max.Add(velocity))
  }

  /** A candidate that can become the best one: the solver reported a hit whose
      normal is not (almost) the disallowed one. */
  predicate Accepted(c: Option<CollisionResult>, disallowedNormal: Vector2) {
    c.Some? && c.value.Hit && Dot(c.value.Normal, disallowedNormal) < NormalThreshold
  }

  /** The loop state: `foundAny` and `bestResult`. */
  datatype Selection = Selection(FoundAny: bool, Best: CollisionResult)

  const NothingFound := Selection(false, NoCollision)

  /** One iteration of the inner loop. */
  function Consider(s: Selection, c: Option<CollisionResult>, disallowedNormal: Vector2): Selection {
    if Accepted(c, disallowedNormal) && (!s.FoundAny || s.Best.Time > c.value.Time) then Selection(true, c.value)
    else s
  }

  /** The loop over all candidates, in order. */
  function SelectFirst(cs: seq<Option<CollisionResult>>, disallowedNormal: Vector2): Selection {
    if cs == [] then NothingFound
    else Consider(SelectFirst(cs[..|cs| - 1], disallowedNormal), cs[|cs| - 1], disallowedNormal)
  }

  /** The segments tested, tile by tile in `IterateTiles` order, each tile's
      template in its own order and in tile-local coordinates; `None` when a
      tile's geometry lookup fails. */
  function Segments(tileMap: TileMap, tiles: seq<TileIndex>): Option<seq<LineSegment>>
    requires tileMap.Valid()
    reads tileMap.tiles
  {
    if tiles == [] then Some([])
    else
      match Segments(tileMap, tiles[..|tiles| - 1])
      case None => None
      case Some(prefix) =>
        match tileMap.GetTileGeometry(tiles[|tiles| - 1].X, tiles[|tiles| - 1].Y)
        case None => None
        case Some(g) => Some(prefix + g)
  }

  /** The solver's answer for every segment, with the velocity scaled by the
      remaining fraction of the frame. */
  function Candidates(obj: EllipseObject, currentTime: real, segments: seq<LineSegment>, collide: Solver): (cs: seq<Option<CollisionResult>>)
    ensures |cs| == |segments|
  {
    seq(|segments|, i requires 0 <= i < |segments| => collide(obj.Collision, obj.Velocity.Scale(1.0 - currentTime), segments[i]))
  }

  /** What `GetFirstCollision` computes. */
  function FirstCollision(obj: EllipseObject, tileMap: TileMap, currentTime: real, disallowedNormal: Vector2, collide: Solver): Result<CollisionResult>
    requires tileMap.Valid()
    reads tileMap.tiles
  {
    match Segments(tileMap, tileMap.GetTileRange(MovingBounds(obj)).IterateTiles())
    case None => Failure("Index was outside the bounds of the array.")
    case Some(segments) => Success(SelectFirst(Candidates(obj, currentTime, segments, collide), disallowedNormal).Best)
  }

  /** `GetFirstCollision(obj, gameData, currentTime, disallowedNormal)`. */
  method GetFirstCollision(obj: EllipseObject, tileMap: TileMap, currentTime: real, disallowedNormal: Vector2, collide: Solver)
    returns (r: Result<CollisionResult>)
    requires tileMap.Valid()
    ensures r == FirstCollision(obj, tileMap, currentTime, disallowedNormal, collide)
  {
    var intersectedTiles := tileMap.GetTileRange(MovingBounds(obj)).IterateTiles();
    var velocity := obj.Velocity.Scale(1.0 - currentTime);
    var sel := NothingFound;
    ghost var segs: seq<LineSegment> := [];
    for k := 0 to |intersectedTiles|
      invariant Segments(tileMap, intersectedTiles[..k]) == Some(segs)
      invariant sel == SelectFirst(Candidates(obj, currentTime, segs, collide), disallowedNormal)
    {
      var i := intersectedTiles[k];
      var offset := tileMap.GetTileOffset(i.X, i.Y);
      assert intersectedTiles[..k + 1][..k] == intersectedTiles[..k];
      var geometry := tileMap.GetTileGeometry(i.X, i.Y);
      if geometry.None? {
        assert Segments(tileMap, intersectedTiles[..k + 1]).None?;
        SegmentsFailurePersists(tileMap, intersectedTiles, k + 1);
        return Failure("Index was outside the bounds of the array.");
      }
      var g := geometry.value;
      sel := ConsiderSegments(obj, currentTime, disallowedNormal, collide, segs, g, sel);
      segs := segs + g;
    }
    assert intersectedTiles[..|intersectedTiles|] == intersectedTiles;
    return Success(sel.Best);
  }

  /** The inner loop: the segments of one tile, after those of earlier tiles. */
  method ConsiderSegments(obj: EllipseObject, currentTime: real, disallowedNormal: Vector2, collide: Solver,
                          ghost segs: seq<LineSegment>, g: seq<LineSegment>, sel0: Selection)
    returns (sel: Selection)
    requires sel0 == SelectFirst(Candidates(obj, currentTime, segs, collide), disallowedNormal)
    ensures sel == SelectFirst(Candidates(obj, currentTime, segs + g, collide), disallowedNormal)
  {
    var velocity := obj.Velocity.Scale(1.0 - currentTime);
    sel := sel0;
    assert segs + g[..0] == segs;
    for n := 0 to |g|
      invariant sel == SelectFirst(Candidates(obj, currentTime, segs + g[..n], collide), disallowedNormal)
    {
      var result := collide(obj.Collision, velocity, g[n]);
      CandidatesSnoc(obj, currentTime, segs, g, n, collide);
      if result.Some? {
        if result.value.Hit && (!sel.FoundAny || sel.Best.Time > result.value.Time) {
          if Dot(result.value.Normal, disallowedNormal) < NormalThreshold {
            sel := Selection(true, result.value);
          }
        }
      }
    }
    assert g[..|g|] == g;
  }

  /** One more segment: one more candidate, examined last. */
  lemma CandidatesSnoc(obj: EllipseObject, currentTime: real, segs: seq<LineSegment>, g: seq<LineSegment>, n: int, collide: Solver)
    requires 0 <= n < |g|
    ensures var cs := Candidates(obj, currentTime, segs + g[..n + 1], collide);
            cs[..|cs| - 1] == Candidates(obj, currentTime, segs + g[..n], collide) &&
            cs[|cs| - 1] == collide(obj.Collision, obj.Velocity.Scale(1.0 - currentTime), g[n])
  {
    var cs := Candidates(obj, currentTime, segs + g[..n + 1], collide);
    assert (segs + g[..n + 1])[..|segs| + n] == segs + g[..n];
  }

  lemma {:induction false} SegmentsFailurePersists(tileMap: TileMap, tiles: seq<TileIndex>, k: int)
    requires tileMap.Valid() && 0 <= k <= |tiles| && Segments(tileMap, tiles[..k]).None?
    ensures Segments(tileMap, tiles).None?
    decreases |tiles| - k
  {
    if k < |tiles| {
      assert tiles[..k + 1][..k] == tiles[..k];
      SegmentsFailurePersists(tileMap, tiles, k + 1);
    } else {
      assert tiles[..k] == tiles;
    }
  }

  /** `GetFirstCollision(obj, gameData, currentTime = 0)`: no normal is
      disallowed. */
  method GetFirstCollisionFrom(obj: EllipseObject, tileMap: TileMap, currentTime: real, collide: Solver)
    returns (r: Result<CollisionResult>)
    requires tileMap.Valid()
    ensures r == FirstCollision(obj, tileMap, currentTime, Zero, collide)
  {
    r := GetFirstCollision(obj, tileMap, currentTime, Zero, collide);
  }

  /** `GetFirstCollision(obj, gameData, disallowedNormal)`: forwards time 0 and
      the zero vector, so its own argument has no effect. */
  method GetFirstCollisionExcept(obj: EllipseObject, tileMap: TileMap, disallowedNormal: Vector2, collide: Solver)
    returns (r: Result<CollisionResult>)
    requires tileMap.Valid()
    ensures r == FirstCollision(obj, tileMap, 0.0, Zero, collide)
  {
    r := GetFirstCollision(obj, tileMap, 0.0, Zero, collide);
  }

  /** Against the zero vector every reported hit passes the normal filter. */
  lemma ZeroNormalAcceptsEveryHit(c: Option<CollisionResult>)
    ensures Accepted(c, Zero) <==> c.Some? && c.value.Hit
  {
  }

  /** Nothing accepted: the default result, `Hit = false` and `Time = 0`. */
  lemma {:induction false} NothingAccepted(cs: seq<Option<CollisionResult>>, disallowedNormal: Vector2)
    requires forall j :: 0 <= j < |cs| ==> !Accepted(cs[j], disallowedNormal)
    ensures SelectFirst(cs, disallowedNormal) == NothingFound
  {
    if cs != [] {
      NothingAccepted(cs[..|cs| - 1], disallowedNormal);
    }
  }

  /** Something accepted: the selection is the first accepted candidate of
      least time. Its time is at most every accepted candidate's time, and
      every accepted candidate before it is strictly later. */
  lemma {:induction false} SelectsFirstEarliest(cs: seq<Option<CollisionResult>>, disallowedNormal: Vector2)
    ensures var s := SelectFirst(cs, disallowedNormal);
            s.FoundAny <==> exists j :: 0 <= j < |cs| && Accepted(cs[j], disallowedNormal)
    ensures var s := SelectFirst(cs, disallowedNormal);
            s.FoundAny ==>
              exists k :: 0 <= k < |cs| && Accepted(cs[k], disallowedNormal) && cs[k].value == s.Best &&
                          (forall j :: 0 <= j < k && Accepted(cs[j], disallowedNormal) ==> cs[j].value.Time > s.Best.Time)
    ensures var s := SelectFirst(cs, disallowedNormal);
            forall j :: 0 <= j < |cs| && Accepted(cs[j], disallowedNormal) ==> s.FoundAny && s.Best.Time <= cs[j].value.Time
  {
    if cs != [] {
      var init := cs[..|cs| - 1];
      var last := cs[|cs| - 1];
      SelectsFirstEarliest(init, disallowedNormal);
      var s0 := SelectFirst(init, disallowedNormal);
      var s := SelectFirst(cs, disallowedNormal);
      assert forall j :: 0 <= j < |init| ==> init[j] == cs[j];
      if Accepted(last, disallowedNormal) && (!s0.FoundAny || s0.Best.Time > last.value.Time) {
        assert s.Best == last.value;
        var k := |cs| - 1;
        assert Accepted(cs[k], disallowedNormal) && cs[k].value == s.Best;
      } else {
        assert s == s0;
        if s0.FoundAny {
          var k :| 0 <= k < |init| && Accepted(init[k], disallowedNormal) && init[k].value == s0.Best &&
                   (forall j :: 0 <= j < k && Accepted(init[j], disallowedNormal) ==> init[j].value.Time > s0.Best.Time);
          assert Accepted(cs[k], disallowedNormal) && cs[k].value == s.Best;
        }
      }
    }
  }

  /** The collision is looked up per segment of the tiles' untranslated
      templates: the tile offset is never applied. */
  lemma {:induction false} SegmentsAreTileLocal(tileMap: TileMap, tiles: seq<TileIndex>)
    requires tileMap.Valid() && Segments(tileMap, tiles).Some?
    ensures forall s :: s in Segments(tileMap, tiles).value ==> IsCorner(s.Start) && IsCorner(s.End)
  {
    if tiles != [] {
      SegmentsAreTileLocal(tileMap, tiles[..|tiles| - 1]);
    }
  }
}
