/** `Player`: horizontal input, jumping, gravity coupled to the other player,
    and the clamp to the floor at height 0. */
module Players {
  import opened Vectors
  import opened BoundingBoxes
  import opened InputFrames

  /** `PlayerKey` ordinals. */
  const LeftKey := 0
  const RightKey := 1
  const JumpKey := 2
  const NumPlayerKeys := 3

  const RunSpeed: real := 5.0
  const JumpSpeed: real := 10.0
  const Gravity: real := 0.5
  /** Vertical speed taken from an airborne player when the other jumps. */
  const JumpKick: real := 10.0

  function Abs(x: real): real { if x < 0.0 then -x else x }

  /** `Bounds`: the box with corners `position - halfWidth` and
      `position + halfWidth`, whatever the sign of `halfWidth`. */
  function BoundsOf(position: Vector2, halfWidth: Vector2): (box: AABBox)
    ensures box.WellFormed()
    ensures box.Min.Y == position.Y - Abs(halfWidth.Y)
  {
    FromCorners(position.Sub(halfWidth), position.Add(halfWidth))
  }

  /** A point is inside `Bounds` iff it is within the half-width of the
      position on both axes. */
  lemma BoundsContain(position: Vector2, halfWidth: Vector2, p: Vector2)
    ensures BoundsOf(position, halfWidth).IsContainedIn(p) <==>
      Abs(p.X - position.X) <= Abs(halfWidth.X) && Abs(p.Y - position.Y) <= Abs(halfWidth.Y)
  {
  }

  /** The part of a player that `Update` reads and writes. */
  datatype Body = Body(HalfWidth: Vector2, Position: Vector2, Velocity: Vector2, Grounded: bool)

  /** Whether this update is a jump: grounded with JUMP held. */
  predicate Jumps(b: Body, jump: bool) { b.Grounded && jump }

  /** The horizontal speed for the LEFT and RIGHT states. */
  function HorizontalSpeed(left: bool, right: bool): real {
    if left || right then (if left then -RunSpeed else RunSpeed) else 0.0
  }

  /** The vertical speed and grounding after a jump or a step of gravity. */
  function Accelerated(b: Body, jump: bool): Body {
    if Jumps(b, jump) then b.(Velocity := Vector2(b.Velocity.X, JumpSpeed), Grounded := false)
    else if !b.Grounded then b.(Velocity := Vector2(b.Velocity.X, b.Velocity.Y + -Gravity))
    else b
  }

  /** The player's own update before the floor clamp: the new velocity from
      the LEFT, RIGHT and JUMP states, then one step of it. */
  function Move(b: Body, left: bool, right: bool, jump: bool): Body {
    var a := Accelerated(b.(Velocity := Vector2(HorizontalSpeed(left, right), b.Velocity.Y)), jump);
    a.(Position := a.Position.Add(a.Velocity))
  }

  /** The floor clamp: a player whose bounds reach below 0 is put back on the
      floor, at rest vertically and grounded. */
  function Land(b: Body): Body {
    if Bottom(b) < 0.0 then Body(b.HalfWidth, Vector2(b.Position.X, b.HalfWidth.Y), Vector2(b.Velocity.X, 0.0), true)
    else b
  }

  /** The player's own update for the given LEFT, RIGHT and JUMP states. */
  function Advance(b: Body, left: bool, right: bool, jump: bool): Body {
    Land(Move(b, left, right, jump))
  }

  /** The change to the vertical speed of each airborne other player per
      array slot it occupies: `-JumpKick` on a jump, `+Gravity` when this
      airborne player's vertical speed has just become negative. */
  function Kick(b: Body, jump: bool): real {
    if Jumps(b, jump) then -JumpKick
    else if !b.Grounded && b.Velocity.Y + -Gravity < 0.0 then Gravity
    else 0.0
  }

  /** LEFT wins over RIGHT; neither stops the player. */
  lemma AdvanceHorizontal(b: Body, left: bool, right: bool, jump: bool)
    ensures var r := Advance(b, left, right, jump);
            (left ==> r.Velocity.X == -5.0) && (!left && right ==> r.Velocity.X == 5.0) && (!left && !right ==> r.Velocity.X == 0.0)
  {
  }

  /** The bottom edge of the player's bounds. */
  function Bottom(b: Body): real { BoundsOf(b.Position, b.HalfWidth).Min.Y }

  /** With a non-negative half-height the player never ends below the floor,
      and when the floor clamp fires it lands grounded at rest. */
  lemma AdvanceStaysAboveFloor(b: Body, left: bool, right: bool, jump: bool)
    requires b.HalfWidth.Y >= 0.0
    ensures Bottom(Advance(b, left, right, jump)) >= 0.0
  {
  }

  /** Away from the floor the position moves by exactly the new velocity; at
      the floor the player stops vertically and is grounded. */
  lemma AdvanceMoves(b: Body, left: bool, right: bool, jump: bool)
    ensures var r := Advance(b, left, right, jump);
            r.HalfWidth == b.HalfWidth &&
            r.Position.X == b.Position.X + r.Velocity.X &&
            (r.Position.Y == b.Position.Y + r.Velocity.Y || (r.Velocity.Y == 0.0 && r.Grounded && r.Position.Y == b.HalfWidth.Y))
  {
  }

  /** A grounded player holding JUMP leaves the ground at `JumpSpeed`, unless
      even that lands it below the floor. */
  lemma AdvanceJump(b: Body, left: bool, right: bool)
    requires b.Grounded
    ensures var r := Advance(b, left, right, true);
            (r.Velocity.Y == JumpSpeed && !r.Grounded) ||
            (r.Grounded && r.Velocity.Y == 0.0 && b.Position.Y + JumpSpeed - Abs(b.HalfWidth.Y) < 0.0)
  {
  }

  /** A grounded player not jumping keeps its vertical speed unless the clamp
      stops it; an airborne one falls by `Gravity` unless the clamp stops it. */
  lemma AdvanceVertical(b: Body, left: bool, right: bool, jump: bool)
    ensures var r := Advance(b, left, right, jump);
            r.Velocity.Y == 0.0 ||
            (b.Grounded && !jump && r.Velocity.Y == b.Velocity.Y) ||
            (!b.Grounded && r.Velocity.Y == b.Velocity.Y - Gravity) ||
            Jumps(b, jump)
    ensures var r := Advance(b, left, right, jump);
            !b.Grounded && r.Velocity.Y != 0.0 ==> r.Velocity.Y == b.Velocity.Y - Gravity && !r.Grounded
  {
  }

  /** How many of the two slots hold `p`. */
  function Slots(players: array<Player>, p: Player): nat
    requires players.Length == 2
    reads players
  {
    (if players[0] == p then 1 else 0) + (if players[1] == p then 1 else 0)
  }

  class Player {
    var HalfWidth: Vector2
    var Position: Vector2
    var Velocity: Vector2
    var InputState: InputFrame
    var Grounded: bool

    ghost predicate Valid()
      reads this, InputState
    {
      InputState.Valid() && InputState.NumButtons == NumPlayerKeys
    }

    function State(): Body
      reads this
    {
      Body(HalfWidth, Position, Velocity, Grounded)
    }

    /** `new Player(game, position, halfWidth)`: at rest, grounded, no key
        held. */
    constructor (position: Vector2, halfWidth: Vector2)
      ensures Valid() && fresh(InputState) && fresh(InputState.keys)
      ensures State() == Body(halfWidth, position, Zero, true)
      ensures forall k :: 0 <= k < NumPlayerKeys ==> !InputState.IsDown(k)
    {
      Position := position;
      HalfWidth := halfWidth;
      Velocity := Vector2(0.0, 0.0);
      InputState := new InputFrame(NumPlayerKeys, []);
      Grounded := true;
    }

    function Bounds(): (box: AABBox)
      reads this
      ensures box == BoundsOf(Position, HalfWidth)
    {
      BoundsOf(Position, HalfWidth)
    }

    /** `Update(game)`, with `game.Players` as a two-slot array. Every other
        airborne player gets `Kick` once per slot it occupies. */
    method Update(players: array<Player>)
      requires Valid() && players.Length == 2
      modifies this, players[0], players[1]
      ensures InputState == old(InputState)
      ensures State() == old(Advance(State(), InputState.IsDown(LeftKey), InputState.IsDown(RightKey), InputState.IsDown(JumpKey)))
      ensures players[0] != this ==> Kicked(players[0], old(players[0].State()), old(players[0].InputState), Slots(players, players[0]), old(Kick(State(), InputState.IsDown(JumpKey))))
      ensures players[1] != this ==> Kicked(players[1], old(players[1].State()), old(players[1].InputState), Slots(players, players[1]), old(Kick(State(), InputState.IsDown(JumpKey))))
    {
      var left := InputState.IsDown(LeftKey);
      var right := InputState.IsDown(RightKey);
      var jump := InputState.IsDown(JumpKey);
      ghost var before := State();
      Steer(left, right);

      Accelerate(players, jump);
      Position := Position.Add(Velocity);
      assert State() == Move(before, left, right, jump);

      LandOnFloor();
    }

    /** The vertical part of `Update`: a jump, or gravity while airborne,
        each kicking the other airborne players. */
    method Accelerate(players: array<Player>, jump: bool)
      requires players.Length == 2
      modifies this, players[0], players[1]
      ensures InputState == old(InputState)
      ensures State() == Accelerated(old(State()), jump)
      ensures players[0] != this ==> Kicked(players[0], old(players[0].State()), old(players[0].InputState), Slots(players, players[0]), old(Kick(State(), jump)))
      ensures players[1] != this ==> Kicked(players[1], old(players[1].State()), old(players[1].InputState), Slots(players, players[1]), old(Kick(State(), jump)))
    {
      ghost var kick := Kick(State(), jump);
      if Grounded && jump {
        KickOthers(players, -JumpKick);
        Velocity := Vector2(Velocity.X, JumpSpeed);
        Grounded := false;
      } else if !Grounded {
        Velocity := Vector2(Velocity.X, Velocity.Y + -Gravity);
        if Velocity.Y < 0.0 {
          KickOthers(players, Gravity);
        } else {
          assert kick == 0.0;
        }
      } else {
        assert kick == 0.0;
      }
      assert players[0] != this ==> Kicked(players[0], old(players[0].State()), old(players[0].InputState), Slots(players, players[0]), kick);
      assert players[1] != this ==> Kicked(players[1], old(players[1].State()), old(players[1].InputState), Slots(players, players[1]), kick);
    }

    /** The horizontal speed from LEFT and RIGHT at the start of `Update`. */
    method Steer(left: bool, right: bool)
      modifies this
      ensures InputState == old(InputState)
      ensures State() == old(State()).(Velocity := Vector2(HorizontalSpeed(left, right), old(Velocity.Y)))
    {
      if left || right {
        if left {
          Velocity := Vector2(-RunSpeed, Velocity.Y);
        } else {
          Velocity := Vector2(RunSpeed, Velocity.Y);
        }
      } else {
        Velocity := Vector2(0.0, Velocity.Y);
      }
    }

    /** The floor clamp at the end of `Update`. */
    method LandOnFloor()
      modifies this
      ensures InputState == old(InputState)
      ensures State() == Land(old(State()))
    {
      if Bounds().Min.Y < 0.0 {
        Velocity := Vector2(Velocity.X, 0.0);
        Position := Vector2(Position.X, HalfWidth.Y);
        Grounded := true;
      }
    }

    /** The loop over both slots: each airborne player other than this one
        has `delta` added to its vertical speed. */
    method KickOthers(players: array<Player>, delta: real)
      requires players.Length == 2
      modifies players[0], players[1]
      ensures State() == old(State()) && InputState == old(InputState)
      ensures players[0] != this ==> Kicked(players[0], old(players[0].State()), old(players[0].InputState), Slots(players, players[0]), delta)
      ensures players[1] != this ==> Kicked(players[1], old(players[1].State()), old(players[1].InputState), Slots(players, players[1]), delta)
    {
      for i := 0 to 2
        invariant State() == old(State()) && InputState == old(InputState)
        invariant players[0] != this ==> Kicked(players[0], old(players[0].State()), old(players[0].InputState), SlotsBefore(players, players[0], i), delta)
        invariant players[1] != this ==> Kicked(players[1], old(players[1].State()), old(players[1].InputState), SlotsBefore(players, players[1], i), delta)
      {
        if players[i] != this {
          if !players[i].Grounded {
            players[i].Velocity := Vector2(players[i].Velocity.X, players[i].Velocity.Y + delta);
          }
        }
      }
    }
  }

  /** Another player after its airborne vertical speed has been changed by
      `delta` once for each of `slots` slots it occupies; nothing else about
      it changes. */
  predicate Kicked(p: Player, was: Body, input: InputFrame, slots: nat, delta: real)
    reads p
  {
    p.InputState == input && p.HalfWidth == was.HalfWidth && p.Position == was.Position &&
    p.Grounded == was.Grounded && p.Velocity.X == was.Velocity.X &&
    p.Velocity.Y == was.Velocity.Y + (if was.Grounded then 0.0 else slots as real * delta)
  }

  /** How many of the first `n` slots hold `p`. */
  function SlotsBefore(players: array<Player>, p: Player, n: int): nat
    requires players.Length == 2 && 0 <= n <= 2
    reads players
    ensures n == 2 ==> SlotsBefore(players, p, n) == Slots(players, p)
  {
    (if n > 0 && players[0] == p then 1 else 0) + (if n > 1 && players[1] == p then 1 else 0)
  }
}
