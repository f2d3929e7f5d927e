/** `FrameAdvanceManager`: pausing, single-frame stepping and frame
    skipping for the game loop. */
module FrameAdvanceManagers {

  /** The largest `uint`. */
  const MaxUInt: nat := 0xFFFF_FFFF

  datatype Frames = Frames(IsPaused: bool, FrameSkip: nat, FrameCounter: nat, AdvanceFrame: bool)

  /** Both counters fit a `uint`, and the frame counter is below the
      largest one, so incrementing it cannot wrap. */
  predicate InRange(f: Frames) {
    f.FrameSkip <= MaxUInt && f.FrameCounter < MaxUInt
  }

  function ShouldUpdate(f: Frames): bool {
    (!f.IsPaused && f.FrameCounter == 0) || f.AdvanceFrame
  }

  /** `Update()` on the fields: the counter counts up and restarts once it
      reaches the skip, and a pending single-frame advance is used up. */
  function Tick(f: Frames): (r: Frames)
    requires InRange(f)
    ensures InRange(r)
    ensures r.FrameCounter < if f.FrameSkip >= 1 then f.FrameSkip else 1
    ensures !r.AdvanceFrame && r.IsPaused == f.IsPaused && r.FrameSkip == f.FrameSkip
  {
    var counter := f.FrameCounter + 1;
    f.(FrameCounter := if counter >= f.FrameSkip then 0 else counter, AdvanceFrame := false)
  }

  function Ticks(f: Frames, n: nat): (r: Frames)
    requires InRange(f)
    ensures InRange(r) && r.IsPaused == f.IsPaused && r.FrameSkip == f.FrameSkip
    ensures n > 0 ==> !r.AdvanceFrame
  {
    if n == 0 then f else Tick(Ticks(f, n - 1))
  }

  /** A single-frame advance makes the next frame update and, the manager
      being paused, the frame after it not. */
  lemma AdvanceRunsOneFrame(f: Frames)
    requires InRange(f)
    ensures var advanced := f.(IsPaused := true, AdvanceFrame := true);
            ShouldUpdate(advanced) && !ShouldUpdate(Tick(advanced))
  {
  }

  /** A paused manager without a pending advance never updates. */
  lemma {:induction false} PausedStaysStill(f: Frames, n: nat)
    requires InRange(f) && f.IsPaused && !f.AdvanceFrame
    ensures !ShouldUpdate(Ticks(f, n))
  {
    if n > 0 {
      PausedStaysStill(f, n - 1);
    }
  }

  /** Running with a skip of `k`, the game updates on one frame in every
      `k`: after an updating frame the next `k - 1` frames skip, and the
      `k`-th updates again. */
  lemma {:induction false} SkipPeriod(f: Frames, n: nat)
    requires InRange(f) && !f.IsPaused && !f.AdvanceFrame && f.FrameCounter == 0
    requires 1 <= n <= f.FrameSkip
    ensures n < f.FrameSkip ==> Ticks(f, n) == f.(FrameCounter := n) && !ShouldUpdate(Ticks(f, n))
    ensures n == f.FrameSkip ==> Ticks(f, n) == f && ShouldUpdate(Ticks(f, n))
  {
    if n > 1 {
      SkipPeriod(f, n - 1);
    }
  }

  /** With a skip of 0 or 1 every frame updates. */
  lemma {:induction false} NoSkipUpdatesEveryFrame(f: Frames, n: nat)
    requires InRange(f) && !f.IsPaused && f.FrameSkip <= 1 && f.FrameCounter == 0
    ensures Ticks(f, n).FrameCounter == 0 && ShouldUpdate(Ticks(f, n))
  {
    if n > 0 {
      NoSkipUpdatesEveryFrame(f, n - 1);
    }
  }

  class FrameAdvanceManager {
    var IsPaused: bool
    var FrameSkip: nat
    var FrameCounter: nat
    var AdvanceFrame: bool

    function State(): Frames
      reads this
    {
      Frames(IsPaused, FrameSkip, FrameCounter, AdvanceFrame)
    }

    ghost predicate Valid()
      reads this
    {
      InRange(State())
    }

    constructor ()
      ensures State() == Frames(false, 0, 0, false) && Valid()
    {
      IsPaused := false;
      AdvanceFrame := false;
      FrameSkip := 0;
      FrameCounter := 0;
    }

    /** The `FrameSkip` setter, for any `uint`. */
    method SetFrameSkip(value: nat)
      requires Valid() && value <= MaxUInt
      modifies this`FrameSkip
      ensures Valid() && State() == old(State()).(FrameSkip := value)
    {
      FrameSkip := value;
    }

    method Pause()
      modifies this`IsPaused
      ensures State() == old(State()).(IsPaused := true)
    {
      IsPaused := true;
    }

    method UnPause()
      modifies this`IsPaused
      ensures State() == old(State()).(IsPaused := false)
    {
      IsPaused := false;
    }

    method ShouldUpdateThisFrame() returns (b: bool)
      ensures b == ShouldUpdate(State())
    {
      b := (!IsPaused && FrameCounter == 0) || AdvanceFrame;
    }

    method FrameAdvance()
      modifies this`IsPaused, this`AdvanceFrame
      ensures State() == old(State()).(IsPaused := true, AdvanceFrame := true)
    {
      IsPaused := true;
      AdvanceFrame := true;
    }

    method Update()
      requires Valid()
      modifies this`FrameCounter, this`AdvanceFrame
      ensures Valid() && State() == Tick(old(State()))
    {
      FrameCounter := FrameCounter + 1;
      if FrameCounter >= FrameSkip {
        FrameCounter := 0;
      }
      AdvanceFrame := false;
    }
  }
}
