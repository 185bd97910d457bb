/**
 * The player character (game/character.py): a signed velocity that each
 * command nudges by 0.1 and that never exceeds 1.0 in magnitude, a
 * horizontal position kept on screen, and a walking-animation counter.
 *
 * Positions and velocities are exact reals, so the rounding of repeated
 * 0.1 steps in floating point is not modelled.
 */
module Character {
  const ScreenWidth: real := 1200.0
  const Width: real := 40.0
  const Height: real := 60.0
  const StartX: real := 600.0
  const StartY: real := 720.0
  const MaxSpeed: real := 1.0
  const SpeedIncrement: real := 0.1
  const AnimationSpeed: real := 0.2

  /** `self.width // 2` and `1200 - self.width // 2`: the range of `x`. */
  const MinX: real := 20.0
  const MaxX: real := 1180.0

  /** The animation counter wraps back to 0 once it reaches this. */
  const AnimationFrames: real := 4.0
  /** Below this speed the character counts as standing still. */
  const StillSpeed: real := 0.01

  /** Pixels per second at velocity 1. */
  const PixelsPerSecond: real := 300.0

  function Abs(v: real): (a: real)
    ensures a >= 0.0 && (a == v || a == -v)
  {
    if v < 0.0 then -v else v
  }

  /** `move_left`: 0.1 further left, but not faster than 1.0. */
  function AfterMoveLeft(velocity: real): (v: real)
    ensures v >= -MaxSpeed
    ensures v == velocity - SpeedIncrement || v == -MaxSpeed
    ensures v <= velocity - SpeedIncrement || velocity - SpeedIncrement < -MaxSpeed
    ensures -MaxSpeed <= velocity <= MaxSpeed ==> -MaxSpeed <= v <= MaxSpeed && v <= velocity
  {
    var lowered := velocity - SpeedIncrement;
    if lowered >= -MaxSpeed then lowered else -MaxSpeed
  }

  /** `move_right`: 0.1 further right, but not faster than 1.0. */
  function AfterMoveRight(velocity: real): (v: real)
    ensures v <= MaxSpeed
    ensures v == velocity + SpeedIncrement || v == MaxSpeed
    ensures v >= velocity + SpeedIncrement || velocity + SpeedIncrement > MaxSpeed
    ensures -MaxSpeed <= velocity <= MaxSpeed ==> -MaxSpeed <= v <= MaxSpeed && v >= velocity
  {
    var raised := velocity + SpeedIncrement;
    if raised <= MaxSpeed then raised else MaxSpeed
  }

  /** `increase_speed`: the magnitude grows by 0.1 up to 1.0; a zero or positive velocity stays so. */
  function Faster(velocity: real): (v: real)
    ensures Abs(v) == if Abs(velocity) + SpeedIncrement <= MaxSpeed then Abs(velocity) + SpeedIncrement else MaxSpeed
    ensures velocity >= 0.0 ==> v > 0.0
    ensures velocity < 0.0 ==> v < 0.0
  {
    var currentSpeed := Abs(velocity);
    var newSpeed := if currentSpeed + SpeedIncrement <= MaxSpeed then currentSpeed + SpeedIncrement else MaxSpeed;
    if velocity >= 0.0 then newSpeed else -newSpeed
  }

  /** `decrease_speed`: the magnitude shrinks by 0.1 down to 0; the sign never flips. */
  function Slower(velocity: real): (v: real)
    ensures Abs(v) == if Abs(velocity) - SpeedIncrement >= 0.0 then Abs(velocity) - SpeedIncrement else 0.0
    ensures velocity >= 0.0 ==> v >= 0.0
    ensures velocity < 0.0 ==> v <= 0.0
    ensures Abs(v) <= Abs(velocity)
  {
    var currentSpeed := Abs(velocity);
    var newSpeed := if currentSpeed - SpeedIncrement >= 0.0 then currentSpeed - SpeedIncrement else 0.0;
    if velocity >= 0.0 then newSpeed else -newSpeed
  }

  /** In exact arithmetic, a step right undoes a step left that did not hit the speed limit. */
  lemma RightUndoesLeft(velocity: real)
    requires -MaxSpeed <= velocity - SpeedIncrement && velocity <= MaxSpeed
    ensures AfterMoveRight(AfterMoveLeft(velocity)) == velocity
  {
  }

  /** In exact arithmetic, slowing down undoes a speed-up that did not hit the limit. */
  lemma SlowerUndoesFaster(velocity: real)
    requires Abs(velocity) + SpeedIncrement <= MaxSpeed
    ensures Slower(Faster(velocity)) == velocity
  {
  }

  /** In exact arithmetic, ten steps in one direction from standing still reach full speed. */
  lemma TenStepsReachFullSpeed()
    ensures AfterMoveRight(AfterMoveRight(AfterMoveRight(AfterMoveRight(AfterMoveRight(
      AfterMoveRight(AfterMoveRight(AfterMoveRight(AfterMoveRight(AfterMoveRight(0.0)))))))))) == MaxSpeed
  {
  }

  /** `max(20, min(x, 1180))`. */
  function ClampX(x: real): (r: real)
    ensures MinX <= r <= MaxX
    ensures MinX <= x <= MaxX ==> r == x
    ensures x < MinX ==> r == MinX
    ensures x > MaxX ==> r == MaxX
  {
    var capped := if x <= MaxX then x else MaxX;
    if MinX >= capped then MinX else capped
  }

  /** The animation counter after one `update`: advancing while moving, 0 while still. */
  function NextFrame(frame: real, velocity: real): (f: real)
    ensures 0.0 <= frame < AnimationFrames ==> 0.0 <= f < AnimationFrames
    ensures Abs(velocity) <= StillSpeed ==> f == 0.0
  {
    if Abs(velocity) > StillSpeed then
      var advanced := frame + AnimationSpeed;
      if advanced >= AnimationFrames then 0.0 else advanced
    else 0.0
  }

  class Character {
    var x: real
    var y: real
    var velocity: real
    /** -1 left, 0 idle, 1 right. */
    var direction: int
    var animationFrame: real

    ghost predicate Valid()
      reads this
    {
      && -MaxSpeed <= velocity <= MaxSpeed
      && -1 <= direction <= 1
      && MinX <= x <= MaxX
      && 0.0 <= animationFrame < AnimationFrames
    }

    constructor ()
      ensures Valid()
      ensures x == StartX && y == StartY && velocity == 0.0 && direction == 0 && animationFrame == 0.0
    {
      x := StartX;
      y := StartY;
      velocity := 0.0;
      direction := 0;
      animationFrame := 0.0;
    }

    method MoveLeft()
      requires Valid()
      modifies this
      ensures Valid()
      ensures velocity == AfterMoveLeft(old(velocity)) && direction == -1
      ensures x == old(x) && y == old(y) && animationFrame == old(animationFrame)
    {
      velocity := velocity - SpeedIncrement;
      velocity := if velocity >= -MaxSpeed then velocity else -MaxSpeed;
      direction := -1;
    }

    method MoveRight()
      requires Valid()
      modifies this
      ensures Valid()
      ensures velocity == AfterMoveRight(old(velocity)) && direction == 1
      ensures x == old(x) && y == old(y) && animationFrame == old(animationFrame)
    {
      velocity := velocity + SpeedIncrement;
      velocity := if velocity <= MaxSpeed then velocity else MaxSpeed;
      direction := 1;
    }

    method Stop()
      requires Valid()
      modifies this
      ensures Valid()
      ensures velocity == 0.0 && direction == 0
      ensures x == old(x) && y == old(y) && animationFrame == old(animationFrame)
    {
      velocity := 0.0;
      direction := 0;
    }

    method IncreaseSpeed()
      requires Valid()
      modifies this
      ensures Valid()
      ensures velocity == Faster(old(velocity))
      ensures x == old(x) && y == old(y) && direction == old(direction) && animationFrame == old(animationFrame)
    {
      var currentSpeed := Abs(velocity);
      var newSpeed := if currentSpeed + SpeedIncrement <= MaxSpeed then currentSpeed + SpeedIncrement else MaxSpeed;
      velocity := if velocity >= 0.0 then newSpeed else -newSpeed;
    }

    method DecreaseSpeed()
      requires Valid()
      modifies this
      ensures Valid()
      ensures velocity == Slower(old(velocity))
      ensures x == old(x) && y == old(y) && direction == old(direction) && animationFrame == old(animationFrame)
    {
      var currentSpeed := Abs(velocity);
      var newSpeed := if currentSpeed - SpeedIncrement >= 0.0 then currentSpeed - SpeedIncrement else 0.0;
      velocity := if velocity >= 0.0 then newSpeed else -newSpeed;
    }

    /** `update(dt)`: moves by `velocity * 300 * dt`, kept on screen, and advances the animation. */
    method Update(dt: real)
      requires Valid()
      modifies this
      ensures Valid()
      ensures x == ClampX(old(x) + old(velocity) * PixelsPerSecond * dt)
      ensures animationFrame == NextFrame(old(animationFrame), old(velocity))
      ensures velocity == old(velocity) && direction == old(direction) && y == old(y)
    {
      var movementSpeed := velocity * PixelsPerSecond * dt;
      x := x + movementSpeed;
      x := ClampX(x);
      if Abs(velocity) > StillSpeed {
        animationFrame := animationFrame + AnimationSpeed;
        if animationFrame >= AnimationFrames {
          animationFrame := 0.0;
        }
      } else {
        animationFrame := 0.0;
      }
    }

    /** `reset`: back to the centre, standing still. */
    method Reset()
      modifies this
      ensures Valid()
      ensures x == StartX && velocity == 0.0 && direction == 0 && animationFrame == 0.0 && y == old(y)
    {
      x := StartX;
      velocity := 0.0;
      direction := 0;
      animationFrame := 0.0;
    }
  }
}
