/** Mario's controls: the horizontal acceleration rules of MarioMove and the
    jump flags and gravity scale of MarioJump. Both act on the actor's
    BasePhysics, which they hold as `body` and `mover.body`. */
module Player {
  import opened Geometry
  import opened Base

  /** One acceleration profile: top speed, forward acceleration and the
      acceleration used while turning. */
  datatype AccProfile = AccProfile(maxSpeed: real, runAcc: real, turnAcc: real)

  /** The speed change of `acc` applied towards `dir` over `dt`. */
  function Push(acc: real, dir: int, dt: real): real {
    acc * dir as real * dt
  }

  /** The initial-speed kick of `amount` towards `dir`. */
  function Kick(amount: real, dir: int): real {
    amount * dir as real
  }

  /** One tick of AddSpeed on the horizontal speed `x`: a turning tick adds
      only the turn acceleration; otherwise a speed below the initial speed
      first gets the initial-speed kick, then the forward acceleration. The
      result is clamped to the profile's top speed. */
  function Accelerated(x: real, dir: int, turning: bool, p: AccProfile, minSpeed: real, dt: real): (r: real)
    ensures p.maxSpeed >= 0.0 ==> -p.maxSpeed <= r <= p.maxSpeed
  {
    var raw := if turning then x + Push(p.turnAcc, dir, dt)
               else (if Abs(x) < minSpeed then x + Kick(minSpeed, dir) else x) + Push(p.runAcc, dir, dt);
    Clamp(raw, -p.maxSpeed, p.maxSpeed)
  }

  /** A turning tick gets no initial-speed kick: its result does not depend
      on the initial speed at all. */
  lemma TurningHasNoKick(x: real, dir: int, p: AccProfile, m1: real, m2: real, dt: real)
    ensures Accelerated(x, dir, true, p, m1, dt) == Accelerated(x, dir, true, p, m2, dt)
  {
  }

  /** Moving in the input direction below the initial speed, one tick
      reaches at least the initial speed when the top speed allows it. */
  lemma KickReachesMinSpeed(x: real, dir: int, p: AccProfile, minSpeed: real, dt: real)
    requires dir == 1 || dir == -1
    requires Sign(x) == dir && Abs(x) < minSpeed
    requires p.runAcc * dt >= 0.0 && minSpeed <= p.maxSpeed
    ensures var r := Accelerated(x, dir, false, p, minSpeed, dt);
      Sign(r) == dir && Abs(r) >= minSpeed
  {
    var push := Push(p.runAcc, dir, dt);
    if dir == 1 {
      assert push == p.runAcc * dt;
    } else {
      assert push == -(p.runAcc * dt);
    }
  }

  /** Both accelerations of `p` push forwards over `dt`. */
  predicate ForwardPushes(p: AccProfile, dt: real) {
    p.runAcc * dt >= 0.0 && p.turnAcc * dt >= 0.0
  }

  /** `after` is not further against `dir` than `before`. */
  predicate TowardsInput(before: real, after: real, dir: int) {
    if dir == 1 then after >= before else after <= before
  }

  /** With non-negative accelerations and a speed within the top speed, a
      tick never moves the speed against the input direction. */
  lemma AcceleratesTowardsInput(x: real, dir: int, turning: bool, p: AccProfile, minSpeed: real, dt: real)
    requires dir == 1 || dir == -1
    requires ForwardPushes(p, dt) && minSpeed >= 0.0
    requires -p.maxSpeed <= x <= p.maxSpeed
    ensures TowardsInput(x, Accelerated(x, dir, turning, p, minSpeed, dt), dir)
  {
    var run, turn := Push(p.runAcc, dir, dt), Push(p.turnAcc, dir, dt);
    if dir == 1 {
      assert run == p.runAcc * dt && turn == p.turnAcc * dt;
    } else {
      assert run == -(p.runAcc * dt) && turn == -(p.turnAcc * dt);
    }
  }

  /** The walking and running profiles and the initial speed MarioMove is
      configured with by default. */
  const DefaultWalking := AccProfile(35.0 / 8.0, 0.125, 0.5)
  const DefaultRunning := AccProfile(8.0, 0.125, 0.5)
  const DefaultMinSpeed := 1.0

  /** With the default configuration the initial-speed kick always reaches
      the initial speed, walking or running. */
  lemma DefaultKickReachesMinSpeed(x: real, dir: int, isRunning: bool, dt: real)
    requires dir == 1 || dir == -1
    requires Sign(x) == dir && Abs(x) < DefaultMinSpeed && dt >= 0.0
    ensures var r := Accelerated(x, dir, false, if isRunning then DefaultRunning else DefaultWalking, DefaultMinSpeed, dt);
      Sign(r) == dir && Abs(r) >= DefaultMinSpeed
  {
    KickReachesMinSpeed(x, dir, if isRunning then DefaultRunning else DefaultWalking, DefaultMinSpeed, dt);
  }

  /** One tick of DecrSpeed: brake against the current direction by the
      forward acceleration; a brake that flips the sign stops instead. */
  function Decelerated(x: real, runAcc: real, dt: real): (r: real)
    ensures runAcc * dt > 0.0 && x != 0.0 ==> r == 0.0 || (Sign(r) == Sign(x) && Abs(r) < Abs(x))
    ensures runAcc * dt >= 0.0 ==> Abs(r) <= Abs(x)
    ensures x == 0.0 ==> r == 0.0
  {
    var next := x - Push(runAcc, Sign(x), dt);
    assert Sign(x) == 1 ==> next == x - runAcc * dt;
    assert Sign(x) == -1 ==> next == x + runAcc * dt;
    if Sign(next) != Sign(x) then 0.0 else next
  }

  /** The horizontal controls of Mario. */
  class MarioMove {
    const body: BasePhysics
    const walking: AccProfile
    const running: AccProfile
    /** The initial speed. */
    const minSpeed: real
    /** The input direction, -1, 0 or 1. */
    var accDirection: int
    var isHoldingRunKey: bool
    /** Never set by the movement code itself. */
    var isTowardsWall: bool
    var controlEnabled: bool

    ghost predicate Valid()
      reads this
    {
      -1 <= accDirection <= 1
    }

    constructor (body: BasePhysics, walking: AccProfile, running: AccProfile, minSpeed: real)
      ensures Valid()
      ensures this.body == body && this.walking == walking && this.running == running && this.minSpeed == minSpeed
      ensures accDirection == 0 && !isHoldingRunKey && !isTowardsWall && controlEnabled
    {
      this.body := body;
      this.walking := walking;
      this.running := running;
      this.minSpeed := minSpeed;
      accDirection := 0;
      isHoldingRunKey := false;
      isTowardsWall := false;
      controlEnabled := true;
    }

    /** Running needs the run key held and no wall ahead. */
    function IsRunning(): (r: bool)
      reads this
      ensures r ==> isHoldingRunKey
      ensures isTowardsWall ==> !r
      ensures isHoldingRunKey && !isTowardsWall ==> r
    {
      isHoldingRunKey && !isTowardsWall
    }

    /** The running profile while running, the walking one otherwise. */
    function CurProfile(): (p: AccProfile)
      reads this
      ensures p == running || p == walking
      ensures !isHoldingRunKey || isTowardsWall ==> p == walking
      ensures isHoldingRunKey && !isTowardsWall ==> p == running
    {
      if IsRunning() then running else walking
    }

    /** Turning: the speed's sign differs from the input direction. Standing
        still with some input counts as turning. */
    function IsTurning(): (r: bool)
      reads this, body
      ensures body.vel.x == 0.0 && accDirection != 0 ==> r
      ensures accDirection == 0 ==> (r <==> body.vel.x != 0.0)
      ensures body.vel.x > 0.0 && accDirection == 1 ==> !r
      ensures body.vel.x < 0.0 && accDirection == -1 ==> !r
      ensures body.vel.x > 0.0 && accDirection == -1 ==> r
      ensures body.vel.x < 0.0 && accDirection == 1 ==> r
    {
      Sign(body.vel.x) != accDirection
    }

    /** The gravity Mario reports: the configured gravity scaled by the
        jump's gravity scale; `jumper` is Mario's own jump component. */
    function Gravity(jumper: MarioJump): (g: real)
      requires jumper.mover == this
      reads this, body, jumper
      ensures !jumper.isHoldingJumpKey || body.vel.y <= 0.0 ==> g == body.gravity
      ensures jumper.isHoldingJumpKey && body.vel.y > 0.0 ==>
        g == body.gravity * jumper.gravityScaleRunning || g == body.gravity * jumper.gravityScaleNonRunning
    {
      body.gravity * jumper.GetGravityScale()
    }

    /** The horizontal input handler: the input's sign. */
    method OnMoveX(value: real)
      modifies this`accDirection
      ensures Valid()
      ensures accDirection == Sign(value)
    {
      accDirection := Sign(value);
    }

    method OnRunPressed()
      modifies this`isHoldingRunKey
      ensures isHoldingRunKey
    {
      isHoldingRunKey := true;
    }

    method OnRunReleased()
      modifies this`isHoldingRunKey
      ensures !isHoldingRunKey
    {
      isHoldingRunKey := false;
    }

    /** Accelerates the horizontal speed towards the input direction; with
        some input and non-negative accelerations it never works against it. */
    method AddSpeed(dt: real)
      requires Valid()
      modifies body`vel
      ensures body.vel == Vec(Accelerated(old(body.vel.x), accDirection, old(IsTurning()), CurProfile(), minSpeed, dt),
                              old(body.vel.y))
      ensures CurProfile().maxSpeed >= 0.0 ==> -CurProfile().maxSpeed <= body.vel.x <= CurProfile().maxSpeed
      ensures (accDirection != 0 && ForwardPushes(CurProfile(), dt) && minSpeed >= 0.0 &&
               -CurProfile().maxSpeed <= old(body.vel.x) <= CurProfile().maxSpeed) ==>
        TowardsInput(old(body.vel.x), body.vel.x, accDirection)
    {
      var profile := CurProfile();
      if accDirection != 0 && ForwardPushes(profile, dt) && minSpeed >= 0.0
         && -profile.maxSpeed <= body.vel.x <= profile.maxSpeed {
        AcceleratesTowardsInput(body.vel.x, accDirection, IsTurning(), profile, minSpeed, dt);
      }
      var x := body.vel.x;
      if IsTurning() {
        x := x + Push(profile.turnAcc, accDirection, dt);
      } else {
        if Abs(x) < minSpeed {
          x := x + Kick(minSpeed, accDirection);
        }
        x := x + Push(profile.runAcc, accDirection, dt);
      }
      x := Clamp(x, -profile.maxSpeed, profile.maxSpeed);
      body.vel := Vec(x, body.vel.y);
    }

    /** Brakes the horizontal speed towards zero without reversing it. */
    method DecrSpeed(dt: real)
      modifies body`vel
      ensures body.vel == Vec(Decelerated(old(body.vel.x), CurProfile().runAcc, dt), old(body.vel.y))
    {
      var x := body.vel.x;
      var signBefore := Sign(x);
      x := x - Push(CurProfile().runAcc, signBefore, dt);
      if signBefore != Sign(x) {
        x := 0.0;
      }
      body.vel := Vec(x, body.vel.y);
    }

    /** Mario's tick: accelerate while there is input (none counts while
        control is disabled), otherwise brake a moving Mario. This tick
        replaces the BasePhysics tick rather than running before it. */
    method FixedUpdate(dt: real)
      requires Valid()
      modifies body`vel
      ensures body.vel.y == old(body.vel.y)
      ensures controlEnabled && accDirection != 0 ==>
        body.vel.x == Accelerated(old(body.vel.x), accDirection, old(IsTurning()), CurProfile(), minSpeed, dt)
      ensures (!controlEnabled || accDirection == 0) && old(body.vel.x) != 0.0 ==>
        body.vel.x == Decelerated(old(body.vel.x), CurProfile().runAcc, dt)
      ensures (!controlEnabled || accDirection == 0) && old(body.vel.x) == 0.0 ==> body.vel == old(body.vel)
    {
      var accDir := if controlEnabled then accDirection else 0;
      if accDir != 0 {
        AddSpeed(dt);
      } else if body.vel.x != 0.0 {
        DecrSpeed(dt);
      }
    }
  }

  /** The gravity scales and the run threshold MarioJump is configured with
      by default. */
  const DefaultGravityScaleNonRunning := 0.6
  const DefaultGravityScaleRunning := 0.5
  const DefaultRunSpeedThreshold := 5.0 / 8.0

  /** With the default scales, holding the jump key on the way up always
      lightens gravity, and running above the threshold lightens it more. */
  lemma DefaultJumpLightensGravity(j: MarioJump)
    requires j.gravityScaleNonRunning == DefaultGravityScaleNonRunning
    requires j.gravityScaleRunning == DefaultGravityScaleRunning
    requires j.runSpeedThreshold == DefaultRunSpeedThreshold
    requires j.isHoldingJumpKey && j.mover.body.vel.y > 0.0
    ensures 0.0 < j.GetGravityScale() < 1.0
    ensures Abs(j.mover.body.vel.x) > DefaultRunSpeedThreshold ==> j.GetGravityScale() < DefaultGravityScaleNonRunning
  {
  }

  /** Mario's jump: the held and ready flags and the gravity scale. */
  class MarioJump {
    const mover: MarioMove
    const jumpHeight: real
    const gravityScaleNonRunning: real
    const gravityScaleRunning: real
    /** The horizontal speed above which Mario counts as running. */
    const runSpeedThreshold: real
    var isReadyToJump: bool
    var isHoldingJumpKey: bool

    /** Ready to jump only while the key is held. */
    ghost predicate Valid()
      reads this
    {
      isReadyToJump ==> isHoldingJumpKey
    }

    constructor (mover: MarioMove, jumpHeight: real, gravityScaleNonRunning: real, gravityScaleRunning: real,
                 runSpeedThreshold: real)
      ensures Valid()
      ensures this.mover == mover && this.jumpHeight == jumpHeight
      ensures this.gravityScaleNonRunning == gravityScaleNonRunning && this.gravityScaleRunning == gravityScaleRunning
      ensures this.runSpeedThreshold == runSpeedThreshold
      ensures !isReadyToJump && !isHoldingJumpKey
    {
      this.mover := mover;
      this.jumpHeight := jumpHeight;
      this.gravityScaleNonRunning := gravityScaleNonRunning;
      this.gravityScaleRunning := gravityScaleRunning;
      this.runSpeedThreshold := runSpeedThreshold;
      isReadyToJump := false;
      isHoldingJumpKey := false;
    }

    /** Normal gravity unless the key is held on the way up; then the
        running scale above the run threshold (strictly) and the walking
        scale otherwise. */
    function GetGravityScale(): (s: real)
      reads this, mover.body
      ensures !isHoldingJumpKey || mover.body.vel.y <= 0.0 ==> s == 1.0
      ensures isHoldingJumpKey && mover.body.vel.y > 0.0 ==>
        (Abs(mover.body.vel.x) > runSpeedThreshold ==> s == gravityScaleRunning) &&
        (Abs(mover.body.vel.x) <= runSpeedThreshold ==> s == gravityScaleNonRunning)
      ensures s == 1.0 || s == gravityScaleRunning || s == gravityScaleNonRunning
    {
      if !isHoldingJumpKey || mover.body.vel.y <= 0.0 then 1.0
      else if Abs(mover.body.vel.x) > runSpeedThreshold then gravityScaleRunning
      else gravityScaleNonRunning
    }

    /** The jump key goes down: held, and ready unless moving up. */
    method OnJumpInput()
      requires Valid()
      modifies this`isHoldingJumpKey, this`isReadyToJump
      ensures Valid() && isHoldingJumpKey
      ensures isReadyToJump == (old(isReadyToJump) || mover.body.vel.y <= 0.0)
    {
      isHoldingJumpKey := true;
      if mover.body.vel.y <= 0.0 {
        isReadyToJump := true;
      }
    }

    /** The jump key goes up: neither held nor ready. */
    method OnJumpRelease()
      modifies this`isHoldingJumpKey, this`isReadyToJump
      ensures Valid() && !isHoldingJumpKey && !isReadyToJump
    {
      isHoldingJumpKey := false;
      isReadyToJump := false;
    }

    /** Jumps with vertical speed `height`; the jump is used up. */
    method Jump(height: real)
      requires Valid()
      modifies mover.body`vel, this`isReadyToJump
      ensures Valid() && !isReadyToJump
      ensures mover.body.vel == Vec(old(mover.body.vel.x), height)
    {
      mover.body.vel := Vec(mover.body.vel.x, height);
      isReadyToJump := false;
    }

    /** Jumps with the configured height. */
    method JumpToHeight()
      requires Valid()
      modifies mover.body`vel, this`isReadyToJump
      ensures Valid() && !isReadyToJump
      ensures mover.body.vel == Vec(old(mover.body.vel.x), jumpHeight)
    {
      Jump(jumpHeight);
    }

    /** Each frame: jump iff ready and on the ground; answers whether it
        jumped. */
    method Update() returns (jumped: bool)
      requires Valid()
      modifies mover.body`vel, this`isReadyToJump
      ensures Valid()
      ensures jumped == (old(isReadyToJump) && mover.body.isOnGround)
      ensures jumped ==> !isReadyToJump && mover.body.vel == Vec(old(mover.body.vel.x), jumpHeight)
      ensures !jumped ==> isReadyToJump == old(isReadyToJump) && mover.body.vel == old(mover.body.vel)
    {
      jumped := isReadyToJump && mover.body.isOnGround;
      if jumped {
        JumpToHeight();
      }
    }
  }
}
