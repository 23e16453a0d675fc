# MarioForever movement core in Dafny

This project models the per-tick movement and state logic of the actors of
MarioForever, a Unity platformer written in C#, and proves what that logic
promises.

- **BasePhysics** (module `Base`, class `Base.BasePhysics`) is the movement
  core shared by every actor. It covers speed clamping, the appear-from-pipe
  countdown, and the slope classification (flat, ascending, descending) with
  its remembered slope. It covers the "stop towards a wall" pre-check, the
  anti-trap displacement along X, along Y and along an arbitrary offset, the
  ground flag, the head-bump dispatch to hit handlers, and the recording of a
  tick's start and end positions.
- **MarioMove** (class `Player.MarioMove`) is a BasePhysics subclass in C#.
  The model holds its BasePhysics part as the field `body`. The class holds
  Mario's horizontal acceleration, turning and braking rules, and the input
  handlers as plain setters.
- **MarioJump** (class `Player.MarioJump`) holds the gravity-scale selection
  and the held and ready jump flags. Their invariant is "ready implies held".
- **FallingPlatform** and **PlatformDefinitions** (module `Facilities`) hold
  the one-way "fallen" latch of a platform and the standing-on-top test it
  uses.

The engine's collision queries are replaced by a *cast oracle*
(`Geometry.Cast`). It is a function from origin, direction and maximum
distance to a sequence of hits, nearest first. Each hit gives its distance and
its collider. A collider may carry a slope (side it rises towards, ±1, and its
degree, > 0). It may also carry a hit handler, given by the answer that
handler returns when struck from below. `Geometry.WellFormedCast` states what
the world guarantees: distances are non-negative and sorted, and slopes are
well formed.

Positions and speeds are reals. The square root is not computed. Each slope
carries its `factor`, and `Geometry.ValidSlope` pins that factor down by
`factor > 0` and `factor² · (1 + degree²) = 1`. `Move` receives its offset's
magnitude as a parameter whose square is the offset's squared magnitude.

State-changing operations are methods of classes whose fields are the C#
fields. Each method's `ensures` ties the new state to a specification
function of the old state (`MoveXOutcome`, `MoveYOutcome`, `MoveTo`,
`HeadBumpOutcome`, `Accelerated`, `Decelerated`, ...). Lemmas then prove
what the source promises about those functions.

The model follows the code as written on these points, which are easy to misread:

- A blocked move goes `nearest distance − AntiTrapEpsilon`, and that value is
  not clamped at zero. A hit closer than the epsilon moves the actor
  backwards a little.
- MoveX and MoveY do not return early for a zero distance.
- `MarioMove.FixedUpdate` hides `BasePhysics.FixedUpdate` rather than running
  after it, so the two ticks are separate methods and neither calls the
  other.
- A speed of zero with some input counts as turning. Starting from rest, the
  first tick adds only the turn acceleration and no initial-speed kick.

## Model

| member | source | states |
|---|---|---|
| Geometry.Colliders | Assets/Scripts/Base/BasePhysics.cs:355-358 | the colliders handed to the wall handlers are those of the hits, one per hit, in hit order |
| Base.DirX | Assets/Scripts/Base/BasePhysics.cs:401-409 | the X probe direction is the unit vector of the horizontal speed's sign, zero when still |
| Base.DirY | Assets/Scripts/Base/BasePhysics.cs:437-447 | the Y probe direction is the unit vector of the vertical speed's sign, zero when still |
| Base.DirXWithSlope | Assets/Scripts/Base/BasePhysics.cs:416-431 | off an ascent it is DirX; on an ascent it is (sign·factor, factor·degree), the unit vector up the slope surface |
| Base.SlopeDirectionIsUnit | Assets/Scripts/Base/BasePhysics.cs:416-431 | on a well-formed slope the ascent probe direction has length 1 |
| Base.FirstEngagedSpec | Assets/Scripts/Base/BasePhysics.cs:219-245 | the engaged slope is absent iff no hit engages; otherwise it is the slope of the first engaging hit, with non-slope and null hits skipped |
| Base.StillEngagesNothing | Assets/Scripts/Base/BasePhysics.cs:219-245 | with zero horizontal speed no slope engages on either probe, because every slope rises towards ±1 |
| Base.StillIsFlat | Assets/Scripts/Base/BasePhysics.cs:146-150 | zero horizontal speed always classifies as flat |
| Base.ClassifiedNeedsMatchingSlope | Assets/Scripts/Base/BasePhysics.cs:146-150 | ascending needs a forward slope rising with the motion, descending one below rising against it, and flat holds iff neither probe engages |
| Base.MoveToClearOrFlush | Assets/Scripts/Base/BasePhysics.cs:368-387 | Move with a clear path takes the whole offset; blocked with a length within the epsilon it stays put |
| Base.MoveToBlocked | Assets/Scripts/Base/BasePhysics.cs:368-387 | blocked and longer, Move goes along the offset scaled by (d0 − eps)/length, a displacement whose squared length is (d0 − eps)², so its length is abs(d0 − eps) and it points backwards when d0 < eps |
| Base.DiagonalMagnitude | Assets/Scripts/Base/BasePhysics.cs:273-277 | the ascent diagonal (d·factor, abs(d·factor)·degree) has magnitude abs(d), so Move gets the right length |
| Base.MoveXOnFlat | Assets/Scripts/Base/BasePhysics.cs:264-293 | off the slopes MoveX moves exactly the distance when clear; when blocked it moves sign·(d0 − eps) with no clamp and reports every hit's collider |
| Base.MoveXDescendsClear | Assets/Scripts/Base/BasePhysics.cs:264-293 | on a clear descent the horizontal step is followed by a Move straight down by abs(distance)·degree |
| Base.ZeroMoveXStaysPut | Assets/Scripts/Base/BasePhysics.cs:264-293 | a zero MoveX outside a descent leaves the actor where it is |
| Base.MoveYCases | Assets/Scripts/Base/BasePhysics.cs:304-329 | clear: moves exactly the distance and clears the ground flag only on an empty 2·eps probe; blocked: moves sign·(d0 − eps), zeroes the vertical speed, and sets the flag iff distance ≤ 0, never clearing it |
| Base.HeadBumpOnlyWhenRising | Assets/Scripts/Base/BasePhysics.cs:335-354 | handlers are asked and the sound plays only when rising; then the sound plays iff a clip is set and no handler took the hit |
| Base.HitablesAreTheHandlers | Assets/Scripts/Base/BasePhysics.cs:335-354 | every handler asked is a collider of the hits carrying a hit handler, and every such collider is asked |
| Base.HitablesAppend | Assets/Scripts/Base/BasePhysics.cs:340-347 | the handlers are asked in hit order: one more collider is appended at the end iff it carries a handler |
| Base.BasePhysics.constructor | Assets/Scripts/Base/BasePhysics.cs:27-60 | a new actor has appeared, is not on the ground and is on the flat with no remembered slope |
| Base.BasePhysics.Appear | Assets/Scripts/Base/BasePhysics.cs:61-74 | starts appearing along the axis; the progress is size.x for a horizontal axis, otherwise size.y, plus one pixel |
| Base.BasePhysics.AppearUpdate | Assets/Scripts/Base/BasePhysics.cs:76-85 | subtracts appearSpeed·dt from the progress, slides by that much along the axis, and is done iff the progress is ≤ 0 |
| Base.BasePhysics.ClampSpeed | Assets/Scripts/Base/BasePhysics.cs:208-212 | afterwards XSpeed ∈ [−maxXSpeed, maxXSpeed] and YSpeed ∈ [−minYSpeed, maxYSpeed], a speed already inside unchanged |
| Base.BasePhysics.Clamped | Assets/Scripts/Base/BasePhysics.cs:208-212 | the clamp of a speed lies within both limits |
| Base.BasePhysics.SetSlope | Assets/Scripts/Base/BasePhysics.cs:250-258 | records the slope and its factor; the current slope again changes nothing |
| Base.BasePhysics.CheckSlope | Assets/Scripts/Base/BasePhysics.cs:219-245 | the first engaging slope sets the state (up or down probe) and is remembered; with none nothing changes |
| Base.BasePhysics.StopTowardsWall | Assets/Scripts/Base/BasePhysics.cs:187-204 | the speed becomes zero iff the short probe has a hit and no hit is a slope |
| Base.BasePhysics.CheckSurroundings | Assets/Scripts/Base/BasePhysics.cs:146-153 | resets to flat, then the down probe overrides the forward probe; the kept slope is not cleared; each axis speed is stopped towards a plain wall |
| Base.BasePhysics.Move | Assets/Scripts/Base/BasePhysics.cs:368-387 | the new position is MoveTo and the hit count is always returned |
| Base.BasePhysics.MoveAlongSlope | Assets/Scripts/Base/BasePhysics.cs:273-282 | the ascent branch moves the slope diagonal through Move and reports its hits |
| Base.BasePhysics.MoveX | Assets/Scripts/Base/BasePhysics.cs:264-293 | the new position and the OnHitWallX colliders are MoveXOutcome of the old state |
| Base.BasePhysics.OnHitWallY | Assets/Scripts/Base/BasePhysics.cs:335-354 | asks every handler when rising, plays the default sound iff none took it and a clip is set, and ends with YSpeed = 0 |
| Base.BasePhysics.MoveY | Assets/Scripts/Base/BasePhysics.cs:304-329 | position, speed, ground flag and head bump are MoveYOutcome of the old state |
| Base.BasePhysics.MoveAndRecordPos | Assets/Scripts/Base/BasePhysics.cs:159-166 | records the start, moves X by XSpeed·dt and then Y by YSpeed·dt from where X left off, and records the end and the time |
| Base.BasePhysics.MovingTick | Assets/Scripts/Base/BasePhysics.cs:136-143 | snaps back to the last end, then clamps, classifies, stops at walls, and moves with the stopped speeds of the same tick |
| Base.BasePhysics.FixedUpdate | Assets/Scripts/Base/BasePhysics.cs:121-144 | while appearing only the countdown runs, sliding along the unchanged appear direction; otherwise gravity applies, a resting actor stops there, and a moving one takes the moving tick |
| Player.Accelerated | Assets/Scripts/Mario/MarioMove.cs:90-107 | the accelerated speed never exceeds the profile's top speed |
| Player.TurningHasNoKick | Assets/Scripts/Mario/MarioMove.cs:93-96 | a turning tick does not depend on the initial speed |
| Player.KickReachesMinSpeed | Assets/Scripts/Mario/MarioMove.cs:97-105 | moving with the input below the initial speed, one tick reaches at least the initial speed in the same direction |
| Player.DefaultKickReachesMinSpeed | Assets/Scripts/Mario/MarioMove.cs:16-24 | with the default profiles (top speeds 35/8 and 8, initial speed 1) the kick always reaches the initial speed |
| Player.AcceleratesTowardsInput | Assets/Scripts/Mario/MarioMove.cs:90-107 | from a speed within the top speed, with non-negative accelerations and initial speed, a tick never moves the speed against the input (from above the top speed the clamp can pull it back, for example 8 under the walking top speed 35/8) |
| Player.Decelerated | Assets/Scripts/Mario/MarioMove.cs:109-118 | braking never reverses: the result is 0 or keeps the sign with a strictly smaller magnitude, and zero stays zero |
| Player.MarioMove.constructor | Assets/Scripts/Mario/MarioMove.cs:16-53 | control starts enabled, with no input and the run key released |
| Player.MarioMove.IsRunning | Assets/Scripts/Mario/MarioMove.cs:47 | running iff the run key is held and there is no wall ahead |
| Player.MarioMove.CurProfile | Assets/Scripts/Mario/MarioMove.cs:48 | the running profile iff running, the walking one otherwise |
| Player.MarioMove.IsTurning | Assets/Scripts/Mario/MarioMove.cs:49 | turning iff the speed's sign differs from the input: standing still with input and moving against it are turning, moving with it is not |
| Player.MarioMove.Gravity | Assets/Scripts/Mario/MarioMove.cs:75 | Mario's gravity is the configured one unless the jump key is held on the way up, then scaled by one of the two jump scales |
| Player.MarioMove.OnMoveX | Assets/Scripts/Mario/MarioMove.cs:71 | the input direction becomes the input's sign, so it stays in {−1, 0, 1} |
| Player.MarioMove.OnRunPressed | Assets/Scripts/Mario/MarioMove.cs:72 | the run key is held |
| Player.MarioMove.OnRunReleased | Assets/Scripts/Mario/MarioMove.cs:73 | the run key is released |
| Player.MarioMove.AddSpeed | Assets/Scripts/Mario/MarioMove.cs:90-107 | XSpeed becomes Accelerated of the old speed and stays within the current top speed, and, from a speed within the top speed, with some input, forward accelerations and a non-negative initial speed it never moves against the input; YSpeed is untouched |
| Player.MarioMove.DecrSpeed | Assets/Scripts/Mario/MarioMove.cs:109-118 | XSpeed becomes Decelerated of the old speed with the current profile |
| Player.MarioMove.FixedUpdate | Assets/Scripts/Mario/MarioMove.cs:77-88 | accelerates iff control is enabled and there is input; otherwise brakes a moving Mario, and a still one stays still |
| Player.MarioJump.constructor | Assets/MarioForever/Scripts/Player/MarioJump.cs:13-34 | a new jump component is neither held nor ready |
| Player.DefaultJumpLightensGravity | Assets/MarioForever/Scripts/Player/MarioJump.cs:15-25 | with the default scales (0.6 walking, 0.5 running, threshold 5/8) a held jump on the way up always gets a scale below 1, and running above the threshold a lower one than walking |
| Player.MarioJump.GetGravityScale | Assets/MarioForever/Scripts/Player/MarioJump.cs:35-43 | 1 unless the key is held while rising; then the running scale iff abs(XSpeed) > threshold (strict), else the walking scale |
| Player.MarioJump.OnJumpInput | Assets/MarioForever/Scripts/Player/MarioJump.cs:57-64 | held becomes true; ready becomes true if YSpeed ≤ 0 and is never cleared |
| Player.MarioJump.OnJumpRelease | Assets/MarioForever/Scripts/Player/MarioJump.cs:65-69 | clears both held and ready |
| Player.MarioJump.Jump | Assets/MarioForever/Scripts/Player/MarioJump.cs:83-87 | YSpeed becomes the height and ready is cleared, keeping ready ⇒ held |
| Player.MarioJump.JumpToHeight | Assets/MarioForever/Scripts/Player/MarioJump.cs:78-82 | jumps with the configured jump height |
| Player.MarioJump.Update | Assets/MarioForever/Scripts/Player/MarioJump.cs:70-76 | jumps iff ready and on the ground; otherwise nothing changes |
| Facilities.IsStandingOnPlatform | Assets/MarioForever/Scripts/Facilities/PlatformDefinitions.cs:9-12 | standing iff the actor is at most one pixel below the platform top |
| Facilities.StandingIgnoresXAndZ | Assets/MarioForever/Scripts/Facilities/PlatformDefinitions.cs:11 | x and z take no part |
| Facilities.StandingIsMonotone | Assets/MarioForever/Scripts/Facilities/PlatformDefinitions.cs:11 | standing at a height implies standing at every greater height |
| Facilities.StandingBoundary | Assets/MarioForever/Scripts/Facilities/PlatformDefinitions.cs:11 | exactly one pixel below counts; anything lower does not |
| Facilities.TriggerFilters | Assets/MarioForever/Scripts/Facilities/FallingPlatform.cs:44-54 | a missing rigidbody, a missing Player tag, a rising player or one below the top never trigger; a tagged body without physics always does |
| Facilities.FallingPlatform.constructor | Assets/MarioForever/Scripts/Facilities/FallingPlatform.cs:18-35 | a new platform has not fallen |
| Facilities.FallingPlatform.SetFallen | Assets/MarioForever/Scripts/Facilities/FallingPlatform.cs:58-62 | sets the fall gravity and fallen, the same result however often it repeats |
| Facilities.FallingPlatform.FixedUpdate | Assets/MarioForever/Scripts/Facilities/FallingPlatform.cs:37-56 | once fallen nothing changes; otherwise the platform falls iff some hit passes every filter, gravity switching with it |

## Left out

- The engine's casts, contact filters, layer masks, `InitClass` and the shared static hit buffers are replaced by the cast oracle. The buffers' size limits (64 and 16 entries) and their aliasing are not modelled: the oracle returns what the buffer would hold.
- `MathHelper.GetAxis` is not part of this model. `Appear` takes the axis (`Base.Axis`) directly.
- Square roots and float rounding are left out. The slope factor and the offset length are supplied and constrained instead. The speed limits are finite reals, so the infinite defaults cannot be written.
- The frame interpolation in `Update` (BasePhysics.cs:171-180) depends on the frame clock. Only the recorded start and end positions and the tick time are modelled. Time is a parameter (`dt`, `now`).
- The start-up nudge (BasePhysics.cs:96-99) depends on a zero-length overlap cast at spawn and is left out.
- Sounds are not played. The head-bump sound is the boolean `HeadBump.playedSound`. The jump sound of `Jump()` is left out.
- Hit handlers are not called. Each collider carries the answer its handler would give, and the model reports which handlers were asked. `OnHitWallX` is an empty virtual method; the model reports the colliders it would receive.
- Input-system subscriptions (MarioMove.cs:54-70, MarioJump.cs:45-56) are left out. The handlers are plain methods.
- A null collider in `StopTowardsWall` or `OnHitWallY` would throw in C#. The model treats it as a collider without components.
- The transform's z coordinate and rotation are left out. Translations are taken in the plane, as for an unrotated actor.
- FallingPlatform's upward cast is given as the hit sequence, and each hit carries the struck actor's current vertical speed and position. The platform's bounds top is a parameter.
- `Base.BasePhysics.FixedUpdate` uses the configured gravity field. The override in MarioMove.cs:75 is `Player.MarioMove.Gravity`, because Mario's own tick does not use the base tick.
- The C# files come from two namespace generations: MarioMove.cs and BasePhysics.cs sit under `SweetMoleHouse.MarioForever`, while MarioJump.cs, FallingPlatform.cs and PlatformDefinitions.cs sit under `SweetMoleHouse.MarioForever.Scripts`. The model identifies the classes of both generations: `MarioJump.mover` is `Player.MarioMove`, the `jumper` in `MarioMove.Gravity` is `Player.MarioJump`, and `FallingPlatform.physics` is `Base.BasePhysics`. `Consts.ONE_PIXEL` and `Consts.OnePixel` are merged into the single `Geometry.OnePixel`. As a result, the model does not capture any difference between the two generations' versions of these classes.
- ScoreTypeData, GoombaDeathHandler, AspectLock, ChangeArea and both MarioPowerup enums are outside the core: they are Unity object management or declarations without behaviour.
