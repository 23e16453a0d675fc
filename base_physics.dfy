/** The movement core shared by every moving actor (BasePhysics): one
    fixed tick applies gravity, clamps the speed, classifies the slope under
    the actor, stops the speed towards plain walls and then moves along X
    and Y through the cast oracle. */
module Base {
  import opened Geometry

  /** The gap kept between an actor and whatever blocks it. */
  const AntiTrapEpsilon: real := OnePixel / 8.0
  /** Length of the two slope probes. */
  const SlopeProbe: real := 0.125
  /** Squared speed at or below which a tick does not move the actor. */
  const RestThreshold: real := 0.00000001
  /** A recorded tick time below this counts as "no tick ran yet". */
  const TickTimeThreshold: real := 0.0001

  datatype SlopeState = Flat | Ascending | Descending

  /** The axis an appear sequence slides along. */
  datatype Axis = AxisLeft | AxisRight | AxisUp | AxisDown

  function AxisVec(a: Axis): Vec {
    match a
    case AxisLeft => Left
    case AxisRight => Right
    case AxisUp => Up
    case AxisDown => Down
  }

  /** GetDirX: the unit vector towards the horizontal speed, or zero. */
  function DirX(xSpeed: real): (d: Vec)
    ensures d == Vec(Sign(xSpeed) as real, 0.0)
  {
    if xSpeed == 0.0 then Zero else if Sign(xSpeed) > 0 then Right else Left
  }

  /** GetDirY: the unit vector towards the vertical speed, or zero. */
  function DirY(ySpeed: real): (d: Vec)
    ensures d == Vec(0.0, Sign(ySpeed) as real)
  {
    if ySpeed == 0.0 then Zero else if Sign(ySpeed) > 0 then Up else Down
  }

  /** GetDirXWithSlope: on an ascent the probe direction follows the slope
      surface; otherwise it is DirX. */
  function DirXWithSlope(xSpeed: real, state: SlopeState, factor: real, cur: Option<Slope>): (d: Vec)
    requires state == Ascending ==> cur.Some?
    ensures state != Ascending || xSpeed == 0.0 ==> d == DirX(xSpeed)
    ensures state == Ascending && xSpeed != 0.0 ==>
      d.x == Sign(xSpeed) as real * factor && d.y == Abs(d.x) * cur.value.degree
  {
    if xSpeed == 0.0 then Zero
    else
      var x := Sign(xSpeed) as real;
      if state != Ascending then Vec(x, 0.0)
      else
        var sx := x * factor;
        // GetDirXWithSlope also multiplies by (int)slopeState, which is 1 on an ascent
        Vec(sx, Abs(sx) * 1.0 * cur.value.degree)
  }

  /** On an ascent over a well-formed slope the probe direction has unit length. */
  lemma SlopeDirectionIsUnit(xSpeed: real, factor: real, s: Slope)
    requires ValidSlope(s) && factor == s.factor && xSpeed != 0.0
    ensures DirXWithSlope(xSpeed, Ascending, factor, Some(s)).SqrMagnitude() == 1.0
  {
    var d := DirXWithSlope(xSpeed, Ascending, factor, Some(s));
    assert d.x * d.x == factor * factor;
    calc {
      d.SqrMagnitude();
      factor * factor + (factor * s.degree) * (factor * s.degree);
      factor * factor * (1.0 + s.degree * s.degree);
      1.0;
    }
  }

  // ---------------------------------------------------------------------
  // Slope classification

  /** A slope engages the actor on the forward probe when it rises towards
      the direction of motion, on the downward probe when it rises against it. */
  predicate Engages(s: Slope, xDir: int, isUp: bool) {
    if isUp then xDir == s.dir else xDir + s.dir == 0
  }

  predicate EngagedAt(hits: seq<Hit>, i: nat, xDir: int, isUp: bool)
    requires i < |hits|
  {
    SlopeOf(hits[i]).Some? && Engages(SlopeOf(hits[i]).value, xDir, isUp)
  }

  /** The slope CheckSlope engages: the first engaging slope in hit order. */
  function FirstEngaged(hits: seq<Hit>, xDir: int, isUp: bool): Option<Slope>
  {
    if |hits| == 0 then None
    else if EngagedAt(hits, 0, xDir, isUp) then SlopeOf(hits[0])
    else FirstEngaged(hits[1..], xDir, isUp)
  }

  /** FirstEngaged against its reference meaning: nothing found iff no hit
      engages, and what is found is the slope of an engaging hit with no
      engaging hit before it. */
  lemma {:induction false} FirstEngagedSpec(hits: seq<Hit>, xDir: int, isUp: bool)
    ensures FirstEngaged(hits, xDir, isUp).None? <==> forall i :: 0 <= i < |hits| ==> !EngagedAt(hits, i, xDir, isUp)
    ensures FirstEngaged(hits, xDir, isUp).Some? ==>
      exists i :: 0 <= i < |hits| && EngagedAt(hits, i, xDir, isUp) && SlopeOf(hits[i]) == FirstEngaged(hits, xDir, isUp)
        && forall j :: 0 <= j < i ==> !EngagedAt(hits, j, xDir, isUp)
  {
    if |hits| > 0 {
      var tail := hits[1..];
      FirstEngagedSpec(tail, xDir, isUp);
      forall i | 1 <= i < |hits| ensures EngagedAt(hits, i, xDir, isUp) == EngagedAt(tail, i - 1, xDir, isUp) {
        assert hits[i] == tail[i - 1];
      }
      if !EngagedAt(hits, 0, xDir, isUp) && FirstEngaged(tail, xDir, isUp).Some? {
        var k :| 0 <= k < |tail| && EngagedAt(tail, k, xDir, isUp) && SlopeOf(tail[k]) == FirstEngaged(tail, xDir, isUp)
          && forall j :: 0 <= j < k ==> !EngagedAt(tail, j, xDir, isUp);
        assert EngagedAt(hits, k + 1, xDir, isUp) && SlopeOf(hits[k + 1]) == FirstEngaged(hits, xDir, isUp);
        forall j | 0 <= j < k + 1 ensures !EngagedAt(hits, j, xDir, isUp) {
          if j > 0 { assert EngagedAt(hits, j, xDir, isUp) == EngagedAt(tail, j - 1, xDir, isUp); }
        }
      }
    }
  }

  /** An actor without horizontal speed engages no slope, because every
      slope rises towards -1 or +1. */
  lemma {:induction false} StillEngagesNothing(hits: seq<Hit>, isUp: bool)
    requires WellFormedHits(hits)
    ensures FirstEngaged(hits, 0, isUp) == None
  {
    if |hits| > 0 {
      assert WellFormedHits(hits[1..]) by {
        forall i | 0 <= i < |hits| - 1 ensures SlopeOf(hits[1..][i]) == SlopeOf(hits[i + 1]) { }
      }
      StillEngagesNothing(hits[1..], isUp);
    }
  }

  /** The state CheckSurroundings leaves: the downward probe runs second,
      so a descent overrides an ascent. */
  function Classified(ascent: Option<Slope>, descent: Option<Slope>): SlopeState {
    if descent.Some? then Descending else if ascent.Some? then Ascending else Flat
  }

  /** The slope remembered after classification; with no match the old one
      is kept rather than cleared. */
  function Remembered(ascent: Option<Slope>, descent: Option<Slope>, old_: Option<Slope>): Option<Slope> {
    if descent.Some? then descent else if ascent.Some? then ascent else old_
  }

  /** Both probes' results for an actor at `from` moving with `xSpeed`. */
  function AscentProbe(cast: Cast, from: Vec, xSpeed: real): Option<Slope> {
    FirstEngaged(cast(from, DirX(xSpeed), SlopeProbe), Sign(xSpeed), true)
  }

  function DescentProbe(cast: Cast, from: Vec, xSpeed: real): Option<Slope> {
    FirstEngaged(cast(from, Down, SlopeProbe), Sign(xSpeed), false)
  }

  /** Zero horizontal speed always classifies as flat. */
  lemma StillIsFlat(cast: Cast, from: Vec)
    requires WellFormedCast(cast)
    ensures Classified(AscentProbe(cast, from, 0.0), DescentProbe(cast, from, 0.0)) == Flat
  {
    StillEngagesNothing(cast(from, DirX(0.0), SlopeProbe), true);
    StillEngagesNothing(cast(from, Down, SlopeProbe), false);
  }

  /** An ascent needs a forward slope rising towards the motion, a descent a
      slope below rising against it. */
  lemma ClassifiedNeedsMatchingSlope(cast: Cast, from: Vec, xSpeed: real)
    ensures var st := Classified(AscentProbe(cast, from, xSpeed), DescentProbe(cast, from, xSpeed));
      var hitsUp := cast(from, DirX(xSpeed), SlopeProbe);
      var hitsDown := cast(from, Down, SlopeProbe);
      && (st == Ascending ==> exists i :: 0 <= i < |hitsUp| && EngagedAt(hitsUp, i, Sign(xSpeed), true))
      && (st == Descending ==> exists i :: 0 <= i < |hitsDown| && EngagedAt(hitsDown, i, Sign(xSpeed), false))
      && (st == Flat <==>
            (forall i :: 0 <= i < |hitsUp| ==> !EngagedAt(hitsUp, i, Sign(xSpeed), true)) &&
            (forall i :: 0 <= i < |hitsDown| ==> !EngagedAt(hitsDown, i, Sign(xSpeed), false)))
  {
    FirstEngagedSpec(cast(from, DirX(xSpeed), SlopeProbe), Sign(xSpeed), true);
    FirstEngagedSpec(cast(from, Down, SlopeProbe), Sign(xSpeed), false);
  }

  // ---------------------------------------------------------------------
  // Stopping towards walls

  predicate IsSlopeHit(h: Hit) { SlopeOf(h).Some? }

  /** A short probe meets a plain wall: at least one hit, none of them a slope. */
  predicate WallAhead(hits: seq<Hit>) {
    |hits| > 0 && forall i :: 0 <= i < |hits| ==> !IsSlopeHit(hits[i])
  }

  // ---------------------------------------------------------------------
  // Displacement (Move, MoveX, MoveY)

  /** Unity's normalized for an offset whose magnitude is `length`. */
  function Normalized(offset: Vec, length: real): Vec {
    if length > 0.0 then offset.Times(1.0 / length) else Zero
  }

  /** The hits Move's cast finds. */
  function MoveHits(cast: Cast, from: Vec, offset: Vec, length: real): seq<Hit> {
    cast(from, Normalized(offset, length), length + AntiTrapEpsilon)
  }

  /** Where Move leaves the actor. */
  function MoveTo(cast: Cast, from: Vec, offset: Vec, length: real): Vec {
    var hits := MoveHits(cast, from, offset, length);
    if |hits| == 0 then from.Plus(offset)
    else if length <= AntiTrapEpsilon then from
    else from.Plus(offset.Times((hits[0].distance - AntiTrapEpsilon) / length))
  }

  /** A clear path takes the whole offset; a blocked short move stays put. */
  lemma MoveToClearOrFlush(cast: Cast, from: Vec, offset: Vec, length: real)
    ensures |MoveHits(cast, from, offset, length)| == 0 ==> MoveTo(cast, from, offset, length) == from.Plus(offset)
    ensures |MoveHits(cast, from, offset, length)| > 0 && length <= AntiTrapEpsilon ==> MoveTo(cast, from, offset, length) == from
  {
  }

  /** A blocked longer move goes along the offset, exactly the nearest hit's
      distance less the anti-trap gap. */
  lemma MoveToBlocked(cast: Cast, from: Vec, offset: Vec, length: real)
    requires 0.0 <= length && length * length == offset.SqrMagnitude()
    requires |MoveHits(cast, from, offset, length)| > 0 && length > AntiTrapEpsilon
    ensures var gap := MoveHits(cast, from, offset, length)[0].distance - AntiTrapEpsilon;
      var moved := Vec(MoveTo(cast, from, offset, length).x - from.x, MoveTo(cast, from, offset, length).y - from.y);
      && moved == offset.Times(gap / length)
      && moved.SqrMagnitude() == gap * gap
  {
    var gap := MoveHits(cast, from, offset, length)[0].distance - AntiTrapEpsilon;
    var k := gap / length;
    var moved := offset.Times(k);
    calc {
      moved.SqrMagnitude();
      (k * offset.x) * (k * offset.x) + (k * offset.y) * (k * offset.y);
      k * k * offset.SqrMagnitude();
      k * k * (length * length);
      (k * length) * (k * length);
      { assert k * length == gap; }
      gap * gap;
    }
  }

  /** The diagonal MoveX asks for on an ascent: the distance scaled by the
      slope factor, and the rise that run gives on the slope. */
  function SlopeOffset(distance: real, factor: real, degree: real): Vec {
    var d := distance * factor;
    Vec(d, Abs(d) * degree)
  }

  /** On a well-formed slope that diagonal has magnitude |distance|. */
  lemma DiagonalMagnitude(distance: real, s: Slope)
    requires ValidSlope(s)
    ensures Abs(distance) * Abs(distance) == SlopeOffset(distance, s.factor, s.degree).SqrMagnitude()
  {
    var offset := SlopeOffset(distance, s.factor, s.degree);
    var d := distance * s.factor;
    calc {
      offset.SqrMagnitude();
      d * d + (Abs(d) * s.degree) * (Abs(d) * s.degree);
      { assert Abs(d) * Abs(d) == d * d; }
      d * d * (1.0 + s.degree * s.degree);
      distance * distance * (s.factor * s.factor * (1.0 + s.degree * s.degree));
      distance * distance;
      Abs(distance) * Abs(distance);
    }
  }

  /** What MoveX produces: the final position and the colliders passed to
      OnHitWallX (empty when it does not fire). */
  datatype XOutcome = XOutcome(pos: Vec, wallX: seq<Option<Collider>>)

  /** The horizontal step of MoveX before any descent: where it leaves the
      actor, the distance it counts as travelled and OnHitWallX's colliders. */
  datatype XStep = XStep(pos: Vec, actual: real, wallX: seq<Option<Collider>>)

  function MoveXStep(cast: Cast, from: Vec, xSpeed: real, state: SlopeState, cur: Option<Slope>,
                     factor: real, distance: real): XStep
    requires state != Flat ==> cur.Some?
  {
    var hits := cast(from, DirX(xSpeed), Abs(distance) + AntiTrapEpsilon);
    if |hits| == 0 then
      XStep(from.Plus(Vec(distance, 0.0)), Abs(distance), [])
    else if state == Ascending then
      var offset := SlopeOffset(distance, factor, cur.value.degree);
      XStep(MoveTo(cast, from, offset, Abs(distance)), Abs(offset.x), Colliders(MoveHits(cast, from, offset, Abs(distance))))
    else
      var actual := hits[0].distance - AntiTrapEpsilon;
      XStep(from.Plus(Vec(Sign(distance) as real * actual, 0.0)), actual, Colliders(hits))
  }

  /** The drop that follows a descending MoveX step. */
  function DropOffset(actual: real, degree: real): (drop: Vec)
    ensures DropLength(actual, degree) * DropLength(actual, degree) == drop.SqrMagnitude()
  {
    Vec(0.0, -actual * degree)
  }

  function DropLength(actual: real, degree: real): (len: real)
    ensures len >= 0.0
  {
    Abs(actual * degree)
  }

  /** What MoveX produces: on a descent the horizontal step is followed by a
      drop of the travelled distance times the degree. */
  function MoveXOutcome(cast: Cast, from: Vec, xSpeed: real, state: SlopeState, cur: Option<Slope>,
                        factor: real, distance: real): XOutcome
    requires state != Flat ==> cur.Some?
  {
    var step := MoveXStep(cast, from, xSpeed, state, cur, factor, distance);
    if state == Descending then
      XOutcome(MoveTo(cast, step.pos, DropOffset(step.actual, cur.value.degree), DropLength(step.actual, cur.value.degree)), step.wallX)
    else
      XOutcome(step.pos, step.wallX)
  }

  /** MoveX off the slopes: a clear path takes exactly `distance` along X;
      a blocked one stops the anti-trap gap short of the nearest hit (with
      no clamp at zero) and reports every hit's collider. */
  lemma MoveXOnFlat(cast: Cast, from: Vec, xSpeed: real, cur: Option<Slope>, factor: real, distance: real)
    ensures var hits := cast(from, DirX(xSpeed), Abs(distance) + AntiTrapEpsilon);
      var o := MoveXOutcome(cast, from, xSpeed, Flat, cur, factor, distance);
      && (|hits| == 0 ==> o.pos == Vec(from.x + distance, from.y) && o.wallX == [])
      && (|hits| > 0 ==>
            o.pos == Vec(from.x + Sign(distance) as real * (hits[0].distance - AntiTrapEpsilon), from.y)
            && o.wallX == Colliders(hits))
  {
  }

  /** Without the nearest-hit cast firing, a descent moves `distance` along
      X, then drops |distance|·degree through Move. */
  lemma MoveXDescendsClear(cast: Cast, from: Vec, xSpeed: real, s: Slope, factor: real, distance: real)
    requires |cast(from, DirX(xSpeed), Abs(distance) + AntiTrapEpsilon)| == 0
    ensures var stepped := Vec(from.x + distance, from.y);
      MoveXOutcome(cast, from, xSpeed, Descending, Some(s), factor, distance)
        == XOutcome(MoveTo(cast, stepped, DropOffset(Abs(distance), s.degree), DropLength(Abs(distance), s.degree)), [])
  {
  }

  /** A zero-length MoveX outside a descent leaves the actor in place, on
      an ascent as well as on the flat. */
  lemma ZeroMoveXStaysPut(cast: Cast, from: Vec, xSpeed: real, state: SlopeState, cur: Option<Slope>, factor: real)
    requires state != Flat ==> cur.Some?
    requires state != Descending
    ensures MoveXOutcome(cast, from, xSpeed, state, cur, factor, 0.0).pos == from
  {
    var hits := cast(from, DirX(xSpeed), Abs(0.0) + AntiTrapEpsilon);
    if |hits| > 0 && state == Ascending {
      var offset := SlopeOffset(0.0, factor, cur.value.degree);
      assert offset == Vec(0.0, 0.0);
      assert MoveTo(cast, from, offset, 0.0) == from;
    }
  }

  /** The head-bump answer of OnHitWallY: whether the default sound plays and
      which hit handlers were asked. */
  datatype HeadBump = HeadBump(playedSound: bool, invoked: seq<Collider>)

  predicate Handles(c: Option<Collider>) {
    c.Some? && c.value.hitable == Some(true)
  }

  predicate HasHandler(c: Option<Collider>) {
    c.Some? && c.value.hitable.Some?
  }

  /** The colliders carrying a hit handler, in order. */
  function Hitables(cs: seq<Option<Collider>>): (r: seq<Collider>)
    ensures |r| <= |cs|
  {
    if |cs| == 0 then []
    else Hitables(cs[..|cs| - 1]) + (if HasHandler(cs[|cs| - 1]) then [cs[|cs| - 1].value] else [])
  }

  /** Every collider in `cs` with a handler, and only those, is in Hitables. */
  lemma {:induction false} HitablesAreTheHandlers(cs: seq<Option<Collider>>)
    ensures forall c :: c in Hitables(cs) ==> c.hitable.Some? && Some(c) in cs
    ensures forall i :: 0 <= i < |cs| && HasHandler(cs[i]) ==> cs[i].value in Hitables(cs)
  {
    if |cs| > 0 {
      var init := cs[..|cs| - 1];
      HitablesAreTheHandlers(init);
      forall i | 0 <= i < |cs| - 1 ensures cs[i] == init[i] { }
      forall c | c in Hitables(cs) ensures Some(c) in cs {
        if c in Hitables(init) {
          var k :| 0 <= k < |init| && init[k] == Some(c);
          assert cs[k] == Some(c);
        } else {
          assert cs[|cs| - 1] == Some(c);
        }
      }
    }
  }

  /** Hitables is the order-preserving filter of the colliders with a
      handler: one more collider adds itself at the end iff it has one. */
  lemma HitablesAppend(cs: seq<Option<Collider>>, x: Option<Collider>)
    ensures Hitables(cs + [x]) == Hitables(cs) + (if HasHandler(x) then [x.value] else [])
  {
    assert (cs + [x])[..|cs|] == cs;
  }

  predicate NoneHandled(cs: seq<Option<Collider>>) {
    forall i :: 0 <= i < |cs| ==> !Handles(cs[i])
  }

  function HeadBumpOutcome(ySpeed: real, cs: seq<Option<Collider>>, hasSound: bool): HeadBump {
    if ySpeed > 0.0 then HeadBump(hasSound && NoneHandled(cs), Hitables(cs)) else HeadBump(false, [])
  }

  /** What MoveY produces. */
  datatype YOutcome = YOutcome(pos: Vec, vel: Vec, onGround: bool, bump: HeadBump)

  function MoveYOutcome(cast: Cast, from: Vec, vel: Vec, onGround: bool, hasSound: bool, distance: real): YOutcome {
    var hits := cast(from, DirY(vel.y), Abs(distance) + AntiTrapEpsilon);
    if |hits| == 0 then
      var p := from.Plus(Vec(0.0, distance));
      YOutcome(p, vel, if |cast(p, Down, 2.0 * AntiTrapEpsilon)| == 0 then false else onGround, HeadBump(false, []))
    else
      var p := from.Plus(Vec(0.0, Sign(distance) as real * (hits[0].distance - AntiTrapEpsilon)));
      YOutcome(p, Vec(vel.x, 0.0), if distance <= 0.0 then true else onGround,
               HeadBumpOutcome(vel.y, Colliders(hits), hasSound))
  }

  /** MoveY's promises: a clear move takes exactly `distance` and can only
      clear the ground flag, and only when the short downward probe is
      empty; a blocked move stops the anti-trap gap short, ends the vertical
      speed, keeps the horizontal one and can only set the flag, exactly
      when moving down or not at all. */
  lemma MoveYCases(cast: Cast, from: Vec, vel: Vec, onGround: bool, hasSound: bool, distance: real)
    ensures var hits := cast(from, DirY(vel.y), Abs(distance) + AntiTrapEpsilon);
      var o := MoveYOutcome(cast, from, vel, onGround, hasSound, distance);
      && (|hits| == 0 ==>
            && o.pos == Vec(from.x, from.y + distance) && o.vel == vel
            && (o.onGround <==> onGround && |cast(o.pos, Down, 2.0 * AntiTrapEpsilon)| > 0)
            && o.bump == HeadBump(false, []))
      && (|hits| > 0 ==>
            && o.pos == Vec(from.x, from.y + Sign(distance) as real * (hits[0].distance - AntiTrapEpsilon))
            && o.vel == Vec(vel.x, 0.0)
            && (distance <= 0.0 ==> o.onGround)
            && (distance > 0.0 ==> o.onGround == onGround))
  {
  }

  /** Only a rising actor's head bump asks handlers or plays the sound; then
      the sound plays iff a clip is set and no handler took the hit. */
  lemma HeadBumpOnlyWhenRising(ySpeed: real, cs: seq<Option<Collider>>, hasSound: bool)
    ensures ySpeed <= 0.0 ==> HeadBumpOutcome(ySpeed, cs, hasSound) == HeadBump(false, [])
    ensures ySpeed > 0.0 ==>
      (HeadBumpOutcome(ySpeed, cs, hasSound).playedSound <==> hasSound && forall i :: 0 <= i < |cs| ==> !Handles(cs[i]))
  {
  }

  /** What a tick reports besides the new state: OnHitWallX's colliders and
      the head bump of OnHitWallY. */
  datatype TickEvents = TickEvents(wallX: seq<Option<Collider>>, bump: HeadBump)

  /** The distance covered at `speed` over `dt`. */
  function Travel(speed: real, dt: real): real {
    speed * dt
  }

  /** The speed after one tick of gravity. */
  function AfterGravity(v: Vec, gravity: real, dt: real): Vec {
    Vec(v.x, v.y - gravity * dt)
  }

  /** A speed this small ends the tick without any move. */
  predicate AtRest(v: Vec) {
    v.SqrMagnitude() <= RestThreshold
  }

  /** The speed left once each axis has been stopped towards a plain wall:
      X along the slope-aware direction, Y straight up or down. */
  function StoppedAtWalls(cast: Cast, at: Vec, v: Vec, state: SlopeState, factor: real, cur: Option<Slope>): Vec
    requires state == Ascending ==> cur.Some?
  {
    Vec(if WallAhead(cast(at, DirXWithSlope(v.x, state, factor, cur), AntiTrapEpsilon)) then 0.0 else v.x,
        if WallAhead(cast(at, DirY(v.y), AntiTrapEpsilon)) then 0.0 else v.y)
  }

  // ---------------------------------------------------------------------
  // The actor

  class BasePhysics {
    // configuration
    var gravity: real
    const maxXSpeed: real
    const maxYSpeed: real
    const minYSpeed: real
    const appearSpeed: real
    /** Whether a head-bump clip is set. */
    const hasHitHeadSfx: bool

    // state
    var vel: Vec
    /** The transform's position in the plane. */
    var pos: Vec
    var isOnGround: bool
    var appeared: bool
    var appearDir: Vec
    var appearProgress: real
    var slopeState: SlopeState
    var curSlopeObj: Option<Slope>
    var slopeFactor: real
    var lastFUpdateTime: real
    var tickStartPos: Vec
    var tickEndPos: Vec

    /** The remembered slope is well formed and slopeFactor is its factor. */
    ghost predicate SlopeMemoryValid()
      reads this
    {
      curSlopeObj.Some? ==> ValidSlope(curSlopeObj.value) && slopeFactor == curSlopeObj.value.factor
    }

    ghost predicate Valid()
      reads this
    {
      (slopeState != Flat ==> curSlopeObj.Some?) && SlopeMemoryValid()
    }

    constructor (gravity: real, maxXSpeed: real, maxYSpeed: real, minYSpeed: real,
                 appearSpeed: real, hasHitHeadSfx: bool, vel: Vec, pos: Vec)
      ensures Valid()
      ensures this.gravity == gravity && this.maxXSpeed == maxXSpeed && this.maxYSpeed == maxYSpeed
      ensures this.minYSpeed == minYSpeed && this.appearSpeed == appearSpeed && this.hasHitHeadSfx == hasHitHeadSfx
      ensures this.vel == vel && this.pos == pos
      ensures appeared && !isOnGround && slopeState == Flat && curSlopeObj == None && lastFUpdateTime == 0.0
    {
      this.gravity := gravity;
      this.maxXSpeed := maxXSpeed;
      this.maxYSpeed := maxYSpeed;
      this.minYSpeed := minYSpeed;
      this.appearSpeed := appearSpeed;
      this.hasHitHeadSfx := hasHitHeadSfx;
      this.vel := vel;
      this.pos := pos;
      isOnGround := false;
      appeared := true;
      appearDir := Zero;
      appearProgress := 0.0;
      slopeState := Flat;
      curSlopeObj := None;
      slopeFactor := 0.0;
      lastFUpdateTime := 0.0;
      tickStartPos := Zero;
      tickEndPos := Zero;
    }

    /** Starts the appear sequence along `axis`; the distance to cover is the
        size along that axis plus one pixel. */
    method Appear(axis: Axis, size: Vec)
      modifies this`appeared, this`appearDir, this`appearProgress
      ensures !appeared && appearDir == AxisVec(axis)
      ensures appearProgress == (if axis == AxisLeft || axis == AxisRight then size.x else size.y) + OnePixel
    {
      appeared := false;
      appearDir := AxisVec(axis);
      if appearDir == Left || appearDir == Right {
        appearProgress := size.x;
      } else {
        appearProgress := size.y;
      }
      appearProgress := appearProgress + OnePixel;
    }

    /** One appearing tick: slide a fixed step and count it off; done once
        nothing is left to cover. */
    method AppearUpdate(dt: real)
      modifies this`appearProgress, this`pos, this`appeared
      ensures appearProgress == old(appearProgress) - Travel(appearSpeed, dt)
      ensures pos == old(pos).Plus(appearDir.Times(Travel(appearSpeed, dt)))
      ensures appeared == (old(appeared) || appearProgress <= 0.0)
    {
      var distance := Travel(appearSpeed, dt);
      appearProgress := appearProgress - distance;
      pos := pos.Plus(appearDir.Times(distance));
      if appearProgress <= 0.0 {
        appeared := true;
      }
    }

    /** Mathf.Clamp of each axis: X within ±maxXSpeed, Y within
        [-minYSpeed, maxYSpeed]. */
    method ClampSpeed()
      modifies this`vel
      ensures vel == Clamped(old(vel))
      ensures maxXSpeed >= 0.0 ==> -maxXSpeed <= vel.x <= maxXSpeed
      ensures -minYSpeed <= maxYSpeed ==> -minYSpeed <= vel.y <= maxYSpeed
    {
      vel := Vec(Clamp(vel.x, -maxXSpeed, maxXSpeed), Clamp(vel.y, -minYSpeed, maxYSpeed));
    }

    /** Engages `slope`; the same slope again changes nothing. */
    method SetSlope(slope: Slope)
      requires ValidSlope(slope) && SlopeMemoryValid()
      modifies this`curSlopeObj, this`slopeFactor
      ensures SlopeMemoryValid()
      ensures curSlopeObj == Some(slope) && slopeFactor == slope.factor
      ensures old(curSlopeObj) == Some(slope) ==> slopeFactor == old(slopeFactor)
    {
      if Some(slope) == curSlopeObj {
        return;
      }
      curSlopeObj := Some(slope);
      slopeFactor := slope.factor;
    }

    /** One slope probe along `dir`: the first engaging slope in hit order,
        if any, sets the state and is engaged. */
    method CheckSlope(cast: Cast, dir: Vec, isUp: bool)
      requires SlopeMemoryValid() && WellFormedCast(cast)
      modifies this`slopeState, this`curSlopeObj, this`slopeFactor
      ensures SlopeMemoryValid()
      ensures var found := FirstEngaged(cast(pos, dir, SlopeProbe), Sign(vel.x), isUp);
        if found.None? then
          slopeState == old(slopeState) && curSlopeObj == old(curSlopeObj) && slopeFactor == old(slopeFactor)
        else
          slopeState == (if isUp then Ascending else Descending) && curSlopeObj == found
    {
      var hits := cast(pos, dir, SlopeProbe);
      assert WellFormedHits(hits);
      var i := 0;
      while i < |hits|
        invariant 0 <= i <= |hits|
        invariant FirstEngaged(hits[i..], Sign(vel.x), isUp) == FirstEngaged(hits, Sign(vel.x), isUp)
      {
        assert hits[i..][1..] == hits[i + 1..];
        var result := hits[i];
        if result.collider.Some? {
          var slope := result.collider.value.slope;
          if slope.Some? {
            var xDir := Sign(vel.x);
            if isUp && xDir == slope.value.dir {
              slopeState := Ascending;
              SetSlope(slope.value);
              return;
            } else if !isUp && xDir + slope.value.dir == 0 {
              slopeState := Descending;
              SetSlope(slope.value);
              return;
            }
          }
        }
        i := i + 1;
      }
    }

    /** The speed left after a short probe along `dir`: zero iff the probe
        meets a plain wall (some hit, no slope among them). */
    method StopTowardsWall(cast: Cast, dir: Vec, speed: real) returns (r: real)
      ensures WallAhead(cast(pos, dir, AntiTrapEpsilon)) ==> r == 0.0
      ensures !WallAhead(cast(pos, dir, AntiTrapEpsilon)) ==> r == speed
    {
      var hits := cast(pos, dir, AntiTrapEpsilon);
      if |hits| == 0 {
        return speed;
      }
      var i := 0;
      while i < |hits|
        invariant 0 <= i <= |hits|
        invariant forall j :: 0 <= j < i ==> !IsSlopeHit(hits[j])
      {
        var result := hits[i];
        if result.collider.Some? && result.collider.value.slope.Some? {
          return speed;
        }
        i := i + 1;
      }
      return 0.0;
    }

    /** Reclassifies the slope (reset to flat, forward probe, then downward
        probe) and stops the speed towards plain walls on both axes. */
    method CheckSurroundings(cast: Cast)
      requires Valid() && WellFormedCast(cast)
      modifies this`slopeState, this`curSlopeObj, this`slopeFactor, this`vel
      ensures Valid()
      ensures var ascent := AscentProbe(cast, pos, old(vel.x));
        var descent := DescentProbe(cast, pos, old(vel.x));
        && slopeState == Classified(ascent, descent)
        && curSlopeObj == Remembered(ascent, descent, old(curSlopeObj))
      ensures vel.x == (if WallAhead(cast(pos, DirXWithSlope(old(vel.x), slopeState, slopeFactor, curSlopeObj), AntiTrapEpsilon))
                        then 0.0 else old(vel.x))
      ensures vel.y == (if WallAhead(cast(pos, DirY(old(vel.y)), AntiTrapEpsilon)) then 0.0 else old(vel.y))
    {
      slopeState := Flat;
      CheckSlope(cast, DirX(vel.x), true);
      CheckSlope(cast, Down, false);
      var vx := StopTowardsWall(cast, DirXWithSlope(vel.x, slopeState, slopeFactor, curSlopeObj), vel.x);
      vel := Vec(vx, vel.y);
      var vy := StopTowardsWall(cast, DirY(vel.y), vel.y);
      vel := Vec(vel.x, vy);
    }

    /** Moves by `offset`, whose magnitude is `length`, as far as the cast
        allows; answers the number of hits and the hits themselves. */
    method Move(cast: Cast, offset: Vec, length: real) returns (amount: nat, buffer: seq<Hit>)
      requires 0.0 <= length && length * length == offset.SqrMagnitude()
      modifies this`pos
      ensures buffer == MoveHits(cast, old(pos), offset, length) && amount == |buffer|
      ensures pos == MoveTo(cast, old(pos), offset, length)
    {
      buffer := cast(pos, Normalized(offset, length), length + AntiTrapEpsilon);
      amount := |buffer|;
      if amount == 0 {
        pos := pos.Plus(offset);
      } else {
        if length <= AntiTrapEpsilon {
          return;
        }
        var actualDist := buffer[0].distance - AntiTrapEpsilon;
        var actualScale := actualDist / length;
        pos := pos.Plus(offset.Times(actualScale));
      }
    }

    /** The ascending branch of MoveX: the distance scaled by the slope
        factor, moved as one diagonal along the slope surface. */
    method MoveAlongSlope(cast: Cast, distance: real) returns (actualDist: real, hitWallX: seq<Option<Collider>>)
      requires Valid() && slopeState == Ascending
      modifies this`pos
      ensures var offset := SlopeOffset(distance, slopeFactor, curSlopeObj.value.degree);
        && pos == MoveTo(cast, old(pos), offset, Abs(distance))
        && actualDist == Abs(offset.x)
        && hitWallX == Colliders(MoveHits(cast, old(pos), offset, Abs(distance)))
    {
      var offset := SlopeOffset(distance, slopeFactor, curSlopeObj.value.degree);
      actualDist := Abs(offset.x);
      DiagonalMagnitude(distance, curSlopeObj.value);
      var hitAmount, buffer := Move(cast, offset, Abs(distance));
      hitWallX := [];
      if hitAmount > 0 {
        hitWallX := Colliders(buffer);
      } else {
        assert Colliders(buffer) == [];
      }
    }

    /** Moves `distance` horizontally, following the slope state; answers
        the colliders given to OnHitWallX (empty when it does not fire). */
    method MoveX(cast: Cast, distance: real) returns (hitWallX: seq<Option<Collider>>)
      requires Valid()
      modifies this`pos
      ensures XOutcome(pos, hitWallX) == MoveXOutcome(cast, old(pos), vel.x, slopeState, curSlopeObj, slopeFactor, distance)
    {
      var actualDist: real;
      var hits := cast(pos, DirX(vel.x), Abs(distance) + AntiTrapEpsilon);
      hitWallX := [];
      if |hits| == 0 {
        actualDist := Abs(distance);
        pos := pos.Plus(Vec(distance, 0.0));
        assert XStep(pos, actualDist, hitWallX) == MoveXStep(cast, old(pos), vel.x, slopeState, curSlopeObj, slopeFactor, distance);
      } else if slopeState == Ascending {
        actualDist, hitWallX := MoveAlongSlope(cast, distance);
      } else {
        actualDist := hits[0].distance - AntiTrapEpsilon;
        pos := pos.Plus(Vec(Sign(distance) as real * actualDist, 0.0));
        hitWallX := Colliders(hits);
        assert XStep(pos, actualDist, hitWallX) == MoveXStep(cast, old(pos), vel.x, slopeState, curSlopeObj, slopeFactor, distance);
      }
      ghost var step := MoveXStep(cast, old(pos), vel.x, slopeState, curSlopeObj, slopeFactor, distance);
      assert XStep(pos, actualDist, hitWallX) == step;
      if slopeState == Descending {
        var degree := curSlopeObj.value.degree;
        var drop, length := DropOffset(actualDist, degree), DropLength(actualDist, degree);
        var _, _ := Move(cast, drop, length);
      }
    }

    /** The head-bump handler: struck from below, every hit handler is asked
        and the default sound plays iff none handled it and a clip is set;
        the vertical speed ends at zero. */
    method OnHitWallY(colliders: seq<Option<Collider>>) returns (bump: HeadBump)
      modifies this`vel
      ensures vel == Vec(old(vel.x), 0.0)
      ensures bump == HeadBumpOutcome(old(vel.y), colliders, hasHitHeadSfx)
    {
      bump := HeadBump(false, []);
      if vel.y > 0.0 {
        var defaultSound := true;
        var invoked: seq<Collider> := [];
        var i := 0;
        while i < |colliders|
          invariant 0 <= i <= |colliders|
          invariant defaultSound == NoneHandled(colliders[..i])
          invariant invoked == Hitables(colliders[..i])
        {
          assert colliders[..i + 1][..i] == colliders[..i];
          var col := colliders[i];
          if col.Some? && col.value.hitable.Some? {
            var handled := col.value.hitable.value;
            invoked := invoked + [col.value];
            defaultSound := !handled && defaultSound;
          }
          i := i + 1;
        }
        assert colliders[..i] == colliders;
        bump := HeadBump(defaultSound && hasHitHeadSfx, invoked);
      }
      vel := Vec(vel.x, 0.0);
    }

    /** Moves `distance` vertically; a blocked move ends the vertical speed
        and lands the actor if it was moving down. */
    method MoveY(cast: Cast, distance: real) returns (bump: HeadBump)
      modifies this`pos, this`vel, this`isOnGround
      ensures YOutcome(pos, vel, isOnGround, bump) == MoveYOutcome(cast, old(pos), old(vel), old(isOnGround), hasHitHeadSfx, distance)
    {
      var hits := cast(pos, DirY(vel.y), Abs(distance) + AntiTrapEpsilon);
      if |hits| == 0 {
        pos := pos.Plus(Vec(0.0, distance));
        bump := HeadBump(false, []);
        if |cast(pos, Down, 2.0 * AntiTrapEpsilon)| == 0 {
          isOnGround := false;
        }
      } else {
        var actualDist := hits[0].distance - AntiTrapEpsilon;
        pos := pos.Plus(Vec(0.0, Sign(distance) as real * actualDist));
        bump := OnHitWallY(Colliders(hits));
        if distance <= 0.0 {
          isOnGround := true;
        }
        vel := Vec(vel.x, 0.0);
      }
    }

    /** Moves X then Y by one tick's worth of speed and records the
        positions before and after for interpolation. */
    method MoveAndRecordPos(cast: Cast, dt: real, now: real) returns (events: TickEvents, ghost midPos: Vec)
      requires Valid()
      modifies this`pos, this`vel, this`isOnGround, this`tickStartPos, this`tickEndPos, this`lastFUpdateTime
      ensures tickStartPos == old(pos) && tickEndPos == pos && lastFUpdateTime == now
      ensures XOutcome(midPos, events.wallX)
           == MoveXOutcome(cast, old(pos), old(vel.x), slopeState, curSlopeObj, slopeFactor, Travel(old(vel.x), dt))
      ensures YOutcome(pos, vel, isOnGround, events.bump)
           == MoveYOutcome(cast, midPos, old(vel), old(isOnGround), hasHitHeadSfx, Travel(old(vel.y), dt))
    {
      var dx, dy := Travel(vel.x, dt), Travel(vel.y, dt);
      tickStartPos := pos;
      var wallX := MoveX(cast, dx);
      midPos := pos;
      var bump := MoveY(cast, dy);
      tickEndPos := pos;
      lastFUpdateTime := now;
      events := TickEvents(wallX, bump);
    }

    /** The speed clamp ClampSpeed applies. */
    function Clamped(v: Vec): (c: Vec)
      ensures maxXSpeed >= 0.0 ==> -maxXSpeed <= c.x <= maxXSpeed
      ensures -minYSpeed <= maxYSpeed ==> -minYSpeed <= c.y <= maxYSpeed
    {
      Vec(Clamp(v.x, -maxXSpeed, maxXSpeed), Clamp(v.y, -minYSpeed, maxYSpeed))
    }

    /** The moving part of a tick, once gravity has been applied: snap back
        to the last tick's end, clamp the speed, classify the slope, stop the
        speed towards plain walls, then move X and Y. */
    method MovingTick(cast: Cast, dt: real, now: real) returns (events: TickEvents, ghost midPos: Vec)
      requires Valid() && WellFormedCast(cast)
      modifies this`pos, this`vel, this`isOnGround, this`slopeState, this`curSlopeObj, this`slopeFactor
      modifies this`tickStartPos, this`tickEndPos, this`lastFUpdateTime
      ensures Valid()
      ensures var start := if old(lastFUpdateTime) >= TickTimeThreshold then old(tickEndPos) else old(pos);
        var c := Clamped(old(vel));
        && slopeState == Classified(AscentProbe(cast, start, c.x), DescentProbe(cast, start, c.x))
        && curSlopeObj == Remembered(AscentProbe(cast, start, c.x), DescentProbe(cast, start, c.x), old(curSlopeObj))
        && tickStartPos == start && tickEndPos == pos && lastFUpdateTime == now
        && var v := StoppedAtWalls(cast, start, c, slopeState, slopeFactor, curSlopeObj);
           && XOutcome(midPos, events.wallX) == MoveXOutcome(cast, start, v.x, slopeState, curSlopeObj, slopeFactor, Travel(v.x, dt))
           && YOutcome(pos, vel, isOnGround, events.bump) == MoveYOutcome(cast, midPos, v, old(isOnGround), hasHitHeadSfx, Travel(v.y, dt))
    {
      if lastFUpdateTime >= TickTimeThreshold {
        pos := tickEndPos;
      }
      ghost var start := pos;
      ClampSpeed();
      ghost var c := vel;
      CheckSurroundings(cast);
      assert vel == StoppedAtWalls(cast, start, c, slopeState, slopeFactor, curSlopeObj);
      events, midPos := MoveAndRecordPos(cast, dt, now);
    }

    /** One fixed tick. While appearing it only advances the appear
        sequence. Otherwise gravity is applied; a resting actor stops there,
        a moving one takes the moving tick. */
    method FixedUpdate(cast: Cast, dt: real, now: real) returns (events: TickEvents, ghost midPos: Vec)
      requires Valid() && WellFormedCast(cast)
      modifies this
      ensures Valid() && gravity == old(gravity)
      ensures !old(appeared) ==>
        && appearProgress == old(appearProgress) - Travel(appearSpeed, dt)
        && appearDir == old(appearDir)
        && pos == old(pos).Plus(old(appearDir).Times(Travel(appearSpeed, dt)))
        && appeared == (appearProgress <= 0.0)
        && vel == old(vel) && isOnGround == old(isOnGround)
        && slopeState == old(slopeState) && curSlopeObj == old(curSlopeObj) && slopeFactor == old(slopeFactor)
        && tickStartPos == old(tickStartPos) && tickEndPos == old(tickEndPos) && lastFUpdateTime == old(lastFUpdateTime)
        && events == TickEvents([], HeadBump(false, []))
      ensures old(appeared) ==> appeared && appearProgress == old(appearProgress) && appearDir == old(appearDir)
      ensures var fallen := AfterGravity(old(vel), gravity, dt);
        old(appeared) && AtRest(fallen) ==>
        && vel == fallen && pos == old(pos) && isOnGround == old(isOnGround)
        && slopeState == old(slopeState) && curSlopeObj == old(curSlopeObj) && slopeFactor == old(slopeFactor)
        && tickStartPos == old(tickStartPos) && tickEndPos == old(tickEndPos) && lastFUpdateTime == old(lastFUpdateTime)
        && events == TickEvents([], HeadBump(false, []))
      ensures var fallen := AfterGravity(old(vel), gravity, dt);
        var start := if old(lastFUpdateTime) >= TickTimeThreshold then old(tickEndPos) else old(pos);
        var c := Clamped(fallen);
        old(appeared) && !AtRest(fallen) ==>
        && slopeState == Classified(AscentProbe(cast, start, c.x), DescentProbe(cast, start, c.x))
        && curSlopeObj == Remembered(AscentProbe(cast, start, c.x), DescentProbe(cast, start, c.x), old(curSlopeObj))
        && tickStartPos == start && tickEndPos == pos && lastFUpdateTime == now
        && var v := StoppedAtWalls(cast, start, c, slopeState, slopeFactor, curSlopeObj);
           && XOutcome(midPos, events.wallX) == MoveXOutcome(cast, start, v.x, slopeState, curSlopeObj, slopeFactor, Travel(v.x, dt))
           && YOutcome(pos, vel, isOnGround, events.bump) == MoveYOutcome(cast, midPos, v, old(isOnGround), hasHitHeadSfx, Travel(v.y, dt))
    {
      events, midPos := TickEvents([], HeadBump(false, [])), pos;
      if !appeared {
        AppearUpdate(dt);
        return;
      }
      vel := AfterGravity(vel, gravity, dt);
      if AtRest(vel) {
        return;
      }
      events, midPos := MovingTick(cast, dt, now);
    }
  }
}
