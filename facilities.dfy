/** Level facilities: the platform that falls once Mario stands on it, and
    the standing-on-top test it uses. */
module Facilities {
  import opened Geometry
  import opened Base

  /** A point in space (Unity's Vector3); only `y` matters below. */
  datatype Vec3 = Vec3(x: real, y: real, z: real)

  /** An actor stands on a platform whose top is at `platform` when it is
      no more than one pixel below that top. */
  function IsStandingOnPlatform(actor: Vec, platform: Vec3): (r: bool)
    ensures r <==> platform.y - actor.y <= OnePixel
  {
    actor.y >= platform.y - OnePixel
  }

  /** Only the heights take part. */
  lemma StandingIgnoresXAndZ(actor: Vec, platform: Vec3, x: real, px: real, pz: real)
    ensures IsStandingOnPlatform(actor, platform) == IsStandingOnPlatform(Vec(x, actor.y), Vec3(px, platform.y, pz))
  {
  }

  /** Standing holds at every height above one where it holds. */
  lemma StandingIsMonotone(actor: Vec, platform: Vec3, higher: real)
    requires IsStandingOnPlatform(actor, platform) && higher >= actor.y
    ensures IsStandingOnPlatform(Vec(actor.x, higher), platform)
  {
  }

  /** Exactly one pixel below the top still counts; any lower does not. */
  lemma StandingBoundary(x: real, platform: Vec3, below: real)
    requires below > OnePixel
    ensures IsStandingOnPlatform(Vec(x, platform.y - OnePixel), platform)
    ensures !IsStandingOnPlatform(Vec(x, platform.y - below), platform)
  {
  }

  /** What a hit tells of an actor that has a BasePhysics component: its
      vertical speed and position. */
  datatype ActorView = ActorView(ySpeed: real, position: Vec)

  /** The rigidbody of a hit: whether it carries the Player tag and, if it
      has a BasePhysics component, that actor's state. */
  datatype Rigidbody = Rigidbody(isPlayer: bool, physics: Option<ActorView>)

  /** One result of the upward cast; the rigidbody may be missing. */
  datatype BodyHit = BodyHit(rigidbody: Option<Rigidbody>)

  /** A hit makes the platform fall when it is a Player-tagged rigidbody
      that, if it has physics, is not moving up and stands on the top. */
  predicate TriggersFall(h: BodyHit, top: Vec3) {
    && h.rigidbody.Some?
    && h.rigidbody.value.isPlayer
    && (h.rigidbody.value.physics.Some? ==>
          var p := h.rigidbody.value.physics.value;
          p.ySpeed <= 0.0 && IsStandingOnPlatform(p.position, top))
  }

  predicate AnyTriggers(hits: seq<BodyHit>, top: Vec3) {
    exists i :: 0 <= i < |hits| && TriggersFall(hits[i], top)
  }

  /** What never triggers a fall: a missing rigidbody, a missing tag, a
      player moving up or one below the top; a tagged body without physics
      always does. */
  lemma TriggerFilters(h: BodyHit, top: Vec3)
    ensures h.rigidbody.None? ==> !TriggersFall(h, top)
    ensures h.rigidbody.Some? && !h.rigidbody.value.isPlayer ==> !TriggersFall(h, top)
    ensures h.rigidbody.Some? && h.rigidbody.value.physics.Some? ==>
      var p := h.rigidbody.value.physics.value;
      (p.ySpeed > 0.0 || !IsStandingOnPlatform(p.position, top)) ==> !TriggersFall(h, top)
    ensures h.rigidbody.Some? && h.rigidbody.value.isPlayer && h.rigidbody.value.physics.None? ==> TriggersFall(h, top)
  {
  }

  class FallingPlatform {
    /** The platform's own physics; its gravity is switched on the fall. */
    const physics: BasePhysics
    const fallGravity: real
    var fallen: bool

    constructor (physics: BasePhysics, fallGravity: real)
      ensures this.physics == physics && this.fallGravity == fallGravity && !fallen
    {
      this.physics := physics;
      this.fallGravity := fallGravity;
      fallen := false;
    }

    /** Latches the fall: the platform takes its fall gravity. */
    method SetFallen()
      modifies physics`gravity, this`fallen
      ensures fallen && physics.gravity == fallGravity
    {
      physics.gravity := fallGravity;
      fallen := true;
    }

    /** One tick: a platform that has not fallen scans the upward cast
        results `hits` (`top` is the top of its bounds) and falls iff some
        hit passes the filters. A fallen platform does nothing. */
    method FixedUpdate(hits: seq<BodyHit>, top: Vec3)
      modifies physics`gravity, this`fallen
      ensures old(fallen) ==> fallen && physics.gravity == old(physics.gravity)
      ensures !old(fallen) ==> (fallen <==> AnyTriggers(hits, top))
      ensures !old(fallen) ==> physics.gravity == if fallen then fallGravity else old(physics.gravity)
    {
      if fallen {
        return;
      }
      var i := 0;
      while i < |hits|
        invariant 0 <= i <= |hits|
        invariant fallen <==> exists j :: 0 <= j < i && TriggersFall(hits[j], top)
        invariant physics.gravity == if fallen then fallGravity else old(physics.gravity)
      {
        var rig := hits[i].rigidbody;
        if rig.None? || !rig.value.isPlayer {
          i := i + 1;
          continue;
        }
        if rig.value.physics.Some? {
          var that := rig.value.physics.value;
          if that.ySpeed > 0.0 || !IsStandingOnPlatform(that.position, top) {
            i := i + 1;
            continue;
          }
        }
        SetFallen();
        i := i + 1;
      }
    }
  }
}
