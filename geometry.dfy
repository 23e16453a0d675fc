/** Plane vectors, signs and clamps shared by every actor, and the shape of
    the collision casts through which the physics core sees the world. */
module Geometry {

  datatype Option<+T> = None | Some(value: T)

  /** A vector of the plane (Unity's Vector2), in world units. */
  datatype Vec = Vec(x: real, y: real) {
    function Plus(o: Vec): Vec { Vec(x + o.x, y + o.y) }
    function Times(k: real): Vec { Vec(k * x, k * y) }
    function SqrMagnitude(): real { x * x + y * y }
  }

  const Zero := Vec(0.0, 0.0)
  const Left := Vec(-1.0, 0.0)
  const Right := Vec(1.0, 0.0)
  const Up := Vec(0.0, 1.0)
  const Down := Vec(0.0, -1.0)

  type Positive = r: real | r > 0.0 witness 1.0

  /** The size of one pixel in world units. The physics core and the
      platforms read it from two differently named constants (ONE_PIXEL and
      OnePixel), merged here into one; their values are set in constants
      files that are not part of this model, so it is left open here. */
  const OnePixel: Positive

  function Abs(v: real): (r: real)
    ensures r >= 0.0 && (r == v || r == -v)
  {
    if v < 0.0 then -v else v
  }

  /** Math.Sign of a float: -1, 0 or 1. */
  function Sign(v: real): (s: int)
    ensures -1 <= s <= 1
    ensures (s > 0 <==> v > 0.0) && (s < 0 <==> v < 0.0)
  {
    if v > 0.0 then 1 else if v < 0.0 then -1 else 0
  }

  /** Mathf.Clamp: the lower bound is tested first, so with lo > hi the
      result is lo for every value below lo. */
  function Clamp(v: real, lo: real, hi: real): (r: real)
    ensures lo <= hi ==> lo <= r <= hi
    ensures lo <= v <= hi ==> r == v
    ensures r == v || r == lo || r == hi
  {
    if v < lo then lo else if v > hi then hi else v
  }

  /** A slope collider: `dir` is the horizontal side it rises towards and
      `degree` its rise over run. `factor` stands for 1 / sqrt(1 + degree²),
      which is not computed here; ValidSlope pins it down. */
  datatype Slope = Slope(id: nat, dir: int, degree: real, factor: real)

  predicate ValidSlope(s: Slope) {
    && (s.dir == 1 || s.dir == -1)
    && s.degree > 0.0
    && s.factor > 0.0
    && s.factor * s.factor * (1.0 + s.degree * s.degree) == 1.0
  }

  /** A solid collider met by a cast: the slope component it carries, if
      any, and, if it carries a hit handler, the answer that handler gives
      when struck from below. */
  datatype Collider = Collider(id: nat, slope: Option<Slope>, hitable: Option<bool>)

  /** One entry of a cast result; a missing collider is a null entry. */
  datatype Hit = Hit(distance: real, collider: Option<Collider>)

  /** The collision cast: from the actor's position, along a direction, up
      to a maximum distance, it yields the hits nearest first. */
  type Cast = (Vec, Vec, real) -> seq<Hit>

  function SlopeOf(h: Hit): Option<Slope> {
    if h.collider.Some? then h.collider.value.slope else None
  }

  /** What the world guarantees of a cast result: hits nearest first, at a
      non-negative distance, and every slope well formed. */
  predicate WellFormedHits(hits: seq<Hit>) {
    && (forall i :: 0 <= i < |hits| ==> 0.0 <= hits[i].distance)
    && (forall i, j :: 0 <= i < j < |hits| ==> hits[i].distance <= hits[j].distance)
    && (forall i :: 0 <= i < |hits| ==> SlopeOf(hits[i]).Some? ==> ValidSlope(SlopeOf(hits[i]).value))
  }

  ghost predicate WellFormedCast(cast: Cast) {
    forall o, d, len :: WellFormedHits(cast(o, d, len))
  }

  /** The colliders of a cast result, in hit order (TakeColliders). */
  function Colliders(hits: seq<Hit>): (cs: seq<Option<Collider>>)
    ensures |cs| == |hits|
    ensures forall i :: 0 <= i < |hits| ==> cs[i] == hits[i].collider
  {
    if |hits| == 0 then [] else [hits[0].collider] + Colliders(hits[1..])
  }
}
