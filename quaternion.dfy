/** Quaternion helpers of the exercisor (exercisor/quaternion.py): the
    Hamilton product, the conversion of a quaternion to yaw, pitch and roll,
    and the conversion of a list of angles to degrees. Square root, atan2 and
    asin are parameters; only the range facts the code relies on are assumed
    of them. */
module Quaternions {
  import opened Common
  import ProcessThetas

  /** A quaternion [w, x, y, z]. */
  datatype Quat = Quat(w: real, x: real, y: real, z: real)

  const One: Quat := Quat(1.0, 0.0, 0.0, 0.0)

  /** quat_mult. */
  function Mult(p: Quat, q: Quat): Quat
  {
    Quat(p.w * q.w - p.x * q.x - p.y * q.y - p.z * q.z,
         p.w * q.x + p.x * q.w + p.y * q.z - p.z * q.y,
         p.w * q.y + p.y * q.w + p.z * q.x - p.x * q.z,
         p.w * q.z + p.z * q.w + p.x * q.y - p.y * q.x)
  }

  function Conjugate(q: Quat): Quat
  {
    Quat(q.w, -q.x, -q.y, -q.z)
  }

  function NormSquared(q: Quat): real
  {
    q.w * q.w + q.x * q.x + q.y * q.y + q.z * q.z
  }

  /** (1, 0, 0, 0) is a two-sided identity of the product. */
  lemma MultIdentity(q: Quat)
    ensures Mult(One, q) == q && Mult(q, One) == q
  {
  }

  /** A quaternion times its conjugate is its squared norm, on both sides. */
  lemma MultConjugate(q: Quat)
    ensures Mult(q, Conjugate(q)) == Quat(NormSquared(q), 0.0, 0.0, 0.0)
    ensures Mult(Conjugate(q), q) == Quat(NormSquared(q), 0.0, 0.0, 0.0)
  {
  }

  // ---------------------------------------------------------------------------
  // quaternion_to_euler
  // ---------------------------------------------------------------------------

  /** The clamp of `temp` into [-0.5, 0.5]. */
  function ClampHalf(t: real): (r: real)
    ensures -0.5 <= r <= 0.5
    ensures -0.5 < t < 0.5 ==> r == t
    ensures t >= 0.5 ==> r == 0.5
    ensures t <= -0.5 ==> r == -0.5
  {
    if t >= 0.5 then 0.5 else if t <= -0.5 then -0.5 else t
  }

  /** An angle from atan2 moved into [0, 2 pi) when it is negative. */
  function Wrap(a: real): real
  {
    if a < 0.0 then a + 2.0 * ProcessThetas.Pi else a
  }

  /** The range atan2 returns its angles in. */
  ghost predicate Atan2Range(atan2: (real, real) -> real)
  {
    forall a: real, b: real :: -ProcessThetas.Pi < atan2(a, b) <= ProcessThetas.Pi
  }

  /** The quaternion divided by its length. */
  function Normalise(q: Quat, len: real): Quat
    requires len != 0.0
  {
    Quat(q.w / len, q.x / len, q.y / len, q.z / len)
  }

  /** The argument of asin for the pitch: twice the clamped temp. */
  function PitchArgument(n: Quat): (r: real)
    ensures -1.0 <= r <= 1.0
  {
    2.0 * ClampHalf(n.w * n.y - n.z * n.x)
  }

  /** quaternion_to_euler: [Yaw, Pitch, Roll] of the normalised quaternion;
      a zero quaternion divides by zero. */
  function ToEuler(q: Quat, sqrt: real -> real, atan2: (real, real) -> real, asin: real -> real): (r: Result<seq<real>>)
    ensures r.Ok? ==> |r.value| == 3
  {
    var len := sqrt(NormSquared(q));
    if len == 0.0 then Err(ZeroDivisionError)
    else
      var n := Normalise(q, len);
      var roll := Wrap(atan2(2.0 * (n.w * n.x + n.y * n.z), 1.0 - 2.0 * (n.x * n.x + n.y * n.y)));
      var pitch := asin(PitchArgument(n));
      var yaw := Wrap(atan2(2.0 * (n.w * n.z + n.x * n.y), 1.0 - 2.0 * (n.y * n.y + n.z * n.z)));
      Ok([yaw, pitch, roll])
  }

  /** Yaw and roll come out in [0, 2 pi) given the range of atan2, and a
      zero quaternion, whose length is zero, raises. */
  lemma ToEulerSpec(q: Quat, sqrt: real -> real, atan2: (real, real) -> real, asin: real -> real)
    requires Atan2Range(atan2)
    ensures q == Quat(0.0, 0.0, 0.0, 0.0) && sqrt(0.0) == 0.0 ==> ToEuler(q, sqrt, atan2, asin) == Err(ZeroDivisionError)
    ensures ToEuler(q, sqrt, atan2, asin).Ok? ==>
      var angles := ToEuler(q, sqrt, atan2, asin).value;
      0.0 <= angles[0] < 2.0 * ProcessThetas.Pi && 0.0 <= angles[2] < 2.0 * ProcessThetas.Pi
  {
    if ToEuler(q, sqrt, atan2, asin).Ok? {
      var len := sqrt(NormSquared(q));
      var n := Normalise(q, len);
      WrapRange(atan2(2.0 * (n.w * n.x + n.y * n.z), 1.0 - 2.0 * (n.x * n.x + n.y * n.y)));
      WrapRange(atan2(2.0 * (n.w * n.z + n.x * n.y), 1.0 - 2.0 * (n.y * n.y + n.z * n.z)));
    }
  }

  lemma WrapRange(a: real)
    requires -ProcessThetas.Pi < a <= ProcessThetas.Pi
    ensures 0.0 <= Wrap(a) < 2.0 * ProcessThetas.Pi
  {
  }

  // ---------------------------------------------------------------------------
  // euler_to_roll_pitch_yaw
  // ---------------------------------------------------------------------------

  /** math.degrees. */
  function Degrees(a: real): real
  {
    a * 180.0 / ProcessThetas.Pi
  }

  /** euler_to_roll_pitch_yaw: each angle in degrees, in the same order. */
  function ToDegrees(angles: seq<real>): (r: seq<real>)
    ensures |r| == |angles|
    ensures forall i :: 0 <= i < |angles| ==> r[i] == Degrees(angles[i])
  {
    if angles == [] then [] else [Degrees(angles[0])] + ToDegrees(angles[1..])
  }

  /** Degrees converted back with the rules' radians conversion give the
      original angles. */
  lemma DegreesRoundTrip(angles: seq<real>)
    ensures forall i :: 0 <= i < |angles| ==> ProcessThetas.Radians(ToDegrees(angles)[i]) == angles[i]
  {
    forall i | 0 <= i < |angles|
      ensures ProcessThetas.Radians(ToDegrees(angles)[i]) == angles[i]
    {
      var a := angles[i];
      assert ProcessThetas.Radians(Degrees(a)) == (ProcessThetas.Pi * (a * 180.0 / ProcessThetas.Pi)) / 180.0;
    }
  }

  /** Yaw and roll, once converted, are in [0, 360) degrees. */
  lemma ToEulerDegrees(q: Quat, sqrt: real -> real, atan2: (real, real) -> real, asin: real -> real)
    requires Atan2Range(atan2)
    ensures ToEuler(q, sqrt, atan2, asin).Ok? ==>
      var d := ToDegrees(ToEuler(q, sqrt, atan2, asin).value);
      0.0 <= d[0] < 360.0 && 0.0 <= d[2] < 360.0
  {
    if ToEuler(q, sqrt, atan2, asin).Ok? {
      ToEulerSpec(q, sqrt, atan2, asin);
      var angles := ToEuler(q, sqrt, atan2, asin).value;
      DegreesBelow(angles[0]);
      DegreesBelow(angles[2]);
    }
  }

  lemma DegreesBelow(a: real)
    requires 0.0 <= a < 2.0 * ProcessThetas.Pi
    ensures 0.0 <= Degrees(a) < 360.0
  {
  }
}
