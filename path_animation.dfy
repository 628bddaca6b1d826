/** The looping clock and the per-frame pose of the walking figure along the route.
    The curve through the route and the rotation arithmetic are library code and
    enter as functions passed in. */
module PathAnimation {

  /** One traversal of the whole route takes 50 seconds. */
  const AnimationMs: nat := 50000

  datatype Vec3 = Vec3(x: real, y: real, z: real)
  datatype Quat = Quat(x: real, y: real, z: real, w: real)

  /** The direction the model's front faces before it is turned onto the path. */
  const FrontVector: Vec3 := Vec3(0.0, -1.0, 0.0)

  /** The route's curve: a point and a tangent for each progress value. */
  datatype Curve = Curve(pointAt: real -> Vec3, tangentAt: real -> Vec3)

  /** The two rotations the frame applies: the shortest-arc rotation taking one unit
      vector onto another, and the fixed quarter turn about the local x axis. */
  datatype Rotations = Rotations(fromUnitVectors: (Vec3, Vec3) -> Quat, quarterTurnX: Quat -> Quat)

  datatype Pose = Pose(position: Vec3, quaternion: Quat)

  /** Fraction of the current cycle elapsed at time now, in milliseconds. */
  function Progress(now: nat): (p: real)
    ensures 0.0 <= p < 1.0
    ensures now < AnimationMs ==> p * AnimationMs as real == now as real
  {
    (now % AnimationMs) as real / AnimationMs as real
  }

  /** Progress repeats every cycle: shifting the time by whole cycles changes nothing. */
  lemma ProgressRepeats(now: nat, cycles: nat)
    ensures Progress(now + cycles * AnimationMs) == Progress(now)
  {
  }

  /** The pose the frame gives the model at time now: the point of the curve at the
      current progress, facing along the tangent there, then turned upright. */
  function PoseAt(curve: Curve, rotations: Rotations, now: nat): Pose
  {
    var p := Progress(now);
    Pose(curve.pointAt(p),
         rotations.quarterTurnX(rotations.fromUnitVectors(FrontVector, curve.tangentAt(p))))
  }

  /** The pose depends on the time only through the cycle: the figure is back at the
      same place, facing the same way, one whole cycle later. */
  lemma PoseRepeats(curve: Curve, rotations: Rotations, now: nat, cycles: nat)
    ensures PoseAt(curve, rotations, now + cycles * AnimationMs) == PoseAt(curve, rotations, now)
  {
  }

  /** At the start of every cycle the figure stands at the start of the curve, and half
      a cycle in it stands at the curve's midpoint. */
  lemma PoseAtCycleStart(curve: Curve, rotations: Rotations, cycles: nat)
    ensures PoseAt(curve, rotations, cycles * AnimationMs).position == curve.pointAt(0.0)
    ensures PoseAt(curve, rotations, cycles * AnimationMs + AnimationMs / 2).position == curve.pointAt(0.5)
  {
  }
}
