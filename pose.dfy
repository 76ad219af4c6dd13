/**
  Poses and the delta-to-absolute step of the remote agent (agent.py).

  A pose is a position and an orientation given as static-frame x-y-z Euler
  angles ("sxyz"). The trigonometric conversions between Euler angles and
  rotation matrices are not modelled: they are carried as the two functions of
  a `Rotations` value, about which nothing is assumed. What is modelled exactly
  is the arithmetic around them: the translation sum, the order of the matrix
  product and the pass-through of the gripper value.
*/
module Pose {

  datatype Vec3 = Vec3(x: real, y: real, z: real)

  const Zero3 := Vec3(0.0, 0.0, 0.0)

  function Add(a: Vec3, b: Vec3): Vec3 {
    Vec3(a.x + b.x, a.y + b.y, a.z + b.z)
  }

  /** A 3x3 matrix, row by row. */
  datatype Mat3 = Mat3(r0: Vec3, r1: Vec3, r2: Vec3)

  const Identity := Mat3(Vec3(1.0, 0.0, 0.0), Vec3(0.0, 1.0, 0.0), Vec3(0.0, 0.0, 1.0))

  function Dot(a: Vec3, b: Vec3): real {
    a.x * b.x + a.y * b.y + a.z * b.z
  }

  function Col0(m: Mat3): Vec3 { Vec3(m.r0.x, m.r1.x, m.r2.x) }
  function Col1(m: Mat3): Vec3 { Vec3(m.r0.y, m.r1.y, m.r2.y) }
  function Col2(m: Mat3): Vec3 { Vec3(m.r0.z, m.r1.z, m.r2.z) }

  function Row(a: Vec3, b: Mat3): Vec3 {
    Vec3(Dot(a, Col0(b)), Dot(a, Col1(b)), Dot(a, Col2(b)))
  }

  /** The matrix product `a @ b`. */
  function MatMul(a: Mat3, b: Mat3): Mat3 {
    Mat3(Row(a.r0, b), Row(a.r1, b), Row(a.r2, b))
  }

  /** Position and sxyz Euler angles: the first six scalars of every frame and action. */
  datatype Pose6 = Pose6(pos: Vec3, rot: Vec3)

  /**
    Seven scalars `[x, y, z, rx, ry, rz, gripper]`: a proprioception frame, a
    delta action from the server, or an absolute action for the robot.
  */
  datatype Vec7 = Vec7(pose: Pose6, gripper: real)

  /** transforms3d's `euler.euler2mat` and `euler.mat2euler` with axes 'sxyz', left uninterpreted. */
  datatype Rotations = Rotations(euler2mat: Vec3 -> Mat3, mat2euler: Mat3 -> Vec3)

  /**
    `_delta_to_abs`: the translation delta is added to the current position,
    the delta rotation is applied after the current one (`R_delta @ R_current`)
    and the gripper value of the delta is kept as it is.
  */
  function DeltaToAbs(rot: Rotations, delta: Vec7, current: Pose6): (r: Vec7)
  {
    Vec7(
      Pose6(Add(current.pos, delta.pose.pos),
            rot.mat2euler(MatMul(rot.euler2mat(delta.pose.rot), rot.euler2mat(current.rot)))),
      delta.gripper)
  }

  /** The identity matrix is neutral on the left of a product. */
  lemma IdentityLeft(m: Mat3)
    ensures MatMul(Identity, m) == m
  {
  }

  /**
    A zero delta leaves the pose where it is, provided the conversions map zero
    angles to the identity and read the current rotation matrix back as the
    current angles (true of transforms3d inside the principal range).
  */
  lemma ZeroDeltaKeepsPose(rot: Rotations, current: Pose6, g: real)
    requires rot.euler2mat(Zero3) == Identity
    requires rot.mat2euler(rot.euler2mat(current.rot)) == current.rot
    ensures DeltaToAbs(rot, Vec7(Pose6(Zero3, Zero3), g), current) == Vec7(current, g)
  {
    IdentityLeft(rot.euler2mat(current.rot));
  }

  /** Quarter turns about x and about z, in the sxyz convention. */
  const QuarterTurnX := Mat3(Vec3(1.0, 0.0, 0.0), Vec3(0.0, 0.0, -1.0), Vec3(0.0, 1.0, 0.0))
  const QuarterTurnZ := Mat3(Vec3(0.0, -1.0, 0.0), Vec3(1.0, 0.0, 0.0), Vec3(0.0, 0.0, 1.0))

  /**
    Composition order matters: for two quarter turns the products in the two
    orders differ, so writing `R_current @ R_delta` would be a different step.
  */
  lemma CompositionOrderMatters()
    ensures MatMul(QuarterTurnX, QuarterTurnZ) != MatMul(QuarterTurnZ, QuarterTurnX)
  {
    var xz := MatMul(QuarterTurnX, QuarterTurnZ);
    var zx := MatMul(QuarterTurnZ, QuarterTurnX);
    assert xz.r0.y == Dot(Vec3(1.0, 0.0, 0.0), Vec3(-1.0, 0.0, 0.0)) == -1.0;
    assert zx.r0.y == Dot(Vec3(0.0, -1.0, 0.0), Vec3(0.0, 0.0, 1.0)) == 0.0;
  }

  /**
    The order of `R_delta @ R_current` shows in the result of `_delta_to_abs`:
    for a quarter-turn delta about x onto a quarter turn about z, the
    converted matrix is `R_delta @ R_current`, which is not
    `R_current @ R_delta`, and whenever the conversion back to angles tells
    the two products apart the resulting angles are not those of the
    reversed product. Since the conversions are parameters, this shows only
    that `DeltaToAbs` composes `delta_rot @ current_rot`, in that order.
  */
  lemma DeltaToAbsOrder(rot: Rotations, delta: Vec7, current: Pose6)
    requires rot.euler2mat(delta.pose.rot) == QuarterTurnX
    requires rot.euler2mat(current.rot) == QuarterTurnZ
    requires rot.mat2euler(MatMul(QuarterTurnX, QuarterTurnZ)) != rot.mat2euler(MatMul(QuarterTurnZ, QuarterTurnX))
    ensures MatMul(rot.euler2mat(delta.pose.rot), rot.euler2mat(current.rot))
         != MatMul(rot.euler2mat(current.rot), rot.euler2mat(delta.pose.rot))
    ensures DeltaToAbs(rot, delta, current).pose.rot
         != rot.mat2euler(MatMul(rot.euler2mat(current.rot), rot.euler2mat(delta.pose.rot)))
  {
    CompositionOrderMatters();
  }
}
