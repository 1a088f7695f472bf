/** Quaternion component reordering and homogeneous-transform assembly.

    Two quaternion conventions meet here: transforms3d (`mat2quat`,
    `quat2mat`) is scalar-first (w, x, y, z), as in Appendix B.3 of Lynch and
    Park, "Modern Robotics"; ROS messages and tf are scalar-last (x, y, z, w).
    `quat2mat` is library code and is a parameter of every member that uses
    it; nothing is assumed about it beyond returning a 3x3 block. */
module PoseAlgebra {
  import opened Wrappers
  import opened RosMessages

  predicate Is3x3(m: seq<seq<real>>) {
    |m| == 3 && forall i :: 0 <= i < 3 ==> |m[i]| == 3
  }

  /** A 3x3 rotation block, as `quat2mat` returns it. */
  type Mat3 = m: seq<seq<real>> | Is3x3(m)
    witness [[0.0, 0.0, 0.0], [0.0, 0.0, 0.0], [0.0, 0.0, 0.0]]

  /** transforms3d's `quat2mat`: scalar-first quaternion to rotation block. */
  type QuatToMat = seq<real> -> Mat3

  predicate IsMatrix4(m: seq<seq<real>>) {
    |m| == 4 && forall i :: 0 <= i < 4 ==> |m[i]| == 4
  }

  /** A 4x4 matrix whose bottom row is that of a rigid transform. */
  predicate IsHomogeneous(m: seq<seq<real>>) {
    IsMatrix4(m) && m[3] == [0.0, 0.0, 0.0, 1.0]
  }

  /** The top-left 3x3 block, `T[:3, :3]`. */
  function Rotation(m: seq<seq<real>>): Mat3
    requires IsMatrix4(m)
  {
    [m[0][..3], m[1][..3], m[2][..3]]
  }

  /** The top three entries of column 3, `T[:3, 3]`. */
  function Translation(m: seq<seq<real>>): seq<real>
    requires IsMatrix4(m)
  {
    [m[0][3], m[1][3], m[2][3]]
  }

  /** numpy's assignment of `v` into a three-element slice: a three-element
      `v` is copied, a one-element `v` is broadcast to all three slots, and
      any other length raises a ValueError (`None`). */
  function Broadcast3(v: seq<real>): (r: Option<seq<real>>)
    ensures r.Some? <==> |v| == 3 || |v| == 1
    ensures r.Some? ==> |r.value| == 3
  {
    if |v| == 3 then Some(v)
    else if |v| == 1 then Some([v[0], v[0], v[0]])
    else None
  }

  /** The reorder `ros_quat` performs on a four-element input: wxyz to xyzw. */
  function ScalarLast(q: seq<real>): seq<real>
    requires |q| == 4
  {
    q[1..] + [q[0]]
  }

  /** The reorder at the start of `ros_qt_to_rt`: xyzw to wxyz. Only the
      first four components of `rot` are read. */
  function ScalarFirst(rot: seq<real>): seq<real>
    requires |rot| >= 4
  {
    [rot[3], rot[0], rot[1], rot[2]]
  }

  /** Converting to scalar-last and back gives the original quaternion. */
  lemma ScalarFirstOfScalarLast(q: seq<real>)
    requires |q| == 4
    ensures ScalarFirst(ScalarLast(q)) == q
  {
  }

  /** Converting to scalar-first and back gives the original quaternion. */
  lemma ScalarLastOfScalarFirst(q: seq<real>)
    requires |q| == 4
    ensures ScalarLast(ScalarFirst(q)) == q
  {
  }

  /** `ros_quat`: fills a zeroed four-element array with the last slot set to
      the input's first component and the first three slots set from the
      rest of the input. With a four-element input this is the scalar-first to
      scalar-last reorder; a two-element input is broadcast by numpy; other
      lengths raise. */
  method RosQuat(tfQuat: seq<real>) returns (quat: Option<seq<real>>)
    ensures quat.Some? <==> |tfQuat| == 4 || |tfQuat| == 2
    ensures quat.Some? ==> |quat.value| == 4 && quat.value[3] == tfQuat[0]
    ensures |tfQuat| == 4 ==> quat == Some(ScalarLast(tfQuat))
    ensures |tfQuat| == 4 ==> quat.value[..3] == tfQuat[1..]
    ensures |tfQuat| == 2 ==> quat.value[..3] == [tfQuat[1], tfQuat[1], tfQuat[1]]
  {
    var a := new real[4](_ => 0.0);
    if |tfQuat| == 0 {
      // tf_quat[0] raises IndexError
      return None;
    }
    a[3] := tfQuat[0];
    var rest := Broadcast3(tfQuat[1..]);
    if rest.None? {
      return None;
    }
    a[0], a[1], a[2] := rest.value[0], rest.value[1], rest.value[2];
    quat := Some(a[..]);
    if |tfQuat| == 4 {
      assert a[..] == ScalarLast(tfQuat);
    }
  }

  /** The 4x4 matrix `[[R, t], [0, 0, 0, 1]]`. */
  function Assemble(r: Mat3, t: seq<real>): seq<seq<real>>
    requires |t| == 3
  {
    [r[0] + [t[0]], r[1] + [t[1]], r[2] + [t[2]], [0.0, 0.0, 0.0, 1.0]]
  }

  /** `Assemble` entry by entry. */
  lemma AssembleEntries(r: Mat3, t: seq<real>)
    requires |t| == 3
    ensures Assemble(r, t) == [
      [r[0][0], r[0][1], r[0][2], t[0]],
      [r[1][0], r[1][1], r[1][2], t[1]],
      [r[2][0], r[2][1], r[2][2], t[2]],
      [0.0, 0.0, 0.0, 1.0]
    ]
  {
    assert forall i :: 0 <= i < 3 ==> r[i] + [t[i]] == [r[i][0], r[i][1], r[i][2], t[i]];
  }

  /** Assembling a transform and reading its blocks back gives the parts. */
  lemma AssembleParts(r: Mat3, t: seq<real>)
    requires |t| == 3
    ensures IsHomogeneous(Assemble(r, t))
    ensures Rotation(Assemble(r, t)) == r
    ensures Translation(Assemble(r, t)) == t
  {
  }

  /** What `ros_qt_to_rt` computes: the rotation block comes from
      `quat2mat` applied to the scalar-first reorder of `rot`, the translation
      column is `trans`, and the rest is the identity. */
  function QtToRt(rot: seq<real>, trans: seq<real>, quat2mat: QuatToMat): (r: Option<seq<seq<real>>>)
    ensures r.Some? <==> |rot| >= 4 && (|trans| == 3 || |trans| == 1)
    ensures r.Some? ==> IsHomogeneous(r.value)
    ensures r.Some? ==> Rotation(r.value) == quat2mat(ScalarFirst(rot))
    ensures r.Some? ==> Translation(r.value) == Broadcast3(trans).value
  {
    if |rot| < 4 then None
    else
      match Broadcast3(trans)
      case None => None
      case Some(t) =>
        AssembleParts(quat2mat(ScalarFirst(rot)), t);
        Some(Assemble(quat2mat(ScalarFirst(rot)), t))
  }

  /** `ros_qt_to_rt`, as the script writes it: reorder `rot` into a
      four-element array, convert it with `quat2mat`, then build the matrix
      with `FillTransform`. */
  method RosQtToRt(rot: seq<real>, trans: seq<real>, quat2mat: QuatToMat)
    returns (objT: Option<seq<seq<real>>>)
    ensures objT == QtToRt(rot, trans, quat2mat)
  {
    if |rot| < 4 {
      // rot[3] raises IndexError
      return None;
    }
    var qt := new real[4](_ => 0.0);
    qt[0] := rot[3];
    qt[1] := rot[0];
    qt[2] := rot[1];
    qt[3] := rot[2];
    assert qt[..] == ScalarFirst(rot);
    var t := Broadcast3(trans);
    if t.None? {
      // the translation does not fit the translation column: ValueError
      return None;
    }
    var r := quat2mat(qt[..]);
    var m := FillTransform(r, t.value);
    AssembleEntries(r, t.value);
    objT := Some(m);
  }

  /** The matrix part of `ros_qt_to_rt`: start from `np.eye(4)`, then
      overwrite the rotation block with `r` and the translation column with
      `t`. */
  method FillTransform(r: Mat3, t: seq<real>) returns (objT: seq<seq<real>>)
    requires |t| == 3
    ensures objT == [
      [r[0][0], r[0][1], r[0][2], t[0]],
      [r[1][0], r[1][1], r[1][2], t[1]],
      [r[2][0], r[2][1], r[2][2], t[2]],
      [0.0, 0.0, 0.0, 1.0]
    ]
  {
    var obj := new real[4, 4]((i, j) => if i == j then 1.0 else 0.0);
    // the rotation block
    obj[0, 0], obj[0, 1], obj[0, 2] := r[0][0], r[0][1], r[0][2];
    obj[1, 0], obj[1, 1], obj[1, 2] := r[1][0], r[1][1], r[1][2];
    obj[2, 0], obj[2, 1], obj[2, 2] := r[2][0], r[2][1], r[2][2];
    // the translation column
    obj[0, 3], obj[1, 3], obj[2, 3] := t[0], t[1], t[2];
    objT := [
      [obj[0, 0], obj[0, 1], obj[0, 2], obj[0, 3]],
      [obj[1, 0], obj[1, 1], obj[1, 2], obj[1, 3]],
      [obj[2, 0], obj[2, 1], obj[2, 2], obj[2, 3]],
      [obj[3, 0], obj[3, 1], obj[3, 2], obj[3, 3]]
    ];
  }

  /** `ros_pose_to_rt`: the pose's orientation is read in ROS order
      (x, y, z, w) and its position as (x, y, z); the conversion therefore
      hands `quat2mat` the scalar-first quaternion (w, x, y, z) and always
      succeeds. */
  function PoseToRt(pose: PoseMsg, quat2mat: QuatToMat): (m: seq<seq<real>>)
    reads pose
    ensures IsHomogeneous(m)
    ensures Rotation(m) == quat2mat([pose.orientation.w, pose.orientation.x, pose.orientation.y, pose.orientation.z])
    ensures Translation(m) == [pose.position.x, pose.position.y, pose.position.z]
  {
    var qarray := [pose.orientation.x, pose.orientation.y, pose.orientation.z, pose.orientation.w];
    var t := [pose.position.x, pose.position.y, pose.position.z];
    QtToRt(qarray, t, quat2mat).value
  }
}
