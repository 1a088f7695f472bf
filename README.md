# Pose transforms and IK retry policy of the grasp benchmark script

This project models the computational core of `data_collection.py`, a script
that benchmarks picking a cube with a simulated Fetch robot. The model covers
three parts of the script:

- **Quaternion reordering and transform assembly.** `ros_quat` turns a
  scalar-first quaternion (w, x, y, z), the convention of transforms3d and of
  Appendix B.3 of Lynch and Park, "Modern Robotics", into the scalar-last
  (x, y, z, w) order of ROS. `ros_qt_to_rt` does the reverse reorder and
  builds a 4x4 homogeneous matrix. `ros_pose_to_rt` reads a ROS pose message
  into that matrix. The library `quat2mat` is a function-typed parameter.
  numpy's slice assignment is modelled: a one-element value is broadcast,
  and a value of any other wrong length raises (`None`).
- **The IK retry policy.** There are two loops named `get_track_ik_solution`
  around the TRAC-IK oracle. The oracle is a parameter: it maps a request and
  an attempt number to Python's `None` or a tuple of joint angles. An empty
  tuple is not `None`, but it is falsy. The loop nested in `get_solution`
  makes at most 100 calls and stops at the first truthy answer. The top-level
  loop runs `while sol is None`. Its `retry` counter is never tested, so it
  has no attempt bound. `get_solution` solves a pre-grasp waypoint 0.5 above
  the cube from a fixed home seed. It then solves a grasp waypoint 0.2 above
  the cube, seeded with whatever the first solve returned.
- **Bookkeeping.** `set_cube_pose` either uses the explicit `y` it is given,
  or draws one from a sampler. Draws are rejected while they repeat an entry
  of the global `position_list` and the list has fewer than 80 entries.
  `FollowTrajectoryClient.move_to` refuses a position vector whose length
  differs from the number of joints.

The quaternion passed to the oracle is `rotated_qt` in index order, as
`mat2quat` produced it (scalar first). The model keeps that order. It does
not state how the oracle reads its four orientation arguments.

The top-level loop has no attempt budget. When the bounded loop's budget runs
out it returns its last falsy answer; it raises no error.

Files: `wrappers.dfy` (Option), `ros_messages.dfy` (pose message),
`pose_algebra.dfy`, `ik_retry.dfy`, `scene_control.dfy`.

## Model

| member | source | states |
|---|---|---|
| `PoseAlgebra.RosQuat` | data_collection.py:47-51 | Succeeds exactly for 4- or 2-element input. The result has 4 elements and its last is the input's first. For 4 elements the first three are the input's elements 1..3 in order (the wxyz to xyzw reorder). For 2 elements numpy broadcasts element 1. |
| `PoseAlgebra.ScalarFirstOfScalarLast` | data_collection.py:93-98 | The reorder at the start of `ros_qt_to_rt` undoes the `ros_quat` reorder on every 4-element quaternion. |
| `PoseAlgebra.ScalarLastOfScalarFirst` | data_collection.py:47-51 | The `ros_quat` reorder undoes the xyzw to wxyz reorder on every 4-element quaternion. |
| `PoseAlgebra.AssembleParts` | data_collection.py:99-101 | The assembled matrix is 4x4 with bottom row [0,0,0,1]. Its 3x3 block reads back as the rotation it was built from, and its column 3 reads back as the translation. |
| `PoseAlgebra.QtToRt` | data_collection.py:93-103 | Fails exactly when `rot` has fewer than 4 elements or `trans` does not fit three slots. Otherwise: bottom row [0,0,0,1]; rotation block is `quat2mat` of (rot[3], rot[0], rot[1], rot[2]); column 3 is `trans`, broadcast if it has one element. |
| `PoseAlgebra.RosQtToRt` | data_collection.py:93-103 | The array-filling implementation computes exactly `QtToRt`, including the error cases. |
| `PoseAlgebra.FillTransform` | data_collection.py:99-101 | Starting from the identity and overwriting the rotation block and translation column gives the matrix [[R, t], [0, 0, 0, 1]] entry by entry. |
| `PoseAlgebra.PoseToRt` | data_collection.py:107-119 | Always yields a homogeneous matrix. `quat2mat` receives the pose's orientation as (w, x, y, z), and column 3 is the pose's (x, y, z) position. |
| `IkRetry.Retry` | data_collection.py:255-264 | The bounded loop never makes more calls than its budget. |
| `IkRetry.RetryReturnsLastCall` | data_collection.py:252-265 | No calls happen only with no budget, and then `sol` is unchanged. Otherwise the result is the last call's answer and every earlier answer was falsy. The loop ended on a truthy answer or with the budget spent. |
| `IkRetry.RetryStopsAtFirstTruthy` | data_collection.py:255-263 | If the first truthy answer is the k-th, exactly k+1 calls are made and that answer is returned. |
| `IkRetry.RetryAllFail` | data_collection.py:253-265 | If every answer is falsy, the whole budget is spent and the last (falsy) answer is returned. |
| `IkRetry.SolveBounds` | data_collection.py:252-265 | The loop nested in `get_solution` makes 1 to 100 calls and returns the last call's answer. It stops early only on a truthy answer. |
| `IkRetry.SolveFirstSuccess` | data_collection.py:252-265 | If the oracle is first truthy on call k ≤ 100, exactly k calls are made and that answer is returned. |
| `IkRetry.SolveAllFail` | data_collection.py:252-265 | If all 100 answers are falsy, the hundredth answer is returned after 100 calls. |
| `IkRetry.BoundedTrackIkSolution` | data_collection.py:252-265 | The loop sends the same request on every pass: seed, trans[0..3] and rotated_qt[0..4] in index order. Its result and call count equal `Solve`. Calls are between 1 and 100, and the result is the last call's answer. The result is truthy unless 100 calls were made. |
| `IkRetry.TrackIkSolution` | data_collection.py:223-237 | When it returns, the result is not `None`. It is the oracle's first answer that is not `None`, truthy or not. Every earlier answer was `None`. `retry` bounds nothing. |
| `IkRetry.FirstAnswerUnique` | data_collection.py:223-237 | The top-level loop's postcondition fixes its call count and result uniquely. |
| `IkRetry.TopLevelHasNoAttemptBound` | data_collection.py:224-236 | For every n, including n ≥ 30, an oracle that answers `None` n times makes the top-level loop call it n+1 times. When n ≥ 100, the nested loop gives up with `None` after 100 calls. |
| `IkRetry.EmptyTupleEndsOnlyTopLevel` | data_collection.py:226-263 | An empty-tuple answer ends the top-level loop on the first call, because it is not `None`. The nested loop spends all 100 calls on it, because it is falsy. |
| `IkRetry.GetSolution` | data_collection.py:267-291 | The first solve starts from the fixed home seed at (t[0][3], t[1][3], t[2][3]+0.5). The second solve is seeded with exactly the first's result, at (t[0][3], t[1][3], t[2][3]+0.2). Both use the same `rotated_qt` unreordered. |
| `SceneControl.CubePositions.constructor` | data_collection.py:193 | `position_list` starts empty. |
| `SceneControl.CubePositions.SetCubePose` | data_collection.py:196-207 | With an explicit `y`: no draws, the list is unchanged, and the pose's y becomes `y`. With none: the list grows by exactly the last draw, which is also written to the pose's y. Every rejected draw was already in the list. Below 80 entries the accepted value is new; at 80 or more the first draw is accepted. Distinctness of the first 80 entries is preserved. Nothing else of the pose changes. |
| `SceneControl.FollowTrajectoryClient.constructor` | data_collection.py:168-173 | The client keeps the joint names it was given and has sent no goal. |
| `SceneControl.FollowTrajectoryClient.MoveTo` | data_collection.py:175-190 | On a length mismatch it returns `False` and sends nothing. Otherwise it sends one goal and returns `None`. The goal has the client's joint names and one point: the positions, zero velocities and accelerations of the same length, and `duration`. |

## Left out

- `IkRetry.TrackIkSolution`: its requires clause says the oracle eventually answers with something other than `None`. The script loops forever otherwise, and a method that may not terminate cannot be written here. `TopLevelHasNoAttemptBound` shows that no number of `None` answers ends the loop.
- `SceneControl.CubePositions.SetCubePose`: its requires clause says the sampler eventually offers a value not in the list when repeats are rejected. Without that, the script's rejection loop does not end.
- `SceneControl.CubePositions.SetCubePose`: `draw(i)` is the i-th value drawn within one call. The randomness and grid arithmetic of `random_float` (data_collection.py:39-44) are not modelled. The Gazebo `set_model_pose` call (data_collection.py:207, 210-220) is I/O and is left out.
- `SceneControl.FollowTrajectoryClient.MoveTo`: sending is modelled as appending the goal to a log. Waiting for the action server, printing, and `rospy.Duration` are I/O.
- The IK oracle's answer is indexed by the attempt number within one solve. Randomness inside TRAC-IK is covered only in the sense that any answer sequence is allowed. The oracle is total: the model assumes `get_ik` never raises, for example when the second solve is seeded with `None` after a failed first solve. Error logging in the top-level loop (data_collection.py:231-234) is not modelled.
- `rotX`/`rotY`/`rotZ`, `np.dot`, `np.linalg.inv`, `mat2quat` and `quat2mat` are trigonometry and matrix algebra in library code. `quat2mat` is a parameter. `get_solution` receives `rotated_qt` as a parameter instead of computing it (data_collection.py:273-284). Its unused `qt = ros_quat(mat2quat(...))` (data_collection.py:272) has no effect and is not modelled.
- Floating point: all numbers are reals. The `float32` cast in `ros_qt_to_rt` (data_collection.py:94) and rounding in `trans[2] + 0.5` and `trans[2] + 0.2` are not modelled.
- `get_pose_gazebo`, `publish_tf`, `get_gazebo_timestamp` and `reset_objects` are service calls, a thread and clock waits.
- The main block (data_collection.py:293-561) is not part of this model. It covers MoveIt planning and execution, gripper control, the `y_cur` sweep, the timing records and the CSV output.
