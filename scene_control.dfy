/** Bookkeeping around the simulator: where the cube is put for a trial, and
    the guard of the torso trajectory client. */
module SceneControl {
  import opened Wrappers
  import opened RosMessages

  /** Past this many recorded positions a repeated draw is accepted. */
  const PositionListCap: nat := 80

  /** No entry among the first 80 repeats an earlier one: the invariant the
      rejection loop of `set_cube_pose` keeps. */
  ghost predicate FirstEntriesDistinct(list: seq<real>) {
    forall i, j :: 0 <= i < j < |list| && j < PositionListCap ==> list[i] != list[j]
  }

  /** The script's global `position_list`: every lateral cube position that
      `set_cube_pose` has drawn at random. */
  class CubePositions {
    var positionList: seq<real>

    constructor ()
      ensures positionList == []
    {
      positionList := [];
    }

    /** `set_cube_pose`. With an explicit `y` the cube's `y` is set to it and
        the list is untouched. Without one, values are drawn from the
        sampler (`draw(i)` is what `random_float` returns on the `i`-th draw
        of this call) until one is not in the list or the list holds 80
        values or more; that value is appended and written to the pose.
        Returns how many draws were made. The requires clause says the
        sampler eventually offers a fresh value when repeats are rejected;
        otherwise the script's loop does not end. */
    method SetCubePose(boxPose: PoseMsg, y: Option<real>, draw: nat -> real) returns (draws: nat)
      requires y.None? && |positionList| < PositionListCap ==> exists i: nat :: draw(i) !in positionList
      modifies this, boxPose
      ensures boxPose.orientation == old(boxPose.orientation)
      ensures y.Some? ==> draws == 0 && positionList == old(positionList)
      ensures y.Some? ==> boxPose.position == old(boxPose.position).(y := y.value)
      ensures y.None? ==> draws >= 1 && positionList == old(positionList) + [draw(draws - 1)]
      ensures y.None? ==> boxPose.position == old(boxPose.position).(y := draw(draws - 1))
      ensures y.None? ==> forall i :: 0 <= i < draws - 1 ==> draw(i) in old(positionList)
      ensures y.None? && |old(positionList)| < PositionListCap ==> draw(draws - 1) !in old(positionList)
      ensures y.None? && |old(positionList)| >= PositionListCap ==> draws == 1
      ensures FirstEntriesDistinct(old(positionList)) ==> FirstEntriesDistinct(positionList)
    {
      var value: real;
      draws := 0;
      if y.None? {
        value := draw(0);
        draws := 1;
        ghost var k: nat := 0;
        if |positionList| < PositionListCap {
          k :| draw(k) !in positionList;
        }
        while value in positionList && |positionList| < PositionListCap
          invariant draws >= 1 && value == draw(draws - 1)
          invariant forall i :: 0 <= i < draws - 1 ==> draw(i) in positionList
          invariant |positionList| < PositionListCap ==> draws - 1 <= k
          invariant |positionList| >= PositionListCap ==> draws == 1
          decreases k + 1 - draws
        {
          value := draw(draws);
          draws := draws + 1;
        }
        positionList := positionList + [value];
      } else {
        value := y.value;
      }
      boxPose.position := boxPose.position.(y := value);
    }
  }

  /** One trajectory point: target positions, zero velocities and
      accelerations, and the time from start in seconds. */
  datatype TrajectoryPoint = TrajectoryPoint(positions: seq<real>, velocities: seq<real>,
                                             accelerations: seq<real>, timeFromStart: real)

  datatype JointTrajectory = JointTrajectory(jointNames: seq<string>, points: seq<TrajectoryPoint>)

  /** `FollowTrajectoryClient`: the action client is modelled by the goals it
      has been sent. */
  class FollowTrajectoryClient {
    var jointNames: seq<string>
    var sentGoals: seq<JointTrajectory>

    constructor (jointNames: seq<string>)
      ensures this.jointNames == jointNames && sentGoals == []
    {
      this.jointNames := jointNames;
      sentGoals := [];
    }

    /** `move_to`: when the number of positions differs from the number of
        joints, returns `False` and sends nothing; otherwise sends one goal
        with a single point (zero velocities and accelerations, one per
        position) and returns `None`. */
    method MoveTo(positions: seq<real>, duration: real := 5.0) returns (result: Option<bool>)
      modifies this
      ensures jointNames == old(jointNames)
      ensures |positions| != |jointNames| ==> result == Some(false) && sentGoals == old(sentGoals)
      ensures |positions| == |jointNames| ==> result == None
      ensures |positions| == |jointNames| ==>
        sentGoals == old(sentGoals) + [JointTrajectory(jointNames,
          [TrajectoryPoint(positions, seq(|positions|, _ => 0.0), seq(|positions|, _ => 0.0), duration)])]
    {
      if |jointNames| != |positions| {
        return Some(false);
      }
      var zeros := seq(|positions|, _ => 0.0);
      var point := TrajectoryPoint(positions, zeros, zeros, duration);
      var trajectory := JointTrajectory(jointNames, [point]);
      sentGoals := sentGoals + [trajectory];
      result := None;
    }
  }
}
