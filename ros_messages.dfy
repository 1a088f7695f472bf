/** The parts of the ROS `geometry_msgs/Pose` message that the script reads
    and writes. A pose message is a mutable object in the script
    (`box_pose.position.y = y`), so it is a class here. */
module RosMessages {
  datatype Point = Point(x: real, y: real, z: real)

  /** ROS stores quaternions scalar-last: (x, y, z, w). */
  datatype Quaternion = Quaternion(x: real, y: real, z: real, w: real)

  class PoseMsg {
    var position: Point
    var orientation: Quaternion

    constructor (position: Point, orientation: Quaternion)
      ensures this.position == position && this.orientation == orientation
    {
      this.position := position;
      this.orientation := orientation;
    }
  }
}
