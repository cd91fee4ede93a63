/**
 * Pose keypoints as the pose detector reports them: one 2D point per body
 * joint, in COCO order, for the single person the core looks at.
 */
module Keypoints {

  /** A 2D keypoint; the pair (0, 0) is the pose detector's "not detected" sentinel. */
  datatype Point = Point(x: real, y: real)
}
