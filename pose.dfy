/**
 * The posture classifier: a fixed first-match decision tree over averaged
 * normalized y coordinates (y grows downwards) and the two elbow angles.
 * The elbow angles are computed by a helper that is not part of this model,
 * so they are inputs here.
 */
module Pose {
  import opened Keypoints
  import opened Signals

  // Thresholds from the settings file.
  const LieThreshold: real := 0.14         // normalized vertical gap
  const ArmAngleThreshold: real := 150.0   // degrees
  const ArmStretchThreshold: real := 0.1   // normalized wrist-above-hip height
  const ArmBendThreshold: real := 0.05     // normalized wrist-above-hip height

  // COCO keypoint indices.
  const LeftShoulder: nat := 5
  const RightShoulder: nat := 6
  const LeftWrist: nat := 9
  const RightWrist: nat := 10
  const LeftHip: nat := 11
  const RightHip: nat := 12
  const LeftKnee: nat := 13
  const RightKnee: nat := 14

  /**
   * Average of a left/right pair of y values, 0 meaning "joint absent":
   * the mean when both are present, otherwise Python's `left or right`.
   */
  function PairAverage(left: real, right: real): (r: real)
    ensures left != 0.0 && right != 0.0 ==> r == (left + right) / 2.0
    ensures left != 0.0 && right == 0.0 ==> r == left
    ensures left == 0.0 ==> r == right
    ensures left != 0.0 && right != 0.0 ==>
              (left <= r <= right) || (right <= r <= left)
    ensures left >= 0.0 && right >= 0.0 ==> (r == 0.0 <==> left == 0.0 && right == 0.0)
  {
    if left != 0.0 && right != 0.0 then (left + right) / 2.0
    else if left != 0.0 then left
    else right
  }

  /** The quantities the decision tree compares. */
  datatype Summary = Summary(shoulder: real, hip: real, knee: real, leftWrist: real, rightWrist: real)

  function Summarize(kps: seq<Point>): Summary
    requires |kps| > RightKnee
  {
    Summary(
      PairAverage(kps[LeftShoulder].y, kps[RightShoulder].y),
      PairAverage(kps[LeftHip].y, kps[RightHip].y),
      PairAverage(kps[LeftKnee].y, kps[RightKnee].y),
      kps[LeftWrist].y,
      kps[RightWrist].y)
  }

  /** Torso or thigh nearly horizontal: a vertical gap below LieThreshold. */
  predicate LieCondition(s: Summary) {
    (s.hip != 0.0 && s.shoulder != 0.0 && s.hip - s.shoulder < LieThreshold) ||
    (s.knee != 0.0 && s.hip != 0.0 && s.knee - s.hip < LieThreshold)
  }

  /** A detected wrist more than `threshold` above the hip; a missing hip counts as "above". */
  predicate Raised(wrist: real, hip: real, threshold: real) {
    wrist != 0.0 && (hip == 0.0 || hip - wrist > threshold)
  }

  predicate StretchCondition(s: Summary, leftAngle: real, rightAngle: real) {
    (leftAngle > ArmAngleThreshold || rightAngle > ArmAngleThreshold) &&
    (Raised(s.leftWrist, s.hip, ArmStretchThreshold) || Raised(s.rightWrist, s.hip, ArmStretchThreshold))
  }

  predicate BendCondition(s: Summary) {
    Raised(s.leftWrist, s.hip, ArmBendThreshold) || Raised(s.rightWrist, s.hip, ArmBendThreshold)
  }

  predicate StandCondition(s: Summary) {
    (s.hip != 0.0 && s.shoulder != 0.0 && s.hip > s.shoulder) &&
    (s.knee != 0.0 && s.hip != 0.0 && s.knee > s.hip)
  }

  /** classify_pose: the first matching rule of LIE, ARM_STRETCH, ARM_BEND, STAND wins. */
  function ClassifyPose(kps: seq<Point>, leftAngle: real, rightAngle: real): PoseState
    requires |kps| > RightKnee
  {
    var s := Summarize(kps);
    if LieCondition(s) then Lie
    else if StretchCondition(s, leftAngle, rightAngle) then ArmStretch
    else if BendCondition(s) then ArmBend
    else if StandCondition(s) then Stand
    else Unknown
  }

  /** Rule order is load-bearing: keypoints that are both lying and standing classify as LIE. */
  lemma LieBeatsStand(kps: seq<Point>, leftAngle: real, rightAngle: real)
    requires |kps| > RightKnee
    requires LieCondition(Summarize(kps)) && StandCondition(Summarize(kps))
    ensures ClassifyPose(kps, leftAngle, rightAngle) == Lie
  {
  }

  /**
   * A STAND verdict means hips below shoulders and knees below hips, both
   * gaps at least LieThreshold, and no detected wrist raised more than
   * ArmBendThreshold above the hip.
   */
  lemma StandMeansUpright(kps: seq<Point>, leftAngle: real, rightAngle: real)
    requires |kps| > RightKnee
    requires ClassifyPose(kps, leftAngle, rightAngle) == Stand
    ensures var s := Summarize(kps);
            s.hip > s.shoulder && s.knee > s.hip &&
            s.hip - s.shoulder >= LieThreshold && s.knee - s.hip >= LieThreshold &&
            (s.leftWrist == 0.0 || s.hip - s.leftWrist <= ArmBendThreshold) &&
            (s.rightWrist == 0.0 || s.hip - s.rightWrist <= ArmBendThreshold)
  {
  }

  /**
   * An ARM_STRETCH verdict needs some elbow angle above ArmAngleThreshold and
   * some detected wrist raised more than ArmStretchThreshold above the hip (or
   * a missing hip); the angle and the wrist need not belong to the same arm.
   */
  lemma StretchNeedsAngleAndRaisedWrist(kps: seq<Point>, leftAngle: real, rightAngle: real)
    requires |kps| > RightKnee
    requires ClassifyPose(kps, leftAngle, rightAngle) == ArmStretch
    ensures var s := Summarize(kps);
            !LieCondition(s) &&
            (leftAngle > ArmAngleThreshold || rightAngle > ArmAngleThreshold) &&
            ((kps[LeftWrist].y != 0.0 && (s.hip == 0.0 || s.hip - kps[LeftWrist].y > ArmStretchThreshold)) ||
             (kps[RightWrist].y != 0.0 && (s.hip == 0.0 || s.hip - kps[RightWrist].y > ArmStretchThreshold)))
  {
  }

  /**
   * An ARM_BEND verdict means no LIE, no ARM_STRETCH, and some detected wrist
   * raised more than ArmBendThreshold above the hip (or a missing hip).
   */
  lemma BendNeedsRaisedWristWithoutStretch(kps: seq<Point>, leftAngle: real, rightAngle: real)
    requires |kps| > RightKnee
    requires ClassifyPose(kps, leftAngle, rightAngle) == ArmBend
    ensures var s := Summarize(kps);
            !LieCondition(s) && !StretchCondition(s, leftAngle, rightAngle) &&
            ((kps[LeftWrist].y != 0.0 && (s.hip == 0.0 || s.hip - kps[LeftWrist].y > ArmBendThreshold)) ||
             (kps[RightWrist].y != 0.0 && (s.hip == 0.0 || s.hip - kps[RightWrist].y > ArmBendThreshold)))
  {
  }

  /** Mixing arms: a straight left elbow and a raised right wrist already give ARM_STRETCH. */
  lemma StretchMixesArms(kps: seq<Point>, leftAngle: real, rightAngle: real)
    requires |kps| > RightKnee
    requires !LieCondition(Summarize(kps))
    requires leftAngle > ArmAngleThreshold
    requires Raised(kps[RightWrist].y, Summarize(kps).hip, ArmStretchThreshold)
    ensures ClassifyPose(kps, leftAngle, rightAngle) == ArmStretch
  {
  }

  /**
   * With both hips undetected (average 0) the LIE and STAND rules cannot
   * fire, and any detected wrist makes the posture an arm posture.
   */
  lemma MissingHipWithWrist(kps: seq<Point>, leftAngle: real, rightAngle: real)
    requires |kps| > RightKnee
    requires kps[LeftHip].y == 0.0 && kps[RightHip].y == 0.0
    requires kps[LeftWrist].y != 0.0 || kps[RightWrist].y != 0.0
    ensures ClassifyPose(kps, leftAngle, rightAngle) in {ArmStretch, ArmBend}
  {
  }

  /**
   * With no shoulder, wrist, hip or knee detected, the posture is UNKNOWN
   * whatever the elbow angles; the elbows themselves are never read.
   */
  lemma NothingDetectedIsUnknown(kps: seq<Point>, leftAngle: real, rightAngle: real)
    requires |kps| > RightKnee
    requires kps[LeftShoulder].y == 0.0 && kps[RightShoulder].y == 0.0
    requires kps[LeftWrist].y == 0.0 && kps[RightWrist].y == 0.0
    requires kps[LeftHip].y == 0.0 && kps[RightHip].y == 0.0
    requires kps[LeftKnee].y == 0.0 && kps[RightKnee].y == 0.0
    ensures ClassifyPose(kps, leftAngle, rightAngle) == Unknown
  {
  }
}
