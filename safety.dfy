/**
 * The per-frame safety evaluator of the current code base: a hand-on-button
 * test with a tolerance margin, a knife/base collision test without one, the
 * posture classifier, and the gating of those checks by camera index.
 */
module Safety {
  import opened Regions
  import opened Keypoints
  import opened Signals
  import Pose

  /** The bundle of safety signals of one evaluation; every field starts undetected. */
  datatype Behavior = Behavior(onStop: SafeState, onFeed: SafeState, collided: SafeState, pose: PoseState)

  const Initial: Behavior := Behavior(Undetected, Undetected, Undetected, Unknown)

  /**
   * One camera's pose result for one frame: pixel keypoints (for the hand
   * tests), normalized keypoints (for the posture classifier) and the two
   * elbow angles. An empty keypoint sequence means no person was found.
   */
  datatype PoseResult = PoseResult(xy: seq<Point>, xyn: seq<Point>, leftAngle: real, rightAngle: real)

  /** A found person carries the whole keypoint set the classifier indexes into. */
  predicate WellFormed(p: PoseResult) {
    |p.xy| == |p.xyn| && (|p.xy| == 0 || |p.xy| > Pose.RightKnee)
  }

  /** `offsets.get(key, 0)`. */
  function OffsetOf(offsets: map<string, real>, key: string): real {
    if key in offsets then offsets[key] else 0.0
  }

  /** The point lies in the box grown by `margin` on every side, bounds included. */
  predicate InWidened(r: Region, x: real, y: real, margin: real) {
    r.x_min as real - margin <= x <= r.x_max as real + margin &&
    r.y_min as real - margin <= y <= r.y_max as real + margin
  }

  /**
   * Tri-state hand-on-button test: undetected without a region, without a
   * person, or when the wrist's coordinates sum to 0; otherwise the wrist
   * shifted by the calibrated offset is tested against the widened box.
   */
  function HandOnButton(region: Option<Region>, kps: seq<Point>, wrist: nat,
                        offsets: map<string, real>, keyX: string, keyY: string, margin: real): SafeState
    requires |kps| == 0 || wrist < |kps|
  {
    if region.None? || |kps| == 0 then Undetected
    else if kps[wrist].x + kps[wrist].y == 0.0 then Undetected
    else if InWidened(region.value, kps[wrist].x + OffsetOf(offsets, keyX),
                      kps[wrist].y + OffsetOf(offsets, keyY), margin) then Yes
    else No
  }

  /**
   * Tri-state knife/base test: undetected unless both boxes exist; otherwise
   * YES iff the knife's bottom reaches the base's top and the knife's left or
   * right edge lies within the base's horizontal span.
   */
  function KnifeBaseCollision(knife: Option<Region>, base: Option<Region>): SafeState {
    if knife.None? || base.None? then Undetected
    else if Collides(knife.value, base.value) then Yes
    else No
  }

  /** The collision rule on two present boxes. */
  predicate Collides(k: Region, b: Region) {
    k.y_max >= b.y_min && (b.x_min <= k.x_min <= b.x_max || b.x_min <= k.x_max <= b.x_max)
  }

  /** A check that was skipped leaves the field as it was. */
  function Overwrite(current: SafeState, observed: SafeState): SafeState {
    if observed == Undetected then current else observed
  }

  function StopTest(p: PoseResult, dets: seq<Detection>, offsets: map<string, real>, margin: real): SafeState
    requires WellFormed(p)
  {
    HandOnButton(LastBox(dets, "stop"), p.xy, Pose.LeftWrist, offsets, "stop_x", "stop_y", margin)
  }

  function FeedTest(p: PoseResult, dets: seq<Detection>, offsets: map<string, real>, margin: real): SafeState
    requires WellFormed(p)
  {
    HandOnButton(LastBox(dets, "feed"), p.xy, Pose.RightWrist, offsets, "feed_x", "feed_y", margin)
  }

  function CollisionTest(dets: seq<Detection>): SafeState {
    KnifeBaseCollision(LastBox(dets, "knife"), LastBox(dets, "base"))
  }

  function PoseTest(p: PoseResult): PoseState
    requires WellFormed(p)
  {
    if |p.xy| > 0 then Pose.ClassifyPose(p.xyn, p.leftAngle, p.rightAngle) else Unknown
  }

  /** One pass of the loop body for the frame at index `idx`. */
  function Step(b: Behavior, idx: nat, single: bool, p: PoseResult, dets: seq<Detection>,
                offsets: map<string, real>, margin: real): Behavior
    requires WellFormed(p)
  {
    var b1 := if (idx == 1 || single) && |p.xy| > 0 then b.(pose := PoseTest(p)) else b;
    var b2 := if idx == 0 || single then
                b1.(onStop := Overwrite(b1.onStop, StopTest(p, dets, offsets, margin)),
                    onFeed := Overwrite(b1.onFeed, FeedTest(p, dets, offsets, margin)))
              else b1;
    if idx == 2 || single then b2.(collided := Overwrite(b2.collided, CollisionTest(dets))) else b2
  }

  predicate AllWellFormed(poses: seq<PoseResult>) {
    forall i :: 0 <= i < |poses| ==> WellFormed(poses[i])
  }

  /** The behavior after the first `n` frames of the zipped inputs. */
  function Fold(poses: seq<PoseResult>, objs: seq<seq<Detection>>, n: nat, single: bool,
                offsets: map<string, real>, margin: real): Behavior
    requires AllWellFormed(poses) && n <= |poses| && n <= |objs|
    decreases n
  {
    if n == 0 then Initial
    else Step(Fold(poses, objs, n - 1, single, offsets, margin), n - 1, single,
              poses[n - 1], objs[n - 1], offsets, margin)
  }

  /** Multi-camera mode: camera 0 owns the hands, camera 1 the posture, camera 2 the collision. */
  function ByRole(poses: seq<PoseResult>, objs: seq<seq<Detection>>, n: nat,
                  offsets: map<string, real>, margin: real): Behavior
    requires AllWellFormed(poses) && n <= |poses| && n <= |objs|
  {
    Behavior(
      if n >= 1 then StopTest(poses[0], objs[0], offsets, margin) else Undetected,
      if n >= 1 then FeedTest(poses[0], objs[0], offsets, margin) else Undetected,
      if n >= 3 then CollisionTest(objs[2]) else Undetected,
      if n >= 2 then PoseTest(poses[1]) else Unknown)
  }

  /** Single-camera mode: one frame sets every field. */
  function AllChecks(p: PoseResult, dets: seq<Detection>, offsets: map<string, real>, margin: real): Behavior
    requires WellFormed(p)
  {
    Behavior(StopTest(p, dets, offsets, margin), FeedTest(p, dets, offsets, margin),
             CollisionTest(dets), PoseTest(p))
  }

  /** Outside single mode each field is written by its own camera only; cameras 3 and up change nothing. */
  lemma {:induction false} FoldFollowsRoles(poses: seq<PoseResult>, objs: seq<seq<Detection>>, n: nat,
                                            offsets: map<string, real>, margin: real)
    requires AllWellFormed(poses) && n <= |poses| && n <= |objs|
    ensures Fold(poses, objs, n, false, offsets, margin) == ByRole(poses, objs, n, offsets, margin)
    decreases n
  {
    if n > 0 {
      FoldFollowsRoles(poses, objs, n - 1, offsets, margin);
    }
  }

  /** In single mode the one frame there is sets all four fields. */
  lemma SingleFrameSetsAll(poses: seq<PoseResult>, objs: seq<seq<Detection>>,
                           offsets: map<string, real>, margin: real)
    requires AllWellFormed(poses) && 1 <= |poses| && 1 <= |objs|
    ensures Fold(poses, objs, 1, true, offsets, margin) == AllChecks(poses[0], objs[0], offsets, margin)
  {
  }

  /** One hand block of predict_safe: the field is rewritten only when the test can be made. */
  method CheckHand(current: SafeState, region: Option<Region>, kps: seq<Point>, wrist: nat,
                   offsets: map<string, real>, keyX: string, keyY: string, margin: real)
    returns (next: SafeState)
    requires |kps| == 0 || wrist < |kps|
    ensures next == Overwrite(current, HandOnButton(region, kps, wrist, offsets, keyX, keyY, margin))
  {
    next := current;
    var person := |kps| > 0;
    if region.Some? && person {
      var hand := kps[wrist];
      if hand.x + hand.y != 0.0 {
        var x := hand.x + OffsetOf(offsets, keyX);
        var y := hand.y + OffsetOf(offsets, keyY);
        next := if InWidened(region.value, x, y, margin) then Yes else No;
      }
    }
  }

  /** The knife/base block of predict_safe. */
  method CheckCollision(current: SafeState, knife: Option<Region>, base: Option<Region>)
    returns (next: SafeState)
    ensures next == Overwrite(current, KnifeBaseCollision(knife, base))
  {
    next := current;
    if knife.Some? && base.Some? {
      next := if Collides(knife.value, base.value) then Yes else No;
    }
  }

  /** The loop body of predict_safe for the frame at index `idx`. */
  method EvaluateFrame(behavior: Behavior, idx: nat, single: bool, p: PoseResult, dets: seq<Detection>,
                       offsets: map<string, real>, margin: real) returns (next: Behavior)
    requires WellFormed(p)
    ensures next == Step(behavior, idx, single, p, dets, offsets, margin)
  {
    next := behavior;
    var person := |p.xy| > 0;
    var regions := ExtractObjectRegions(dets, ["stop", "feed", "knife", "base"]);
    var stop, feed, knife, base := regions["stop"], regions["feed"], regions["knife"], regions["base"];
    if idx == 1 || single {
      if person {
        next := next.(pose := Pose.ClassifyPose(p.xyn, p.leftAngle, p.rightAngle));
      }
    }
    if idx == 0 || single {
      var onStop := CheckHand(next.onStop, stop, p.xy, Pose.LeftWrist, offsets, "stop_x", "stop_y", margin);
      var onFeed := CheckHand(next.onFeed, feed, p.xy, Pose.RightWrist, offsets, "feed_x", "feed_y", margin);
      next := next.(onStop := onStop, onFeed := onFeed);
    }
    if idx == 2 || single {
      var collided := CheckCollision(next.collided, knife, base);
      next := next.(collided := collided);
    }
  }

  /**
   * predict_safe: walks the zip of pose and object results, fills a fresh
   * Behavior and returns it. `single` holds when either list has exactly one
   * element, in which case the zip has at most one frame.
   */
  method PredictSafe(poses: seq<PoseResult>, objs: seq<seq<Detection>>,
                     offsets: map<string, real>, margin: real) returns (behavior: Behavior)
    requires AllWellFormed(poses)
    ensures var n := if |poses| < |objs| then |poses| else |objs|;
            if |poses| == 1 || |objs| == 1 then
              behavior == if n == 0 then Initial else AllChecks(poses[0], objs[0], offsets, margin)
            else behavior == ByRole(poses, objs, n, offsets, margin)
  {
    behavior := Initial;
    var single := |poses| == 1 || |objs| == 1;
    var n := if |poses| < |objs| then |poses| else |objs|;
    var idx := 0;
    while idx < n
      invariant 0 <= idx <= n
      invariant behavior == Fold(poses, objs, idx, single, offsets, margin)
    {
      behavior := EvaluateFrame(behavior, idx, single, poses[idx], objs[idx], offsets, margin);
      idx := idx + 1;
    }
    if single {
      if n == 1 {
        SingleFrameSetsAll(poses, objs, offsets, margin);
      }
    } else {
      FoldFollowsRoles(poses, objs, n, offsets, margin);
    }
  }

  // ---------------------------------------------------------------- properties

  /** The hand test is undetected exactly on a missing region, a missing person or a (sum-0) wrist. */
  lemma HandUndetectedIff(region: Option<Region>, kps: seq<Point>, wrist: nat,
                          offsets: map<string, real>, keyX: string, keyY: string, margin: real)
    requires |kps| == 0 || wrist < |kps|
    ensures HandOnButton(region, kps, wrist, offsets, keyX, keyY, margin) == Undetected <==>
            region.None? || |kps| == 0 || kps[wrist].x + kps[wrist].y == 0.0
  {
  }

  /** A missing offset key shifts by 0. */
  lemma MissingOffsetIsZero(region: Region, kps: seq<Point>, wrist: nat,
                            offsets: map<string, real>, keyX: string, keyY: string, margin: real)
    requires wrist < |kps| && keyX !in offsets && keyY !in offsets
    requires kps[wrist].x + kps[wrist].y != 0.0
    ensures HandOnButton(Some(region), kps, wrist, offsets, keyX, keyY, margin) == Yes <==>
            InWidened(region, kps[wrist].x, kps[wrist].y, margin)
  {
  }

  /** A wider margin never turns YES into NO, and never changes whether the test is detected. */
  lemma MarginMonotone(region: Option<Region>, kps: seq<Point>, wrist: nat,
                       offsets: map<string, real>, keyX: string, keyY: string, m1: real, m2: real)
    requires |kps| == 0 || wrist < |kps|
    requires m1 <= m2
    ensures (HandOnButton(region, kps, wrist, offsets, keyX, keyY, m1) == Undetected) ==
            (HandOnButton(region, kps, wrist, offsets, keyX, keyY, m2) == Undetected)
    ensures HandOnButton(region, kps, wrist, offsets, keyX, keyY, m1) == Yes ==>
            HandOnButton(region, kps, wrist, offsets, keyX, keyY, m2) == Yes
  {
  }

  /** Bounds are inclusive: a shifted wrist exactly on a corner of the widened box is on the button. */
  lemma CornerIsOnButton(region: Region, kps: seq<Point>, wrist: nat,
                         offsets: map<string, real>, keyX: string, keyY: string, margin: real)
    requires wrist < |kps| && kps[wrist].x + kps[wrist].y != 0.0
    requires margin >= 0.0 && region.x_min <= region.x_max && region.y_min <= region.y_max
    requires kps[wrist].x + OffsetOf(offsets, keyX) == region.x_max as real + margin
    requires kps[wrist].y + OffsetOf(offsets, keyY) == region.y_min as real - margin
    ensures HandOnButton(Some(region), kps, wrist, offsets, keyX, keyY, margin) == Yes
  {
  }

  /** Collision is undetected exactly when a box is missing; no person is needed. */
  lemma CollisionUndetectedIff(knife: Option<Region>, base: Option<Region>)
    ensures KnifeBaseCollision(knife, base) == Undetected <==> knife.None? || base.None?
  {
  }

  /** A collision verdict implies the knife reaches the base and the horizontal spans intersect. */
  lemma CollisionImpliesOverlap(knife: Region, base: Region)
    requires knife.x_min <= knife.x_max
    requires KnifeBaseCollision(Some(knife), Some(base)) == Yes
    ensures knife.y_max >= base.y_min
    ensures knife.x_min <= base.x_max && base.x_min <= knife.x_max
  {
  }

  /** The horizontal check is one-sided: a knife wider than the base on both sides gives NO. */
  lemma WideKnifeIsNotCollision(knife: Region, base: Region)
    requires knife.x_min < base.x_min && base.x_max < knife.x_max
    ensures KnifeBaseCollision(Some(knife), Some(base)) == No
  {
  }

  /**
   * Worked examples: wrist (14, 14) shifted by (1, 1) lies on the box (10..20, 10..20);
   * a (0, 0) wrist is undetected; a knife whose bottom edge reaches the base's top collides.
   */
  lemma EvaluatorExamples()
    ensures var kps := seq(11, i => if i == Pose.LeftWrist then Point(14.0, 14.0) else Point(0.0, 0.0));
            var offsets := map["stop_x" := 1.0, "stop_y" := 1.0];
            HandOnButton(Some(Region(10, 20, 10, 20)), kps, Pose.LeftWrist, offsets, "stop_x", "stop_y", 0.0) == Yes
    ensures var kps := seq(11, i => Point(0.0, 0.0));
            var offsets := map["stop_x" := 1.0, "stop_y" := 1.0];
            HandOnButton(Some(Region(10, 20, 10, 20)), kps, Pose.LeftWrist, offsets, "stop_x", "stop_y", 0.0) == Undetected
    ensures KnifeBaseCollision(Some(Region(0, 50, 0, 60)), Some(Region(0, 50, 55, 70))) == Yes
  {
  }
}
