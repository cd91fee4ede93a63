/**
 * The earliest hand-on-button test: a boolean per button that holds when
 * EITHER wrist, shifted by that button's adjustment pair, lies inclusively in
 * the button's box. There is no tolerance, no person check and no check for
 * the (0, 0) sentinel; a missing box makes that button's result false.
 */
module LegacyButton {
  import opened Regions
  import opened Keypoints
  import Pose
  import Safety
  import opened Signals

  /** Inclusive containment in the box itself. */
  predicate InBox(r: Region, x: real, y: real) {
    Safety.InWidened(r, x, y, 0.0)
  }

  /** Either wrist, shifted by (dx, dy), lies in the box. */
  predicate EitherHandIn(r: Region, left: Point, right: Point, dx: real, dy: real) {
    InBox(r, right.x + dx, right.y + dy) || InBox(r, left.x + dx, left.y + dy)
  }

  /**
   * test_hand_on_button: the stop result uses adj[0], adj[1] and the feed
   * result adj[2], adj[3]; an adjustment pair is read only when its box exists.
   */
  method TestHandOnButton(keypoints: seq<Point>, detections: seq<Detection>, adj: seq<real>)
    returns (onStop: bool, onFeed: bool)
    requires |keypoints| > Pose.RightWrist
    requires LastBox(detections, "stop").Some? ==> |adj| >= 2
    requires LastBox(detections, "feed").Some? ==> |adj| >= 4
    ensures onStop <==> LastBox(detections, "stop").Some? &&
                        EitherHandIn(LastBox(detections, "stop").value, keypoints[Pose.LeftWrist],
                                     keypoints[Pose.RightWrist], adj[0], adj[1])
    ensures onFeed <==> LastBox(detections, "feed").Some? &&
                        EitherHandIn(LastBox(detections, "feed").value, keypoints[Pose.LeftWrist],
                                     keypoints[Pose.RightWrist], adj[2], adj[3])
  {
    var leftHand := keypoints[Pose.LeftWrist];
    var rightHand := keypoints[Pose.RightWrist];
    var stop, feed := ScanStopFeed(detections);
    onStop, onFeed := false, false;
    if stop.Some? {
      var rx, ry := rightHand.x + adj[0], rightHand.y + adj[1];
      var lx, ly := leftHand.x + adj[0], leftHand.y + adj[1];
      onStop := InBox(stop.value, rx, ry) || InBox(stop.value, lx, ly);
    }
    if feed.Some? {
      var rx, ry := rightHand.x + adj[2], rightHand.y + adj[3];
      var lx, ly := leftHand.x + adj[2], leftHand.y + adj[3];
      onFeed := InBox(feed.value, rx, ry) || InBox(feed.value, lx, ly);
    }
  }

  /** Swapping the two wrists never changes the result. */
  lemma SwapHandsInvariant(r: Region, left: Point, right: Point, dx: real, dy: real)
    ensures EitherHandIn(r, left, right, dx, dy) == EitherHandIn(r, right, left, dx, dy)
  {
  }

  /** An undetected (0, 0) wrist is shifted and tested like any other point. */
  lemma SentinelWristCounts(r: Region, other: Point, dx: real, dy: real)
    requires InBox(r, dx, dy)
    ensures EitherHandIn(r, Point(0.0, 0.0), other, dx, dy)
  {
  }

  /**
   * A YES of the exact tri-state test for the left wrist on the stop button
   * implies a true result here, given the same offsets as the adjustment pair.
   */
  lemma ExactYesImpliesEitherHand(region: Region, keypoints: seq<Point>, offsets: map<string, real>)
    requires |keypoints| > Pose.RightWrist
    requires Safety.HandOnButton(Some(region), keypoints, Pose.LeftWrist, offsets, "stop_x", "stop_y", 0.0) == Yes
    ensures EitherHandIn(region, keypoints[Pose.LeftWrist], keypoints[Pose.RightWrist],
                         Safety.OffsetOf(offsets, "stop_x"), Safety.OffsetOf(offsets, "stop_y"))
  {
  }
}
