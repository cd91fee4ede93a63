/**
 * Offset calibration: from one calibration frame, the offset of each button
 * is set to the centre of its box minus the matching wrist (left wrist for
 * "stop", right wrist for "feed"). The offsets dictionary is the caller's own
 * object and is changed in place; absent boxes leave their two entries alone.
 * Comparing the result with the defaults and with the previous offsets only
 * chooses which message is reported.
 */
module Calibration {
  import opened Regions
  import opened Keypoints
  import opened Signals
  import Pose
  import Safety

  /** The process-wide offsets dictionary, shared by reference with its callers. */
  class OffsetTable {
    var values: map<string, real>

    constructor (init: map<string, real>)
      ensures values == init
    {
      values := init;
    }
  }

  /** DEFAULT_OFFSETS of the settings file. */
  const DefaultOffsets: map<string, real> :=
    map["stop_x" := 52.0, "stop_y" := 1.0, "feed_x" := 44.0, "feed_y" := -10.0]

  /** The message a calibration run reports; it never influences the offsets. */
  datatype Message = UsingDefaults | UsingPrevious | Adjusted

  function SelectMessage(after: map<string, real>, before: map<string, real>,
                         defaults: map<string, real>): Message
  {
    if after == defaults then UsingDefaults
    else if after == before then UsingPrevious
    else Adjusted
  }

  /** Python's `(lo + hi) / 2`: true division of the integer sum. */
  function Center(lo: int, hi: int): real {
    (lo + hi) as real / 2.0
  }

  /** Box centre minus wrist, written into the pair of entries `keyX`, `keyY`. */
  function SetPair(m: map<string, real>, box: Region, wrist: Point, keyX: string, keyY: string): map<string, real> {
    m[keyX := Center(box.x_min, box.x_max) - wrist.x][keyY := Center(box.y_min, box.y_max) - wrist.y]
  }

  /** The offsets after calibration, from the previous ones, the two boxes and the two wrists. */
  function Calibrated(before: map<string, real>, stop: Option<Region>, feed: Option<Region>,
                      left: Point, right: Point): map<string, real>
  {
    var afterStop := if stop.Some? then SetPair(before, stop.value, left, "stop_x", "stop_y") else before;
    if feed.Some? then SetPair(afterStop, feed.value, right, "feed_x", "feed_y") else afterStop
  }

  /** What one calibration call leaves in the dictionary. */
  function AfterCalibration(toAdj: bool, before: map<string, real>, keypoints: seq<Point>,
                            detections: seq<Detection>): map<string, real>
    requires toAdj ==> |keypoints| > Pose.RightWrist
  {
    if toAdj then
      Calibrated(before, LastBox(detections, "stop"), LastBox(detections, "feed"),
                 keypoints[Pose.LeftWrist], keypoints[Pose.RightWrist])
    else before
  }

  /**
   * adj_offsets: with `toAdj` false the dictionary is left as it is;
   * otherwise the stop and feed boxes come from the region extractor and the
   * entries are overwritten in place. The same dictionary object is returned.
   */
  method AdjOffsets(toAdj: bool, offsets: OffsetTable, keypoints: seq<Point>, detections: seq<Detection>)
    returns (r: OffsetTable, message: Message)
    requires toAdj ==> |keypoints| > Pose.RightWrist
    modifies offsets
    ensures r == offsets
    ensures offsets.values == AfterCalibration(toAdj, old(offsets.values), keypoints, detections)
    ensures message == SelectMessage(offsets.values, old(offsets.values), DefaultOffsets)
  {
    var oldOffsets := offsets.values;
    if toAdj {
      var leftHand := keypoints[Pose.LeftWrist];
      var rightHand := keypoints[Pose.RightWrist];
      var regions := ExtractObjectRegions(detections, ["stop", "feed"]);
      var stop, feed := regions["stop"], regions["feed"];
      if stop.Some? {
        var x := Center(stop.value.x_min, stop.value.x_max);
        var y := Center(stop.value.y_min, stop.value.y_max);
        offsets.values := offsets.values["stop_x" := x - leftHand.x];
        offsets.values := offsets.values["stop_y" := y - leftHand.y];
      }
      if feed.Some? {
        var x := Center(feed.value.x_min, feed.value.x_max);
        var y := Center(feed.value.y_min, feed.value.y_max);
        offsets.values := offsets.values["feed_x" := x - rightHand.x];
        offsets.values := offsets.values["feed_y" := y - rightHand.y];
      }
    }
    if offsets.values == DefaultOffsets {
      message := UsingDefaults;
    } else if offsets.values == oldOffsets {
      message := UsingPrevious;
    } else {
      message := Adjusted;
    }
    r := offsets;
  }

  // ---------------------------------------------------------------- properties

  /** A stop box sets stop_x / stop_y to its centre minus the left wrist. */
  lemma StopPairIsCentreMinusWrist(before: map<string, real>, stop: Region, feed: Option<Region>,
                                   left: Point, right: Point)
    ensures var m := Calibrated(before, Some(stop), feed, left, right);
            "stop_x" in m && "stop_y" in m &&
            m["stop_x"] == (stop.x_min + stop.x_max) as real / 2.0 - left.x &&
            m["stop_y"] == (stop.y_min + stop.y_max) as real / 2.0 - left.y
  {
  }

  /** A feed box sets feed_x / feed_y to its centre minus the right wrist. */
  lemma FeedPairIsCentreMinusWrist(before: map<string, real>, stop: Option<Region>, feed: Region,
                                   left: Point, right: Point)
    ensures var m := Calibrated(before, stop, Some(feed), left, right);
            "feed_x" in m && "feed_y" in m &&
            m["feed_x"] == (feed.x_min + feed.x_max) as real / 2.0 - right.x &&
            m["feed_y"] == (feed.y_min + feed.y_max) as real / 2.0 - right.y
  {
  }

  /**
   * Nothing else changes: the stop pair is untouched without a stop box, the
   * feed pair without a feed box, and every other key always.
   */
  lemma UntouchedEntries(before: map<string, real>, stop: Option<Region>, feed: Option<Region>,
                         left: Point, right: Point, k: string)
    ensures var m := Calibrated(before, stop, feed, left, right);
            var touched := (if stop.Some? then {"stop_x", "stop_y"} else {}) +
                           (if feed.Some? then {"feed_x", "feed_y"} else {});
            m.Keys == before.Keys + touched &&
            (k !in touched && k in before ==> m[k] == before[k])
  {
  }

  /** Two maps agree on the presence and the values of the entries `keyX` and `keyY`. */
  predicate SamePair(m1: map<string, real>, m2: map<string, real>, keyX: string, keyY: string) {
    (keyX in m1 <==> keyX in m2) && (keyX in m1 ==> m1[keyX] == m2[keyX]) &&
    (keyY in m1 <==> keyY in m2) && (keyY in m1 ==> m1[keyY] == m2[keyY])
  }

  /**
   * The stop pair does not depend on the feed box or the right wrist, and the
   * feed pair does not depend on the stop box or the left wrist.
   */
  lemma PairsAreIndependent(before: map<string, real>, stop1: Option<Region>, stop2: Option<Region>,
                            feed1: Option<Region>, feed2: Option<Region>,
                            left1: Point, left2: Point, right1: Point, right2: Point)
    ensures SamePair(Calibrated(before, stop1, feed1, left1, right1),
                     Calibrated(before, stop1, feed2, left1, right2), "stop_x", "stop_y")
    ensures SamePair(Calibrated(before, stop1, feed1, left1, right1),
                     Calibrated(before, stop2, feed1, left2, right1), "feed_x", "feed_y")
  {
  }

  /** Without either box, calibration is the identity. */
  lemma NoBoxesNoChange(before: map<string, real>, left: Point, right: Point)
    ensures Calibrated(before, None, None, left, right) == before
  {
  }

  /**
   * Neither wrist is checked for the (0, 0) sentinel: an undetected wrist
   * yields the bare centre of its button's box in both entries of the pair.
   */
  lemma UndetectedWristGivesCentre(before: map<string, real>, stop: Option<Region>, feed: Option<Region>,
                                   left: Point, right: Point)
    ensures var m := Calibrated(before, stop, feed, left, right);
            left == Point(0.0, 0.0) && stop.Some? ==>
              m["stop_x"] == Center(stop.value.x_min, stop.value.x_max) &&
              m["stop_y"] == Center(stop.value.y_min, stop.value.y_max)
    ensures var m := Calibrated(before, stop, feed, left, right);
            right == Point(0.0, 0.0) && feed.Some? ==>
              m["feed_x"] == Center(feed.value.x_min, feed.value.x_max) &&
              m["feed_y"] == Center(feed.value.y_min, feed.value.y_max)
  {
  }

  /** With `toAdj` false the dictionary is unchanged, so the message is never "adjusted". */
  lemma NoAdjustNoChange(before: map<string, real>, keypoints: seq<Point>, detections: seq<Detection>)
    ensures AfterCalibration(false, before, keypoints, detections) == before
    ensures SelectMessage(AfterCalibration(false, before, keypoints, detections), before, DefaultOffsets) != Adjusted
  {
  }

  /**
   * Calibration round trip: right after calibrating on a frame whose stop box
   * is well formed, the hand test on that same frame finds the left wrist on
   * the stop button, for every non-negative margin, since the shifted wrist
   * is exactly the box centre.
   */
  lemma {:induction false} CalibrationPutsWristOnStop(before: map<string, real>, keypoints: seq<Point>,
                                                      detections: seq<Detection>, margin: real)
    requires |keypoints| > Pose.RightWrist
    requires LastBox(detections, "stop").Some?
    requires var b := LastBox(detections, "stop").value; b.x_min <= b.x_max && b.y_min <= b.y_max
    requires keypoints[Pose.LeftWrist].x + keypoints[Pose.LeftWrist].y != 0.0
    requires margin >= 0.0
    ensures Safety.HandOnButton(LastBox(detections, "stop"), keypoints, Pose.LeftWrist,
                                AfterCalibration(true, before, keypoints, detections),
                                "stop_x", "stop_y", margin) == Yes
  {
    var m := AfterCalibration(true, before, keypoints, detections);
    var b := LastBox(detections, "stop").value;
    var w := keypoints[Pose.LeftWrist];
    StopPairIsCentreMinusWrist(before, b, LastBox(detections, "feed"), w, keypoints[Pose.RightWrist]);
    assert Safety.OffsetOf(m, "stop_x") == Center(b.x_min, b.x_max) - w.x;
    assert Safety.OffsetOf(m, "stop_y") == Center(b.y_min, b.y_max) - w.y;
    assert Safety.InWidened(b, Center(b.x_min, b.x_max), Center(b.y_min, b.y_max), margin);
  }

  /** The same round trip for the feed button and the right wrist. */
  lemma {:induction false} CalibrationPutsWristOnFeed(before: map<string, real>, keypoints: seq<Point>,
                                                      detections: seq<Detection>, margin: real)
    requires |keypoints| > Pose.RightWrist
    requires LastBox(detections, "feed").Some?
    requires var b := LastBox(detections, "feed").value; b.x_min <= b.x_max && b.y_min <= b.y_max
    requires keypoints[Pose.RightWrist].x + keypoints[Pose.RightWrist].y != 0.0
    requires margin >= 0.0
    ensures Safety.HandOnButton(LastBox(detections, "feed"), keypoints, Pose.RightWrist,
                                AfterCalibration(true, before, keypoints, detections),
                                "feed_x", "feed_y", margin) == Yes
  {
    var m := AfterCalibration(true, before, keypoints, detections);
    var b := LastBox(detections, "feed").value;
    var w := keypoints[Pose.RightWrist];
    FeedPairIsCentreMinusWrist(before, LastBox(detections, "stop"), b, keypoints[Pose.LeftWrist], w);
    assert Safety.OffsetOf(m, "feed_x") == Center(b.x_min, b.x_max) - w.x;
    assert Safety.OffsetOf(m, "feed_y") == Center(b.y_min, b.y_max) - w.y;
    assert Safety.InWidened(b, Center(b.x_min, b.x_max), Center(b.y_min, b.y_max), margin);
  }

  /**
   * Why the round trips need their hypotheses: calibration checks neither the
   * wrist nor the box order. After calibrating, a (0, 0) left wrist makes the
   * stop test undetected, and an inverted stop box (x1 > x2) makes it fail.
   */
  lemma RoundTripLimits(before: map<string, real>, detections: seq<Detection>)
    requires LastBox(detections, "stop").Some?
    ensures var kps := seq(11, i => Point(0.0, 0.0));
            Safety.HandOnButton(LastBox(detections, "stop"), kps, Pose.LeftWrist,
                                AfterCalibration(true, before, kps, detections), "stop_x", "stop_y", 0.0) == Undetected
    ensures var kps := seq(11, i => if i == Pose.LeftWrist then Point(1.0, 1.0) else Point(0.0, 0.0));
            var dets := [Detection("stop", 20, 10, 10, 20)];
            Safety.HandOnButton(LastBox(dets, "stop"), kps, Pose.LeftWrist,
                                AfterCalibration(true, before, kps, dets), "stop_x", "stop_y", 0.0) == No
  {
    var dets := [Detection("stop", 20, 10, 10, 20)];
    assert LastBox(dets, "stop") == Some(Region(20, 10, 10, 20));
  }
}
