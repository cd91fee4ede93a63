/**
 * The two older calibration routines. Both find the stop and feed boxes with
 * an inline scan instead of the region extractor and compare against a
 * hard-coded default that differs from the settings file's; the earliest one
 * keeps no copy of the previous offsets and so has no "previous" message.
 * Their effect on the dictionary is the same as the current routine's.
 */
module LegacyCalibration {
  import opened Regions
  import opened Keypoints
  import Pose
  import opened Calibration

  /** The defaults both older routines compare against. */
  const HardCodedDefaults: map<string, real> :=
    map["stop_x" := 52.0, "stop_y" := 0.0, "feed_x" := 45.0, "feed_y" := -20.0]

  /** The in-place writes shared by the two older routines, after their inline scan. */
  method WritePairs(offsets: OffsetTable, keypoints: seq<Point>, detections: seq<Detection>)
    requires |keypoints| > Pose.RightWrist
    modifies offsets
    ensures offsets.values == AfterCalibration(true, old(offsets.values), keypoints, detections)
  {
    var leftHand := keypoints[Pose.LeftWrist];
    var rightHand := keypoints[Pose.RightWrist];
    var stop, feed := ScanStopFeed(detections);
    if stop.Some? {
      var x := Center(stop.value.x_min, stop.value.x_max);
      var y := Center(stop.value.y_min, stop.value.y_max);
      offsets.values := offsets.values["stop_x" := x - leftHand.x];
      offsets.values := offsets.values["stop_y" := y - leftHand.y];
    }
    if feed.Some? {
      var x := Center(feed.value.x_min, feed.value.x_max);
      var y := Center(feed.value.y_min, feed.value.y_max);
      offsets.values := offsets.values["feed_x" := x - rightHand.x];
      offsets.values := offsets.values["feed_y" := y - rightHand.y];
    }
  }

  /** adj_offsets of the package's utilities: defaults, previous or adjusted message. */
  method AdjOffsetsInline(toAdj: bool, offsets: OffsetTable, keypoints: seq<Point>, detections: seq<Detection>)
    returns (r: OffsetTable, message: Message)
    requires toAdj ==> |keypoints| > Pose.RightWrist
    modifies offsets
    ensures r == offsets
    ensures offsets.values == AfterCalibration(toAdj, old(offsets.values), keypoints, detections)
    ensures message == SelectMessage(offsets.values, old(offsets.values), HardCodedDefaults)
  {
    var oldOffsets := offsets.values;
    if toAdj {
      WritePairs(offsets, keypoints, detections);
    }
    if offsets.values == HardCodedDefaults {
      message := UsingDefaults;
    } else if offsets.values == oldOffsets {
      message := UsingPrevious;
    } else {
      message := Adjusted;
    }
    r := offsets;
  }

  /** The message of the earliest routine: only "using defaults" or "adjusted". */
  function EarliestMessage(after: map<string, real>): Message {
    if after == HardCodedDefaults then UsingDefaults else Adjusted
  }

  /** adj_offsets of the earliest utilities: only a defaults or an adjusted message. */
  method AdjOffsetsEarliest(toAdj: bool, offsets: OffsetTable, keypoints: seq<Point>, detections: seq<Detection>)
    returns (r: OffsetTable, message: Message)
    requires toAdj ==> |keypoints| > Pose.RightWrist
    modifies offsets
    ensures r == offsets
    ensures offsets.values == AfterCalibration(toAdj, old(offsets.values), keypoints, detections)
    ensures message == EarliestMessage(offsets.values)
  {
    if toAdj {
      WritePairs(offsets, keypoints, detections);
    }
    if offsets.values == HardCodedDefaults {
      message := UsingDefaults;
    } else {
      message := Adjusted;
    }
    r := offsets;
  }

  /**
   * The hard-coded defaults are not the settings file's, so the package's
   * older routine and the current one report differently on the same call:
   * handed the hard-coded defaults with `toAdj` false, the older routine
   * reports "using defaults" while the current one reports "using previous";
   * handed the settings defaults, it is the other way round.
   */
  lemma DefaultsReportDiffer(keypoints: seq<Point>, detections: seq<Detection>)
    ensures var after := AfterCalibration(false, HardCodedDefaults, keypoints, detections);
            SelectMessage(after, HardCodedDefaults, HardCodedDefaults) == UsingDefaults &&
            SelectMessage(after, HardCodedDefaults, DefaultOffsets) == UsingPrevious
    ensures var after := AfterCalibration(false, DefaultOffsets, keypoints, detections);
            SelectMessage(after, DefaultOffsets, HardCodedDefaults) == UsingPrevious &&
            SelectMessage(after, DefaultOffsets, DefaultOffsets) == UsingDefaults
  {
    assert HardCodedDefaults["stop_y"] != DefaultOffsets["stop_y"];
  }

  /**
   * The earliest routine has no "previous" branch: unchanged offsets that are
   * not its hard-coded defaults (the settings defaults, say) are reported as
   * adjusted.
   */
  lemma EarliestReportsUnchangedAsAdjusted(before: map<string, real>, keypoints: seq<Point>,
                                           detections: seq<Detection>)
    requires before != HardCodedDefaults
    ensures EarliestMessage(AfterCalibration(false, before, keypoints, detections)) == Adjusted
    ensures EarliestMessage(AfterCalibration(false, DefaultOffsets, keypoints, detections)) == Adjusted
  {
    assert HardCodedDefaults["stop_y"] != DefaultOffsets["stop_y"];
  }
}
