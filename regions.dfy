/**
 * Detections, boxes and the region extractor.
 *
 * An object detector reports, per frame, a list of labelled integer boxes in
 * xyxy order. The extractor keeps at most one box per requested class name:
 * it starts every requested class at "absent", walks the detections in order
 * and overwrites the entry of a requested class each time one of its
 * detections appears, so the LAST detection of a class wins.
 */
module Regions {

  datatype Option<T> = None | Some(value: T)

  /** One object detection: its class name and its box as (x1, y1, x2, y2). */
  datatype Detection = Detection(name: string, x1: int, y1: int, x2: int, y2: int)

  /** An immutable axis-aligned box; note the field order x_min, x_max, y_min, y_max. */
  datatype Region = Region(x_min: int, x_max: int, y_min: int, y_max: int)

  /** The box of the last detection named `c` in `dets`, or None if there is none. */
  function LastBox(dets: seq<Detection>, c: string): Option<Region>
    decreases |dets|
  {
    if |dets| == 0 then None
    else if dets[|dets| - 1].name == c then
      var d := dets[|dets| - 1];
      Some(Region(d.x1, d.x2, d.y1, d.y2))
    else LastBox(dets[..|dets| - 1], c)
  }

  /** A class is absent exactly when no detection carries its name. */
  lemma {:induction false} LastBoxNoneIff(dets: seq<Detection>, c: string)
    ensures LastBox(dets, c).None? <==> forall i :: 0 <= i < |dets| ==> dets[i].name != c
    decreases |dets|
  {
    if |dets| > 0 {
      var front := dets[..|dets| - 1];
      LastBoxNoneIff(front, c);
      assert forall i :: 0 <= i < |front| ==> front[i] == dets[i];
    }
  }

  /**
   * The entry of a class is a verbatim copy (x_min = x1, x_max = x2,
   * y_min = y1, y_max = y2) of the box of its last detection: any detection
   * of `c` that no later detection of `c` follows determines the result.
   */
  lemma {:induction false} LastDetectionWins(dets: seq<Detection>, c: string, i: nat)
    requires i < |dets| && dets[i].name == c
    requires forall j :: i < j < |dets| ==> dets[j].name != c
    ensures LastBox(dets, c) == Some(Region(dets[i].x1, dets[i].x2, dets[i].y1, dets[i].y2))
    decreases |dets|
  {
    if i < |dets| - 1 {
      var front := dets[..|dets| - 1];
      assert forall j :: 0 <= j < |front| ==> front[j] == dets[j];
      LastDetectionWins(front, c, i);
    }
  }

  /** Appending one detection changes the entry of its own class only. */
  lemma LastBoxAppend(dets: seq<Detection>, d: Detection, c: string)
    ensures LastBox(dets + [d], c) ==
            if d.name == c then Some(Region(d.x1, d.x2, d.y1, d.y2)) else LastBox(dets, c)
  {
    assert (dets + [d])[..|dets|] == dets;
  }

  /**
   * extract_object_regions: a dictionary pre-filled with None for every
   * target class, overwritten entry by entry while walking the detections.
   * Its keys are exactly the targets, and each entry is the last box of that
   * class; detections of other classes neither add nor change an entry.
   */
  method ExtractObjectRegions(dets: seq<Detection>, targets: seq<string>)
    returns (regions: map<string, Option<Region>>)
    ensures regions.Keys == set c | c in targets
    ensures forall c :: c in targets ==> regions[c] == LastBox(dets, c)
  {
    regions := map c | c in targets :: None;
    var i := 0;
    while i < |dets|
      invariant 0 <= i <= |dets|
      invariant regions.Keys == set c | c in targets
      invariant forall c :: c in targets ==> regions[c] == LastBox(dets[..i], c)
    {
      var d := dets[i];
      if d.name in targets {
        regions := regions[d.name := Some(Region(d.x1, d.x2, d.y1, d.y2))];
      }
      assert dets[..i + 1][..i] == dets[..i];
      i := i + 1;
    }
    assert dets[..i] == dets;
  }

  /**
   * The inline scan the older files use instead of the extractor: two region
   * variables, each overwritten whenever a detection of its class appears.
   */
  method ScanStopFeed(dets: seq<Detection>) returns (stop: Option<Region>, feed: Option<Region>)
    ensures stop == LastBox(dets, "stop")
    ensures feed == LastBox(dets, "feed")
  {
    stop, feed := None, None;
    var i := 0;
    while i < |dets|
      invariant 0 <= i <= |dets|
      invariant stop == LastBox(dets[..i], "stop")
      invariant feed == LastBox(dets[..i], "feed")
    {
      var d := dets[i];
      if d.name == "stop" {
        stop := Some(Region(d.x1, d.x2, d.y1, d.y2));
      }
      if d.name == "feed" {
        feed := Some(Region(d.x1, d.x2, d.y1, d.y2));
      }
      assert dets[..i + 1][..i] == dets[..i];
      i := i + 1;
    }
    assert dets[..i] == dets;
  }

  /** Two detections and three targets: the two boxes are stored as given and "knife" stays absent. */
  lemma ExtractExample()
    ensures var dets := [Detection("stop", 10, 10, 20, 20), Detection("feed", 30, 30, 40, 40)];
            LastBox(dets, "stop") == Some(Region(10, 20, 10, 20)) &&
            LastBox(dets, "feed") == Some(Region(30, 40, 30, 40)) &&
            LastBox(dets, "knife") == None
  {
    var dets := [Detection("stop", 10, 10, 20, 20), Detection("feed", 30, 30, 40, 40)];
    assert dets[..1] == [Detection("stop", 10, 10, 20, 20)];
    assert dets[..1][..0] == [];
  }
}
