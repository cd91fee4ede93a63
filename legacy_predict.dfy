/**
 * The older per-image evaluator and the multi-image aggregation that folds
 * its results. The hand test here has no tolerance margin, the region
 * variables are filled by an inline scan, and only the first pose result and
 * the first object result are read.
 *
 * The fold combines running and per-image values with Python's `and` and
 * `or`. SafeState members define no truth value of their own, so every member
 * is truthy: `a and b` yields `b` and `a or b` yields `a`. The hand fields
 * therefore keep the LAST detected value and the collision field the FIRST.
 */
module LegacyPredict {
  import opened Regions
  import opened Keypoints
  import opened Signals
  import Pose
  import Safety

  /** The hand test without tolerance: inclusive containment in the box itself (a zero margin). */
  function ExactHandOnButton(region: Option<Region>, kps: seq<Point>, wrist: nat,
                             offsets: map<string, real>, keyX: string, keyY: string): SafeState
    requires |kps| == 0 || wrist < |kps|
  {
    if region.None? || |kps| == 0 then Undetected
    else if kps[wrist].x + kps[wrist].y == 0.0 then Undetected
    else
      var x := kps[wrist].x + Safety.OffsetOf(offsets, keyX);
      var y := kps[wrist].y + Safety.OffsetOf(offsets, keyY);
      if Safety.InWidened(region.value, x, y, 0.0) then Yes else No
  }

  /** The older test is the current one with a zero margin. */
  lemma ExactIsZeroMargin(region: Option<Region>, kps: seq<Point>, wrist: nat,
                          offsets: map<string, real>, keyX: string, keyY: string)
    requires |kps| == 0 || wrist < |kps|
    ensures ExactHandOnButton(region, kps, wrist, offsets, keyX, keyY) ==
            Safety.HandOnButton(region, kps, wrist, offsets, keyX, keyY, 0.0)
  {
  }

  /** A positive margin accepts every hand the exact test accepts. */
  lemma MarginExtendsExact(region: Option<Region>, kps: seq<Point>, wrist: nat,
                           offsets: map<string, real>, keyX: string, keyY: string, margin: real)
    requires |kps| == 0 || wrist < |kps|
    requires margin >= 0.0
    ensures ExactHandOnButton(region, kps, wrist, offsets, keyX, keyY) == Yes ==>
            Safety.HandOnButton(region, kps, wrist, offsets, keyX, keyY, margin) == Yes
  {
    ExactIsZeroMargin(region, kps, wrist, offsets, keyX, keyY);
    Safety.MarginMonotone(region, kps, wrist, offsets, keyX, keyY, 0.0, margin);
  }

  /** The three verdicts of one image. */
  datatype Verdicts = Verdicts(onStop: SafeState, onFeed: SafeState, collided: SafeState)

  /** Keypoints of a found person reach the right wrist. */
  predicate PersonShape(kps: seq<Point>) {
    |kps| == 0 || |kps| > Pose.RightWrist
  }

  function ImageVerdicts(kps: seq<Point>, dets: seq<Detection>, offsets: map<string, real>): Verdicts
    requires PersonShape(kps)
  {
    Verdicts(
      ExactHandOnButton(LastBox(dets, "stop"), kps, Pose.LeftWrist, offsets, "stop_x", "stop_y"),
      ExactHandOnButton(LastBox(dets, "feed"), kps, Pose.RightWrist, offsets, "feed_x", "feed_y"),
      Safety.KnifeBaseCollision(LastBox(dets, "knife"), LastBox(dets, "base")))
  }

  /** The inline scan of this file: four region variables, each keeping its class's last box. */
  method ScanFourClasses(dets: seq<Detection>)
    returns (stop: Option<Region>, feed: Option<Region>, knife: Option<Region>, base: Option<Region>)
    ensures stop == LastBox(dets, "stop") && feed == LastBox(dets, "feed")
    ensures knife == LastBox(dets, "knife") && base == LastBox(dets, "base")
  {
    stop, feed, knife, base := None, None, None, None;
    var i := 0;
    while i < |dets|
      invariant 0 <= i <= |dets|
      invariant stop == LastBox(dets[..i], "stop") && feed == LastBox(dets[..i], "feed")
      invariant knife == LastBox(dets[..i], "knife") && base == LastBox(dets[..i], "base")
    {
      var d := dets[i];
      var box := Region(d.x1, d.x2, d.y1, d.y2);
      if d.name == "stop" {
        stop := Some(box);
      }
      if d.name == "feed" {
        feed := Some(box);
      }
      if d.name == "knife" {
        knife := Some(box);
      }
      if d.name == "base" {
        base := Some(box);
      }
      assert dets[..i + 1][..i] == dets[..i];
      i := i + 1;
    }
    assert dets[..i] == dets;
  }

  /** One hand block: undetected unless a region, a person and a non-sentinel wrist exist. */
  method CheckHandExact(region: Option<Region>, kps: seq<Point>, wrist: nat,
                        offsets: map<string, real>, keyX: string, keyY: string)
    returns (r: SafeState)
    requires |kps| == 0 || wrist < |kps|
    ensures r == ExactHandOnButton(region, kps, wrist, offsets, keyX, keyY)
  {
    r := Undetected;
    var person := |kps| > 0;
    if region.Some? && person {
      var hand := kps[wrist];
      if hand.x + hand.y == 0.0 {
        r := Undetected;
      } else {
        var x := hand.x + Safety.OffsetOf(offsets, keyX);
        var y := hand.y + Safety.OffsetOf(offsets, keyY);
        r := if Safety.InWidened(region.value, x, y, 0.0) then Yes else No;
      }
    }
  }

  /** predict_safe (older): reads the first pose result and the first object result only. */
  method PredictSafe(poseResults: seq<seq<Point>>, objectResults: seq<seq<Detection>>,
                     offsets: map<string, real>) returns (v: Verdicts)
    requires |poseResults| >= 1 && |objectResults| >= 1
    requires PersonShape(poseResults[0])
    ensures v == ImageVerdicts(poseResults[0], objectResults[0], offsets)
  {
    var kps := poseResults[0];
    var stop, feed, knife, base := ScanFourClasses(objectResults[0]);
    var onStop := CheckHandExact(stop, kps, Pose.LeftWrist, offsets, "stop_x", "stop_y");
    var onFeed := CheckHandExact(feed, kps, Pose.RightWrist, offsets, "feed_x", "feed_y");
    var collided := Safety.CheckCollision(Undetected, knife, base);
    v := Verdicts(onStop, onFeed, collided);
  }

  // ------------------------------------------------------ multi-image folding

  /** Python truthiness of a SafeState member: no member defines one, so all are true. */
  predicate Truthy(s: SafeState) {
    true
  }

  /** Python's `a and b`. */
  function PyAnd(a: SafeState, b: SafeState): SafeState {
    if Truthy(a) then b else a
  }

  /** Python's `a or b`. */
  function PyOr(a: SafeState, b: SafeState): SafeState {
    if Truthy(a) then a else b
  }

  /** One hand-field update of predict_multiple. */
  function CombineHand(acc: SafeState, x: SafeState): SafeState {
    if x == Undetected then acc else if acc == Undetected then x else PyAnd(acc, x)
  }

  /** The collision-field update of predict_multiple. */
  function CombineCollision(acc: SafeState, x: SafeState): SafeState {
    if x == Undetected then acc else if acc == Undetected then x else PyOr(acc, x)
  }

  /** The hand aggregate after the values `s`, in loop order. */
  function HandFold(s: seq<SafeState>): SafeState
    decreases |s|
  {
    if |s| == 0 then Undetected else CombineHand(HandFold(s[..|s| - 1]), s[|s| - 1])
  }

  /** The collision aggregate after the values `s`, in loop order. */
  function CollisionFold(s: seq<SafeState>): SafeState
    decreases |s|
  {
    if |s| == 0 then Undetected else CombineCollision(CollisionFold(s[..|s| - 1]), s[|s| - 1])
  }

  /** Independent reference: the last detected value, or Undetected. */
  function LastDetected(s: seq<SafeState>): SafeState
    decreases |s|
  {
    if |s| == 0 then Undetected
    else if s[|s| - 1] != Undetected then s[|s| - 1]
    else LastDetected(s[..|s| - 1])
  }

  /** Independent reference: the first detected value, or Undetected. */
  function FirstDetected(s: seq<SafeState>): SafeState
    decreases |s|
  {
    if |s| == 0 then Undetected
    else if s[0] != Undetected then s[0]
    else FirstDetected(s[1..])
  }

  /** The hand fold keeps the last detected value. */
  lemma {:induction false} HandFoldIsLastDetected(s: seq<SafeState>)
    ensures HandFold(s) == LastDetected(s)
    decreases |s|
  {
    if |s| > 0 {
      HandFoldIsLastDetected(s[..|s| - 1]);
    }
  }

  lemma {:induction false} FirstDetectedAppend(s: seq<SafeState>, x: SafeState)
    ensures FirstDetected(s + [x]) ==
            if FirstDetected(s) != Undetected then FirstDetected(s) else x
    decreases |s|
  {
    if |s| > 0 {
      assert (s + [x])[1..] == s[1..] + [x];
      FirstDetectedAppend(s[1..], x);
    }
  }

  /** The collision fold keeps the first detected value. */
  lemma {:induction false} CollisionFoldIsFirstDetected(s: seq<SafeState>)
    ensures CollisionFold(s) == FirstDetected(s)
    decreases |s|
  {
    if |s| > 0 {
      var front := s[..|s| - 1];
      CollisionFoldIsFirstDetected(front);
      FirstDetectedAppend(front, s[|s| - 1]);
      assert front + [s[|s| - 1]] == s;
    }
  }

  /** LastDetected is undetected exactly when every value is; otherwise it is a later-unfollowed detected value. */
  lemma {:induction false} LastDetectedSpec(s: seq<SafeState>)
    ensures LastDetected(s) == Undetected <==> forall i :: 0 <= i < |s| ==> s[i] == Undetected
    ensures LastDetected(s) != Undetected ==>
              exists i :: 0 <= i < |s| && s[i] == LastDetected(s) &&
                          forall j :: i < j < |s| ==> s[j] == Undetected
    decreases |s|
  {
    if |s| > 0 {
      var front := s[..|s| - 1];
      LastDetectedSpec(front);
      assert forall i :: 0 <= i < |front| ==> front[i] == s[i];
      if s[|s| - 1] != Undetected {
        assert s[|s| - 1] == LastDetected(s);
      } else if LastDetected(front) != Undetected {
        var i :| 0 <= i < |front| && front[i] == LastDetected(front) &&
                 forall j :: i < j < |front| ==> front[j] == Undetected;
        assert s[i] == LastDetected(s);
      }
    }
  }

  /** FirstDetected is undetected exactly when every value is; otherwise it is an earlier-unpreceded detected value. */
  lemma {:induction false} FirstDetectedSpec(s: seq<SafeState>)
    ensures FirstDetected(s) == Undetected <==> forall i :: 0 <= i < |s| ==> s[i] == Undetected
    ensures FirstDetected(s) != Undetected ==>
              exists i :: 0 <= i < |s| && s[i] == FirstDetected(s) &&
                          forall j :: 0 <= j < i ==> s[j] == Undetected
    decreases |s|
  {
    if |s| > 0 {
      var rest := s[1..];
      FirstDetectedSpec(rest);
      assert forall i :: 0 <= i < |rest| ==> rest[i] == s[i + 1];
      if s[0] == Undetected && FirstDetected(rest) != Undetected {
        var i :| 0 <= i < |rest| && rest[i] == FirstDetected(rest) &&
                 forall j :: 0 <= j < i ==> rest[j] == Undetected;
        assert s[i + 1] == FirstDetected(s);
        assert forall j :: 0 <= j < i + 1 ==> s[j] == Undetected by {
          forall j | 0 <= j < i + 1 ensures s[j] == Undetected {
            if j > 0 { assert s[j] == rest[j - 1]; }
          }
        }
      }
    }
  }

  /** Aggregating a single image returns that image's values unchanged. */
  lemma SingleImageIdentity(x: SafeState)
    ensures HandFold([x]) == x && CollisionFold([x]) == x
  {
    assert [x][..0] == [];
  }

  /** An image (detector output for one picture) as predict_multiple receives it. */
  datatype Image = Image(keypoints: seq<Point>, detections: seq<Detection>)

  predicate AllPersonShape(images: seq<Image>) {
    forall i :: 0 <= i < |images| ==> PersonShape(images[i].keypoints)
  }

  function AllVerdicts(images: seq<Image>, offsets: map<string, real>): (vs: seq<Verdicts>)
    requires AllPersonShape(images)
    ensures |vs| == |images|
  {
    seq(|images|, i requires 0 <= i < |images| =>
      ImageVerdicts(images[i].keypoints, images[i].detections, offsets))
  }

  function Stops(vs: seq<Verdicts>): seq<SafeState> {
    seq(|vs|, i requires 0 <= i < |vs| => vs[i].onStop)
  }

  function Feeds(vs: seq<Verdicts>): seq<SafeState> {
    seq(|vs|, i requires 0 <= i < |vs| => vs[i].onFeed)
  }

  function Collisions(vs: seq<Verdicts>): seq<SafeState> {
    seq(|vs|, i requires 0 <= i < |vs| => vs[i].collided)
  }

  /** One loop step of either fold consumes the next value. */
  lemma FoldSteps(s: seq<SafeState>, i: nat)
    requires i < |s|
    ensures HandFold(s[..i + 1]) == CombineHand(HandFold(s[..i]), s[i])
    ensures CollisionFold(s[..i + 1]) == CombineCollision(CollisionFold(s[..i]), s[i])
  {
    assert s[..i + 1][..i] == s[..i];
  }

  /** The hand-field update of one predict_multiple iteration. */
  method UpdateHand(acc: SafeState, x: SafeState) returns (r: SafeState)
    ensures r == CombineHand(acc, x)
  {
    r := acc;
    if x != Undetected {
      if acc == Undetected {
        r := x;
      } else {
        r := PyAnd(acc, x);
      }
    }
  }

  /** The collision-field update of one predict_multiple iteration. */
  method UpdateCollision(acc: SafeState, x: SafeState) returns (r: SafeState)
    ensures r == CombineCollision(acc, x)
  {
    r := acc;
    if x != Undetected {
      if acc == Undetected {
        r := x;
      } else {
        r := PyOr(acc, x);
      }
    }
  }

  /**
   * predict_multiple: evaluates every image and folds the three fields; the
   * hand fields end as the last detected per-image value and the collision
   * field as the first.
   */
  method PredictMultiple(images: seq<Image>, offsets: map<string, real>)
    returns (onStop: SafeState, onFeed: SafeState, collided: SafeState)
    requires AllPersonShape(images)
    ensures onStop == LastDetected(Stops(AllVerdicts(images, offsets)))
    ensures onFeed == LastDetected(Feeds(AllVerdicts(images, offsets)))
    ensures collided == FirstDetected(Collisions(AllVerdicts(images, offsets)))
  {
    ghost var vs := AllVerdicts(images, offsets);
    onStop, onFeed, collided := Undetected, Undetected, Undetected;
    var i := 0;
    while i < |images|
      invariant 0 <= i <= |images|
      invariant onStop == HandFold(Stops(vs)[..i])
      invariant onFeed == HandFold(Feeds(vs)[..i])
      invariant collided == CollisionFold(Collisions(vs)[..i])
    {
      var v := PredictSafe([images[i].keypoints], [images[i].detections], offsets);
      assert v == vs[i];
      FoldSteps(Stops(vs), i);
      FoldSteps(Feeds(vs), i);
      FoldSteps(Collisions(vs), i);
      onStop := UpdateHand(onStop, v.onStop);
      onFeed := UpdateHand(onFeed, v.onFeed);
      collided := UpdateCollision(collided, v.collided);
      i := i + 1;
    }
    assert Stops(vs)[..i] == Stops(vs);
    assert Feeds(vs)[..i] == Feeds(vs);
    assert Collisions(vs)[..i] == Collisions(vs);
    HandFoldIsLastDetected(Stops(vs));
    HandFoldIsLastDetected(Feeds(vs));
    CollisionFoldIsFirstDetected(Collisions(vs));
  }

  // -------------------------------------- what the combination was meant to be

  /** The evidently intended hand aggregate: Undetected is the identity, detected values are ANDed. */
  function AndHand(s: seq<SafeState>): SafeState
    decreases |s|
  {
    if |s| == 0 then Undetected
    else
      var acc, x := AndHand(s[..|s| - 1]), s[|s| - 1];
      if x == Undetected then acc
      else if acc == Undetected then x
      else if acc == Yes && x == Yes then Yes else No
  }

  /** The evidently intended collision aggregate: Undetected is the identity, detected values are ORed. */
  function OrCollision(s: seq<SafeState>): SafeState
    decreases |s|
  {
    if |s| == 0 then Undetected
    else
      var acc, x := OrCollision(s[..|s| - 1]), s[|s| - 1];
      if x == Undetected then acc
      else if acc == Undetected then x
      else if acc == Yes || x == Yes then Yes else No
  }

  /** AndHand is YES iff some value is YES and none is NO, and NO iff some value is NO. */
  lemma {:induction false} AndHandIsConjunction(s: seq<SafeState>)
    ensures AndHand(s) == Yes <==> (exists i :: 0 <= i < |s| && s[i] == Yes) && (forall i :: 0 <= i < |s| ==> s[i] != No)
    ensures AndHand(s) == No <==> exists i :: 0 <= i < |s| && s[i] == No
    decreases |s|
  {
    if |s| > 0 {
      var front := s[..|s| - 1];
      AndHandIsConjunction(front);
      assert forall i :: 0 <= i < |front| ==> front[i] == s[i];
      assert forall i :: 0 <= i < |s| ==> i == |s| - 1 || s[i] == front[i];
    }
  }

  /** OrCollision is YES iff some value is YES, and NO iff some value is NO and none is YES. */
  lemma {:induction false} OrCollisionIsDisjunction(s: seq<SafeState>)
    ensures OrCollision(s) == Yes <==> exists i :: 0 <= i < |s| && s[i] == Yes
    ensures OrCollision(s) == No <==> (exists i :: 0 <= i < |s| && s[i] == No) && (forall i :: 0 <= i < |s| ==> s[i] != Yes)
    decreases |s|
  {
    if |s| > 0 {
      var front := s[..|s| - 1];
      OrCollisionIsDisjunction(front);
      assert forall i :: 0 <= i < |front| ==> front[i] == s[i];
      assert forall i :: 0 <= i < |s| ==> i == |s| - 1 || s[i] == front[i];
    }
  }

  /** As written, a NO seen by an earlier camera is forgotten once a later camera sees YES. */
  lemma HandFoldForgetsEarlierNo()
    ensures HandFold([No, Yes]) == Yes
    ensures AndHand([No, Yes]) == No
  {
    assert [No, Yes][..1] == [No];
    assert [No, Yes][..1][..0] == [];
  }

  /** As written, a YES seen by a later camera is ignored after an earlier NO. */
  lemma CollisionFoldIgnoresLaterYes()
    ensures CollisionFold([No, Yes]) == No
    ensures OrCollision([No, Yes]) == Yes
  {
    assert [No, Yes][..1] == [No];
    assert [No, Yes][..1][..0] == [];
  }

  /** Three images: [UNDETECTED, YES, YES] gives YES and [UNDETECTED, YES, NO] gives NO under AND; the fold as written also gives NO on the latter. */
  lemma AggregationExamples()
    ensures AndHand([Undetected, Yes, Yes]) == Yes && AndHand([Undetected, Yes, No]) == No
    ensures HandFold([Undetected, Yes, No]) == No
  {
    AndHandIsConjunction([Undetected, Yes, Yes]);
    AndHandIsConjunction([Undetected, Yes, No]);
    HandFoldIsLastDetected([Undetected, Yes, No]);
  }
}
