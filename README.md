# PMC 5-axis YOLO safety monitor — decision core in Dafny

This project models the decision logic of a camera-based safety monitor for a
five-axis machine tool. A pose detector and an object detector produce, per
frame, body keypoints and labelled boxes ("stop", "feed", "knife", "base").
The core turns them into tri-state safety signals (`SafeState`: YES, NO,
UNDETECTED) and a posture label (`PoseState`):
whether the left wrist is on the stop button and the right wrist on the feed
button, whether the knife has reached the base, and whether the operator
stands, stretches or bends an arm, or lies down. A one-frame
calibration sets the wrist-to-button offsets. Older copies of the button
test, the calibration and the prediction are modelled beside the current
ones, as is the older code's multi-image aggregation. The current code has
no multi-image aggregation of its own: its version is commented out.

Modules, one per component of the source:

- `Regions` (regions.dfy): detections, the immutable `Region` box, the region
  extractor `ExtractObjectRegions` (a loop overwriting map entries), and the
  inline stop/feed scan that the three older files repeat.
- `Keypoints` (keypoints.dfy): the 2D keypoint `Point`, with (0, 0) as the
  pose detector's "not detected" sentinel.
- `Signals` (signals.dfy): `SafeState` and `PoseState`. Both prediction files
  declare the same `SafeState`, so it is declared once here.
- `Pose` (pose.dfy): the settings' thresholds, the paired-joint average and
  the first-match posture classifier `ClassifyPose`.
- `Safety` (safety.dfy): the current `predict_safe`, modelled as a
  `Behavior` datatype filled by a loop over the zipped camera results. It
  covers the hand test with a tolerance `margin` (that is, `BUTTON_THRESHOLD`,
  which the settings file does not define, so it is a parameter), the
  knife/base test, and role gating by camera index.
- `LegacyPredict` (legacy_predict.dfy): the older `predict_safe` with no
  tolerance, and `predict_multiple`'s fold. The fold keeps Python's real
  `and`/`or` semantics on always-truthy enum members.
- `Calibration` (calibration.dfy): the offsets dictionary as a class
  `OffsetTable` whose `values` map is changed in place. It holds the current
  `adj_offsets` and the round trip with the hand test.
- `LegacyCalibration` (legacy_calibration.dfy): the two older `adj_offsets`.
- `LegacyButton` (legacy_button.dfy): the earliest either-hand boolean test.

Inputs: a detection is `(name, x1, y1, x2, y2)` with integer coordinates.
Keypoints are `seq<Point>` over `real`, and an empty sequence means no
person. The two elbow angles are `real` inputs. Offsets are a
`map<string, real>`, and a missing key reads as 0.

Points where the code behaves differently from what a reader might expect:

- Multi-image aggregation. `and`/`or` on YES/NO values reads as logical
  AND/OR. But `SafeState` members are always truthy, so `a and b` returns
  `b` and `a or b` returns `a`. The hand fields therefore keep the last
  detected value and the collision field the first one; see Findings.
- Undetected wrist. The test is `x + y == 0`, not `(x, y) == (0, 0)`, so a
  detected wrist whose coordinates cancel also counts as undetected.
- Calibration failures. Calibration never checks a wrist against (0, 0),
  and an empty keypoint set makes its indexing fail. The model therefore
  requires at least 11 keypoints when calibrating.
- Posture. The classifier takes two elbow angles, and the straight elbow and
  the raised wrist may belong to different arms.
- Multi-image posture. Only commented-out code aggregates postures, so that
  is not modelled.

## Model

| member | source | states |
|---|---|---|
| Regions.ExtractObjectRegions | pmc_5axis_yolo/utils/utils.py:38-58 | the result's keys are exactly the target classes and each entry is the last box of its class (None when absent); detections of other classes create or change nothing |
| Regions.LastBoxNoneIff | pmc_5axis_yolo/utils/utils.py:42-56 | a class maps to None exactly when no detection carries its name |
| Regions.LastDetectionWins | pmc_5axis_yolo/utils/utils.py:44-56 | with several detections of a class the last one wins, stored verbatim as x_min=x1, x_max=x2, y_min=y1, y_max=y2 |
| Regions.LastBoxAppend | pmc_5axis_yolo/utils/utils.py:55-56 | appending one detection changes only its own class's entry |
| Regions.ScanStopFeed | utils/predict.py:36-52 | the inline scan (also in the two older calibration routines) keeps the last stop and the last feed box |
| Regions.ExtractExample | pmc_5axis_yolo/utils/utils.py:42-56 | stop (10,10,20,20) and feed (30,30,40,40) are stored as given; knife stays absent |
| Pose.ClassifyPose | pmc_5axis_yolo/tasks/predict.py:48-102 | no contract of its own: the first-match chain LIE, ARM_STRETCH, ARM_BEND, STAND, UNKNOWN is specified by Pose.LieBeatsStand, Pose.StandMeansUpright, Pose.StretchNeedsAngleAndRaisedWrist, Pose.BendNeedsRaisedWristWithoutStretch, Pose.StretchMixesArms, Pose.MissingHipWithWrist and Pose.NothingDetectedIsUnknown |
| Pose.PairAverage | pmc_5axis_yolo/tasks/predict.py:61-73 | the mean when both y values are non-zero, else the non-zero one, else 0; the mean lies between the two; for non-negative inputs 0 means both absent |
| Pose.LieBeatsStand | pmc_5axis_yolo/tasks/predict.py:82-100 | keypoints meeting both the LIE and the STAND condition give LIE (first match wins) |
| Pose.StandMeansUpright | pmc_5axis_yolo/tasks/predict.py:82-100 | STAND implies hip below shoulder and knee below hip with both gaps at least LIE_THRESHOLD, and no detected wrist more than ARM_BEND_THRESHOLD above the hip |
| Pose.StretchNeedsAngleAndRaisedWrist | pmc_5axis_yolo/tasks/predict.py:87-91 | ARM_STRETCH needs no LIE, some elbow angle above 150 and some detected wrist more than 0.1 above the hip, a missing hip counting as above |
| Pose.BendNeedsRaisedWristWithoutStretch | pmc_5axis_yolo/tasks/predict.py:82-95 | ARM_BEND implies neither LIE nor ARM_STRETCH fired and some detected wrist is more than 0.05 above the hip, a missing hip counting as above |
| Pose.StretchMixesArms | pmc_5axis_yolo/tasks/predict.py:87-91 | a straight left elbow with a raised right wrist already gives ARM_STRETCH |
| Pose.MissingHipWithWrist | pmc_5axis_yolo/tasks/predict.py:82-95 | with both hips undetected, any detected wrist gives ARM_STRETCH or ARM_BEND |
| Pose.NothingDetectedIsUnknown | pmc_5axis_yolo/tasks/predict.py:82-102 | with no shoulder, wrist, hip or knee detected (y of keypoints 5, 6 and 9-14 all 0) the label is UNKNOWN whatever the elbow angles |
| Safety.HandOnButton | pmc_5axis_yolo/tasks/predict.py:132-161 | no contract of its own: the tri-state hand test is specified by Safety.HandUndetectedIff, Safety.MissingOffsetIsZero, Safety.MarginMonotone, Safety.CornerIsOnButton and the round trips Calibration.CalibrationPutsWristOnStop and Calibration.CalibrationPutsWristOnFeed |
| Safety.KnifeBaseCollision | pmc_5axis_yolo/tasks/predict.py:164-173 | no contract of its own: the tri-state collision test is specified by Safety.CollisionUndetectedIff, Safety.CollisionImpliesOverlap and Safety.WideKnifeIsNotCollision |
| Safety.CheckHand | pmc_5axis_yolo/tasks/predict.py:132-145 | one hand block rewrites its field with the tri-state test's YES/NO, and leaves the field as it was when the test is undetected |
| Safety.CheckCollision | pmc_5axis_yolo/tasks/predict.py:164-173 | the collision block rewrites its field only when both knife and base exist |
| Safety.EvaluateFrame | pmc_5axis_yolo/tasks/predict.py:113-173 | one loop pass: posture for index 1 (or single) with a person, hands for index 0 (or single), collision for index 2 (or single) |
| Safety.PredictSafe | pmc_5axis_yolo/tasks/predict.py:106-175 | when either list has length 1, the one zipped frame sets all four fields (none: all undetected). Otherwise camera 0 sets the hands, camera 1 the posture (UNKNOWN with no person), camera 2 the collision, and cameras 3 and up nothing |
| Safety.FoldFollowsRoles | pmc_5axis_yolo/tasks/predict.py:111-173 | outside single mode the field-by-field loop equals the by-role closed form for every number of frames |
| Safety.SingleFrameSetsAll | pmc_5axis_yolo/tasks/predict.py:109-173 | in single mode the first frame sets every field |
| Safety.HandUndetectedIff | pmc_5axis_yolo/tasks/predict.py:132-149 | the hand test is UNDETECTED exactly when the region is absent, there is no person, or the wrist's x+y is 0 |
| Safety.MissingOffsetIsZero | pmc_5axis_yolo/tasks/predict.py:134-135 | a missing offset key shifts the wrist by 0 |
| Safety.MarginMonotone | pmc_5axis_yolo/tasks/predict.py:136-145 | a wider tolerance never turns YES into NO and never changes detection |
| Safety.CornerIsOnButton | pmc_5axis_yolo/tasks/predict.py:136-145 | bounds are inclusive: a shifted wrist exactly on the widened box's corner is YES |
| Safety.CollisionUndetectedIff | pmc_5axis_yolo/tasks/predict.py:164 | collision is UNDETECTED exactly when the knife or the base is missing; no person is needed |
| Safety.CollisionImpliesOverlap | pmc_5axis_yolo/tasks/predict.py:165-173 | for a knife box with x_min <= x_max, YES implies knife.y_max >= base.y_min and intersecting horizontal spans |
| Safety.WideKnifeIsNotCollision | pmc_5axis_yolo/tasks/predict.py:168-171 | a knife wider than the base on both sides gives NO (one-sided horizontal check, no margin) |
| Safety.EvaluatorExamples | pmc_5axis_yolo/tasks/predict.py:132-173 | wrist (14,14) with offset (1,1) on box (10..20, 10..20) is YES; a (0,0) wrist is UNDETECTED; knife (0,50,0,60) on base (0,50,55,70) is YES |
| LegacyPredict.ExactHandOnButton | pmc_5axis_yolo/utils/predict.py:83-108 | no contract of its own: the older hand test without tolerance is specified by LegacyPredict.ExactIsZeroMargin, LegacyPredict.MarginExtendsExact and LegacyButton.ExactYesImpliesEitherHand |
| LegacyPredict.ExactIsZeroMargin | pmc_5axis_yolo/utils/predict.py:83-108 | the older hand test (exact inclusive containment, sum-0 wrist undetected) equals the current one with tolerance 0 |
| LegacyPredict.MarginExtendsExact | pmc_5axis_yolo/utils/predict.py:89-94 | any non-negative tolerance accepts every hand the older test accepts |
| LegacyPredict.ScanFourClasses | pmc_5axis_yolo/utils/predict.py:55-80 | the inline scan keeps the last stop, feed, knife and base box |
| LegacyPredict.CheckHandExact | pmc_5axis_yolo/utils/predict.py:83-94 | one older hand block computes the exact tri-state test |
| LegacyPredict.PredictSafe | pmc_5axis_yolo/utils/predict.py:32-122 | the older predict_safe reads only the first pose result and the first object result; its hand results are the exact test and its collision result the same one-sided rule |
| LegacyPredict.UpdateHand | pmc_5axis_yolo/utils/predict.py:239-249 | one hand-field update (used for both stop and feed): an UNDETECTED value leaves the field alone. Otherwise an UNDETECTED field takes the new value, and a detected field becomes Python `and` of the two, which on truthy members is the new value (= LegacyPredict.CombineHand) |
| LegacyPredict.UpdateCollision | pmc_5axis_yolo/utils/predict.py:251-255 | the collision-field update: an UNDETECTED value leaves the field alone. Otherwise an UNDETECTED field takes the new value, and a detected field becomes Python `or` of the two, which on truthy members keeps the old value (= LegacyPredict.CombineCollision) |
| LegacyPredict.PredictMultiple | pmc_5axis_yolo/utils/predict.py:225-257 | the hand aggregates are the last non-UNDETECTED per-image value and the collision aggregate the first one |
| LegacyPredict.HandFoldIsLastDetected | pmc_5axis_yolo/utils/predict.py:239-249 | folding with Python `and` on truthy members yields the last detected value |
| LegacyPredict.CollisionFoldIsFirstDetected | pmc_5axis_yolo/utils/predict.py:251-255 | folding with Python `or` on truthy members yields the first detected value |
| LegacyPredict.LastDetectedSpec | pmc_5axis_yolo/utils/predict.py:239-249 | a hand aggregate is UNDETECTED iff every per-image value is; otherwise it is a value no later detected value follows |
| LegacyPredict.FirstDetectedSpec | pmc_5axis_yolo/utils/predict.py:251-255 | the collision aggregate is UNDETECTED iff every per-image value is; otherwise it is a value no earlier detected value precedes |
| LegacyPredict.SingleImageIdentity | pmc_5axis_yolo/utils/predict.py:229-257 | aggregating one image returns its values unchanged |
| LegacyPredict.AndHandIsConjunction | pmc_5axis_yolo/utils/predict.py:243 | the intended hand aggregate is YES iff some value is YES and none NO, and NO iff some value is NO |
| LegacyPredict.OrCollisionIsDisjunction | pmc_5axis_yolo/utils/predict.py:255 | the intended collision aggregate is YES iff some value is YES, and NO iff some is NO and none YES |
| LegacyPredict.HandFoldForgetsEarlierNo | pmc_5axis_yolo/utils/predict.py:243 | per-image [NO, YES] aggregates to YES as written, where AND gives NO |
| LegacyPredict.CollisionFoldIgnoresLaterYes | pmc_5axis_yolo/utils/predict.py:255 | per-image [NO, YES] aggregates to NO as written, where OR gives YES |
| LegacyPredict.AggregationExamples | pmc_5axis_yolo/utils/predict.py:239-249 | [UNDETECTED, YES, YES] gives YES and [UNDETECTED, YES, NO] gives NO under AND. As written, the latter also gives NO |
| Calibration.Calibrated | pmc_5axis_yolo/tasks/offsets.py:128-139 | no contract of its own: the offsets after writing both pairs are specified by Calibration.StopPairIsCentreMinusWrist, Calibration.FeedPairIsCentreMinusWrist, Calibration.UntouchedEntries, Calibration.PairsAreIndependent, Calibration.NoBoxesNoChange and Calibration.UndetectedWristGivesCentre |
| Calibration.AfterCalibration | pmc_5axis_yolo/tasks/offsets.py:112-139 | no contract of its own: unchanged with to_adj false (Calibration.NoAdjustNoChange), otherwise Calibration.Calibrated on the last stop and feed boxes and keypoints 9 and 10; used by the round trips Calibration.CalibrationPutsWristOnStop and Calibration.CalibrationPutsWristOnFeed |
| Calibration.SelectMessage | pmc_5axis_yolo/tasks/offsets.py:141-149 | no contract of its own: it picks "defaults" when the result equals the defaults, else "previous" when it equals the old offsets, else "adjusted". It only picks the message and never touches the offsets (Calibration.AdjOffsets). It is used with the hard-coded defaults for pmc_5axis_yolo/utils/offsets.py:154-167 (LegacyCalibration.AdjOffsetsInline); Calibration.NoAdjustNoChange and LegacyCalibration.DefaultsReportDiffer are about it |
| Calibration.AdjOffsets | pmc_5axis_yolo/tasks/offsets.py:103-151 | mutates and returns the caller's own dictionary: unchanged with to_adj false, otherwise the calibrated map; the default/previous comparisons only pick the message |
| Calibration.StopPairIsCentreMinusWrist | pmc_5axis_yolo/tasks/offsets.py:128-132 | with a stop box, stop_x/stop_y become the box centre minus keypoint 9 |
| Calibration.FeedPairIsCentreMinusWrist | pmc_5axis_yolo/tasks/offsets.py:135-139 | with a feed box, feed_x/feed_y become the box centre minus keypoint 10 |
| Calibration.UntouchedEntries | pmc_5axis_yolo/tasks/offsets.py:128-139 | keys grow only by the written pairs; a missing box leaves its pair unchanged and no other key changes |
| Calibration.PairsAreIndependent | pmc_5axis_yolo/tasks/offsets.py:128-139 | the stop pair (presence and values) does not depend on the feed box or the right wrist, and the feed pair does not depend on the stop box or the left wrist |
| Calibration.NoBoxesNoChange | pmc_5axis_yolo/tasks/offsets.py:128-139 | with neither box, calibration leaves the offsets as they were |
| Calibration.UndetectedWristGivesCentre | pmc_5axis_yolo/tasks/offsets.py:121-139 | neither wrist is checked against (0,0). A (0,0) left wrist sets stop_x and stop_y to the bare stop-box centre, and a (0,0) right wrist sets feed_x and feed_y to the bare feed-box centre |
| Calibration.NoAdjustNoChange | pmc_5axis_yolo/tasks/offsets.py:110-112 | with to_adj false the offsets are unchanged and the message is never "adjusted" |
| Calibration.CalibrationPutsWristOnStop | pmc_5axis_yolo/tasks/offsets.py:128-132 | assume the left wrist is detected (x + y not 0) and the stop box has min <= max on both axes. Then after calibrating on a frame, the current hand test on that frame finds the left wrist on the stop button for every non-negative tolerance. Calibration itself checks neither: with a (0,0) wrist the test afterwards is UNDETECTED, and with an inverted box it can be NO (Calibration.RoundTripLimits) |
| Calibration.RoundTripLimits | pmc_5axis_yolo/tasks/offsets.py:118-132 | calibration checks neither the wrist nor the box order. After calibrating, a (0,0) left wrist makes the stop test UNDETECTED, and the inverted stop box (20,10,10,20) with wrist (1,1) makes it NO |
| Calibration.CalibrationPutsWristOnFeed | pmc_5axis_yolo/tasks/offsets.py:135-139 | the same round trip for the right wrist and the feed button, under the same conditions: a detected right wrist and a feed box with min <= max |
| LegacyCalibration.WritePairs | pmc_5axis_yolo/utils/offsets.py:111-152 | the inline scan and the in-place writes yield the same offsets as the current routine |
| LegacyCalibration.AdjOffsetsInline | pmc_5axis_yolo/utils/offsets.py:100-169 | unchanged with to_adj false, else stop/feed centre minus keypoints 9/10. The hard-coded default comparison only picks the message |
| LegacyCalibration.EarliestMessage | utils/adj_offsets.py:53-64 | no contract of its own: "defaults" when the result equals the hard-coded defaults, else "adjusted", with no "previous" branch. It only picks the message (LegacyCalibration.AdjOffsetsEarliest); LegacyCalibration.EarliestReportsUnchangedAsAdjusted is about it |
| LegacyCalibration.AdjOffsetsEarliest | utils/adj_offsets.py:1-66 | unchanged with to_adj false, else the same calibrated offsets. The message is only "defaults" or "adjusted" |
| LegacyCalibration.DefaultsReportDiffer | pmc_5axis_yolo/utils/offsets.py:154-167 | on the same uncalibrated call, the package's older routine and the current one report differently. Handed the hard-coded defaults, the older routine says "defaults" and the current one "previous". Handed the settings defaults, it is the other way round |
| LegacyCalibration.EarliestReportsUnchangedAsAdjusted | utils/adj_offsets.py:53-64 | the earliest routine has no "previous" branch. With to_adj false, offsets other than its hard-coded defaults (the settings defaults among them) are reported as "adjusted" although nothing changed |
| LegacyButton.TestHandOnButton | utils/predict.py:20-82 | stop is true iff a stop box exists and either wrist shifted by (adj[0], adj[1]) lies inclusively in it; feed likewise with (adj[2], adj[3]); a missing box gives false |
| LegacyButton.SwapHandsInvariant | utils/predict.py:64-66 | swapping the left and right wrists does not change the result |
| LegacyButton.SentinelWristCounts | utils/predict.py:26-27 | a (0,0) wrist is shifted and tested like any other point |
| LegacyButton.ExactYesImpliesEitherHand | utils/predict.py:55-66 | a YES of the tri-state test for the left wrist implies the either-hand test is true with the same offsets |

## Left out

- Model inference: the pose and object models and their result objects. A
  frame's detector output is given as plain sequences. This includes the
  `[0]` indexing of a result object inside the extractor. The current call
  sites (pmc_5axis_yolo/tasks/predict.py:124,
  pmc_5axis_yolo/tasks/offsets.py:125) hand the extractor a single result,
  not a list. So its `[0]` indexes that result itself, and which boxes that
  selects is library behaviour. The older files index a list and scan every
  box of its first result. The model feeds every detection of the frame to
  the extractor and to the older scans alike.
- The elbow-angle helper `calculate_angle` is not part of this model. The
  two angles are inputs of `Pose.ClassifyPose`.
- Normalized and pixel keypoints are independent inputs: the relation between
  them is the detector's.
- Floating point: coordinates, offsets and box centres are modelled on
  `real`, not IEEE doubles. Boxes are integers, as the code truncates them.
- Annotation and drawing (`predict_result`, the drawing half of each
  `predict_single`, the seeded colour generator), the Qt windows, the offset
  slider dialogs, camera capture, training scripts and diagnostic printing.
  This is rendering, UI and I/O.
- The debounced SOP step machine and alert gating: no implementation of them
  exists in the modelled code.
- Posture aggregation across cameras exists only in commented-out code.
- Calibration's image reading and model calls: the calibration frame's
  keypoints and detections are inputs.
- Calling calibration with an empty keypoint set makes the source fail when
  it indexes the wrist. The model requires at least 11 keypoints instead of
  modelling that failure.
- LegacyButton.TestHandOnButton: requires at least 11 keypoints. The source
  has no person check: it indexes the wrists of the first person
  (utils/predict.py:23-27), and on a frame with no person that indexing
  fails. Its caller `predict_single` (utils/predict.py:169) runs on every
  video frame (main.py:145), and that failure is not modelled.
- LegacyButton.TestHandOnButton: takes the adjustment as a positional
  sequence `adj[0..3]`, as utils/predict.py:56-73 indexes it. Its only
  callers pass the name-keyed offsets dictionary instead (main.py:52-57,
  110, 145). On that dictionary, positional indexing would fail with a
  missing key whenever a stop or feed box is found. The model does not
  capture that mismatch at the call site.
- `predict_safe` requires that a found person's keypoint set has at least 15
  entries, the highest index the classifier reads. The detector always gives 17.

## Findings

| source | as written | input that shows it | evidently intended | confidence | as-written member | corrected member |
|---|---|---|---|---|---|---|
| pmc_5axis_yolo/utils/predict.py:243 | a detected hand value is combined with the running one by Python `and`, which for always-truthy enum members returns the new value | per-image hand values [NO, YES] aggregate to YES | logical AND: NO as soon as one camera sees NO | high, not executed | LegacyPredict.HandFoldForgetsEarlierNo | LegacyPredict.AndHandIsConjunction |
| pmc_5axis_yolo/utils/predict.py:255 | a detected collision value is combined by Python `or`, which returns the running value | per-image collision values [NO, YES] aggregate to NO | logical OR: YES as soon as one camera sees YES | high, not executed | LegacyPredict.CollisionFoldIgnoresLaterYes | LegacyPredict.OrCollisionIsDisjunction |

`LegacyPredict.PredictMultiple` models the code as written. The corrected
folds, `AndHand` and `OrCollision`, are the logical AND and OR that the
`and`/`or` evidently mean.
Nothing else in the model consumes an aggregate.
