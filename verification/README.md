# Football analysis: tracking, camera movement and ball possession in Dafny

This project models the core of a football video analysis pipeline:

- the box geometry helpers;
- the assignment of the ball to the nearest player within reach;
- the per-frame construction of the track store from detections and tracker output;
- the sparse optical-flow camera movement estimator.

Frames, the detector, the multi-object tracker (ByteTrack) and the OpenCV routines are not modelled. They appear as data or as oracle functions passed in by the caller:

- the tracker is a function threaded through an opaque state;
- corner detection, optical flow and the point distance are bundled in `CameraMovementEstimator.Vision`.

Modules, one per file:

- `Wrappers` (`wrappers.dfy`): `Option` and `Result`.
- `BoxUtils` (`box_utils.dfy`): box centre and width on integer pixels. Python's `int(x / 2)` is written out as rounding toward zero.
- `PlayerBallAssigner` (`player_ball_assigner.dfy`): the assignment loop. Distances are compared through their squares, so the reach of 70 becomes `70 * 70`. The square is defined as a sum of odd numbers and proved equal to the product. A player's distance is taken to the nearer of the two bottom corners of their box. The first player at the smallest distance wins, and `-1` is returned when nobody is in reach.
- `Tracker` (`tracker.dfy`): the frame loop of `get_object_tracks`.
  - The class-name dictionary is the sequence of its items. Looking up an id by name inverts the dictionary as the source does, so the last id carrying a name wins.
  - Goalkeeper detections are relabelled with the "player" class id before tracking.
  - Players and referees are keyed by track id, and a later entry overwrites an earlier one.
  - The ball bypasses the tracker: it is taken from the (relabelled) raw detections and stored under key `1`.
  - A goalkeeper in a frame whose class table has no "player" class is an error. The source writes `None` into an integer class-id array there.
- `CameraMovementEstimator` (`camera_movement_estimator.dfy`): `get_camera_movement` as written, and the evidently intended version (see Findings).

## Model

| member | source | states |
|---|---|---|
| BoxUtils.HalfTowardZero | utils/box_utils.py:3 | halving rounds toward zero: for n >= 0 the result r has 2r <= n < 2r+2, for n < 0 it has 2r-2 < n <= 2r |
| BoxUtils.CenterOfBox | utils/box_utils.py:1-3 | the centre of a well-ordered box lies inside the box on each axis; on each axis it is the midpoint of the two edges rounded toward zero, stated as bounds on twice the centre |
| BoxUtils.HalfTowardZeroIsNotFloor | utils/box_utils.py:3 | on every negative odd sum the truncating halving differs from floor division by one |
| BoxUtils.CenterOfMirroredBox | utils/box_utils.py:1-3 | mirroring a box through the origin mirrors its centre |
| BoxUtils.CenterOfPointBox | utils/box_utils.py:1-3 | a one-pixel box is its own centre, at negative coordinates too |
| BoxUtils.BoxWidth | utils/box_utils.py:5-6 | the width is non-negative exactly when x1 <= x2, and x1 plus the width is x2 |
| BoxUtils.WidthTranslationInvariant | utils/box_utils.py:5-6 | moving a box leaves its width unchanged |
| PlayerBallAssigner.SquareIsProduct | player_ball_assigner/player_ball_assigner.py:22-23 | the square used for distances is the product of a number with itself |
| PlayerBallAssigner.SquaredReachIsReachSquared | player_ball_assigner/player_ball_assigner.py:7 | the squared reach 4900 is the square of the reach 70 |
| PlayerBallAssigner.SquareKeepsOrder | player_ball_assigner/player_ball_assigner.py:27-28 | for non-negative reals, a < b exactly when a squared < b squared, so comparing squared distances picks the same minimum as comparing the distances |
| PlayerBallAssigner.ReachBySquares | player_ball_assigner/player_ball_assigner.py:27 | a non-negative distance is below 70 exactly when its (whole-number) square is below 4900 |
| PlayerBallAssigner.PlayerDistance | player_ball_assigner/player_ball_assigner.py:20-24 | the distance is that of one of the two bottom corners and no larger than either |
| PlayerBallAssigner.PlayerDistanceIgnoresTopEdge | player_ball_assigner/player_ball_assigner.py:20-24 | the top edge of the player's box never affects the distance |
| PlayerBallAssigner.NearestIsUnique | player_ball_assigner/player_ball_assigner.py:27-30 | at most one player is the first nearest player in reach, so the answer is determined |
| PlayerBallAssigner.AssignBallToPlayer | player_ball_assigner/player_ball_assigner.py:9-33 | returns -1 when no player is strictly within 70 of the ball centre; when some player is, returns the id of the player at the ghost position `winner`, the first player at the smallest distance |
| Tracker.NameOf | trackers/tracker.py:40 | a missing id gives None; a found name is stored under that id in the table |
| Tracker.IdOf | trackers/tracker.py:33 | inverted-table lookup: None when no entry carries the name, otherwise an id that the table pairs with the name |
| Tracker.NameOfIdOf | trackers/tracker.py:32-33 | in a table without repeated keys, looking up the id found for a name gives back that name |
| Tracker.Relabel | trackers/tracker.py:39-41 | a goalkeeper takes the player class id when there is one; other detections are unchanged; the box never changes |
| Tracker.RelabelAll | trackers/tracker.py:39-41 | keeps the length and every box; a goalkeeper takes the player class id when the table has one; every other detection is unchanged |
| Tracker.RemapGoalkeepers | trackers/tracker.py:39-41 | fails exactly when a goalkeeper is present and the table has no player class; otherwise keeps every box, gives goalkeepers the player id and leaves every other detection unchanged |
| Tracker.ClassTracks | trackers/tracker.py:49-58 | the keys are exactly the track ids carried by entries of the class, and each key holds the box of the last such entry |
| Tracker.BallMap | trackers/tracker.py:60-64 | only key 1 is used; it is present exactly when a ball detection exists, and it holds the box of the last ball detection |
| Tracker.BallMapIgnoresRelabel | trackers/tracker.py:60-64 | relabelling goalkeepers never changes the ball map |
| Tracker.TrackFrames | trackers/tracker.py:31-64 | one players, one referees and one ball map per frame |
| Tracker.GetObjectTracks | trackers/tracker.py:25-64 | fails exactly when some frame has a goalkeeper but no player class; otherwise there are three maps per frame |
| Tracker.TrackerInputsAreRemapped | trackers/tracker.py:39-43 | on a successful run, each frame's goalkeeper remap succeeds and is exactly what that frame hands to the tracker |
| Tracker.TrackFramesFollowTracker | trackers/tracker.py:43-58 | frame i's players and referees maps are built from the tracker's output for frame i, with the tracker state threaded through frames 0 to i-1 |
| Tracker.TracksFollowTracker | trackers/tracker.py:43-58 | the same fact, for the result of the whole run |
| Tracker.BallFromDetections | trackers/tracker.py:60-64 | with tables that repeat no key, each frame's ball map is that of the frame's own detections |
| Tracker.EmptyFrameGivesEmptyMaps | trackers/tracker.py:45-64 | a frame with no detections has empty players, referees and ball maps, when the tracker reports nothing for nothing |
| Tracker.PlayerBoxFromDetection | trackers/tracker.py:39-55 | when the tracker only repeats its inputs, every player box is the box of a detection named "player" or "goalkeeper" |
| Tracker.PlayersAreOutfieldOrGoalkeepers | trackers/tracker.py:39-55 | the same, for every frame of a whole run: goalkeepers are stored as players and have no collection of their own |
| CameraMovementEstimator.XYDistance | camera_movement_estimator/camera_movement_estimator.py:55 | adding the displacement to the new point gives back the old point |
| CameraMovementEstimator.ScanAsWrittenTakesLastMoved | camera_movement_estimator/camera_movement_estimator.py:47-55 | the maximum never leaves its start, and the movement is that of the last pair that moved further than the start, or the starting movement |
| CameraMovementEstimator.ScanIntendedBoundsAll | camera_movement_estimator/camera_movement_estimator.py:47-55 | corrected scan: no pair moved further than the final maximum |
| CameraMovementEstimator.FirstFarthestIndex | camera_movement_estimator/camera_movement_estimator.py:49-55 | every non-empty sequence of pairs has a first farthest pair, and this is its position |
| CameraMovementEstimator.ScanIntendedFindsFirstFarthest | camera_movement_estimator/camera_movement_estimator.py:47-55 | corrected scan: it is unchanged, or it holds the distance and movement of the first farthest pair, above the start |
| CameraMovementEstimator.FirstFarthestUnique | camera_movement_estimator/camera_movement_estimator.py:49-55 | at most one pair is the first farthest |
| CameraMovementEstimator.ScanIntendedTakesFirstFarthest | camera_movement_estimator/camera_movement_estimator.py:47-55 | corrected scan: when the first farthest pair beats the starting maximum, the scan ends with exactly its distance and movement |
| CameraMovementEstimator.ScanIntendedKeepsStart | camera_movement_estimator/camera_movement_estimator.py:47-55 | corrected scan: when no pair beats the starting maximum, the scan ends where it started |
| CameraMovementEstimator.FramePairs | camera_movement_estimator/camera_movement_estimator.py:45-49 | every pair's origin is the feature at the same index; there are never more pairs than features |
| CameraMovementEstimator.Step | camera_movement_estimator/camera_movement_estimator.py:44-61 | the previous frame becomes the current one; the features are kept or re-detected on the current frame |
| CameraMovementEstimator.StepNeverMoves | camera_movement_estimator/camera_movement_estimator.py:47-61 | as written, every step records no movement and keeps its features |
| CameraMovementEstimator.Steps | camera_movement_estimator/camera_movement_estimator.py:43-61 | one movement per later frame |
| CameraMovementEstimator.CameraMovements | camera_movement_estimator/camera_movement_estimator.py:39-61 | an empty video is an error; otherwise one movement per frame, and frame 0 is still |
| CameraMovementEstimator.StepsNeverMove | camera_movement_estimator/camera_movement_estimator.py:43-61 | as written, every later frame's movement is still |
| CameraMovementEstimator.AllMovementsStill | camera_movement_estimator/camera_movement_estimator.py:39-61 | as written, every entry of the result is [0, 0] |
| CameraMovementEstimator.FeaturesNeverRedetected | camera_movement_estimator/camera_movement_estimator.py:57-61 | as written, after k frames the estimator holds frame k-1 and still the features of the first frame |
| CameraMovementEstimator.StepIntended | camera_movement_estimator/camera_movement_estimator.py:44-61 | corrected step: the previous frame advances; the features are kept or re-detected |
| CameraMovementEstimator.StepIntendedStillWhenNothingMoved | camera_movement_estimator/camera_movement_estimator.py:57-61 | corrected step: when no feature moved more than 5, the step records [0, 0] and keeps its features |
| CameraMovementEstimator.StepIntendedFollowsFarthest | camera_movement_estimator/camera_movement_estimator.py:57-61 | corrected step: when any feature moved more than 5, it records exactly the movement of the first farthest feature and re-detects features |
| CameraMovementEstimator.StepsIntended | camera_movement_estimator/camera_movement_estimator.py:43-61 | corrected: one movement per later frame |
| CameraMovementEstimator.StepsIntendedFollowAfter | camera_movement_estimator/camera_movement_estimator.py:43-61 | corrected run: frame k's movement, and the estimator after frame k, are those of one corrected step from the estimator the first k frames left |
| CameraMovementEstimator.RunRedetectsAfterMove | camera_movement_estimator/camera_movement_estimator.py:57-61 | corrected run: a frame in which some feature moved more than 5 records the first farthest movement, and the estimator then holds that frame and features re-detected on it |
| CameraMovementEstimator.RunKeepsFeaturesWhenStill | camera_movement_estimator/camera_movement_estimator.py:57-61 | corrected run: a frame in which no feature moved more than 5 records [0, 0], and the estimator then holds that frame and the same features |
| CameraMovementEstimator.CameraMovementsIntended | camera_movement_estimator/camera_movement_estimator.py:39-61 | corrected: an empty video is an error; otherwise one movement per frame, and frame 0 is still |
| CameraMovementEstimator.PanIsMissed | camera_movement_estimator/camera_movement_estimator.py:47-58 | for a 10-pixel pan of one feature, the code as written reports [0, 0] and the corrected version reports [-10, 0] |

## Left out

- Reading and writing the pickle cache (`read_from_stub`, `stub_path`): file I/O that only replays a previous result.
- The detector (`detect_frames`, YOLO batches of 20) and ByteTrack are external. Detections are inputs, and the tracker is the oracle `update`. Nothing is assumed about ByteTrack beyond what each lemma requires.
- The progress `print` in the frame loop: it is output only.
- OpenCV is external: grey conversion, `goodFeaturesToTrack` with its mask and parameters, and `calcOpticalFlowPyrLK` with its window and criteria. Corner detection and flow are oracles on opaque frames. A `None` result from corner detection is not modelled.
- `measure_distance` and `measure_xy_distance` are imported from `utils` but are not part of this model; `utils/box_utils.py` does not define them.
  - The camera estimator takes the point distance as an oracle.
  - The x/y displacement is taken as old minus new, per axis, as its call site indicates.
  - The assigner takes the distance to be Euclidean.
- BoxUtils.CenterOfBox: boxes are integer pixels, whereas the detector yields floats; the rounding toward zero is modelled, floating point is not.
- PlayerBallAssigner.AssignBallToPlayer: compares squared integer distances instead of float square roots. SquareKeepsOrder and ReachBySquares show that, over exact reals, this orders distances the same way and applies the same reach; floating-point rounding of the square root is not modelled.
  - The `if not ball_positions` guard is not modelled: a centre tuple is never falsy, so it never fires.
  - The players dictionary is a sequence of (id, box) entries in iteration order.
- Drawing code is not modelled: ellipses, triangles, the camera-movement overlay and annotated frames. Neither are `main.py`, the video I/O helpers and `yolo_inference.py`. They produce pictures and files, not the tracked data.
- Ball-track interpolation, camera-compensated positions, team assignment and possession aggregation have no code in these files and are not modelled.
- The camera scan is modelled as written (`CameraMovements`). The evidently intended scan, which keeps the true maximum, is modelled beside it (`CameraMovementsIntended`); see Findings.
- Tracker.Detection: carries no detector confidence, so the tracker oracle cannot depend on it, whereas ByteTrack does. No property proved here relies on confidences.

## Findings

| source | as written | input that shows it | evidently intended | confidence | as-written member | corrected member |
|---|---|---|---|---|---|---|
| camera_movement_estimator/camera_movement_estimator.py:47-59 | `max_distance` starts at 0 and is never updated, so the movement comes from the last feature that moved at all. The test `max_distance > self.minimum_distance` can never hold, so every frame records [0, 0] and features are never re-detected. | two frames whose single feature slides 10 pixels to the right | keep the largest distance inside the loop, so the first farthest feature gives the movement; a frame moving more than 5 pixels records it ([-10, 0] here) and re-detects features | high (not executed) | CameraMovementEstimator.CameraMovements, CameraMovementEstimator.PanIsMissed | CameraMovementEstimator.CameraMovementsIntended, CameraMovementEstimator.StepIntendedFollowsFarthest |
