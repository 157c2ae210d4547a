/** Per-frame camera movement from sparse optical flow. Frames are opaque,
    and the routines the estimator relies on (corner detection on a frame,
    pyramidal Lucas-Kanade flow of feature points from one frame to the
    next, and the point distance) are oracle functions passed in by the
    caller. */
module CameraMovementEstimator {
  import opened Wrappers

  /** A tracked feature point, in sub-pixel image coordinates. */
  datatype Feature = Feature(x: real, y: real)

  /** The camera displacement recorded for one frame. */
  datatype Movement = Movement(dx: real, dy: real)

  /** The entry of every frame for which no movement is recorded. */
  const Still: Movement := Movement(0.0, 0.0)

  /** A frame's movement is recorded only when the largest feature
      displacement exceeds this many pixels. */
  const MinimumDistance: real := 5.0

  /** The estimator cannot start on an empty video: it reads frame 0. */
  datatype CameraError = NoFrames

  /** The image routines the estimator calls: feature detection on a frame,
      the optical flow of points from one frame to the next (one output
      point per input point, as far as the flow reports), and the distance
      between two points. */
  datatype Vision<!F> = Vision(
    detect: F -> seq<Feature>,
    flow: (F, F, seq<Feature>) -> seq<Feature>,
    distance: (Feature, Feature) -> real)

  /** The displacement from `after` back to `before`, per axis. */
  function XYDistance(before: Feature, after: Feature): (m: Movement)
    ensures Feature(after.x + m.dx, after.y + m.dy) == before
  {
    Movement(before.x - after.x, before.y - after.y)
  }

  /** Pairs the flowed points with the points they came from, stopping at
      the shorter of the two sequences. */
  function Zip(moved: seq<Feature>, origins: seq<Feature>): (pairs: seq<(Feature, Feature)>)
    ensures |pairs| == if |moved| <= |origins| then |moved| else |origins|
    ensures forall i :: 0 <= i < |pairs| ==> pairs[i] == (moved[i], origins[i])
  {
    var n := if |moved| <= |origins| then |moved| else |origins|;
    seq(n, i requires 0 <= i < n => (moved[i], origins[i]))
  }

  /** The distance a pair (moved point, origin) covered. */
  function PairDistance(distance: (Feature, Feature) -> real, pair: (Feature, Feature)): real
  {
    distance(pair.0, pair.1)
  }

  /** The movement of a pair (moved point, origin): origin minus moved point. */
  function PairMovement(pair: (Feature, Feature)): Movement
  {
    XYDistance(pair.1, pair.0)
  }

  /** The state of the scan over feature pairs: the largest distance seen
      so far and the movement taken from the pair that set it. */
  datatype Scan = Scan(maxDistance: real, movement: Movement)

  /** The scan start: no distance yet, no movement. */
  const Start: Scan := Scan(0.0, Still)

  /** The position of the last pair that covered more than `bound`, if any. */
  function LastBeyond(distance: (Feature, Feature) -> real, pairs: seq<(Feature, Feature)>, bound: real): (r: Option<nat>)
    ensures r.Some? ==> r.value < |pairs| && PairDistance(distance, pairs[r.value]) > bound
    ensures r.Some? ==> forall j :: r.value < j < |pairs| ==> PairDistance(distance, pairs[j]) <= bound
    ensures r.None? ==> forall j :: 0 <= j < |pairs| ==> PairDistance(distance, pairs[j]) <= bound
    decreases |pairs|
  {
    if |pairs| == 0 then None
    else if PairDistance(distance, pairs[|pairs| - 1]) > bound then Some(|pairs| - 1)
    else LastBeyond(distance, pairs[..|pairs| - 1], bound)
  }

  /** The scan as the estimator performs it: a pair further than the
      current maximum replaces the movement, but the maximum itself is never
      raised. */
  function ScanAsWritten(distance: (Feature, Feature) -> real, pairs: seq<(Feature, Feature)>, s: Scan): (r: Scan)
    ensures r.movement == s.movement || exists i :: 0 <= i < |pairs| && r.movement == PairMovement(pairs[i])
    decreases |pairs|
  {
    if |pairs| == 0 then s
    else
      var r := ScanAsWritten(distance, pairs[..|pairs| - 1], s);
      var pair := pairs[|pairs| - 1];
      if PairDistance(distance, pair) > r.maxDistance then r.(movement := PairMovement(pair)) else r
  }

  /** The scan never raises its maximum, so the movement it ends with is
      that of the last pair that covered more than the starting maximum, or
      the starting movement when no pair did. */
  lemma {:induction false} ScanAsWrittenTakesLastMoved(distance: (Feature, Feature) -> real, pairs: seq<(Feature, Feature)>, s: Scan)
    ensures ScanAsWritten(distance, pairs, s).maxDistance == s.maxDistance
    ensures ScanAsWritten(distance, pairs, s).movement ==
              match LastBeyond(distance, pairs, s.maxDistance)
              case Some(i) => PairMovement(pairs[i])
              case None => s.movement
    decreases |pairs|
  {
    if |pairs| > 0 {
      var n := |pairs| - 1;
      ScanAsWrittenTakesLastMoved(distance, pairs[..n], s);
      if PairDistance(distance, pairs[n]) <= s.maxDistance {
        assert LastBeyond(distance, pairs, s.maxDistance) == LastBeyond(distance, pairs[..n], s.maxDistance);
        match LastBeyond(distance, pairs, s.maxDistance)
        case Some(i) => assert pairs[..n][i] == pairs[i];
        case None =>
      }
    }
  }

  /** The intended scan: a pair further than the current maximum replaces
      both the movement and the maximum, so the first farthest pair wins. */
  function ScanIntended(distance: (Feature, Feature) -> real, pairs: seq<(Feature, Feature)>, s: Scan): (r: Scan)
    ensures r.maxDistance >= s.maxDistance
    decreases |pairs|
  {
    if |pairs| == 0 then s
    else
      var r := ScanIntended(distance, pairs[..|pairs| - 1], s);
      var pair := pairs[|pairs| - 1];
      var d := PairDistance(distance, pair);
      if d > r.maxDistance then Scan(d, PairMovement(pair)) else r
  }

  /** Pair `i` is the first of the pairs to cover the largest distance. */
  ghost predicate FirstFarthest(distance: (Feature, Feature) -> real, pairs: seq<(Feature, Feature)>, i: int)
  {
    && 0 <= i < |pairs|
    && (forall j :: 0 <= j < |pairs| ==> PairDistance(distance, pairs[j]) <= PairDistance(distance, pairs[i]))
    && (forall j :: 0 <= j < i ==> PairDistance(distance, pairs[j]) < PairDistance(distance, pairs[i]))
  }

  /** No pair covers more than the maximum the intended scan ends with. */
  lemma {:induction false} ScanIntendedBoundsAll(distance: (Feature, Feature) -> real, pairs: seq<(Feature, Feature)>, s: Scan)
    ensures forall i :: 0 <= i < |pairs| ==> PairDistance(distance, pairs[i]) <= ScanIntended(distance, pairs, s).maxDistance
    decreases |pairs|
  {
    if |pairs| > 0 {
      var n := |pairs| - 1;
      ScanIntendedBoundsAll(distance, pairs[..n], s);
      assert forall i :: 0 <= i < n ==> pairs[..n][i] == pairs[i];
    }
  }

  /** A first farthest pair of a prefix stays first farthest when the next
      pair covers no more than it. */
  lemma FirstFarthestKept(distance: (Feature, Feature) -> real, pairs: seq<(Feature, Feature)>, i: int)
    requires |pairs| > 0 && FirstFarthest(distance, pairs[..|pairs| - 1], i)
    requires PairDistance(distance, pairs[|pairs| - 1]) <= PairDistance(distance, pairs[i])
    ensures FirstFarthest(distance, pairs, i)
  {
    var prefix := pairs[..|pairs| - 1];
    assert forall j :: 0 <= j < |prefix| ==> prefix[j] == pairs[j];
  }

  /** The last pair is first farthest when it covers more than the whole
      prefix did. */
  lemma FirstFarthestLast(distance: (Feature, Feature) -> real, pairs: seq<(Feature, Feature)>, bound: real)
    requires |pairs| > 0 && PairDistance(distance, pairs[|pairs| - 1]) > bound
    requires var prefix := pairs[..|pairs| - 1];
             forall j :: 0 <= j < |prefix| ==> PairDistance(distance, prefix[j]) <= bound
    ensures FirstFarthest(distance, pairs, |pairs| - 1)
  {
    var prefix := pairs[..|pairs| - 1];
    assert forall j :: 0 <= j < |prefix| ==> prefix[j] == pairs[j];
  }

  /** At most one pair is the first farthest. */
  lemma FirstFarthestUnique(distance: (Feature, Feature) -> real, pairs: seq<(Feature, Feature)>, i: int, j: int)
    requires FirstFarthest(distance, pairs, i) && FirstFarthest(distance, pairs, j)
    ensures i == j
  {
    var di, dj := PairDistance(distance, pairs[i]), PairDistance(distance, pairs[j]);
    assert di <= dj && dj <= di;
  }

  /** The position of the first farthest pair of a non-empty sequence. */
  function FirstFarthestIndex(distance: (Feature, Feature) -> real, pairs: seq<(Feature, Feature)>): (i: nat)
    requires |pairs| > 0
    ensures FirstFarthest(distance, pairs, i)
    decreases |pairs|
  {
    if |pairs| == 1 then 0
    else
      var n := |pairs| - 1;
      var i := FirstFarthestIndex(distance, pairs[..n]);
      if PairDistance(distance, pairs[n]) > PairDistance(distance, pairs[i]) then
        FirstFarthestLast(distance, pairs, PairDistance(distance, pairs[i]));
        n
      else
        FirstFarthestKept(distance, pairs, i);
        i
  }

  /** The intended scan takes its maximum and its movement from the first
      pair at the largest distance, unless no pair beats the starting
      maximum, in which case the scan is unchanged. */
  lemma {:induction false} ScanIntendedFindsFirstFarthest(distance: (Feature, Feature) -> real, pairs: seq<(Feature, Feature)>, s: Scan)
    ensures var r := ScanIntended(distance, pairs, s);
            || r == s
            || (&& |pairs| > 0
                && r == Scan(PairDistance(distance, pairs[FirstFarthestIndex(distance, pairs)]),
                             PairMovement(pairs[FirstFarthestIndex(distance, pairs)]))
                && r.maxDistance > s.maxDistance)
    decreases |pairs|
  {
    if |pairs| > 0 {
      var n := |pairs| - 1;
      var prefix := pairs[..n];
      var prev := ScanIntended(distance, prefix, s);
      var d := PairDistance(distance, pairs[n]);
      var i := FirstFarthestIndex(distance, pairs);
      ScanIntendedFindsFirstFarthest(distance, prefix, s);
      if d > prev.maxDistance {
        ScanIntendedBoundsAll(distance, prefix, s);
        FirstFarthestLast(distance, pairs, prev.maxDistance);
        FirstFarthestUnique(distance, pairs, i, n);
        assert ScanIntended(distance, pairs, s) == Scan(d, PairMovement(pairs[n]));
      } else if prev != s {
        var k := FirstFarthestIndex(distance, prefix);
        assert prefix[k] == pairs[k];
        FirstFarthestKept(distance, pairs, k);
        FirstFarthestUnique(distance, pairs, i, k);
        assert ScanIntended(distance, pairs, s) == prev;
      }
    }
  }

  /** When the first farthest pair moved further than the starting maximum,
      the intended scan ends with that pair's distance and movement. */
  lemma ScanIntendedTakesFirstFarthest(distance: (Feature, Feature) -> real, pairs: seq<(Feature, Feature)>, s: Scan, i: int)
    requires FirstFarthest(distance, pairs, i) && PairDistance(distance, pairs[i]) > s.maxDistance
    ensures ScanIntended(distance, pairs, s) == Scan(PairDistance(distance, pairs[i]), PairMovement(pairs[i]))
  {
    ScanIntendedBoundsAll(distance, pairs, s);
    ScanIntendedFindsFirstFarthest(distance, pairs, s);
    FirstFarthestUnique(distance, pairs, i, FirstFarthestIndex(distance, pairs));
  }

  /** When no pair moved further than the starting maximum, the intended
      scan ends where it started. */
  lemma {:induction false} ScanIntendedKeepsStart(distance: (Feature, Feature) -> real, pairs: seq<(Feature, Feature)>, s: Scan)
    requires forall j :: 0 <= j < |pairs| ==> PairDistance(distance, pairs[j]) <= s.maxDistance
    ensures ScanIntended(distance, pairs, s) == s
  {
    ScanIntendedFindsFirstFarthest(distance, pairs, s);
  }

  /** What the estimator carries from one frame to the next: the previous
      (grey) frame and the feature points to follow from it. */
  datatype Estimator<F> = Estimator(prevFrame: F, features: seq<Feature>)

  /** The feature pairs of one frame: each flowed point with its origin. */
  function FramePairs<F>(v: Vision<F>, e: Estimator<F>, frame: F): (pairs: seq<(Feature, Feature)>)
    ensures |pairs| <= |e.features|
    ensures forall i :: 0 <= i < |pairs| ==> pairs[i].1 == e.features[i]
  {
    Zip(v.flow(e.prevFrame, frame, e.features), e.features)
  }

  /** One frame of the estimator as written: scan the pairs with a maximum
      that starts at 0 and stays there; record the movement and re-detect
      features only when that maximum exceeds the minimum distance; always
      advance the previous frame. */
  function Step<F>(v: Vision<F>, e: Estimator<F>, frame: F): (r: (Movement, Estimator<F>))
    ensures r.1.prevFrame == frame
    ensures r.1.features == e.features || r.1.features == v.detect(frame)
  {
    var s := ScanAsWritten(v.distance, FramePairs(v, e, frame), Start);
    if s.maxDistance > MinimumDistance then (s.movement, Estimator(frame, v.detect(frame)))
    else (Still, Estimator(frame, e.features))
  }

  /** Since the maximum never leaves 0, no frame passes the threshold: the
      step records no movement and keeps the features it had, whatever the
      flow reports. */
  lemma StepNeverMoves<F>(v: Vision<F>, e: Estimator<F>, frame: F)
    ensures Step(v, e, frame) == (Still, Estimator(frame, e.features))
  {
    ScanAsWrittenTakesLastMoved(v.distance, FramePairs(v, e, frame), Start);
  }

  /** The movements of the frames after the first, threading the estimator. */
  function Steps<F>(v: Vision<F>, e: Estimator<F>, frames: seq<F>): (ms: seq<Movement>)
    ensures |ms| == |frames|
    decreases |frames|
  {
    if |frames| == 0 then []
    else
      var (m, next) := Step(v, e, frames[0]);
      [m] + Steps(v, next, frames[1..])
  }

  /** The estimator after handing it the first `k` frames of `frames`. */
  function After<F>(v: Vision<F>, e: Estimator<F>, frames: seq<F>, k: nat): Estimator<F>
    requires k <= |frames|
    decreases k
  {
    if k == 0 then e else After(v, Step(v, e, frames[0]).1, frames[1..], k - 1)
  }

  /** One movement per frame: the first frame has none, every later frame
      gets what `Step` reports; an empty video is an error. */
  function CameraMovements<F>(v: Vision<F>, frames: seq<F>): (r: Result<seq<Movement>, CameraError>)
    ensures r.Err? <==> |frames| == 0
    ensures r.Ok? ==> |r.value| == |frames| && r.value[0] == Still
  {
    if |frames| == 0 then Err(NoFrames)
    else Ok([Still] + Steps(v, Estimator(frames[0], v.detect(frames[0])), frames[1..]))
  }

  /** Every movement `Steps` reports is `Still`. */
  lemma {:induction false} StepsNeverMove<F>(v: Vision<F>, e: Estimator<F>, frames: seq<F>)
    ensures forall i :: 0 <= i < |frames| ==> Steps(v, e, frames)[i] == Still
    decreases |frames|
  {
    if |frames| > 0 {
      StepNeverMoves(v, e, frames[0]);
      StepsNeverMove(v, Step(v, e, frames[0]).1, frames[1..]);
    }
  }

  /** As written, every frame's entry is `Still`, whatever the video. */
  lemma AllMovementsStill<F>(v: Vision<F>, frames: seq<F>)
    requires CameraMovements(v, frames).Ok?
    ensures forall i :: 0 <= i < |frames| ==> CameraMovements(v, frames).value[i] == Still
  {
    StepsNeverMove(v, Estimator(frames[0], v.detect(frames[0])), frames[1..]);
  }

  /** As written, the features the estimator starts with are never
      replaced, while the previous frame follows the video. */
  lemma {:induction false} FeaturesNeverRedetected<F>(v: Vision<F>, e: Estimator<F>, frames: seq<F>, k: nat)
    requires 0 < k <= |frames|
    ensures After(v, e, frames, k) == Estimator(frames[k - 1], e.features)
    decreases k
  {
    StepNeverMoves(v, e, frames[0]);
    if k > 1 {
      FeaturesNeverRedetected(v, Step(v, e, frames[0]).1, frames[1..], k - 1);
    }
  }

  /** One frame as evidently intended: the scan keeps the true maximum, and
      a frame whose farthest feature moved more than the minimum distance
      records that feature's movement and re-detects features. */
  function StepIntended<F>(v: Vision<F>, e: Estimator<F>, frame: F): (r: (Movement, Estimator<F>))
    ensures r.1.prevFrame == frame
    ensures r.1.features == e.features || r.1.features == v.detect(frame)
  {
    var s := ScanIntended(v.distance, FramePairs(v, e, frame), Start);
    if s.maxDistance > MinimumDistance then (s.movement, Estimator(frame, v.detect(frame)))
    else (Still, Estimator(frame, e.features))
  }

  /** The intended step keeps still when no feature moved more than the
      minimum distance. */
  lemma StepIntendedStillWhenNothingMoved<F>(v: Vision<F>, e: Estimator<F>, frame: F)
    requires var pairs := FramePairs(v, e, frame);
             forall i :: 0 <= i < |pairs| ==> PairDistance(v.distance, pairs[i]) <= MinimumDistance
    ensures StepIntended(v, e, frame) == (Still, Estimator(frame, e.features))
  {
    ScanIntendedBoundsAll(v.distance, FramePairs(v, e, frame), Start);
    ScanIntendedFindsFirstFarthest(v.distance, FramePairs(v, e, frame), Start);
  }

  /** When some feature moved more than the minimum distance, the intended
      step reports the movement of the first farthest feature and
      re-detects features on the new frame. */
  lemma StepIntendedFollowsFarthest<F>(v: Vision<F>, e: Estimator<F>, frame: F, k: nat)
    requires var pairs := FramePairs(v, e, frame);
             k < |pairs| && PairDistance(v.distance, pairs[k]) > MinimumDistance
    ensures var pairs := FramePairs(v, e, frame);
            StepIntended(v, e, frame) ==
              (PairMovement(pairs[FirstFarthestIndex(v.distance, pairs)]), Estimator(frame, v.detect(frame)))
  {
    var pairs := FramePairs(v, e, frame);
    var i := FirstFarthestIndex(v.distance, pairs);
    assert PairDistance(v.distance, pairs[k]) <= PairDistance(v.distance, pairs[i]);
    ScanIntendedTakesFirstFarthest(v.distance, pairs, Start, i);
  }

  /** The intended movements of the frames after the first. */
  function StepsIntended<F>(v: Vision<F>, e: Estimator<F>, frames: seq<F>): (ms: seq<Movement>)
    ensures |ms| == |frames|
    decreases |frames|
  {
    if |frames| == 0 then []
    else
      var (m, next) := StepIntended(v, e, frames[0]);
      [m] + StepsIntended(v, next, frames[1..])
  }

  /** The intended estimator after handing it the first `k` frames of `frames`. */
  function AfterIntended<F>(v: Vision<F>, e: Estimator<F>, frames: seq<F>, k: nat): Estimator<F>
    requires k <= |frames|
    decreases k
  {
    if k == 0 then e else AfterIntended(v, StepIntended(v, e, frames[0]).1, frames[1..], k - 1)
  }

  /** Frame `k` of the intended run is one intended step from the estimator
      the first `k` frames left behind: its movement is that step's, and the
      estimator after it is that step's. */
  lemma {:induction false} StepsIntendedFollowAfter<F>(v: Vision<F>, e: Estimator<F>, frames: seq<F>, k: nat)
    requires k < |frames|
    ensures StepsIntended(v, e, frames)[k] == StepIntended(v, AfterIntended(v, e, frames, k), frames[k]).0
    ensures AfterIntended(v, e, frames, k + 1) == StepIntended(v, AfterIntended(v, e, frames, k), frames[k]).1
    decreases k
  {
    if k > 0 {
      StepsIntendedFollowAfter(v, StepIntended(v, e, frames[0]).1, frames[1..], k - 1);
      assert frames[1..][k - 1] == frames[k];
    }
  }

  /** In the intended run, a frame in which some feature moved more than the
      minimum distance records the first farthest feature's movement, and
      the features are re-detected on that frame. */
  lemma RunRedetectsAfterMove<F>(v: Vision<F>, e: Estimator<F>, frames: seq<F>, k: nat, j: nat)
    requires k < |frames|
    requires var pairs := FramePairs(v, AfterIntended(v, e, frames, k), frames[k]);
             j < |pairs| && PairDistance(v.distance, pairs[j]) > MinimumDistance
    ensures var pairs := FramePairs(v, AfterIntended(v, e, frames, k), frames[k]);
            StepsIntended(v, e, frames)[k] == PairMovement(pairs[FirstFarthestIndex(v.distance, pairs)])
    ensures AfterIntended(v, e, frames, k + 1) == Estimator(frames[k], v.detect(frames[k]))
  {
    StepsIntendedFollowAfter(v, e, frames, k);
    StepIntendedFollowsFarthest(v, AfterIntended(v, e, frames, k), frames[k], j);
  }

  /** In the intended run, a frame in which no feature moved more than the
      minimum distance records no movement and keeps the features. */
  lemma RunKeepsFeaturesWhenStill<F>(v: Vision<F>, e: Estimator<F>, frames: seq<F>, k: nat)
    requires k < |frames|
    requires var pairs := FramePairs(v, AfterIntended(v, e, frames, k), frames[k]);
             forall j :: 0 <= j < |pairs| ==> PairDistance(v.distance, pairs[j]) <= MinimumDistance
    ensures StepsIntended(v, e, frames)[k] == Still
    ensures AfterIntended(v, e, frames, k + 1) == Estimator(frames[k], AfterIntended(v, e, frames, k).features)
  {
    StepsIntendedFollowAfter(v, e, frames, k);
    StepIntendedStillWhenNothingMoved(v, AfterIntended(v, e, frames, k), frames[k]);
  }

  /** The per-frame movements as evidently intended. */
  function CameraMovementsIntended<F>(v: Vision<F>, frames: seq<F>): (r: Result<seq<Movement>, CameraError>)
    ensures r.Err? <==> |frames| == 0
    ensures r.Ok? ==> |r.value| == |frames| && r.value[0] == Still
  {
    if |frames| == 0 then Err(NoFrames)
    else Ok([Still] + StepsIntended(v, Estimator(frames[0], v.detect(frames[0])), frames[1..]))
  }

  /** A camera whose every frame shows one feature at the origin and whose
      flow slides every feature 10 pixels to the right. */
  function PanVision(distance: (Feature, Feature) -> real): (v: Vision<int>)
    ensures forall f :: v.detect(f) == [Feature(0.0, 0.0)]
  {
    Vision(
      (f: int) => [Feature(0.0, 0.0)],
      (a: int, b: int, fs: seq<Feature>) => seq(|fs|, i requires 0 <= i < |fs| => Feature(fs[i].x + 10.0, fs[i].y)),
      distance)
  }

  /** Two frames whose single feature slides 10 pixels to the right: the
      estimator as written reports no movement for the second frame, the
      intended one reports the pan (as origin minus moved point). */
  lemma PanIsMissed(distance: (Feature, Feature) -> real)
    requires distance(Feature(10.0, 0.0), Feature(0.0, 0.0)) == 10.0
    ensures CameraMovements(PanVision(distance), [0, 1]) == Ok([Still, Still])
    ensures CameraMovementsIntended(PanVision(distance), [0, 1]) == Ok([Still, Movement(-10.0, 0.0)])
  {
    var v := PanVision(distance);
    var e := Estimator(0, [Feature(0.0, 0.0)]);
    var pairs := FramePairs(v, e, 1);
    assert pairs == [(Feature(10.0, 0.0), Feature(0.0, 0.0))];
    StepNeverMoves(v, e, 1);
    assert ScanIntended(distance, pairs[..0], Start) == Start;
    assert ScanIntended(distance, pairs, Start) == Scan(10.0, Movement(-10.0, 0.0));
    assert StepIntended(v, e, 1).0 == Movement(-10.0, 0.0);
    assert e == Estimator(0, v.detect(0));
    assert [0, 1][1..] == [1];
    assert Steps(v, e, [1]) == [Still] + Steps(v, Step(v, e, 1).1, []);
    assert StepsIntended(v, e, [1]) == [Movement(-10.0, 0.0)] + StepsIntended(v, StepIntended(v, e, 1).1, []);
    assert Steps(v, e, [1]) == [Still];
    assert StepsIntended(v, e, [1]) == [Movement(-10.0, 0.0)];
    assert CameraMovements(v, [0, 1]) == Ok([Still] + Steps(v, e, [1]));
    assert CameraMovementsIntended(v, [0, 1]) == Ok([Still] + StepsIntended(v, e, [1]));
    assert [Still] + [Still] == [Still, Still];
    assert [Still] + [Movement(-10.0, 0.0)] == [Still, Movement(-10.0, 0.0)];
  }
}
