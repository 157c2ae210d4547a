/** Turning per-frame detections into per-frame maps of tracked players,
    referees and the ball. The detector and the multi-object tracker are
    external: detections arrive as data, and the tracker is an oracle
    function threaded with its own opaque state. */
module Tracker {
  import opened Wrappers
  import opened BoxUtils

  /** One detector output: a box and the detector's class id. */
  datatype Detection = Detection(box: Box, classId: int)

  /** One tracker output: a detection with the persistent id the tracker gave it. */
  datatype Tracked = Tracked(box: Box, classId: int, trackId: int)

  /** The items of the detector's class-name dictionary, in iteration order. */
  type ClassNames = seq<(int, string)>

  /** One frame of detector output with the class-name table that came with it. */
  datatype FrameDetections = FrameDetections(names: ClassNames, detections: seq<Detection>)

  /** The track store: for every frame, one map from id to box per kind of
      object. There is no separate collection for goalkeepers. */
  datatype Tracks = Tracks(
    players: seq<map<int, Box>>,
    referees: seq<map<int, Box>>,
    ball: seq<map<int, Box>>)

  /** A goalkeeper was detected but the class table has no "player" class,
      so the remapped class id would be `None`, which the integer class-id
      array rejects. */
  datatype TrackError = GoalkeeperWithoutPlayerClass

  /** The ball bypasses the tracker and is always stored under this key. */
  const BallKey: int := 1

  /** A dictionary's items never repeat a key. */
  ghost predicate DistinctKeys(names: ClassNames)
  {
    forall i, j :: 0 <= i < j < |names| ==> names[i].0 != names[j].0
  }

  /** `names.get(id)`: the name stored under `id`. */
  function NameOf(names: ClassNames, id: int): (r: Option<string>)
    ensures r.None? ==> forall i :: 0 <= i < |names| ==> names[i].0 != id
    ensures r.Some? ==> exists i :: 0 <= i < |names| && names[i] == (id, r.value)
    decreases |names|
  {
    if |names| == 0 then None
    else if names[|names| - 1].0 == id then Some(names[|names| - 1].1)
    else NameOf(names[..|names| - 1], id)
  }

  /** `{value: key for key, value in names.items()}.get(name)`: the inverted
      table, built in iteration order, so the last id carrying `name` wins. */
  function IdOf(names: ClassNames, name: string): (r: Option<int>)
    ensures r.None? ==> forall i :: 0 <= i < |names| ==> names[i].1 != name
    ensures r.Some? ==> exists i :: 0 <= i < |names| && names[i] == (r.value, name)
    decreases |names|
  {
    if |names| == 0 then None
    else if names[|names| - 1].1 == name then Some(names[|names| - 1].0)
    else IdOf(names[..|names| - 1], name)
  }

  /** In a table without repeated keys, the id found for a name is stored under that name. */
  lemma NameOfIdOf(names: ClassNames, name: string)
    requires DistinctKeys(names)
    requires IdOf(names, name).Some?
    ensures NameOf(names, IdOf(names, name).value) == Some(name)
  {
    var id := IdOf(names, name).value;
    var i :| 0 <= i < |names| && names[i] == (id, name);
    var j :| 0 <= j < |names| && names[j] == (id, NameOf(names, id).value);
    assert i == j;
  }

  /** Whether a class id is named "goalkeeper" in the class table. */
  predicate IsGoalkeeper(names: ClassNames, classId: int)
  {
    NameOf(names, classId) == Some("goalkeeper")
  }

  /** The frame holds a goalkeeper detection while its class table has no "player" class. */
  predicate GoalkeeperWithoutPlayer(f: FrameDetections)
  {
    && IdOf(f.names, "player").None?
    && exists i :: 0 <= i < |f.detections| && IsGoalkeeper(f.names, f.detections[i].classId)
  }

  /** A detection with a goalkeeper class relabelled with the table's player id, when there is one. */
  function Relabel(names: ClassNames, d: Detection): (r: Detection)
    ensures r.box == d.box
    ensures IsGoalkeeper(names, d.classId) && IdOf(names, "player").Some? ==> Some(r.classId) == IdOf(names, "player")
    ensures !IsGoalkeeper(names, d.classId) || IdOf(names, "player").None? ==> r == d
  {
    match IdOf(names, "player")
    case Some(player) => if IsGoalkeeper(names, d.classId) then d.(classId := player) else d
    case None => d
  }

  /** Every detection of a frame passed through `Relabel`, in order. */
  function RelabelAll(names: ClassNames, dets: seq<Detection>): (r: seq<Detection>)
    ensures |r| == |dets|
    ensures forall i :: 0 <= i < |dets| ==> r[i].box == dets[i].box
    ensures forall i :: 0 <= i < |dets| && IsGoalkeeper(names, dets[i].classId) && IdOf(names, "player").Some? ==>
              Some(r[i].classId) == IdOf(names, "player")
    ensures forall i :: 0 <= i < |dets| && (!IsGoalkeeper(names, dets[i].classId) || IdOf(names, "player").None?) ==>
              r[i] == dets[i]
  {
    seq(|dets|, i requires 0 <= i < |dets| => Relabel(names, dets[i]))
  }

  /** Relabels every goalkeeper detection with the player class id, in order,
      so that goalkeepers share the players' identity space; fails when a
      goalkeeper is present but the table has no player class. */
  function RemapGoalkeepers(names: ClassNames, dets: seq<Detection>): (r: Result<seq<Detection>, TrackError>)
    ensures r.Err? <==> GoalkeeperWithoutPlayer(FrameDetections(names, dets))
    ensures r.Ok? ==> |r.value| == |dets|
    ensures r.Ok? ==> forall i :: 0 <= i < |dets| ==> r.value[i].box == dets[i].box
    ensures r.Ok? ==> forall i :: 0 <= i < |dets| && IsGoalkeeper(names, dets[i].classId) ==>
                        Some(r.value[i].classId) == IdOf(names, "player")
    ensures r.Ok? ==> forall i :: 0 <= i < |dets| && !IsGoalkeeper(names, dets[i].classId) ==>
                        r.value[i] == dets[i]
  {
    if GoalkeeperWithoutPlayer(FrameDetections(names, dets)) then Err(GoalkeeperWithoutPlayerClass)
    else Ok(RelabelAll(names, dets))
  }

  /** Whether a tracked detection belongs to the class `cls` (never, when the
      class is absent from the table). */
  predicate OfClass(t: Tracked, cls: Option<int>)
  {
    cls == Some(t.classId)
  }

  /** The position of the last entry of class `cls` carrying track id `k`, if any. */
  function LastWithId(ts: seq<Tracked>, cls: Option<int>, k: int): (r: Option<nat>)
    ensures r.Some? ==> r.value < |ts| && OfClass(ts[r.value], cls) && ts[r.value].trackId == k
    ensures r.Some? ==> forall j :: r.value < j < |ts| ==> !(OfClass(ts[j], cls) && ts[j].trackId == k)
    ensures r.None? ==> forall j :: 0 <= j < |ts| ==> !(OfClass(ts[j], cls) && ts[j].trackId == k)
    decreases |ts|
  {
    if |ts| == 0 then None
    else if OfClass(ts[|ts| - 1], cls) && ts[|ts| - 1].trackId == k then Some(|ts| - 1)
    else LastWithId(ts[..|ts| - 1], cls, k)
  }

  /** Inserts the tracked detections of class `cls` into a map keyed by track
      id, in order, so that a later detection overwrites an earlier one with
      the same id: the keys are exactly the ids carried by entries of the
      class, and each key holds the box of the last such entry. */
  function ClassTracks(ts: seq<Tracked>, cls: Option<int>): (m: map<int, Box>)
    ensures forall k :: k in m <==> LastWithId(ts, cls, k).Some?
    ensures forall k :: k in m ==> m[k] == ts[LastWithId(ts, cls, k).value].box
    decreases |ts|
  {
    if |ts| == 0 then map[]
    else
      var m := ClassTracks(ts[..|ts| - 1], cls);
      var t := ts[|ts| - 1];
      if OfClass(t, cls) then m[t.trackId := t.box] else m
  }

  /** The frame's detections keyed by the fixed ball key, as the tracker would
      report them if it gave every detection that key. */
  function AsBallKeyed(dets: seq<Detection>): (ts: seq<Tracked>)
    ensures |ts| == |dets|
    ensures forall i :: 0 <= i < |dets| ==> ts[i] == Tracked(dets[i].box, dets[i].classId, BallKey)
  {
    seq(|dets|, i requires 0 <= i < |dets| => Tracked(dets[i].box, dets[i].classId, BallKey))
  }

  /** Whether a detection has the ball class of the table. */
  predicate IsBall(names: ClassNames, d: Detection)
  {
    IdOf(names, "ball") == Some(d.classId)
  }

  /** The frame's ball map, built from the untracked detections: every ball
      detection is written under the ball key, so the last one wins. */
  function BallMap(names: ClassNames, dets: seq<Detection>): (m: map<int, Box>)
    ensures m.Keys <= {BallKey}
    ensures BallKey in m <==> exists i :: 0 <= i < |dets| && IsBall(names, dets[i])
    ensures BallKey in m ==>
              exists i :: && 0 <= i < |dets| && IsBall(names, dets[i]) && m[BallKey] == dets[i].box
                          && forall j :: i < j < |dets| ==> !IsBall(names, dets[j])
  {
    var ts := AsBallKeyed(dets);
    var m := ClassTracks(ts, IdOf(names, "ball"));
    assert forall i :: 0 <= i < |dets| ==> (IsBall(names, dets[i]) <==> OfClass(ts[i], IdOf(names, "ball")));
    assert m.Keys <= {BallKey} by {
      forall k | k in m
        ensures k == BallKey
      {
        var i := LastWithId(ts, IdOf(names, "ball"), k).value;
      }
    }
    m
  }

  /** Entries that agree on membership of class `cls` and, where they belong
      to it, on box and track id, insert the same map. */
  lemma {:induction false} ClassTracksAgree(ts1: seq<Tracked>, ts2: seq<Tracked>, cls: Option<int>)
    requires |ts1| == |ts2|
    requires forall i :: 0 <= i < |ts1| ==> (OfClass(ts1[i], cls) <==> OfClass(ts2[i], cls))
    requires forall i :: 0 <= i < |ts1| && OfClass(ts1[i], cls) ==>
               ts1[i].box == ts2[i].box && ts1[i].trackId == ts2[i].trackId
    ensures ClassTracks(ts1, cls) == ClassTracks(ts2, cls)
    decreases |ts1|
  {
    if |ts1| > 0 {
      var n := |ts1| - 1;
      ClassTracksAgree(ts1[..n], ts2[..n], cls);
    }
  }

  /** The goalkeeper relabelling never touches ball detections, so the ball
      map is the same before and after it. */
  lemma BallMapIgnoresRelabel(names: ClassNames, dets: seq<Detection>)
    requires DistinctKeys(names)
    ensures BallMap(names, RelabelAll(names, dets)) == BallMap(names, dets)
  {
    var ball := IdOf(names, "ball");
    var ts1 := AsBallKeyed(RelabelAll(names, dets));
    var ts2 := AsBallKeyed(dets);
    forall i | 0 <= i < |ts1|
      ensures OfClass(ts1[i], ball) <==> OfClass(ts2[i], ball)
    {
      if IsGoalkeeper(names, dets[i].classId) && ball.Some? && IdOf(names, "player").Some? {
        NameOfIdOf(names, "ball");
        NameOfIdOf(names, "player");
      }
    }
    ClassTracksAgree(ts1, ts2, ball);
  }

  /** The relabelled detections of every frame, as they are handed to the tracker. */
  function TrackerInputs(frames: seq<FrameDetections>): (r: seq<seq<Detection>>)
    ensures |r| == |frames|
    ensures forall i :: 0 <= i < |frames| ==> r[i] == RelabelAll(frames[i].names, frames[i].detections)
  {
    seq(|frames|, i requires 0 <= i < |frames| => RelabelAll(frames[i].names, frames[i].detections))
  }

  /** The tracker state when frame `i` of `inputs` is handed to the tracker. */
  function StateBefore<S>(inputs: seq<seq<Detection>>, state: S, update: (S, seq<Detection>) -> (S, seq<Tracked>), i: nat): S
    requires i <= |inputs|
    decreases i
  {
    if i == 0 then state else StateBefore(inputs[1..], update(state, inputs[0]).0, update, i - 1)
  }

  /** What the tracker returns for frame `i` of `inputs`. */
  function TrackerOutput<S>(inputs: seq<seq<Detection>>, state: S, update: (S, seq<Detection>) -> (S, seq<Tracked>), i: nat): seq<Tracked>
    requires i < |inputs|
  {
    update(StateBefore(inputs, state, update, i), inputs[i]).1
  }

  /** The per-frame loop once no frame can fail: relabel goalkeepers, hand the
      frame to the tracker, key players and referees by the tracker's ids,
      and key the ball (taken from the untracked detections) by `BallKey`. */
  function TrackFrames<S>(frames: seq<FrameDetections>, state: S, update: (S, seq<Detection>) -> (S, seq<Tracked>)): (t: Tracks)
    ensures |t.players| == |frames| && |t.referees| == |frames| && |t.ball| == |frames|
    decreases |frames|
  {
    if |frames| == 0 then Tracks([], [], [])
    else
      var f := frames[0];
      var remapped := RelabelAll(f.names, f.detections);
      var (next, tracked) := update(state, remapped);
      var players := ClassTracks(tracked, IdOf(f.names, "player"));
      var referees := ClassTracks(tracked, IdOf(f.names, "referee"));
      var ball := BallMap(f.names, remapped);
      var rest := TrackFrames(frames[1..], next, update);
      Tracks([players] + rest.players, [referees] + rest.referees, [ball] + rest.ball)
  }

  /** Builds the track store: the first frame with a goalkeeper but no player
      class stops the whole run; otherwise every frame gets its three maps. */
  function GetObjectTracks<S>(frames: seq<FrameDetections>, state: S, update: (S, seq<Detection>) -> (S, seq<Tracked>)): (r: Result<Tracks, TrackError>)
    ensures r.Err? <==> exists i :: 0 <= i < |frames| && GoalkeeperWithoutPlayer(frames[i])
    ensures r.Ok? ==> |r.value.players| == |frames| && |r.value.referees| == |frames| && |r.value.ball| == |frames|
  {
    if exists i :: 0 <= i < |frames| && GoalkeeperWithoutPlayer(frames[i]) then Err(GoalkeeperWithoutPlayerClass)
    else Ok(TrackFrames(frames, state, update))
  }

  /** On a successful run, the detections each frame hands to the tracker
      are exactly that frame's goalkeeper remap. */
  lemma TrackerInputsAreRemapped<S>(frames: seq<FrameDetections>, state: S, update: (S, seq<Detection>) -> (S, seq<Tracked>), i: nat)
    requires GetObjectTracks(frames, state, update).Ok?
    requires i < |frames|
    ensures RemapGoalkeepers(frames[i].names, frames[i].detections).Ok?
    ensures TrackerInputs(frames)[i] == RemapGoalkeepers(frames[i].names, frames[i].detections).value
  {
    assert !GoalkeeperWithoutPlayer(frames[i]);
    assert frames[i] == FrameDetections(frames[i].names, frames[i].detections);
  }

  /** Frame `i` of the loop: its players and referees maps are what inserting
      the tracker's output for that frame by class yields, and its ball map
      is built from that frame's relabelled detections. */
  lemma {:induction false} TrackFramesFollowTracker<S>(frames: seq<FrameDetections>, state: S, update: (S, seq<Detection>) -> (S, seq<Tracked>), i: nat)
    requires i < |frames|
    ensures var t := TrackFrames(frames, state, update);
            var out := TrackerOutput(TrackerInputs(frames), state, update, i);
            && t.players[i] == ClassTracks(out, IdOf(frames[i].names, "player"))
            && t.referees[i] == ClassTracks(out, IdOf(frames[i].names, "referee"))
            && t.ball[i] == BallMap(frames[i].names, TrackerInputs(frames)[i])
    decreases i
  {
    var rs := TrackerInputs(frames);
    var t := TrackFrames(frames, state, update);
    var next := update(state, rs[0]).0;
    var rest := TrackFrames(frames[1..], next, update);
    assert t.players == [ClassTracks(update(state, rs[0]).1, IdOf(frames[0].names, "player"))] + rest.players;
    assert t.referees == [ClassTracks(update(state, rs[0]).1, IdOf(frames[0].names, "referee"))] + rest.referees;
    assert t.ball == [BallMap(frames[0].names, rs[0])] + rest.ball;
    if i > 0 {
      TrackFramesFollowTracker(frames[1..], next, update, i - 1);
      assert frames[1..][i - 1] == frames[i];
      assert TrackerInputs(frames[1..]) == rs[1..];
      assert TrackerOutput(rs, state, update, i) == TrackerOutput(rs[1..], next, update, i - 1);
    }
  }

  /** The players and referees maps of every frame are exactly what inserting
      that frame's tracker output by class yields. */
  lemma TracksFollowTracker<S>(frames: seq<FrameDetections>, state: S, update: (S, seq<Detection>) -> (S, seq<Tracked>), i: nat)
    requires GetObjectTracks(frames, state, update).Ok?
    requires i < |frames|
    ensures var t := GetObjectTracks(frames, state, update).value;
            var out := TrackerOutput(TrackerInputs(frames), state, update, i);
            && t.players[i] == ClassTracks(out, IdOf(frames[i].names, "player"))
            && t.referees[i] == ClassTracks(out, IdOf(frames[i].names, "referee"))
  {
    TrackFramesFollowTracker(frames, state, update, i);
  }

  /** No frame's class table repeats a key. */
  ghost predicate TablesDistinctKeys(frames: seq<FrameDetections>)
  {
    forall i :: 0 <= i < |frames| ==> DistinctKeys(frames[i].names)
  }

  /** The ball map of every frame is built from the frame's own detections,
      whichever way the goalkeepers were relabelled: the ball is stored under
      `BallKey` exactly when the frame has a ball detection, with the box of
      the last one. */
  lemma BallFromDetections<S>(frames: seq<FrameDetections>, state: S, update: (S, seq<Detection>) -> (S, seq<Tracked>), i: nat)
    requires TablesDistinctKeys(frames)
    requires GetObjectTracks(frames, state, update).Ok?
    requires i < |frames|
    ensures GetObjectTracks(frames, state, update).value.ball[i] == BallMap(frames[i].names, frames[i].detections)
  {
    TrackFramesFollowTracker(frames, state, update, i);
    BallMapIgnoresRelabel(frames[i].names, frames[i].detections);
  }

  /** The tracker reports no objects for a frame without detections. */
  ghost predicate QuietOnEmpty<S(!new)>(update: (S, seq<Detection>) -> (S, seq<Tracked>))
  {
    forall s :: update(s, []).1 == []
  }

  /** Every entry of `out` has the box and class of some entry of `ds`. */
  ghost predicate RepeatsInputs(ds: seq<Detection>, out: seq<Tracked>)
  {
    forall n :: 0 <= n < |out| ==>
      exists j :: 0 <= j < |ds| && ds[j].box == out[n].box && ds[j].classId == out[n].classId
  }

  /** The tracker only reports detections it was given, with box and class unchanged. */
  ghost predicate ReportsOnlyInputs<S(!new)>(update: (S, seq<Detection>) -> (S, seq<Tracked>))
  {
    forall s: S, ds: seq<Detection> :: RepeatsInputs(ds, update(s, ds).1)
  }

  /** A frame with no detections yields empty players, referees and ball maps. */
  lemma EmptyFrameGivesEmptyMaps<S(!new)>(frames: seq<FrameDetections>, state: S, update: (S, seq<Detection>) -> (S, seq<Tracked>), i: nat)
    requires QuietOnEmpty(update)
    requires GetObjectTracks(frames, state, update).Ok?
    requires i < |frames| && frames[i].detections == []
    ensures GetObjectTracks(frames, state, update).value.players[i] == map[]
    ensures GetObjectTracks(frames, state, update).value.referees[i] == map[]
    ensures GetObjectTracks(frames, state, update).value.ball[i] == map[]
  {
    TrackFramesFollowTracker(frames, state, update, i);
    var rs := TrackerInputs(frames);
    assert rs[i] == [];
    assert TrackerOutput(rs, state, update, i) == [];
  }

  /** Within one frame: if the tracker output only repeats relabelled
      detections, every player box comes from a "player" or "goalkeeper" detection. */
  lemma PlayerBoxFromDetection(names: ClassNames, dets: seq<Detection>, out: seq<Tracked>, k: int)
    requires DistinctKeys(names)
    requires RepeatsInputs(RelabelAll(names, dets), out)
    requires k in ClassTracks(out, IdOf(names, "player"))
    ensures exists j :: && 0 <= j < |dets|
                        && dets[j].box == ClassTracks(out, IdOf(names, "player"))[k]
                        && NameOf(names, dets[j].classId) in {Some("player"), Some("goalkeeper")}
  {
    var remapped := RelabelAll(names, dets);
    var player := IdOf(names, "player");
    var n := LastWithId(out, player, k).value;
    var j :| 0 <= j < |remapped| && remapped[j].box == out[n].box && remapped[j].classId == out[n].classId;
    if !IsGoalkeeper(names, dets[j].classId) {
      NameOfIdOf(names, "player");
    }
  }

  /** Every box in a frame's players map is the box of one of that frame's
      detections whose class is "player" or "goalkeeper": goalkeepers are
      tracked as players and have no collection of their own. */
  lemma PlayersAreOutfieldOrGoalkeepers<S(!new)>(frames: seq<FrameDetections>, state: S, update: (S, seq<Detection>) -> (S, seq<Tracked>), i: nat, k: int)
    requires TablesDistinctKeys(frames)
    requires ReportsOnlyInputs(update)
    requires GetObjectTracks(frames, state, update).Ok?
    requires i < |frames| && k in GetObjectTracks(frames, state, update).value.players[i]
    ensures exists j :: && 0 <= j < |frames[i].detections|
                        && frames[i].detections[j].box == GetObjectTracks(frames, state, update).value.players[i][k]
                        && NameOf(frames[i].names, frames[i].detections[j].classId) in {Some("player"), Some("goalkeeper")}
  {
    TrackFramesFollowTracker(frames, state, update, i);
    var rs := TrackerInputs(frames);
    var st := StateBefore(rs, state, update, i);
    var out := TrackerOutput(rs, state, update, i);
    assert out == update(st, rs[i]).1;
    PlayerBoxFromDetection(frames[i].names, frames[i].detections, out, k);
  }
}
