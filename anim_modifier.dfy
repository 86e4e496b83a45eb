/** The animation modifier: rescales every bone track of an animation sequence
    about the reference pose, optionally turns the root bone, and optionally
    re-expresses the root motion relative to the start bone.

    The animation's data model is one mutable store of bone tracks, read by
    GetBoneTrackTransforms and overwritten by SetBoneTrackKeys; both passes go
    through it, so the second pass sees the root track the first pass wrote. */
module AnimModifier {
  import opened TransformAlgebra

  /** UE_KINDA_SMALL_NUMBER. */
  const KindaSmallNumber: real := 0.0001

  /** The declared default of ModifyAnimation's Scale parameter, and the value a
      too-small scale is replaced with. */
  const DefaultScale: real := 0.0254

  /** FRotator(0, 0, -90): a roll of -90 degrees about the X axis. */
  const UnrotateRootRotator: Rotator := Rotator(0.0, 0.0, -90.0)

  /** The scale guard of ModifyAnimation: a scale below KindaSmallNumber is
      replaced by the default, any other scale is kept. */
  function EffectiveScale(scale: real): (r: real)
    ensures r >= KindaSmallNumber
    ensures r == scale || r == DefaultScale
    ensures scale >= KindaSmallNumber ==> r == scale
  {
    if scale < KindaSmallNumber then DefaultScale else scale
  }

  /** Guarding a guarded scale changes nothing. */
  lemma EffectiveScaleIdempotent(scale: real)
    ensures EffectiveScale(EffectiveScale(scale)) == EffectiveScale(scale)
  {
  }

  /** A bone of the reference skeleton: its name and reference pose. */
  datatype Bone<V, Q> = Bone(name: string, refPose: Transform<V, Q>)

  type Track<V, Q> = seq<Transform<V, Q>>

  /** The names of the bones, in skeleton order. */
  function Names<V, Q>(bones: seq<Bone<V, Q>>): (names: seq<string>)
    ensures |names| == |bones|
    ensures forall j :: 0 <= j < |bones| ==> names[j] == bones[j].name
  {
    seq(|bones|, j requires 0 <= j < |bones| => bones[j].name)
  }

  /** No two bones share a name, as in a reference skeleton. */
  ghost predicate DistinctNames<V, Q>(bones: seq<Bone<V, Q>>) {
    forall i, j :: 0 <= i < j < |bones| ==> bones[i].name != bones[j].name
  }

  /** Every bone has a track of keyNum keys: what the unchecked indexing of the
      tracks relies on. */
  ghost predicate TracksReady<V, Q>(tracks: map<string, Track<V, Q>>, bones: seq<Bone<V, Q>>, keyNum: nat) {
    forall j :: 0 <= j < |bones| ==> bones[j].name in tracks && |tracks[bones[j].name]| == keyNum
  }

  /** The rotation that turns the root bone. */
  function RootFix<V, Q>(alg: Algebra<V, Q>): Q {
    alg.rotatorQuat(UnrotateRootRotator)
  }

  /** The scaled location of a key: the reference location moved along the
      direction of the key's offset from it, by the offset's length times scale. */
  function ScaledLocation<V, Q>(alg: Algebra<V, Q>, refLocation: V, animLocation: V, scale: real): V {
    var delta := alg.sub(animLocation, refLocation);
    alg.add(refLocation, alg.scale(alg.safeNormal(delta), alg.mul(alg.length(delta), scale)))
  }

  /** A key at its reference location stays there, whatever the scale. */
  lemma ScaledLocationAtReference<V(!new), Q>(alg: Algebra<V, Q>, refLocation: V, scale: real)
    requires ZeroLaws(alg)
    ensures ScaledLocation(alg, refLocation, refLocation, scale) == refLocation
  {
    var delta := alg.sub(refLocation, refLocation);
    var amount: real := alg.mul(alg.length(delta), scale);
    assert alg.safeNormal(delta) == alg.zero;
    assert alg.scale(alg.zero, amount) == alg.zero;
  }

  /** One key of the first pass: the scaled location, the rotation (turned by
      RootFix when unrotate holds) and the original scale. */
  function ScaledKey<V, Q>(alg: Algebra<V, Q>, refPose: Transform<V, Q>, original: Transform<V, Q>,
                           scale: real, unrotate: bool): Transform<V, Q> {
    Transform(ScaledLocation(alg, refPose.location, original.location, scale),
              if unrotate then alg.quatMul(RootFix(alg), original.rotation) else original.rotation,
              original.scale3D)
  }

  /** The track the first pass writes for one bone, key by key. */
  function ScaledTrack<V, Q>(alg: Algebra<V, Q>, refPose: Transform<V, Q>, track: Track<V, Q>,
                             scale: real, unrotate: bool): (r: Track<V, Q>)
    ensures |r| == |track|
  {
    seq(|track|, k requires 0 <= k < |track| => ScaledKey(alg, refPose, track[k], scale, unrotate))
  }

  /** The key policy of the first pass: the location of every key is the scaled
      location whatever the flags, the scale is the original one, and the
      rotation is the original one unless the track is turned. */
  lemma ScaledTrackKeys<V, Q>(alg: Algebra<V, Q>, refPose: Transform<V, Q>, track: Track<V, Q>, scale: real,
                              unrotate: bool, k: nat)
    requires k < |track|
    ensures ScaledTrack(alg, refPose, track, scale, unrotate)[k].location
         == ScaledTrack(alg, refPose, track, scale, !unrotate)[k].location
         == ScaledLocation(alg, refPose.location, track[k].location, scale)
    ensures ScaledTrack(alg, refPose, track, scale, unrotate)[k].scale3D == track[k].scale3D
    ensures !unrotate ==> ScaledTrack(alg, refPose, track, scale, unrotate)[k].rotation == track[k].rotation
    ensures unrotate ==>
              ScaledTrack(alg, refPose, track, scale, unrotate)[k].rotation
              == alg.quatMul(alg.rotatorQuat(UnrotateRootRotator), track[k].rotation)
  {
  }

  /** One bone's contribution to the root-relative start transforms: every key
      is composed with the bone's written key on the left. */
  function Accumulate<V, Q>(alg: Algebra<V, Q>, rootRelativeStart: seq<Transform<V, Q>>, written: Track<V, Q>)
    : (r: seq<Transform<V, Q>>)
    requires |written| == |rootRelativeStart|
    ensures |r| == |rootRelativeStart|
  {
    seq(|rootRelativeStart|, k requires 0 <= k < |rootRelativeStart| => alg.compose(written[k], rootRelativeStart[k]))
  }

  /** The state the first pass works on: the track store and the root-relative
      start transforms (empty unless bStart). */
  datatype Pass1State<V, Q> = Pass1State(tracks: map<string, Track<V, Q>>, rootRelativeStart: seq<Transform<V, Q>>)

  /** The start transforms before the first pass: keyNum identities when bStart,
      none otherwise. */
  function InitialStart<V, Q>(alg: Algebra<V, Q>, keyNum: nat, bStart: bool): (r: seq<Transform<V, Q>>)
    ensures |r| == if bStart then keyNum else 0
  {
    if bStart then seq(keyNum, _ => alg.identity) else []
  }

  /** The first pass on bone number boneIdx: rewrite the bone's track as it is
      in the store, and fold the written keys into the start transforms for the
      first three bones when bStart. */
  function Pass1Step<V, Q>(alg: Algebra<V, Q>, st: Pass1State<V, Q>, bone: Bone<V, Q>, boneIdx: nat,
                           scale: real, bUnrotateRootBone: bool, bStart: bool): Pass1State<V, Q>
    requires bone.name in st.tracks
    requires bStart ==> |st.rootRelativeStart| == |st.tracks[bone.name]|
  {
    var written := ScaledTrack(alg, bone.refPose, st.tracks[bone.name], scale, bUnrotateRootBone && boneIdx == 0);
    Pass1State(st.tracks[bone.name := written],
               if bStart && boneIdx < 3 then Accumulate(alg, st.rootRelativeStart, written) else st.rootRelativeStart)
  }

  /** The first pass over the bones in skeleton order. It keeps the set of
      tracks and the length of every track. */
  function Pass1<V, Q>(alg: Algebra<V, Q>, tracks: map<string, Track<V, Q>>, bones: seq<Bone<V, Q>>, keyNum: nat,
                       scale: real, bUnrotateRootBone: bool, bStart: bool): (r: Pass1State<V, Q>)
    requires TracksReady(tracks, bones, keyNum)
    ensures r.tracks.Keys == tracks.Keys
    ensures forall name :: name in tracks ==> |r.tracks[name]| == |tracks[name]|
    ensures |r.rootRelativeStart| == if bStart then keyNum else 0
    decreases |bones|
  {
    if bones == [] then Pass1State(tracks, InitialStart(alg, keyNum, bStart))
    else
      var i := |bones| - 1;
      var prev := Pass1(alg, tracks, bones[..i], keyNum, scale, bUnrotateRootBone, bStart);
      Pass1Step(alg, prev, bones[i], i, scale, bUnrotateRootBone, bStart)
  }

  /** One key of the second pass: the root key's offset from the start
      transform, and its rotation, both turned by the inverse orientation of the
      start transform's X axis; the scale is kept. */
  function RootMotionKey<V, Q>(alg: Algebra<V, Q>, rootKey: Transform<V, Q>, start: Transform<V, Q>): Transform<V, Q> {
    var q := alg.inverse(alg.orientationQuat(alg.axisX(start.rotation)));
    Transform(alg.rotateVector(q, alg.sub(rootKey.location, start.location)),
              alg.quatMul(q, rootKey.rotation),
              rootKey.scale3D)
  }

  /** The root track the second pass writes. */
  function RootMotionTrack<V, Q>(alg: Algebra<V, Q>, rootTrack: Track<V, Q>, rootRelativeStart: seq<Transform<V, Q>>)
    : (r: Track<V, Q>)
    requires |rootTrack| == |rootRelativeStart|
    ensures |r| == |rootTrack|
  {
    seq(|rootTrack|, k requires 0 <= k < |rootTrack| => RootMotionKey(alg, rootTrack[k], rootRelativeStart[k]))
  }

  /** The track store after ModifyAnimation_Internal: unchanged without bones;
      otherwise the first pass, then, when bStart, the second pass over the
      root track as the first pass left it. */
  function FinalTracks<V, Q>(alg: Algebra<V, Q>, tracks: map<string, Track<V, Q>>, bones: seq<Bone<V, Q>>, keyNum: nat,
                             scale: real, bUnrotateRootBone: bool, bStart: bool): (r: map<string, Track<V, Q>>)
    requires TracksReady(tracks, bones, keyNum)
    ensures r.Keys == tracks.Keys
    ensures |bones| < 1 ==> r == tracks
  {
    if |bones| < 1 then tracks
    else
      var p := Pass1(alg, tracks, bones, keyNum, scale, bUnrotateRootBone, bStart);
      if bStart then p.tracks[bones[0].name := RootMotionTrack(alg, p.tracks[bones[0].name], p.rootRelativeStart)]
      else p.tracks
  }

  /** The bone names SetBoneTrackKeys is called with, in order. */
  function WriteLog<V, Q>(bones: seq<Bone<V, Q>>, bStart: bool): seq<string> {
    if |bones| < 1 then [] else Names(bones) + (if bStart then [bones[0].name] else [])
  }

  /* ---------- What the rewrite computes, bone by bone ---------- */

  /** The bones the start transforms accumulate: the first three (root, delta
      and start bone), or all of them when there are fewer. */
  function StartBones<V, Q>(bones: seq<Bone<V, Q>>): (r: seq<Bone<V, Q>>)
    ensures |r| == if |bones| < 3 then |bones| else 3
    ensures r == bones[..|r|]
  {
    if |bones| < 3 then bones else bones[..3]
  }

  /** ts[n-1] * ... * ts[0] * Identity: the transform of the last bone of a
      parent chain in the space the identity stands for. */
  function ComposeChain<V, Q>(alg: Algebra<V, Q>, ts: seq<Transform<V, Q>>): Transform<V, Q> {
    if ts == [] then alg.identity else alg.compose(ts[|ts| - 1], ComposeChain(alg, ts[..|ts| - 1]))
  }

  /** The scaled key number k of each start bone, computed from the original
      tracks. */
  ghost function StartKeys<V, Q>(alg: Algebra<V, Q>, tracks: map<string, Track<V, Q>>, bones: seq<Bone<V, Q>>,
                                 keyNum: nat, scale: real, bUnrotateRootBone: bool, k: nat): (r: seq<Transform<V, Q>>)
    requires TracksReady(tracks, bones, keyNum) && k < keyNum
    ensures |r| == |StartBones(bones)|
  {
    var sb := StartBones(bones);
    seq(|sb|, j requires 0 <= j < |sb| =>
      ScaledKey(alg, sb[j].refPose, tracks[sb[j].name][k], scale, bUnrotateRootBone && j == 0))
  }

  /** The reference definition of the start transforms: for each
      key, the chain of the scaled start bones. */
  ghost function StartTransforms<V, Q>(alg: Algebra<V, Q>, tracks: map<string, Track<V, Q>>, bones: seq<Bone<V, Q>>,
                                       keyNum: nat, scale: real, bUnrotateRootBone: bool): (r: seq<Transform<V, Q>>)
    requires TracksReady(tracks, bones, keyNum)
    ensures |r| == keyNum
  {
    seq(keyNum, k requires 0 <= k < keyNum => ComposeChain(alg, StartKeys(alg, tracks, bones, keyNum, scale, bUnrotateRootBone, k)))
  }

  /** A bone name does not occur among the names of the bones before it. */
  lemma NotInEarlierNames<V, Q>(bones: seq<Bone<V, Q>>, i: nat)
    requires DistinctNames(bones) && i < |bones|
    ensures bones[i].name !in Names(bones[..i])
  {
  }

  /** The first pass over a non-empty list of bones, as the first pass over
      all bones but the last followed by the last bone's step, spelled out. */
  lemma Pass1Last<V, Q>(alg: Algebra<V, Q>, tracks: map<string, Track<V, Q>>, bones: seq<Bone<V, Q>>, keyNum: nat,
                        scale: real, bUnrotateRootBone: bool, bStart: bool)
    requires TracksReady(tracks, bones, keyNum) && bones != []
    ensures TracksReady(tracks, bones[..|bones| - 1], keyNum)
    ensures var i := |bones| - 1;
      var prev := Pass1(alg, tracks, bones[..i], keyNum, scale, bUnrotateRootBone, bStart);
      var p := Pass1(alg, tracks, bones, keyNum, scale, bUnrotateRootBone, bStart);
      && bones[i].name in prev.tracks
      && |prev.tracks[bones[i].name]| == keyNum
      && var written := ScaledTrack(alg, bones[i].refPose, prev.tracks[bones[i].name], scale, bUnrotateRootBone && i == 0);
      && p.tracks == prev.tracks[bones[i].name := written]
      && p.rootRelativeStart
         == if bStart && i < 3 then Accumulate(alg, prev.rootRelativeStart, written) else prev.rootRelativeStart
  {
    Pass1Snoc(alg, tracks, bones, keyNum, scale, bUnrotateRootBone, bStart, |bones| - 1);
    assert bones[..|bones|] == bones;
  }

  /** The first pass leaves every track that belongs to no bone as it was. */
  lemma {:induction false} Pass1Untouched<V, Q>(alg: Algebra<V, Q>, tracks: map<string, Track<V, Q>>,
                                                bones: seq<Bone<V, Q>>, keyNum: nat, scale: real,
                                                bUnrotateRootBone: bool, bStart: bool)
    requires TracksReady(tracks, bones, keyNum)
    ensures forall name :: name in tracks && name !in Names(bones) ==>
      Pass1(alg, tracks, bones, keyNum, scale, bUnrotateRootBone, bStart).tracks[name] == tracks[name]
    decreases |bones|
  {
    if bones != [] {
      var i := |bones| - 1;
      var pre := bones[..i];
      Pass1Last(alg, tracks, bones, keyNum, scale, bUnrotateRootBone, bStart);
      Pass1Untouched(alg, tracks, pre, keyNum, scale, bUnrotateRootBone, bStart);
      var prev := Pass1(alg, tracks, pre, keyNum, scale, bUnrotateRootBone, bStart).tracks;
      var p := Pass1(alg, tracks, bones, keyNum, scale, bUnrotateRootBone, bStart).tracks;
      forall name | name in tracks && name !in Names(bones)
        ensures p[name] == tracks[name]
      {
        assert name != Names(bones)[i];
        assert name !in Names(pre);
      }
    }
  }

  /** The induction step of Pass1Tracks, on plain track stores. */
  lemma TracksStep<V, Q>(alg: Algebra<V, Q>, tracks: map<string, Track<V, Q>>, bones: seq<Bone<V, Q>>,
                         scale: real, bUnrotateRootBone: bool,
                         prevTracks: map<string, Track<V, Q>>, nextTracks: map<string, Track<V, Q>>)
    requires bones != [] && DistinctNames(bones)
    requires forall j :: 0 <= j < |bones| ==> bones[j].name in tracks
    requires prevTracks.Keys == tracks.Keys
    requires var pre := bones[..|bones| - 1];
      forall j :: 0 <= j < |pre| ==>
        prevTracks[pre[j].name] == ScaledTrack(alg, pre[j].refPose, tracks[pre[j].name], scale, bUnrotateRootBone && j == 0)
    requires var last := bones[|bones| - 1];
      && prevTracks[last.name] == tracks[last.name]
      && nextTracks == prevTracks[last.name := ScaledTrack(alg, last.refPose, tracks[last.name], scale,
                                                             bUnrotateRootBone && |bones| - 1 == 0)]
    ensures forall j :: 0 <= j < |bones| ==>
      nextTracks[bones[j].name] == ScaledTrack(alg, bones[j].refPose, tracks[bones[j].name], scale, bUnrotateRootBone && j == 0)
  {
    var i := |bones| - 1;
    forall j | 0 <= j < |bones|
      ensures nextTracks[bones[j].name]
           == ScaledTrack(alg, bones[j].refPose, tracks[bones[j].name], scale, bUnrotateRootBone && j == 0)
    {
      if j < i {
        assert bones[..i][j] == bones[j];
        assert bones[j].name != bones[i].name;
      }
    }
  }

  /** With distinct bone names, the first pass leaves each bone's track as
      the scaled original track of that bone, turned when it is the root and
      unrotate holds. */
  lemma {:induction false} Pass1Tracks<V, Q>(alg: Algebra<V, Q>, tracks: map<string, Track<V, Q>>, bones: seq<Bone<V, Q>>,
                                             keyNum: nat, scale: real, bUnrotateRootBone: bool, bStart: bool)
    requires TracksReady(tracks, bones, keyNum) && DistinctNames(bones)
    ensures forall j :: 0 <= j < |bones| ==>
      Pass1(alg, tracks, bones, keyNum, scale, bUnrotateRootBone, bStart).tracks[bones[j].name]
      == ScaledTrack(alg, bones[j].refPose, tracks[bones[j].name], scale, bUnrotateRootBone && j == 0)
    decreases |bones|
  {
    if bones != [] {
      var pre := bones[..|bones| - 1];
      Pass1Last(alg, tracks, bones, keyNum, scale, bUnrotateRootBone, bStart);
      assert DistinctNames(pre);
      Pass1Tracks(alg, tracks, pre, keyNum, scale, bUnrotateRootBone, bStart);
      Pass1Untouched(alg, tracks, pre, keyNum, scale, bUnrotateRootBone, bStart);
      NotInEarlierNames(bones, |bones| - 1);
      TracksStep(alg, tracks, bones, scale, bUnrotateRootBone,
                 Pass1(alg, tracks, pre, keyNum, scale, bUnrotateRootBone, bStart).tracks,
                 Pass1(alg, tracks, bones, keyNum, scale, bUnrotateRootBone, bStart).tracks);
    }
  }

  /** The induction step of Pass1Start, on plain start transforms. */
  lemma StartStep<V, Q>(alg: Algebra<V, Q>, tracks: map<string, Track<V, Q>>, bones: seq<Bone<V, Q>>, keyNum: nat,
                        scale: real, bUnrotateRootBone: bool,
                        prevStart: seq<Transform<V, Q>>, nextStart: seq<Transform<V, Q>>)
    requires TracksReady(tracks, bones, keyNum) && bones != []
    requires prevStart == StartTransforms(alg, tracks, bones[..|bones| - 1], keyNum, scale, bUnrotateRootBone)
    requires var i := |bones| - 1;
      var written := ScaledTrack(alg, bones[i].refPose, tracks[bones[i].name], scale, bUnrotateRootBone && i == 0);
      nextStart == if i < 3 then Accumulate(alg, prevStart, written) else prevStart
    ensures nextStart == StartTransforms(alg, tracks, bones, keyNum, scale, bUnrotateRootBone)
  {
    var i := |bones| - 1;
    var pre := bones[..i];
    var want := StartTransforms(alg, tracks, bones, keyNum, scale, bUnrotateRootBone);
    forall k | 0 <= k < keyNum ensures nextStart[k] == want[k] {
      var ks := StartKeys(alg, tracks, bones, keyNum, scale, bUnrotateRootBone, k);
      var kp := StartKeys(alg, tracks, pre, keyNum, scale, bUnrotateRootBone, k);
      if i < 3 {
        assert ks[..i] == kp;
      } else {
        assert ks == kp;
      }
    }
  }

  /** With distinct bone names, the start transforms the first pass builds are
      the chains of the scaled start bones. */
  lemma {:induction false} Pass1Start<V, Q>(alg: Algebra<V, Q>, tracks: map<string, Track<V, Q>>, bones: seq<Bone<V, Q>>,
                                            keyNum: nat, scale: real, bUnrotateRootBone: bool)
    requires TracksReady(tracks, bones, keyNum) && DistinctNames(bones)
    ensures Pass1(alg, tracks, bones, keyNum, scale, bUnrotateRootBone, true).rootRelativeStart
         == StartTransforms(alg, tracks, bones, keyNum, scale, bUnrotateRootBone)
    decreases |bones|
  {
    if bones == [] {
      var want := StartTransforms(alg, tracks, bones, keyNum, scale, bUnrotateRootBone);
      forall k | 0 <= k < keyNum ensures want[k] == alg.identity {
        assert StartKeys(alg, tracks, bones, keyNum, scale, bUnrotateRootBone, k) == [];
      }
    } else {
      var pre := bones[..|bones| - 1];
      Pass1Last(alg, tracks, bones, keyNum, scale, bUnrotateRootBone, true);
      assert DistinctNames(pre);
      Pass1Start(alg, tracks, pre, keyNum, scale, bUnrotateRootBone);
      Pass1Untouched(alg, tracks, pre, keyNum, scale, bUnrotateRootBone, true);
      NotInEarlierNames(bones, |bones| - 1);
      StartStep(alg, tracks, bones, keyNum, scale, bUnrotateRootBone,
                Pass1(alg, tracks, pre, keyNum, scale, bUnrotateRootBone, true).rootRelativeStart,
                Pass1(alg, tracks, bones, keyNum, scale, bUnrotateRootBone, true).rootRelativeStart);
    }
  }

  /** With distinct bone names, what ModifyAnimation_Internal leaves in the
      store: every bone but the root holds its scaled original track; the root
      holds its scaled (and, with unrotate, turned) track, re-expressed
      relative to the start transforms when bStart; all other tracks are
      unchanged and every bone still has keyNum keys. */
  lemma FinalTracksByBone<V, Q>(alg: Algebra<V, Q>, tracks: map<string, Track<V, Q>>, bones: seq<Bone<V, Q>>,
                                keyNum: nat, scale: real, bUnrotateRootBone: bool, bStart: bool)
    requires TracksReady(tracks, bones, keyNum) && DistinctNames(bones) && |bones| >= 1
    ensures var f := FinalTracks(alg, tracks, bones, keyNum, scale, bUnrotateRootBone, bStart);
      var root := ScaledTrack(alg, bones[0].refPose, tracks[bones[0].name], scale, bUnrotateRootBone);
      && f.Keys == tracks.Keys
      && TracksReady(f, bones, keyNum)
      && (forall j :: 1 <= j < |bones| ==>
            f[bones[j].name] == ScaledTrack(alg, bones[j].refPose, tracks[bones[j].name], scale, false))
      && f[bones[0].name]
         == (if bStart then RootMotionTrack(alg, root, StartTransforms(alg, tracks, bones, keyNum, scale, bUnrotateRootBone))
             else root)
      && (forall name :: name in tracks && name !in Names(bones) ==> f[name] == tracks[name])
  {
    Pass1Tracks(alg, tracks, bones, keyNum, scale, bUnrotateRootBone, bStart);
    Pass1Untouched(alg, tracks, bones, keyNum, scale, bUnrotateRootBone, bStart);
    if bStart {
      Pass1Start(alg, tracks, bones, keyNum, scale, bUnrotateRootBone);
    }
    var f := FinalTracks(alg, tracks, bones, keyNum, scale, bUnrotateRootBone, bStart);
    forall j | 1 <= j < |bones| ensures f[bones[j].name] == ScaledTrack(alg, bones[j].refPose, tracks[bones[j].name], scale, false) {
      assert bones[j].name != bones[0].name;
    }
    forall name | name in tracks && name !in Names(bones) ensures f[name] == tracks[name] {
      assert Names(bones)[0] == bones[0].name;
    }
  }

  /** With distinct bone names, each bone name occurs once among the names. */
  lemma {:induction false} NamesOnce<V, Q>(bones: seq<Bone<V, Q>>)
    requires DistinctNames(bones)
    ensures forall j :: 0 <= j < |bones| ==> multiset(Names(bones))[bones[j].name] == 1
    decreases |bones|
  {
    if bones != [] {
      var i := |bones| - 1;
      var pre := bones[..i];
      assert DistinctNames(pre);
      NamesOnce(pre);
      assert Names(bones) == Names(pre) + [bones[i].name];
      NotInEarlierNames(bones, i);
      forall j | 0 <= j < |bones| ensures multiset(Names(bones))[bones[j].name] == 1 {
        if j < i {
          assert pre[j] == bones[j];
          assert bones[j].name != bones[i].name;
        }
      }
    }
  }

  /** With distinct bone names, ModifyAnimation_Internal writes every bone's
      track once, and the root's twice when bStart. */
  lemma WriteLogCounts<V, Q>(bones: seq<Bone<V, Q>>, bStart: bool)
    requires DistinctNames(bones)
    ensures forall j :: 0 <= j < |bones| ==>
      multiset(WriteLog(bones, bStart))[bones[j].name] == if bStart && j == 0 then 2 else 1
  {
    NamesOnce(bones);
    forall j | 0 <= j < |bones|
      ensures multiset(WriteLog(bones, bStart))[bones[j].name] == if bStart && j == 0 then 2 else 1
    {
      if bStart && j != 0 {
        assert bones[j].name != bones[0].name;
      }
    }
  }

  /** An animation sequence: its data model (the bone tracks and the number of
      keys) and, for the proof, the names of the tracks written so far. */
  class AnimSequence<V, Q> {
    var tracks: map<string, Track<V, Q>>
    var numberOfKeys: nat
    ghost var trackWrites: seq<string>

    constructor(tracks: map<string, Track<V, Q>>, numberOfKeys: nat)
      ensures this.tracks == tracks && this.numberOfKeys == numberOfKeys && trackWrites == []
    {
      this.tracks := tracks;
      this.numberOfKeys := numberOfKeys;
      trackWrites := [];
    }

    /** IAnimationDataModel::GetBoneTrackTransforms: the stored track of a bone. */
    method GetBoneTrackTransforms(boneName: string) returns (track: Track<V, Q>)
      requires boneName in tracks
      ensures track == tracks[boneName]
    {
      track := tracks[boneName];
    }

    /** IAnimationDataController::SetBoneTrackKeys: replace the track of a bone
      by the given keys, and nothing else. */
    method SetBoneTrackKeys(boneName: string, positionalKeys: seq<V>, rotationalKeys: seq<Q>, scalingKeys: seq<V>)
      requires |positionalKeys| == |rotationalKeys| == |scalingKeys|
      modifies this
      ensures tracks == old(tracks)[boneName := Keys(positionalKeys, rotationalKeys, scalingKeys)]
      ensures numberOfKeys == old(numberOfKeys)
      ensures trackWrites == old(trackWrites) + [boneName]
    {
      tracks := tracks[boneName := Keys(positionalKeys, rotationalKeys, scalingKeys)];
      trackWrites := trackWrites + [boneName];
    }
  }

  /** The key loop of the first pass for bone number boneIdx: the three key
      arrays of the scaled track, and the start transforms with the bone folded
      in when bStart and boneIdx < 3. */
  method ScaleBoneKeys<V, Q>(alg: Algebra<V, Q>, refPose: Transform<V, Q>, originalBoneTrack: Track<V, Q>, keyNum: nat,
                             scale: real, bUnrotateRootBone: bool, bStart: bool, boneIdx: nat,
                             rootRelativeStart: seq<Transform<V, Q>>)
    returns (positionalKeys: seq<V>, rotationalKeys: seq<Q>, scalingKeys: seq<V>, start: seq<Transform<V, Q>>)
    requires |originalBoneTrack| == keyNum
    requires bStart ==> |rootRelativeStart| == keyNum
    ensures |positionalKeys| == |rotationalKeys| == |scalingKeys| == keyNum
    ensures Keys(positionalKeys, rotationalKeys, scalingKeys)
         == ScaledTrack(alg, refPose, originalBoneTrack, scale, bUnrotateRootBone && boneIdx == 0)
    ensures start == if bStart && boneIdx < 3
                     then Accumulate(alg, rootRelativeStart,
                                     ScaledTrack(alg, refPose, originalBoneTrack, scale, bUnrotateRootBone && boneIdx == 0))
                     else rootRelativeStart
  {
    ghost var written := ScaledTrack(alg, refPose, originalBoneTrack, scale, bUnrotateRootBone && boneIdx == 0);
    positionalKeys, rotationalKeys, scalingKeys := [], [], [];
    start := rootRelativeStart;
    var keyIdx := 0;
    while keyIdx < keyNum
      invariant 0 <= keyIdx <= keyNum
      invariant |positionalKeys| == |rotationalKeys| == |scalingKeys| == keyIdx
      invariant forall k :: 0 <= k < keyIdx ==>
        Transform(positionalKeys[k], rotationalKeys[k], scalingKeys[k]) == written[k]
      invariant |start| == |rootRelativeStart|
      invariant bStart && boneIdx < 3 ==>
        forall k :: 0 <= k < keyIdx ==> start[k] == alg.compose(written[k], rootRelativeStart[k])
      invariant forall k :: keyIdx <= k < |start| ==> start[k] == rootRelativeStart[k]
      invariant !(bStart && boneIdx < 3) ==> start == rootRelativeStart
    {
      var originalTransform := originalBoneTrack[keyIdx];
      var refBoneLocation := refPose.location;
      var animBoneLocation := originalTransform.location;
      var deltaLocation := alg.sub(animBoneLocation, refBoneLocation);
      var deltaDirection := alg.safeNormal(deltaLocation);
      var deltaLength := alg.length(deltaLocation);
      var scaledBoneLocation := alg.add(refBoneLocation, alg.scale(deltaDirection, alg.mul(deltaLength, scale)));

      var boneRotation := originalTransform.rotation;
      if bUnrotateRootBone && boneIdx == 0 {
        var rotationQuat := alg.rotatorQuat(UnrotateRootRotator);
        boneRotation := alg.quatMul(rotationQuat, boneRotation);
      }

      assert Transform(scaledBoneLocation, boneRotation, originalTransform.scale3D) == written[keyIdx];
      positionalKeys := positionalKeys + [scaledBoneLocation];
      rotationalKeys := rotationalKeys + [boneRotation];
      scalingKeys := scalingKeys + [originalTransform.scale3D];

      if bStart && boneIdx < 3 {
        start := start[keyIdx := alg.compose(Transform(scaledBoneLocation, boneRotation, originalTransform.scale3D),
                                             start[keyIdx])];
      }
      keyIdx := keyIdx + 1;
    }
  }

  /** The body of the first pass for bone number boneIdx: read the bone's
      track, compute its keys and write them back. */
  method ScaleBone<V, Q>(anim: AnimSequence<V, Q>, alg: Algebra<V, Q>, bone: Bone<V, Q>, boneIdx: nat,
                         scale: real, bUnrotateRootBone: bool, bStart: bool, rootRelativeStart: seq<Transform<V, Q>>)
    returns (start: seq<Transform<V, Q>>)
    requires bone.name in anim.tracks && |anim.tracks[bone.name]| == anim.numberOfKeys
    requires bStart ==> |rootRelativeStart| == anim.numberOfKeys
    modifies anim
    ensures Pass1State(anim.tracks, start)
         == Pass1Step(alg, Pass1State(old(anim.tracks), rootRelativeStart), bone, boneIdx, scale, bUnrotateRootBone, bStart)
    ensures anim.numberOfKeys == old(anim.numberOfKeys)
    ensures anim.trackWrites == old(anim.trackWrites) + [bone.name]
  {
    var originalBoneTrack := anim.GetBoneTrackTransforms(bone.name);
    var positionalKeys, rotationalKeys, scalingKeys;
    positionalKeys, rotationalKeys, scalingKeys, start :=
      ScaleBoneKeys(alg, bone.refPose, originalBoneTrack, anim.numberOfKeys, scale, bUnrotateRootBone, bStart, boneIdx,
                    rootRelativeStart);
    anim.SetBoneTrackKeys(bone.name, positionalKeys, rotationalKeys, scalingKeys);
  }

  /** The key loop of the second pass: the three key arrays of the root-relative
      root track. */
  method RootRelativeKeys<V, Q>(alg: Algebra<V, Q>, rootTrack: Track<V, Q>, rootRelativeStart: seq<Transform<V, Q>>,
                                keyNum: nat)
    returns (positionalKeys: seq<V>, rotationalKeys: seq<Q>, scalingKeys: seq<V>)
    requires |rootTrack| == keyNum && |rootRelativeStart| == keyNum
    ensures |positionalKeys| == |rotationalKeys| == |scalingKeys| == keyNum
    ensures Keys(positionalKeys, rotationalKeys, scalingKeys) == RootMotionTrack(alg, rootTrack, rootRelativeStart)
  {
    positionalKeys, rotationalKeys, scalingKeys := [], [], [];
    var keyIdx := 0;
    while keyIdx < keyNum
      invariant 0 <= keyIdx <= keyNum
      invariant |positionalKeys| == |rotationalKeys| == |scalingKeys| == keyIdx
      invariant forall k :: 0 <= k < keyIdx ==>
        Transform(positionalKeys[k], rotationalKeys[k], scalingKeys[k])
          == RootMotionKey(alg, rootTrack[k], rootRelativeStart[k])
    {
      var rootTranslation := alg.sub(rootTrack[keyIdx].location, rootRelativeStart[keyIdx].location);
      var rotationQuat := alg.inverse(alg.orientationQuat(alg.axisX(rootRelativeStart[keyIdx].rotation)));
      rootTranslation := alg.rotateVector(rotationQuat, rootTranslation);

      positionalKeys := positionalKeys + [rootTranslation];
      rotationalKeys := rotationalKeys + [alg.quatMul(rotationQuat, rootTrack[keyIdx].rotation)];
      scalingKeys := scalingKeys + [rootTrack[keyIdx].scale3D];
      keyIdx := keyIdx + 1;
    }
  }

  /** One more bone written is one more name in the write log. */
  lemma NamesSnoc<V, Q>(writes0: seq<string>, bones: seq<Bone<V, Q>>, i: nat, writes: seq<string>, next: seq<string>)
    requires i < |bones|
    requires writes == writes0 + Names(bones[..i])
    requires next == writes + [bones[i].name]
    ensures next == writes0 + Names(bones[..i + 1])
  {
    assert Names(bones[..i + 1]) == Names(bones[..i]) + [bones[i].name];
  }

  /** One more bone is one more step of the first pass. */
  lemma Pass1Snoc<V, Q>(alg: Algebra<V, Q>, tracks: map<string, Track<V, Q>>, bones: seq<Bone<V, Q>>, keyNum: nat,
                        scale: real, bUnrotateRootBone: bool, bStart: bool, i: nat)
    requires TracksReady(tracks, bones, keyNum) && i < |bones|
    ensures TracksReady(tracks, bones[..i], keyNum) && TracksReady(tracks, bones[..i + 1], keyNum)
    ensures var prev := Pass1(alg, tracks, bones[..i], keyNum, scale, bUnrotateRootBone, bStart);
      && bones[i].name in prev.tracks
      && |prev.tracks[bones[i].name]| == keyNum
      && Pass1(alg, tracks, bones[..i + 1], keyNum, scale, bUnrotateRootBone, bStart)
         == Pass1Step(alg, prev, bones[i], i, scale, bUnrotateRootBone, bStart)
  {
    assert bones[..i + 1][..i] == bones[..i];
  }

  /** The first pass over one more bone reaches the state one step from the
      state over the bones before it. */
  lemma Pass1Extend<V, Q>(alg: Algebra<V, Q>, tracks: map<string, Track<V, Q>>, bones: seq<Bone<V, Q>>, keyNum: nat,
                          scale: real, bUnrotateRootBone: bool, bStart: bool, i: nat,
                          st: Pass1State<V, Q>, next: Pass1State<V, Q>)
    requires TracksReady(tracks, bones, keyNum) && i < |bones|
    requires TracksReady(tracks, bones[..i], keyNum)
    requires Pass1(alg, tracks, bones[..i], keyNum, scale, bUnrotateRootBone, bStart) == st
    requires bones[i].name in st.tracks && (bStart ==> |st.rootRelativeStart| == |st.tracks[bones[i].name]|)
    requires next == Pass1Step(alg, st, bones[i], i, scale, bUnrotateRootBone, bStart)
    ensures TracksReady(tracks, bones[..i + 1], keyNum)
    ensures Pass1(alg, tracks, bones[..i + 1], keyNum, scale, bUnrotateRootBone, bStart) == next
  {
    Pass1Snoc(alg, tracks, bones, keyNum, scale, bUnrotateRootBone, bStart, i);
  }

  /** The bone loop of the first pass: every bone in skeleton order through
      ScaleBone, starting from the given start transforms. */
  method FirstPass<V, Q>(anim: AnimSequence<V, Q>, alg: Algebra<V, Q>, bones: seq<Bone<V, Q>>,
                         scale: real, bUnrotateRootBone: bool, bStart: bool, rootRelativeStart0: seq<Transform<V, Q>>)
    returns (rootRelativeStart: seq<Transform<V, Q>>)
    requires TracksReady(anim.tracks, bones, anim.numberOfKeys)
    requires rootRelativeStart0 == InitialStart(alg, anim.numberOfKeys, bStart)
    modifies anim
    ensures Pass1State(anim.tracks, rootRelativeStart)
         == Pass1(alg, old(anim.tracks), bones, old(anim.numberOfKeys), scale, bUnrotateRootBone, bStart)
    ensures anim.numberOfKeys == old(anim.numberOfKeys)
    ensures anim.trackWrites == old(anim.trackWrites) + Names(bones)
  {
    var boneNum := |bones|;
    var keyNum := anim.numberOfKeys;
    ghost var original := anim.tracks;
    rootRelativeStart := rootRelativeStart0;
    assert bones[..0] == [];
    var boneIdx := 0;
    while boneIdx < boneNum
      invariant 0 <= boneIdx <= boneNum
      invariant anim.numberOfKeys == keyNum
      invariant TracksReady(original, bones[..boneIdx], keyNum)
      invariant Pass1(alg, original, bones[..boneIdx], keyNum, scale, bUnrotateRootBone, bStart)
             == Pass1State(anim.tracks, rootRelativeStart)
      invariant anim.trackWrites == old(anim.trackWrites) + Names(bones[..boneIdx])
    {
      Pass1Snoc(alg, original, bones, keyNum, scale, bUnrotateRootBone, bStart, boneIdx);
      ghost var st, writes := Pass1State(anim.tracks, rootRelativeStart), anim.trackWrites;
      rootRelativeStart := ScaleBone(anim, alg, bones[boneIdx], boneIdx, scale, bUnrotateRootBone, bStart,
                                     rootRelativeStart);
      Pass1Extend(alg, original, bones, keyNum, scale, bUnrotateRootBone, bStart, boneIdx,
                  st, Pass1State(anim.tracks, rootRelativeStart));
      NamesSnoc(old(anim.trackWrites), bones, boneIdx, writes, anim.trackWrites);
      boneIdx := boneIdx + 1;
    }
    assert bones[..boneIdx] == bones;
  }

  /** The second pass: read the root track as the first pass left it and
      write it back re-expressed relative to the start transforms. */
  method SecondPass<V, Q>(anim: AnimSequence<V, Q>, alg: Algebra<V, Q>, rootBoneName: string,
                          rootRelativeStart: seq<Transform<V, Q>>)
    requires rootBoneName in anim.tracks
    requires |anim.tracks[rootBoneName]| == anim.numberOfKeys == |rootRelativeStart|
    modifies anim
    ensures anim.tracks
         == old(anim.tracks)[rootBoneName := RootMotionTrack(alg, old(anim.tracks)[rootBoneName], rootRelativeStart)]
    ensures anim.numberOfKeys == old(anim.numberOfKeys)
    ensures anim.trackWrites == old(anim.trackWrites) + [rootBoneName]
  {
    var rootTrack := anim.GetBoneTrackTransforms(rootBoneName);
    var positionalKeys, rotationalKeys, scalingKeys :=
      RootRelativeKeys(alg, rootTrack, rootRelativeStart, anim.numberOfKeys);
    anim.SetBoneTrackKeys(rootBoneName, positionalKeys, rotationalKeys, scalingKeys);
  }

  /** ModifyAnimation_Internal: nothing for an object that is not an animation
      sequence or a skeleton without bones; otherwise the first pass writes
      every bone once in skeleton order, and when bStart the second pass
      rewrites the root once more. */
  method ModifyAnimationInternal<V, Q>(anim: AnimSequence?<V, Q>, alg: Algebra<V, Q>, bones: seq<Bone<V, Q>>,
                                       scale: real, bUnrotateRootBone: bool, bStart: bool)
    requires anim != null ==> TracksReady(anim.tracks, bones, anim.numberOfKeys)
    modifies anim
    ensures anim != null ==>
      && anim.tracks == FinalTracks(alg, old(anim.tracks), bones, old(anim.numberOfKeys), scale, bUnrotateRootBone, bStart)
      && anim.numberOfKeys == old(anim.numberOfKeys)
      && anim.trackWrites == old(anim.trackWrites) + WriteLog(bones, bStart)
  {
    if anim == null {
      return;
    }
    var boneNum := |bones|;
    if boneNum < 1 {
      return;
    }
    var keyNum := anim.numberOfKeys;

    var rootRelativeStart: seq<Transform<V, Q>> := [];
    if bStart {
      var keyIdx := 0;
      while keyIdx < keyNum
        invariant 0 <= keyIdx <= keyNum
        invariant rootRelativeStart == seq(keyIdx, _ => alg.identity)
      {
        rootRelativeStart := rootRelativeStart + [alg.identity];
        keyIdx := keyIdx + 1;
      }
    }

    rootRelativeStart := FirstPass(anim, alg, bones, scale, bUnrotateRootBone, bStart, rootRelativeStart);

    if bStart {
      SecondPass(anim, alg, bones[0].name, rootRelativeStart);
    }
  }

  /** ModifyAnimation on the duplicate of one selected animation sequence: the
      scale guard, then ModifyAnimation_Internal with the guarded scale. The
      parameters default as the header declares them. */
  method ModifyAnimation<V, Q>(anim: AnimSequence?<V, Q>, alg: Algebra<V, Q>, bones: seq<Bone<V, Q>>,
                               scale: real := DefaultScale, bUnrotateRootBone: bool := false,
                               bStart: bool := false)
    requires anim != null ==> TracksReady(anim.tracks, bones, anim.numberOfKeys)
    modifies anim
    ensures anim != null ==>
      && anim.tracks == FinalTracks(alg, old(anim.tracks), bones, old(anim.numberOfKeys),
                                    EffectiveScale(scale), bUnrotateRootBone, bStart)
      && anim.numberOfKeys == old(anim.numberOfKeys)
      && anim.trackWrites == old(anim.trackWrites) + WriteLog(bones, bStart)
  {
    var s := scale;
    if s < KindaSmallNumber {
      s := DefaultScale;
    }
    ModifyAnimationInternal(anim, alg, bones, s, bUnrotateRootBone, bStart);
  }
}
