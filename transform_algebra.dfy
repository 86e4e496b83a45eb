/** The geometry the animation rewrite is built from, kept abstract. V stands
    for FVector and Q for FQuat; the floating-point operations on them are the
    fields of an Algebra value, so every result below holds for any choice of
    those operations, and only the laws stated in ZeroLaws are assumed of them
    where a lemma needs them. */
module TransformAlgebra {

  /** FTransform: location, rotation and 3D scale. */
  datatype Transform<V, Q> = Transform(location: V, rotation: Q, scale3D: V)

  /** FRotator, in the engine's constructor order: pitch, yaw, roll (degrees). */
  datatype Rotator = Rotator(pitch: real, yaw: real, roll: real)

  /** The engine operations the rewrite uses. */
  datatype Algebra<!V, !Q> = Algebra(
    zero: V,                                          // FVector::ZeroVector
    add: (V, V) -> V,                                 // FVector + FVector
    sub: (V, V) -> V,                                 // FVector - FVector
    scale: (V, real) -> V,                            // FVector * double
    safeNormal: V -> V,                               // FVector::GetSafeNormal
    length: V -> real,                                // FVector::Length
    mul: (real, real) -> real,                        // double * float, rounded
    quatMul: (Q, Q) -> Q,                             // FQuat * FQuat
    rotatorQuat: Rotator -> Q,                        // FRotator::Quaternion
    axisX: Q -> V,                                    // FQuat::GetAxisX
    orientationQuat: V -> Q,                          // FVector::ToOrientationQuat
    inverse: Q -> Q,                                  // FQuat::Inverse
    rotateVector: (Q, V) -> V,                        // FQuat::RotateVector
    compose: (Transform<V, Q>, Transform<V, Q>) -> Transform<V, Q>, // ComposeTransforms(A, B) == A * B
    identity: Transform<V, Q>                         // FTransform::Identity
  )

  /** The laws of the zero vector the rewrite relies on: a vector minus itself
      is zero, the safe normal of zero is zero (GetSafeNormal's guard), scaling
      zero gives zero and adding zero changes nothing. */
  ghost predicate ZeroLaws<V(!new), Q>(alg: Algebra<V, Q>) {
    && (forall v :: alg.sub(v, v) == alg.zero)
    && alg.safeNormal(alg.zero) == alg.zero
    && (forall s :: alg.scale(alg.zero, s) == alg.zero)
    && (forall v :: alg.add(v, alg.zero) == v)
  }

  /** The track SetBoneTrackKeys stores from three key arrays of one length:
      key k has the k-th position, rotation and scale. (The ensures spell the
      body out key by key for the callers' proofs.) */
  function Keys<V, Q>(positions: seq<V>, rotations: seq<Q>, scales: seq<V>): (track: seq<Transform<V, Q>>)
    requires |positions| == |rotations| == |scales|
    ensures |track| == |positions|
    ensures forall k :: 0 <= k < |track| ==>
      track[k].location == positions[k] && track[k].rotation == rotations[k] && track[k].scale3D == scales[k]
  {
    seq(|positions|, k requires 0 <= k < |positions| => Transform(positions[k], rotations[k], scales[k]))
  }

  /** The position keys of a track. */
  function Locations<V, Q>(track: seq<Transform<V, Q>>): (r: seq<V>)
    ensures |r| == |track|
  {
    seq(|track|, k requires 0 <= k < |track| => track[k].location)
  }

  /** The rotation keys of a track. */
  function Rotations<V, Q>(track: seq<Transform<V, Q>>): (r: seq<Q>)
    ensures |r| == |track|
  {
    seq(|track|, k requires 0 <= k < |track| => track[k].rotation)
  }

  /** The scale keys of a track. */
  function Scales<V, Q>(track: seq<Transform<V, Q>>): (r: seq<V>)
    ensures |r| == |track|
  {
    seq(|track|, k requires 0 <= k < |track| => track[k].scale3D)
  }

  /** Three key arrays and the track made of them carry the same keys: the
      arrays read back from the stored track are the ones written. */
  lemma KeysRoundTrip<V, Q>(positions: seq<V>, rotations: seq<Q>, scales: seq<V>)
    requires |positions| == |rotations| == |scales|
    ensures Locations(Keys(positions, rotations, scales)) == positions
    ensures Rotations(Keys(positions, rotations, scales)) == rotations
    ensures Scales(Keys(positions, rotations, scales)) == scales
  {
  }

  /** Every track is the one stored from its own three key arrays. */
  lemma KeysOfComponents<V, Q>(track: seq<Transform<V, Q>>)
    ensures Keys(Locations(track), Rotations(track), Scales(track)) == track
  {
  }
}
