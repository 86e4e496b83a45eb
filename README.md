# Apex Legends material and animation tools: a Dafny model

This project models two editor utilities of an Unreal Engine plugin.

- **Material-slot editor widget** (`EUW_EditorWidget.cpp`).
  - Slot names have the shape `<model>_<skin>_<part>`.
  - `FindSkinNameFromMaterialSlotName` extracts the skin: the text strictly between the first and the last underscore.
  - `ChangeSlotName_Internal` replaces the skin of one slot and records the outcome in a succeeded or a failed map.
  - `ChangeMaterialSlotNames` renames, in place, every material slot of a skeletal or static mesh whose name was requested.
  - `GetMaterialSlotNames` lists the slot names and reports the majority skin. The two eye slots are skipped. On a tie, the skin that reached the maximum count first wins.
- **Animation modifier** (`AAU_AnimModifier.cpp`).
  - `ModifyAnimation` guards the scale: a scale below `UE_KINDA_SMALL_NUMBER` becomes 0.0254, which is also the declared default in `AAU_AnimModifier.h`.
  - `ModifyAnimation_Internal` rewrites every bone track of an animation sequence in two passes:
    - **Pass 1** scales each key's offset from the reference pose. It optionally turns the root rotation by `FRotator(0, 0, -90)`. When `bStart` is set, it also composes the scaled keys of bones 0, 1 and 2 into per-key start transforms.
    - **Pass 2** runs only when `bStart` is set. It re-expresses the root track relative to those start transforms.

Modules:

| module | file | contents |
|---|---|---|
| `SlotNames` | `slot_names.dfy` | `FString::FindChar`/`FindLastChar`; the `<model>_<skin>_<part>` layout; `FindSkinName`; the `ChangeSlotNameInternal` method; round-trip lemmas |
| `EditorWidget` | `editor_widget.dfy` | the asset (mesh material arrays); the in-place rename loop; `GetMaterialSlotNames` with its two loops; the majority-skin specification (`ChosenSkin`) and its proof |
| `TransformAlgebra` | `transform_algebra.dfy` | `FTransform`, `FRotator`; the engine's vector and quaternion operations, passed in as an `Algebra` value |
| `AnimModifier` | `anim_modifier.dfy` | the `AnimSequence` class, which is the mutable store of bone tracks; the two passes as methods with loops; `FinalTracks`, the store-level specification; the bone-by-bone characterisation lemmas |

Design choices:

- **Pass 2 reads the store.** `GetBoneTrackTransforms` reads the live data model, so pass 2 sees the root track that pass 1 already wrote, not the root's original keys. `FinalTracks` follows this: the root's final track is `RootMotionTrack` applied to the *scaled* root track.
- **Duplicate bone names.** The code reads whatever the store holds when a bone's turn comes. The methods therefore need no distinct-name assumption. The bone-by-bone lemmas (`Pass1Tracks`, `Pass1Start`, `FinalTracksByBone`, `WriteLogCounts`) assume distinct names, as a reference skeleton guarantees.
- **Track writes.** The class keeps a ghost log `trackWrites` of the bone names passed to `SetBoneTrackKeys`. `ModifyAnimationInternal` states the exact sequence of writes. `WriteLogCounts` proves that every bone is written once, and the root twice when `bStart` is set.
- **Abstract geometry.** The floating-point geometry is abstract, so every result holds for any implementation of the engine operations. Where a lemma needs properties of the zero vector, it assumes them through `ZeroLaws`.
- **Root turn.** The root turn `FRotator(0, 0, -90)` is a −90° roll about the X axis, not a turn about the vertical axis: its third component is the roll. The model passes `Rotator(0.0, 0.0, -90.0)` to the abstract `FRotator::Quaternion`.

## Model

| member | source | states |
|---|---|---|
| SlotNames.FindChar | Plugins/ApexLegendsMaterial/Source/ApexLegendsMaterial/Private/EUW_EditorWidget.cpp:73-74 | the result is -1 exactly when the character is absent; otherwise it is an index holding the character with no occurrence before it |
| SlotNames.FindLastChar | Plugins/ApexLegendsMaterial/Source/ApexLegendsMaterial/Private/EUW_EditorWidget.cpp:78-79 | the result is -1 exactly when the character is absent; otherwise it is an index holding the character with no occurrence after it |
| SlotNames.FindSkinName | Plugins/ApexLegendsMaterial/Source/ApexLegendsMaterial/Private/EUW_EditorWidget.cpp:68-87 | a skin is found exactly when the name holds at least two underscores; when none is found the output string is empty |
| SlotNames.FindSkinNameCorrect | Plugins/ApexLegendsMaterial/Source/ApexLegendsMaterial/Private/EUW_EditorWidget.cpp:68-87 | the skin found is exactly the text strictly between the first and the last underscore (the unique `<model>_<skin>_<part>` layout) |
| SlotNames.LayoutUnique | Plugins/ApexLegendsMaterial/Source/ApexLegendsMaterial/Private/EUW_EditorWidget.cpp:135-139 | a name splits into model name (through the first underscore), skin, and part (from the last underscore) in only one way |
| SlotNames.ChangeSlotNameInternal | Plugins/ApexLegendsMaterial/Source/ApexLegendsMaterial/Private/EUW_EditorWidget.cpp:126-148 | with two or more underscores: the new name keeps model and part around the new skin and is recorded in the succeeded map under the previous name; otherwise the name is kept and recorded in the failed map; the other map is unchanged |
| SlotNames.SkinOfRenamed | Plugins/ApexLegendsMaterial/Source/ApexLegendsMaterial/Private/EUW_EditorWidget.cpp:137-140 | a renamed slot again has a skin part, and that skin is the new skin, whatever characters it contains |
| SlotNames.FindSkinNameOfRenamed | Plugins/ApexLegendsMaterial/Source/ApexLegendsMaterial/Private/EUW_EditorWidget.cpp:137-140 | round trip: FindSkinName on a renamed slot reports success and the new skin |
| SlotNames.RenameWithOwnSkin | Plugins/ApexLegendsMaterial/Source/ApexLegendsMaterial/Private/EUW_EditorWidget.cpp:137-140 | renaming a slot to the skin FindSkinName reads from it gives back the same name |
| SlotNames.RenameTwice | Plugins/ApexLegendsMaterial/Source/ApexLegendsMaterial/Private/EUW_EditorWidget.cpp:137-140 | a second rename overrides the first: renaming twice equals renaming once with the second skin |
| EditorWidget.NameEqualsAt | Plugins/ApexLegendsMaterial/Source/ApexLegendsMaterial/Private/EUW_EditorWidget.cpp:47 | the eye-slot comparison holds exactly when the names have the same length and agree at every position up to ASCII case |
| EditorWidget.EyeSlotNeverVotes | Plugins/ApexLegendsMaterial/Source/ApexLegendsMaterial/Private/EUW_EditorWidget.cpp:47-50 | inserting an eye slot anywhere in the slot list changes no vote |
| EditorWidget.NoVotes | Plugins/ApexLegendsMaterial/Source/ApexLegendsMaterial/Private/EUW_EditorWidget.cpp:45-63 | no slot votes exactly when every slot is an eye slot or has no skin part |
| EditorWidget.ChosenSkinUnique | Plugins/ApexLegendsMaterial/Source/ApexLegendsMaterial/Private/EUW_EditorWidget.cpp:57-61 | the majority rule (largest count, first to reach it) picks exactly one skin |
| EditorWidget.TallyStep | Plugins/ApexLegendsMaterial/Source/ApexLegendsMaterial/Private/EUW_EditorWidget.cpp:55-61 | one FindOrAdd/increment/compare step keeps the tally invariant: every counter is exact, MaxCnt is the largest count, OutSkinName reached it first |
| EditorWidget.TallyOfChosen | Plugins/ApexLegendsMaterial/Source/ApexLegendsMaterial/Private/EUW_EditorWidget.cpp:42-63 | counting the votes in order ends with the skin the majority rule chooses |
| EditorWidget.SlotTallyVotes | Plugins/ApexLegendsMaterial/Source/ApexLegendsMaterial/Private/EUW_EditorWidget.cpp:45-63 | going through the slots, skipping eye slots and slots without a skin, tallies exactly the votes of the slot list |
| EditorWidget.MajoritySkin | Plugins/ApexLegendsMaterial/Source/ApexLegendsMaterial/Private/EUW_EditorWidget.cpp:41-63 | the majority loop over the slot names ends with the skin the majority rule chooses for their votes: largest count, first to reach it, "" when no slot votes |
| EditorWidget.GetMaterialSlotNames | Plugins/ApexLegendsMaterial/Source/ApexLegendsMaterial/Private/EUW_EditorWidget.cpp:14-66 | returns true exactly for a skeletal or static mesh; then the names are the material slot names in order and the skin is the majority skin of their votes ("" when none votes); otherwise the names are empty and the skin parameter is left as the caller passed it |
| EditorWidget.MapsRecorded | Plugins/ApexLegendsMaterial/Source/ApexLegendsMaterial/Private/EUW_EditorWidget.cpp:92-115 | after the loop, the succeeded map holds exactly the requested slots with a skin part, mapped to their new names; the failed map holds exactly the requested slots without one, mapped to themselves |
| EditorWidget.RenameSlots | Plugins/ApexLegendsMaterial/Source/ApexLegendsMaterial/Private/EUW_EditorWidget.cpp:98-104 | the material array afterwards is the old array with every requested slot renamed and every other slot kept; the two maps are those of the slots visited in order |
| EditorWidget.ChangeMaterialSlotNames | Plugins/ApexLegendsMaterial/Source/ApexLegendsMaterial/Private/EUW_EditorWidget.cpp:89-116 | for a mesh, the material slots afterwards are the old ones with those whose name was requested renamed; only the mesh's material array can change |
| EditorWidget.AllRenamedVoteNew | Plugins/ApexLegendsMaterial/Source/ApexLegendsMaterial/Private/EUW_EditorWidget.cpp:137-140 | after every slot is renamed, every vote goes to the new skin |
| EditorWidget.RenameAllThenChoose | Plugins/ApexLegendsMaterial/Source/ApexLegendsMaterial/Private/EUW_EditorWidget.cpp:89-116 | renaming every slot and then reading the majority skin gives the new skin, unless no slot votes at all |
| TransformAlgebra.KeysRoundTrip | Plugins/ApexLegendsMaterial/Source/ApexLegendsMaterial/Private/AAU_AnimModifier.cpp:151 | the position, rotation and scale keys read back from the track stored from three key arrays are exactly those arrays |
| TransformAlgebra.KeysOfComponents | Plugins/ApexLegendsMaterial/Source/ApexLegendsMaterial/Private/AAU_AnimModifier.cpp:151 | every track is the one stored from its own position, rotation and scale keys, so the three arrays and the track carry the same information |
| AnimModifier.EffectiveScale | Plugins/ApexLegendsMaterial/Source/ApexLegendsMaterial/Private/AAU_AnimModifier.cpp:19-22 | the guarded scale is at least UE_KINDA_SMALL_NUMBER; it is either the given scale or 0.0254, and a scale at or above the bound is kept |
| AnimModifier.EffectiveScaleIdempotent | Plugins/ApexLegendsMaterial/Source/ApexLegendsMaterial/Private/AAU_AnimModifier.cpp:19-22 | applying the guard twice is the same as applying it once |
| AnimModifier.ScaledLocationAtReference | Plugins/ApexLegendsMaterial/Source/ApexLegendsMaterial/Private/AAU_AnimModifier.cpp:116-123 | a key at its reference location stays there whatever the scale (the zero-length delta case of GetSafeNormal) |
| AnimModifier.ScaledTrackKeys | Plugins/ApexLegendsMaterial/Source/ApexLegendsMaterial/Private/AAU_AnimModifier.cpp:116-134 | per key: the location is ref + safeNormal(anim - ref) * (length * scale) and does not depend on the unrotate flag; the scale key is the original one; the rotation is the original one, or `FRotator(0, 0, -90).Quaternion()` times it when the track is turned |
| AnimModifier.Pass1 | Plugins/ApexLegendsMaterial/Source/ApexLegendsMaterial/Private/AAU_AnimModifier.cpp:98-154 | the first pass keeps the set of tracks and every track's length; the start transforms have one entry per key when bStart and none otherwise |
| AnimModifier.FinalTracks | Plugins/ApexLegendsMaterial/Source/ApexLegendsMaterial/Private/AAU_AnimModifier.cpp:73-77 | the rewrite keeps the set of tracks, and a skeleton without bones leaves every track unchanged |
| AnimModifier.Pass1Untouched | Plugins/ApexLegendsMaterial/Source/ApexLegendsMaterial/Private/AAU_AnimModifier.cpp:98-154 | a track that belongs to no bone is never changed by the first pass |
| AnimModifier.Pass1Tracks | Plugins/ApexLegendsMaterial/Source/ApexLegendsMaterial/Private/AAU_AnimModifier.cpp:98-154 | with distinct bone names, after the first pass bone j's track is its original track scaled about its reference pose, with rotations turned only for bone 0 when unrotate is set |
| AnimModifier.Pass1Start | Plugins/ApexLegendsMaterial/Source/ApexLegendsMaterial/Private/AAU_AnimModifier.cpp:136-147 | with distinct bone names, start key k is T2 * T1 * T0 * Identity: the scaled key k of the first three bones (fewer if there are fewer), composed with the later bone on the left |
| AnimModifier.FinalTracksByBone | Plugins/ApexLegendsMaterial/Source/ApexLegendsMaterial/Private/AAU_AnimModifier.cpp:61-184 | with distinct bone names and at least one bone: every non-root bone holds its scaled original track; the root holds its scaled (and, with unrotate, turned) track, re-expressed relative to the start transforms when bStart; all other tracks are unchanged and every bone keeps its key count |
| AnimModifier.WriteLogCounts | Plugins/ApexLegendsMaterial/Source/ApexLegendsMaterial/Private/AAU_AnimModifier.cpp:151-179 | with distinct bone names, each bone's track is written once, and the root's twice when bStart |
| AnimModifier.AnimSequence.GetBoneTrackTransforms | Plugins/ApexLegendsMaterial/Source/ApexLegendsMaterial/Private/AAU_AnimModifier.cpp:105 | returns the track currently stored for the bone |
| AnimModifier.AnimSequence.SetBoneTrackKeys | Plugins/ApexLegendsMaterial/Source/ApexLegendsMaterial/Private/AAU_AnimModifier.cpp:151 | replaces exactly the named bone's track by the track of the three key arrays, leaves the key count alone and logs the write |
| AnimModifier.ScaleBoneKeys | Plugins/ApexLegendsMaterial/Source/ApexLegendsMaterial/Private/AAU_AnimModifier.cpp:112-148 | the three key arrays, one entry per key, form the bone's scaled track; the start transforms are composed with the written keys exactly when bStart and the bone is one of the first three |
| AnimModifier.ScaleBone | Plugins/ApexLegendsMaterial/Source/ApexLegendsMaterial/Private/AAU_AnimModifier.cpp:98-153 | one bone of the first pass: the store and start transforms advance by exactly one Pass1Step, from the track as currently stored; one write of the bone's name |
| AnimModifier.FirstPass | Plugins/ApexLegendsMaterial/Source/ApexLegendsMaterial/Private/AAU_AnimModifier.cpp:98-154 | the bone loop leaves the store and start transforms as Pass1 from the original store; the key count is kept and the bones are written in skeleton order |
| AnimModifier.RootRelativeKeys | Plugins/ApexLegendsMaterial/Source/ApexLegendsMaterial/Private/AAU_AnimModifier.cpp:167-177 | the second pass's key arrays form the root track re-expressed per key: the offset from the start location and the rotation, both turned by the inverse orientation of the start rotation's X axis; scale kept |
| AnimModifier.SecondPass | Plugins/ApexLegendsMaterial/Source/ApexLegendsMaterial/Private/AAU_AnimModifier.cpp:155-179 | the root track, as the store holds it after the first pass, is replaced by its re-expression relative to the start transforms; nothing else changes but one more write of the root |
| AnimModifier.ModifyAnimationInternal | Plugins/ApexLegendsMaterial/Source/ApexLegendsMaterial/Private/AAU_AnimModifier.cpp:61-184 | nothing for a non-animation object; otherwise the store becomes FinalTracks of the old store (unchanged without bones, pass 2 reading pass 1's root), the key count is kept, and the writes are the bones in order plus the root again when bStart |
| AnimModifier.ModifyAnimation | Plugins/ApexLegendsMaterial/Source/ApexLegendsMaterial/Private/AAU_AnimModifier.cpp:17-45 | the rewrite of one duplicated sequence uses the guarded scale; the parameters default to scale 0.0254 and both flags false, as the header declares |

## Left out

- Asset selection, duplication (`DuplicateLoadedAsset`, the `_Scaled` file name), `AssetCreated`, `SaveAsset`, `PostEditChange`, `MarkPackageDirty` and the error dialog: these are editor I/O. `ModifyAnimation` is modelled on one already-duplicated sequence; a failed duplication only logs and shows a dialog.
- The progress dialog (`FScopedSlowTask`): it is user interface and does not change any track.
- The widget's other entry points (`AutoTextureMapping`, the version check, the overloads that forward to these functions): they only forward to code that is not part of this model.
- Floating point: vector and quaternion arithmetic, including the `double * float` product in the scaled location, are opaque operations of the `Algebra` value. The model therefore proves no geometric fact beyond `ZeroLaws`, and no numeric scenario is proved. Scales are `real`, not 32-bit floats, and KindaSmallNumber is 0.0001.
- FName semantics: the eye-slot comparison folds ASCII case as `FName::IsEqual` does. The requested-name set, the succeeded and failed maps and the skin counter compare strings exactly. In the engine, `FName` and `FString` keys compare without case, so names differing only in case are merged there but not here. FName number suffixes are not modelled.
- GetMaterialSlotNames: the `int32` counters are unbounded integers here, because a mesh cannot have 2^31 slots.
- ModifyAnimationInternal: the skeleton pointer is assumed valid, and every reference bone is assumed to have a stored track of `GetNumberOfKeys()` keys (`TracksReady`). The code indexes those tracks without checks.
- ChangeMaterialSlotNames: the maps are locals that only their callee fills. The model returns them from `RenameSlots` so that their contents can be stated.
