/** The material-slot operations of the editor widget: listing the slot names of
    a mesh with the skin most of them carry, and renaming the skin part of a
    chosen set of slots in place. */
module EditorWidget {
  import opened SlotNames

  /** The asset handed to the widget. A skeletal or a static mesh owns an array
      of material slots (represented by their slot names); anything else is
      not supported. */
  datatype Asset =
    | SkeletalMesh(materials: array<string>)
    | StaticMesh(materials: array<string>)
    | Unsupported

  /** The objects an operation on the asset may change. */
  function Footprint(asset: Asset): set<object> {
    if asset.Unsupported? then {} else {asset.materials}
  }

  /** ASCII lower case, the folding FName comparison applies. */
  function ToLower(c: char): char {
    if 'A' <= c <= 'Z' then (c as int + 32) as char else c
  }

  /** FName::IsEqual: the same length and the same characters up to case. */
  predicate NameEquals(a: string, b: string)
    decreases |a|
  {
    |a| == |b| && (a == [] || (ToLower(a[0]) == ToLower(b[0]) && NameEquals(a[1..], b[1..])))
  }

  /** NameEquals compares position by position. */
  lemma {:induction false} NameEqualsAt(a: string, b: string)
    ensures NameEquals(a, b) <==>
      |a| == |b| && forall i :: 0 <= i < |a| ==> ToLower(a[i]) == ToLower(b[i])
    decreases |a|
  {
    if |a| == |b| && a != [] {
      NameEqualsAt(a[1..], b[1..]);
      assert forall i :: 1 <= i < |a| ==> a[1..][i - 1] == a[i] && b[1..][i - 1] == b[i];
    }
  }

  const EyeCornea: string := "wraith_base_eyecornea"
  const EyeShadow: string := "wraith_base_eyeshadow"

  /** The two eye slots never vote for a skin. */
  predicate IsEyeSlot(slotName: string) {
    NameEquals(slotName, EyeCornea) || NameEquals(slotName, EyeShadow)
  }

  /** The skin a slot name votes for, if any: none for an eye slot or a name
      without a skin part. */
  ghost function Vote(slotName: string): seq<string> {
    if IsEyeSlot(slotName) || !HasSkinPart(slotName) then [] else [SkinOf(slotName)]
  }

  /** The skins voted for by the slots, in slot order. */
  ghost function Votes(slotNames: seq<string>): (votes: seq<string>)
    ensures |votes| <= |slotNames|
  {
    if slotNames == [] then []
    else Votes(slotNames[..|slotNames| - 1]) + Vote(slotNames[|slotNames| - 1])
  }

  lemma {:induction false} VotesConcat(a: seq<string>, b: seq<string>)
    ensures Votes(a + b) == Votes(a) + Votes(b)
    decreases |b|
  {
    if b == [] {
      assert a + b == a;
    } else {
      var init := b[..|b| - 1];
      assert (a + b)[..|a + b| - 1] == a + init;
      VotesConcat(a, init);
    }
  }

  /** No slot votes exactly when every slot is an eye slot or lacks a skin part. */
  lemma {:induction false} NoVotes(slotNames: seq<string>)
    ensures Votes(slotNames) == [] <==>
      forall i :: 0 <= i < |slotNames| ==> IsEyeSlot(slotNames[i]) || !HasSkinPart(slotNames[i])
    decreases |slotNames|
  {
    if slotNames != [] {
      var init := slotNames[..|slotNames| - 1];
      NoVotes(init);
      assert forall i :: 0 <= i < |init| ==> init[i] == slotNames[i];
    }
  }

  /** Removing an eye slot from anywhere in the list changes no vote. */
  lemma EyeSlotNeverVotes(before: seq<string>, eye: string, after: seq<string>)
    requires IsEyeSlot(eye)
    ensures Votes(before + [eye] + after) == Votes(before + after)
  {
    assert Votes([eye]) == Votes([]) + Vote(eye) == [];
    VotesConcat(before, [eye]);
    assert Votes(before + [eye]) == Votes(before);
    VotesConcat(before + [eye], after);
    VotesConcat(before, after);
  }

  /** How many of the votes went to a skin. */
  function Count(votes: seq<string>, skin: string): nat
    decreases |votes|
  {
    if votes == [] then 0
    else Count(votes[..|votes| - 1], skin) + (if votes[|votes| - 1] == skin then 1 else 0)
  }

  /** After the first n votes, skin already has its final count and every other
      skin is still below it. */
  ghost predicate ReachesFirst(votes: seq<string>, skin: string, n: nat) {
    && n <= |votes|
    && Count(votes[..n], skin) == Count(votes, skin)
    && forall other :: other != skin ==> Count(votes[..n], other) < Count(votes, skin)
  }

  /** The skin GetMaterialSlotNames reports: "" when no slot votes; otherwise a
      skin with the largest count, and among those the one that reached that
      count first. */
  ghost predicate ChosenSkin(votes: seq<string>, skin: string) {
    if votes == [] then skin == ""
    else
      && (forall other :: Count(votes, other) <= Count(votes, skin))
      && exists n :: ReachesFirst(votes, skin, n)
  }

  /** One more vote adds one to the count of its skin and to no other. */
  lemma CountAppend(votes: seq<string>, skin: string)
    ensures forall v :: Count(votes + [skin], v) == Count(votes, v) + (if v == skin then 1 else 0)
  {
    assert (votes + [skin])[..|votes|] == votes;
  }

  lemma {:induction false} PrefixCountMonotone(votes: seq<string>, i: nat, j: nat, skin: string)
    requires i <= j <= |votes|
    ensures Count(votes[..i], skin) <= Count(votes[..j], skin)
    decreases j - i
  {
    if i < j {
      assert votes[..j][..j - 1] == votes[..j - 1];
      PrefixCountMonotone(votes, i, j - 1, skin);
    }
  }

  /** The chosen skin is determined by the votes: ties have exactly one winner. */
  lemma {:induction false} ChosenSkinUnique(votes: seq<string>, skin1: string, skin2: string)
    requires ChosenSkin(votes, skin1) && ChosenSkin(votes, skin2)
    ensures skin1 == skin2
  {
    if votes != [] && skin1 != skin2 {
      var n1 :| ReachesFirst(votes, skin1, n1);
      var n2 :| ReachesFirst(votes, skin2, n2);
      if n1 <= n2 {
        PrefixCountMonotone(votes, n1, n2, skin1);
      } else {
        PrefixCountMonotone(votes, n2, n1, skin2);
      }
    }
  }

  /** The name one slot ends up with: renamed when it was requested. */
  ghost function RenameOne(slotName: string, selected: set<string>, newSkinName: string): string {
    if slotName in selected then Renamed(slotName, newSkinName) else slotName
  }

  /** ChangeMaterialSlotNames, on values: every slot whose original name was
      requested is renamed, every other slot keeps its name. */
  ghost function RenameSelected(slotNames: seq<string>, selected: set<string>, newSkinName: string): (r: seq<string>)
    ensures |r| == |slotNames|
  {
    seq(|slotNames|, i requires 0 <= i < |slotNames| => RenameOne(slotNames[i], selected, newSkinName))
  }

  /** A skin with a positive count is among the votes. */
  lemma {:induction false} CountPositive(votes: seq<string>, skin: string)
    ensures Count(votes, skin) > 0 ==> skin in votes
    decreases |votes|
  {
    if votes != [] {
      var init := votes[..|votes| - 1];
      CountPositive(init, skin);
      assert skin in init ==> skin in votes;
    }
  }

  /** Once every slot was renamed, every vote goes to the new skin. */
  lemma {:induction false} AllRenamedVoteNew(slotNames: seq<string>, selected: set<string>, newSkinName: string)
    requires forall i :: 0 <= i < |slotNames| ==> slotNames[i] in selected
    ensures forall v :: v in Votes(RenameSelected(slotNames, selected, newSkinName)) ==> v == newSkinName
    decreases |slotNames|
  {
    if slotNames != [] {
      var n := |slotNames| - 1;
      var init := slotNames[..n];
      AllRenamedVoteNew(init, selected, newSkinName);
      var r := RenameSelected(slotNames, selected, newSkinName);
      assert r[..n] == RenameSelected(init, selected, newSkinName);
      if HasSkinPart(slotNames[n]) {
        SkinOfRenamed(slotNames[n], newSkinName);
      }
    }
  }

  /** Renaming every slot of a mesh and listing its slots again reports the new
      skin, unless no slot votes at all. */
  lemma RenameAllThenChoose(slotNames: seq<string>, newSkinName: string, skin: string)
    requires ChosenSkin(Votes(RenameSelected(slotNames, (set n | n in slotNames), newSkinName)), skin)
    ensures var votes := Votes(RenameSelected(slotNames, (set n | n in slotNames), newSkinName));
      skin == newSkinName || (votes == [] && skin == "")
  {
    var votes := Votes(RenameSelected(slotNames, (set n | n in slotNames), newSkinName));
    AllRenamedVoteNew(slotNames, (set n | n in slotNames), newSkinName);
    if votes != [] {
      var top := votes[|votes| - 1];
      assert Count(votes, top) > 0;
      CountPositive(votes, skin);
    }
  }

  /** The two maps of ChangeMaterialSlotNames after the slots named in names
      were visited: by previous name, the requested slots that were renamed
      (with their new names) and the requested slots that had no skin part. */
  ghost predicate Recorded(names: seq<string>, selected: set<string>, newSkinName: string,
                           succeeded: map<string, string>, failed: map<string, string>) {
    && (forall n :: n in succeeded <==> n in names && n in selected && HasSkinPart(n))
    && (forall n :: n in failed <==> n in names && n in selected && !HasSkinPart(n))
    && (forall n :: n in succeeded ==> succeeded[n] == Renamed(n, newSkinName))
    && (forall n :: n in failed ==> failed[n] == n)
  }

  /** Visiting one more slot the way the loop does keeps the record. */
  lemma RecordStep(names: seq<string>, name: string, selected: set<string>, newSkinName: string,
                   succeeded: map<string, string>, failed: map<string, string>,
                   succeeded': map<string, string>, failed': map<string, string>)
    requires Recorded(names, selected, newSkinName, succeeded, failed)
    requires name !in selected ==> succeeded' == succeeded && failed' == failed
    requires name in selected && HasSkinPart(name) ==>
      succeeded' == succeeded[name := Renamed(name, newSkinName)] && failed' == failed
    requires name in selected && !HasSkinPart(name) ==>
      succeeded' == succeeded && failed' == failed[name := name]
    ensures Recorded(names + [name], selected, newSkinName, succeeded', failed')
  {
    assert forall n :: n in names + [name] <==> n in names || n == name;
  }

  /** The succeeded map after the slots named in names were visited in order. */
  ghost function SucceededMap(names: seq<string>, selected: set<string>, newSkinName: string): map<string, string>
    decreases |names|
  {
    if names == [] then map[]
    else
      var prev := SucceededMap(names[..|names| - 1], selected, newSkinName);
      var name := names[|names| - 1];
      if name in selected && HasSkinPart(name) then prev[name := Renamed(name, newSkinName)] else prev
  }

  /** The failed map after the slots named in names were visited in order. */
  ghost function FailedMap(names: seq<string>, selected: set<string>, newSkinName: string): map<string, string>
    decreases |names|
  {
    if names == [] then map[]
    else
      var prev := FailedMap(names[..|names| - 1], selected, newSkinName);
      var name := names[|names| - 1];
      if name in selected && !HasSkinPart(name) then prev[name := name] else prev
  }

  /** What the two maps hold once every slot was visited. */
  lemma {:induction false} MapsRecorded(names: seq<string>, selected: set<string>, newSkinName: string)
    ensures Recorded(names, selected, newSkinName,
                     SucceededMap(names, selected, newSkinName), FailedMap(names, selected, newSkinName))
    decreases |names|
  {
    if names != [] {
      var init := names[..|names| - 1];
      MapsRecorded(init, selected, newSkinName);
      assert names == init + [names[|names| - 1]];
      RecordStep(init, names[|names| - 1], selected, newSkinName,
                 SucceededMap(init, selected, newSkinName), FailedMap(init, selected, newSkinName),
                 SucceededMap(names, selected, newSkinName), FailedMap(names, selected, newSkinName));
    }
  }

  /** Visiting slot i after the slots before it extends both maps by that slot,
      given the maps before (succeeded, failed) and after (succeeded', failed')
      the visit. */
  lemma MapsSnoc(names: seq<string>, i: nat, selected: set<string>, newSkinName: string,
                 succeeded: map<string, string>, failed: map<string, string>,
                 succeeded': map<string, string>, failed': map<string, string>)
    requires i < |names|
    requires succeeded == SucceededMap(names[..i], selected, newSkinName)
    requires failed == FailedMap(names[..i], selected, newSkinName)
    requires names[i] !in selected ==> succeeded' == succeeded && failed' == failed
    requires names[i] in selected && HasSkinPart(names[i]) ==>
      succeeded' == succeeded[names[i] := Renamed(names[i], newSkinName)] && failed' == failed
    requires names[i] in selected && !HasSkinPart(names[i]) ==>
      succeeded' == succeeded && failed' == failed[names[i] := names[i]]
    ensures succeeded' == SucceededMap(names[..i + 1], selected, newSkinName)
    ensures failed' == FailedMap(names[..i + 1], selected, newSkinName)
  {
    assert names[..i + 1][..i] == names[..i];
  }

  /** The loop of ChangeMaterialSlotNames over one material array. Membership is
      tested against each slot's name before it is renamed. The two maps record,
      by previous name, the requested slots that were renamed and those that
      had no skin part. */
  method RenameSlots(materials: array<string>, newSkinName: string, selected: set<string>)
    returns (succeeded: map<string, string>, failed: map<string, string>)
    modifies materials
    ensures materials[..] == RenameSelected(old(materials[..]), selected, newSkinName)
    ensures succeeded == SucceededMap(old(materials[..]), selected, newSkinName)
    ensures failed == FailedMap(old(materials[..]), selected, newSkinName)
  {
    ghost var original := materials[..];
    ghost var target := RenameSelected(original, selected, newSkinName);
    succeeded, failed := map[], map[];
    var i := 0;
    while i < materials.Length
      invariant 0 <= i <= materials.Length
      invariant forall j :: 0 <= j < i ==> materials[j] == target[j]
      invariant forall j :: i <= j < materials.Length ==> materials[j] == original[j]
      invariant succeeded == SucceededMap(original[..i], selected, newSkinName)
      invariant failed == FailedMap(original[..i], selected, newSkinName)
    {
      var name := materials[i];
      ghost var succeeded0, failed0 := succeeded, failed;
      if name in selected {
        var newName;
        newName, succeeded, failed := ChangeSlotNameInternal(name, newSkinName, succeeded, failed);
        materials[i] := newName;
      }
      MapsSnoc(original, i, selected, newSkinName, succeeded0, failed0, succeeded, failed);
      assert materials[i] == target[i];
      i := i + 1;
    }
    assert original[..i] == original;
    assert materials[..] == target;
  }

  /** ChangeMaterialSlotNames: rename the skin part of every slot of a mesh whose
      name is among the requested ones; an unsupported asset is left alone. */
  method ChangeMaterialSlotNames(asset: Asset, newSkinName: string, slotNamesToChange: seq<string>)
    modifies Footprint(asset)
    ensures !asset.Unsupported? ==>
      asset.materials[..] == RenameSelected(old(asset.materials[..]), (set n | n in slotNamesToChange), newSkinName)
  {
    var slotNamesSet := set n | n in slotNamesToChange;
    match asset
    case SkeletalMesh(materials) =>
      var succeeded, failed := RenameSlots(materials, newSkinName, slotNamesSet);
    case StaticMesh(materials) =>
      var succeeded, failed := RenameSlots(materials, newSkinName, slotNamesSet);
    case Unsupported =>
  }

  /** The variables of the majority loop: the counter map, MaxCnt and OutSkinName. */
  datatype TallyState = TallyState(counter: map<string, int>, maxCnt: int, skinName: string)

  /** The state of the majority loop after it has tallied votes: the counter
      holds every skin's count, maxCnt is the largest count and skinName the
      skin that reached it first. */
  ghost predicate Tallied(votes: seq<string>, t: TallyState) {
    && (forall v :: v in t.counter ==> t.counter[v] == Count(votes, v))
    && (forall v :: v !in t.counter ==> Count(votes, v) == 0)
    && (forall v :: Count(votes, v) <= t.maxCnt)
    && (votes == [] ==> t.maxCnt == 0 && t.skinName == "")
    && (votes != [] ==> Count(votes, t.skinName) == t.maxCnt && exists n: nat :: ReachesFirst(votes, t.skinName, n))
  }

  /** One step of the majority loop on a vote for skin: FindOrAdd and increment
      the skin's counter, and take the skin when its count passes MaxCnt. */
  function Counted(t: TallyState, skin: string): TallyState {
    var cnt := (if skin in t.counter then t.counter[skin] else 0) + 1;
    if cnt > t.maxCnt then TallyState(t.counter[skin := cnt], cnt, skin)
    else TallyState(t.counter[skin := cnt], t.maxCnt, t.skinName)
  }

  /** Tallying one more vote keeps the tally: the counter of the skin goes up
      by one, and when it passes the maximum the skin becomes the chosen one,
      reached at the new vote. */
  lemma TallyStep(votes: seq<string>, t: TallyState, skin: string)
    requires Tallied(votes, t)
    ensures Tallied(votes + [skin], Counted(t, skin))
  {
    var after := votes + [skin];
    CountAppend(votes, skin);
    var cnt := (if skin in t.counter then t.counter[skin] else 0) + 1;
    if cnt > t.maxCnt {
      assert after[..|votes| + 1] == after;
      assert ReachesFirst(after, skin, |votes| + 1);
    } else {
      var n: nat :| ReachesFirst(votes, t.skinName, n);
      assert after[..n] == votes[..n];
      assert ReachesFirst(after, t.skinName, n);
    }
  }

  /** The majority loop's variables after it has counted the votes in order. */
  ghost function TallyOf(votes: seq<string>): TallyState
    decreases |votes|
  {
    if votes == [] then TallyState(map[], 0, "")
    else Counted(TallyOf(votes[..|votes| - 1]), votes[|votes| - 1])
  }

  /** Counting the votes in order keeps the tally. */
  lemma {:induction false} TallyOfTallied(votes: seq<string>)
    ensures Tallied(votes, TallyOf(votes))
    decreases |votes|
  {
    if votes != [] {
      var init := votes[..|votes| - 1];
      TallyOfTallied(init);
      assert votes == init + [votes[|votes| - 1]];
      TallyStep(init, TallyOf(init), votes[|votes| - 1]);
    }
  }

  /** The skin the majority loop ends with is the chosen one. */
  lemma TallyOfChosen(votes: seq<string>)
    ensures ChosenSkin(votes, TallyOf(votes).skinName)
  {
    TallyOfTallied(votes);
  }

  /** The body of the majority loop on one slot: an eye slot is skipped, any
      other slot counts the skin FindSkinName finds in it, if it finds one. */
  function SlotStep(t: TallyState, slotName: string): TallyState {
    if IsEyeSlot(slotName) then t
    else
      var found := FindSkinName(slotName);
      if found.found then Counted(t, found.skinName) else t
  }

  /** The majority loop's variables after it has gone through the slots in order. */
  ghost function SlotTally(slotNames: seq<string>): TallyState
    decreases |slotNames|
  {
    if slotNames == [] then TallyState(map[], 0, "")
    else SlotStep(SlotTally(slotNames[..|slotNames| - 1]), slotNames[|slotNames| - 1])
  }

  /** The vote of a slot, in the terms the loop computes it: nothing for an eye
      slot, otherwise the skin FindSkinName finds, if it finds one. */
  lemma VoteFound(slotName: string)
    ensures !IsEyeSlot(slotName) && FindSkinName(slotName).found ==> Vote(slotName) == [FindSkinName(slotName).skinName]
    ensures !IsEyeSlot(slotName) && !FindSkinName(slotName).found ==> Vote(slotName) == []
    ensures IsEyeSlot(slotName) ==> Vote(slotName) == []
  {
    FindSkinNameCorrect(slotName);
  }

  /** Going through the slots tallies exactly their votes. */
  lemma {:induction false} SlotTallyVotes(slotNames: seq<string>)
    ensures SlotTally(slotNames) == TallyOf(Votes(slotNames))
    decreases |slotNames|
  {
    if slotNames != [] {
      var init, last := slotNames[..|slotNames| - 1], slotNames[|slotNames| - 1];
      SlotTallyVotes(init);
      VoteFound(last);
      var votes := Votes(init);
      if Vote(last) == [] {
        assert votes + [] == votes;
      } else {
        assert (votes + Vote(last))[..|votes|] == votes;
      }
    }
  }

  /** One more slot is one more step of the loop. */
  lemma SlotTallySnoc(slotNames: seq<string>, i: nat)
    requires i < |slotNames|
    ensures SlotTally(slotNames[..i + 1]) == SlotStep(SlotTally(slotNames[..i]), slotNames[i])
  {
    assert slotNames[..i + 1][..i] == slotNames[..i];
  }

  /** The majority loop of GetMaterialSlotNames: count the skin of every slot
      that is not an eye slot and has one, and keep the skin whose count first
      passed all others ("" when no slot votes). */
  method MajoritySkin(outNames: seq<string>) returns (skinName: string)
    ensures ChosenSkin(Votes(outNames), skinName)
  {
    skinName := "";
    var maxCnt: int := 0;
    var skinNameCounter: map<string, int> := map[];
    var i := 0;
    while i < |outNames|
      invariant 0 <= i <= |outNames|
      invariant SlotTally(outNames[..i]) == TallyState(skinNameCounter, maxCnt, skinName)
    {
      SlotTallySnoc(outNames, i);
      var slotName := outNames[i];
      if !IsEyeSlot(slotName) {
        var found := FindSkinName(slotName);
        if found.found {
          var skin := found.skinName;
          var cnt := (if skin in skinNameCounter then skinNameCounter[skin] else 0) + 1;
          skinNameCounter := skinNameCounter[skin := cnt];
          if cnt > maxCnt {
            skinName := skin;
            maxCnt := cnt;
          }
        }
      }
      i := i + 1;
    }
    assert outNames[..i] == outNames;
    SlotTallyVotes(outNames);
    TallyOfChosen(Votes(outNames));
  }

  /** GetMaterialSlotNames: the slot names of a mesh in material order, and the
      skin most of them carry. For an unsupported asset the names come back
      empty, the result is false and the skin parameter keeps the caller's value. */
  method GetMaterialSlotNames(asset: Asset, outSkinName: string)
    returns (ok: bool, outNames: seq<string>, skinName: string)
    ensures ok <==> !asset.Unsupported?
    ensures !ok ==> outNames == [] && skinName == outSkinName
    ensures ok ==> outNames == asset.materials[..]
    ensures ok ==> ChosenSkin(Votes(outNames), skinName)
  {
    outNames := [];
    if asset.Unsupported? {
      return false, outNames, outSkinName;
    }
    var materials := asset.materials;
    var m := 0;
    while m < materials.Length
      invariant 0 <= m <= materials.Length
      invariant outNames == materials[..m]
    {
      outNames := outNames + [materials[m]];
      m := m + 1;
    }

    skinName := MajoritySkin(outNames);
    ok := true;
  }
}
