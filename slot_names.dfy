/** Material-slot names of the form <model>_<skin>_<part>, as the editor widget
    reads and rewrites them: the "skin" is the text strictly between the first
    underscore and the last underscore. */
module SlotNames {

  const Underscore: char := '_'

  /** Number of underscores in a name. */
  function Underscores(s: string): nat
    decreases |s|
  {
    if s == [] then 0 else (if s[0] == Underscore then 1 else 0) + Underscores(s[1..])
  }

  lemma {:induction false} UnderscoresConcat(a: string, b: string)
    ensures Underscores(a + b) == Underscores(a) + Underscores(b)
    decreases |a|
  {
    if a == [] {
      assert a + b == b;
    } else {
      assert (a + b)[1..] == a[1..] + b;
      UnderscoresConcat(a[1..], b);
    }
  }

  lemma {:induction false} NoUnderscores(s: string)
    ensures Underscores(s) == 0 <==> Underscore !in s
    decreases |s|
  {
    if s != [] {
      NoUnderscores(s[1..]);
      assert s == [s[0]] + s[1..];
    }
  }

  /** A slot name has a skin part when it holds at least two underscores. */
  predicate HasSkinPart(s: string) {
    Underscores(s) >= 2
  }

  /** FString::FindChar: the index of the first occurrence of c, or -1 when there is none. */
  function FindChar(s: string, c: char): (r: int)
    ensures -1 <= r < |s|
    ensures r == -1 <==> c !in s
    ensures 0 <= r ==> s[r] == c && c !in s[..r]
  {
    if |s| == 0 then -1
    else if s[0] == c then 0
    else
      var i := FindChar(s[1..], c);
      assert s == [s[0]] + s[1..];
      if i == -1 then -1
      else
        assert s[..i + 1] == [s[0]] + s[1..][..i];
        i + 1
  }

  /** FString::FindLastChar: the index of the last occurrence of c, or -1 when there is none. */
  function FindLastChar(s: string, c: char): (r: int)
    ensures -1 <= r < |s|
    ensures r == -1 <==> c !in s
    ensures 0 <= r ==> s[r] == c && c !in s[r + 1..]
  {
    if |s| == 0 then -1
    else if s[|s| - 1] == c then |s| - 1
    else
      var prefix := s[..|s| - 1];
      var i := FindLastChar(prefix, c);
      assert s == prefix + [s[|s| - 1]];
      assert 0 <= i ==> s[i + 1..] == prefix[i + 1..] + [s[|s| - 1]];
      i
  }

  /** s is modelName + skin + part, where modelName runs up to and including the
      first underscore and part starts at the last underscore. */
  ghost predicate Layout(s: string, modelName: string, skin: string, part: string) {
    && s == modelName + skin + part
    && |modelName| > 0 && modelName[|modelName| - 1] == Underscore
    && Underscore !in modelName[..|modelName| - 1]
    && |part| > 0 && part[0] == Underscore && Underscore !in part[1..]
  }

  /** A name whose only underscore is at index i has one underscore. */
  lemma SingleUnderscore(s: string, i: nat)
    requires i < |s| && s[i] == Underscore
    requires Underscore !in s[..i] && Underscore !in s[i + 1..]
    ensures Underscores(s) == 1
  {
    assert s == s[..i] + ([Underscore] + s[i + 1..]);
    UnderscoresConcat(s[..i], [Underscore] + s[i + 1..]);
    UnderscoresConcat([Underscore], s[i + 1..]);
    NoUnderscores(s[..i]);
    NoUnderscores(s[i + 1..]);
    assert Underscores([Underscore]) == 1 + Underscores([]);
  }

  /** A name with a layout has a skin part. */
  lemma LayoutHasSkinPart(s: string, modelName: string, skin: string, part: string)
    requires Layout(s, modelName, skin, part)
    ensures HasSkinPart(s)
  {
    var n := |modelName| - 1;
    assert modelName == modelName[..n] + [Underscore];
    UnderscoresConcat(modelName[..n], [Underscore]);
    assert Underscores([Underscore]) == 1 + Underscores([]);
    assert part == [Underscore] + part[1..];
    UnderscoresConcat([Underscore], part[1..]);
    UnderscoresConcat(modelName, skin);
    UnderscoresConcat(modelName + skin, part);
  }

  /** The layout of a name is unique: the skin part is exactly the text between
      the first and the last underscore. */
  lemma LayoutUnique(s: string, m1: string, k1: string, p1: string, m2: string, k2: string, p2: string)
    requires Layout(s, m1, k1, p1) && Layout(s, m2, k2, p2)
    ensures m1 == m2 && k1 == k2 && p1 == p2
  {
    assert forall i :: 0 <= i < |m1| ==> s[i] == m1[i];
    assert forall i :: 0 <= i < |m2| ==> s[i] == m2[i];
    if |m1| != |m2| {
      assert false;
    }
    assert m1 == s[..|m1|] == m2;
    assert forall i :: 0 <= i < |p1| ==> s[|s| - |p1| + i] == p1[i];
    assert forall i :: 0 <= i < |p2| ==> s[|s| - |p2| + i] == p2[i];
    if |p1| != |p2| {
      assert false;
    }
    assert p1 == s[|s| - |p1|..] == p2;
    assert k1 == s[|m1|..|s| - |p1|] == k2;
  }

  /** The first and the last underscore of a name are distinct exactly when the
      name has a skin part, and then they delimit its layout. */
  lemma FirstAndLastUnderscore(s: string, left: int, right: int)
    requires -1 <= left < |s| && -1 <= right < |s|
    requires left == -1 <==> Underscore !in s
    requires right == -1 <==> Underscore !in s
    requires 0 <= left ==> s[left] == Underscore && Underscore !in s[..left]
    requires 0 <= right ==> s[right] == Underscore && Underscore !in s[right + 1..]
    ensures (0 <= left < right) <==> HasSkinPart(s)
    ensures 0 <= left < right ==> Layout(s, s[..left + 1], s[left + 1..right], s[right..])
  {
    if 0 <= left < right {
      var m, k, p := s[..left + 1], s[left + 1..right], s[right..];
      assert m[..|m| - 1] == s[..left];
      assert p[1..] == s[right + 1..];
      assert s == m + k + p;
      assert Layout(s, m, k, p);
      LayoutHasSkinPart(s, m, k, p);
    } else if HasSkinPart(s) {
      if 0 <= left && left == right {
        SingleUnderscore(s, left);
      } else {
        NoUnderscores(s);
      }
      assert false;
    }
  }

  /** Every name with a skin part has a layout. */
  lemma LayoutExists(s: string)
    requires HasSkinPart(s)
    ensures exists m, k, p :: Layout(s, m, k, p)
  {
    var left := FindChar(s, Underscore);
    var right := FindLastChar(s, Underscore);
    FirstAndLastUnderscore(s, left, right);
  }

  /** The layout (model name, skin, part) of a name with a skin part. */
  ghost function LayoutOf(s: string): (r: (string, string, string))
    requires HasSkinPart(s)
    ensures Layout(s, r.0, r.1, r.2)
  {
    LayoutExists(s);
    var m, k, p :| Layout(s, m, k, p); (m, k, p)
  }

  /** The skin part of a name: the text strictly between its first and its
      last underscore. */
  ghost function SkinOf(s: string): string
    requires HasSkinPart(s)
  {
    LayoutOf(s).1
  }

  /** The name a slot should get when its skin is replaced: the same model name
      and part around the new skin; a name without a skin part is kept. */
  ghost function Renamed(s: string, newSkinName: string): string {
    if HasSkinPart(s) then LayoutOf(s).0 + newSkinName + LayoutOf(s).2 else s
  }

  /** The outcome of FindSkinNameFromMaterialSlotName: whether a skin was found,
      and the skin written to the output parameter. */
  datatype SkinSearch = SkinSearch(found: bool, skinName: string)

  /** FindSkinNameFromMaterialSlotName: find the first underscore, chop the name
      after it, find the last underscore of the rest and keep what lies before it. */
  function FindSkinName(slotName: string): (r: SkinSearch)
    ensures r.found <==> HasSkinPart(slotName)
    ensures !r.found ==> r.skinName == ""
  {
    var left := FindChar(slotName, Underscore);
    if left >= 0 then
      var rest := slotName[left + 1..];
      var right := FindLastChar(rest, Underscore);
      SecondUnderscoreInRest(slotName, left, right);
      if right >= 0 then
        SkinSearch(true, rest[..right])
      else
        SkinSearch(false, "")
    else
      NoUnderscores(slotName);
      SkinSearch(false, "")
  }

  /** Past the first underscore, a further underscore exists exactly when the
      name has a skin part. */
  lemma SecondUnderscoreInRest(s: string, left: nat, right: int)
    requires left < |s| && s[left] == Underscore && Underscore !in s[..left]
    requires (0 <= right) <==> Underscore in s[left + 1..]
    ensures (0 <= right) <==> HasSkinPart(s)
  {
    var rest := s[left + 1..];
    assert s == s[..left] + ([Underscore] + rest);
    UnderscoresConcat(s[..left], [Underscore] + rest);
    assert ([Underscore] + rest)[1..] == rest;
    assert Underscores([Underscore] + rest) == 1 + Underscores(rest);
    NoUnderscores(s[..left]);
    NoUnderscores(rest);
    assert Underscores(s) == 1 + Underscores(rest);
    assert HasSkinPart(s) <==> Underscore in rest;
  }

  /** The last underscore after the first one closes the skin part. */
  lemma SkinBeforeLastUnderscore(s: string, left: nat, right: nat, skin: string)
    requires left < |s| && s[left] == Underscore && Underscore !in s[..left]
    requires right < |s[left + 1..]| && s[left + 1..][right] == Underscore
    requires Underscore !in s[left + 1..][right + 1..]
    requires skin == s[left + 1..][..right]
    ensures exists m, p :: Layout(s, m, skin, p)
  {
    var rest := s[left + 1..];
    var m, k, p := s[..left + 1], rest[..right], rest[right..];
    assert m[..|m| - 1] == s[..left];
    assert p[1..] == rest[right + 1..];
    assert s == m + rest;
    assert rest == k + p;
    assert Layout(s, m, skin, p);
  }

  /** FindSkinName finds exactly the skin part of the name. */
  lemma {:induction false} FindSkinNameCorrect(slotName: string)
    ensures FindSkinName(slotName) ==
      if HasSkinPart(slotName) then SkinSearch(true, SkinOf(slotName)) else SkinSearch(false, "")
  {
    if HasSkinPart(slotName) {
      var left := FindChar(slotName, Underscore);
      NoUnderscores(slotName);
      var rest := slotName[left + 1..];
      var right := FindLastChar(rest, Underscore);
      SecondUnderscoreInRest(slotName, left, right);
      var skin := FindSkinName(slotName).skinName;
      SkinBeforeLastUnderscore(slotName, left, right, skin);
      var m, p :| Layout(slotName, m, skin, p);
      var l := LayoutOf(slotName);
      LayoutUnique(slotName, m, skin, p, l.0, l.1, l.2);
    }
  }

  /** ChangeSlotName_Internal: rename the slot (the in/out name comes back as
      newSlotName) and record the outcome in the succeeded or the failed map,
      keyed by the previous name. */
  method ChangeSlotNameInternal(matSlotName: string, newSkinName: string,
                                succeeded: map<string, string>, failed: map<string, string>)
    returns (newSlotName: string, succeeded': map<string, string>, failed': map<string, string>)
    ensures newSlotName == Renamed(matSlotName, newSkinName)
    ensures HasSkinPart(matSlotName) ==>
      succeeded' == succeeded[matSlotName := newSlotName] && failed' == failed
    ensures !HasSkinPart(matSlotName) ==>
      newSlotName == matSlotName && failed' == failed[matSlotName := matSlotName] && succeeded' == succeeded
  {
    var prevName := matSlotName;
    var left := FindChar(matSlotName, Underscore);
    var right := FindLastChar(matSlotName, Underscore);
    FirstAndLastUnderscore(matSlotName, left, right);
    if left < right && left >= 0 {
      var modelName := matSlotName[..left + 1];
      var part := matSlotName[right..];
      newSlotName := modelName + newSkinName + part;
      succeeded' := succeeded[prevName := newSlotName];
      failed' := failed;
      ghost var l := LayoutOf(matSlotName);
      LayoutUnique(matSlotName, modelName, matSlotName[left + 1..right], part, l.0, l.1, l.2);
    } else {
      newSlotName := matSlotName;
      succeeded' := succeeded;
      failed' := failed[prevName := newSlotName];
    }
  }

  /** A renamed name has a layout with the kept model name and part and the new
      skin, so it has a skin part again and that skin is the new one. */
  lemma RenamedLayout(s: string, newSkinName: string)
    requires HasSkinPart(s)
    ensures Layout(Renamed(s, newSkinName), LayoutOf(s).0, newSkinName, LayoutOf(s).2)
    ensures HasSkinPart(Renamed(s, newSkinName))
  {
    var l := LayoutOf(s);
    LayoutHasSkinPart(Renamed(s, newSkinName), l.0, newSkinName, l.2);
  }

  /** Round trip: the skin of a renamed slot is the new skin, whatever it
      contains (underscores included). */
  lemma {:induction false} SkinOfRenamed(slotName: string, newSkinName: string)
    requires HasSkinPart(slotName)
    ensures HasSkinPart(Renamed(slotName, newSkinName))
    ensures SkinOf(Renamed(slotName, newSkinName)) == newSkinName
  {
    var r := Renamed(slotName, newSkinName);
    var l := LayoutOf(slotName);
    RenamedLayout(slotName, newSkinName);
    var l' := LayoutOf(r);
    LayoutUnique(r, l.0, newSkinName, l.2, l'.0, l'.1, l'.2);
  }

  /** The same round trip through the code: FindSkinName on a renamed slot
      reports the new skin. */
  lemma {:induction false} FindSkinNameOfRenamed(slotName: string, newSkinName: string)
    requires HasSkinPart(slotName)
    ensures FindSkinName(Renamed(slotName, newSkinName)) == SkinSearch(true, newSkinName)
  {
    SkinOfRenamed(slotName, newSkinName);
    FindSkinNameCorrect(Renamed(slotName, newSkinName));
  }

  /** Renaming a slot to the skin it already has gives back the same name. */
  lemma {:induction false} RenameWithOwnSkin(slotName: string)
    ensures Renamed(slotName, FindSkinName(slotName).skinName) == slotName
  {
    FindSkinNameCorrect(slotName);
  }

  /** A second rename overrides the first: only the last skin matters, so
      renaming twice with the same skin is the same as renaming once. */
  lemma {:induction false} RenameTwice(slotName: string, first: string, second: string)
    ensures Renamed(Renamed(slotName, first), second) == Renamed(slotName, second)
  {
    if HasSkinPart(slotName) {
      var l := LayoutOf(slotName);
      var r1 := Renamed(slotName, first);
      RenamedLayout(slotName, first);
      var l1 := LayoutOf(r1);
      LayoutUnique(r1, l.0, first, l.2, l1.0, l1.1, l1.2);
    }
  }
}
