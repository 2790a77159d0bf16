/**
 `UserPresetsManager`: creation, update, renaming and deletion of the user
 presets of an audio unit, and the choice of its current preset. User presets
 carry negative numbers; factory presets are numbered from 0.
 */
module UserPresets {
  import opened Optional

  /** `AUAudioUnitPreset`: a number and a name. */
  datatype Preset = Preset(number: int, name: string)

  /** The position of the first element of `s` that `f` accepts, as `firstIndex(where:)` finds it. */
  function FirstIndex<T>(s: seq<T>, f: T -> bool): (r: Option<nat>)
    ensures r.Some? ==> r.value < |s| && f(s[r.value]) && forall j :: 0 <= j < r.value ==> !f(s[j])
    ensures r.None? ==> forall j :: 0 <= j < |s| ==> !f(s[j])
  {
    FirstIndexFrom(s, f, 0)
  }

  function FirstIndexFrom<T>(s: seq<T>, f: T -> bool, i: nat): (r: Option<nat>)
    requires i <= |s|
    ensures r.Some? ==> i <= r.value < |s| && f(s[r.value]) && forall j :: i <= j < r.value ==> !f(s[j])
    ensures r.None? ==> forall j :: i <= j < |s| ==> !f(s[j])
    decreases |s| - i
  {
    if i == |s| then None
    else if f(s[i]) then Some(i)
    else FirstIndexFrom(s, f, i + 1)
  }

  /** `first(where:)`. */
  function First<T>(s: seq<T>, f: T -> bool): Option<T>
  {
    match FirstIndex(s, f)
    case Some(i) => Some(s[i])
    case None => None
  }

  function NameIs(name: string): Preset -> bool
  {
    (p: Preset) => p.name == name
  }

  function NumberIs(number: int): Preset -> bool
  {
    (p: Preset) => p.number == number
  }

  /** `find(name:)`: the first preset with exactly this name, if any. */
  function FindByName(presets: seq<Preset>, name: string): (r: Option<Preset>)
    ensures r.Some? <==> exists i :: 0 <= i < |presets| && presets[i].name == name
    ensures r.Some? ==> exists i :: 0 <= i < |presets| && presets[i] == r.value && r.value.name == name
                         && forall j :: 0 <= j < i ==> presets[j].name != name
  {
    var r := First(presets, NameIs(name));
    assert forall i :: 0 <= i < |presets| ==> (NameIs(name)(presets[i]) <==> presets[i].name == name);
    r
  }

  /** `find(number:)`: the first preset with this number, if any. */
  function FindByNumber(presets: seq<Preset>, number: int): (r: Option<Preset>)
    ensures r.Some? <==> exists i :: 0 <= i < |presets| && presets[i].number == number
    ensures r.Some? ==> exists i :: 0 <= i < |presets| && presets[i] == r.value && r.value.number == number
                         && forall j :: 0 <= j < i ==> presets[j].number != number
  {
    var r := First(presets, NumberIs(number));
    assert forall i :: 0 <= i < |presets| ==> (NumberIs(number)(presets[i]) <==> presets[i].number == number);
    r
  }

  /** `subscript(validating:)`: the element at the index when it is in bounds, otherwise nothing. */
  function Validating<T>(s: seq<T>, index: int): (r: Option<T>)
    ensures r.Some? <==> 0 <= index < |s|
    ensures r.Some? ==> r.value == s[index]
  {
    if 0 <= index < |s| then Some(s[index]) else None
  }

  /** `factoryPresetsNonNil`: a missing list is an empty one. */
  function NonNil(presets: Option<seq<Preset>>): (r: seq<Preset>)
    ensures presets.None? ==> r == []
    ensures presets.Some? ==> r == presets.value
  {
    match presets
    case Some(s) => s
    case None => []
  }

  /** Some preset in the list has this number. */
  ghost predicate HasNumber(presets: seq<Preset>, number: int)
  {
    exists p :: p in presets && p.number == number
  }

  /** Numbers in the list are pairwise different. */
  predicate DistinctNumbers(presets: seq<Preset>)
  {
    forall j, k :: 0 <= j < k < |presets| ==> presets[j].number != presets[k].number
  }

  /** The numbering user presets keep: all negative and no two alike. */
  ghost predicate UserNumbering(presets: seq<Preset>)
  {
    (forall p :: p in presets ==> p.number < 0) && DistinctNumbers(presets)
  }

  ghost predicate Descending(s: seq<Preset>)
  {
    forall j, k :: 0 <= j < k < |s| ==> s[j].number >= s[k].number
  }

  ghost predicate StrictlyDescending(s: seq<Preset>)
  {
    forall j, k :: 0 <= j < k < |s| ==> s[j].number > s[k].number
  }

  /** One step of sorting by number, largest first: put `x` in front of the first smaller number. */
  function Insert(x: Preset, s: seq<Preset>): (r: seq<Preset>)
    ensures |r| == |s| + 1
    ensures multiset(r) == multiset(s) + multiset{x}
    ensures r[0] == x || (|s| > 0 && r[0] == s[0])
  {
    if s == [] || x.number >= s[0].number then
      [x] + s
    else
      assert s == [s[0]] + s[1..];
      [s[0]] + Insert(x, s[1..])
  }

  /** Inserting into a descending list keeps it descending. */
  lemma {:induction false} InsertDescending(x: Preset, s: seq<Preset>)
    requires Descending(s)
    ensures Descending(Insert(x, s))
    decreases |s|
  {
    if s != [] && x.number < s[0].number {
      InsertDescending(x, s[1..]);
      var t := Insert(x, s[1..]);
      assert Insert(x, s) == [s[0]] + t;
      assert t[0].number <= s[0].number;
    }
  }

  /** Inserting a new number into a strictly descending list keeps it strictly descending. */
  lemma {:induction false} InsertStrictlyDescending(x: Preset, s: seq<Preset>)
    requires StrictlyDescending(s)
    requires forall k :: 0 <= k < |s| ==> s[k].number != x.number
    ensures StrictlyDescending(Insert(x, s))
    decreases |s|
  {
    if s != [] && x.number < s[0].number {
      InsertStrictlyDescending(x, s[1..]);
      var t := Insert(x, s[1..]);
      assert Insert(x, s) == [s[0]] + t;
      assert t[0].number < s[0].number;
    }
  }

  /** The tail of a list with distinct numbers has distinct numbers, none of them the head's. */
  lemma DistinctTail(s: seq<Preset>)
    requires |s| > 0 && DistinctNumbers(s)
    ensures DistinctNumbers(s[1..])
    ensures forall q :: q in s[1..] ==> q.number != s[0].number
  {
    forall q | q in s[1..] ensures q.number != s[0].number {
      var k :| 0 <= k < |s[1..]| && s[1..][k] == q;
      assert s[k + 1] == q;
    }
  }

  /** A head whose number the distinct tail does not use gives a list with distinct numbers. */
  lemma DistinctCons(p: Preset, s: seq<Preset>)
    requires DistinctNumbers(s)
    requires forall q :: q in s ==> q.number != p.number
    ensures DistinctNumbers([p] + s)
  {
    var r := [p] + s;
    forall j, k | 0 <= j < k < |r| ensures r[j].number != r[k].number {
      if j == 0 {
        assert r[k] == s[k - 1];
        assert r[k] in s;
      } else {
        assert r[j] == s[j - 1] && r[k] == s[k - 1];
      }
    }
  }

  /**
   `presetsOrderedByNumber`: the presets rearranged by number, largest first.
   With distinct numbers the order is strict.
   */
  function SortByNumber(presets: seq<Preset>): (r: seq<Preset>)
    ensures multiset(r) == multiset(presets)
    ensures Descending(r)
    ensures DistinctNumbers(presets) ==> StrictlyDescending(r)
  {
    if presets == [] then []
    else
      var rest := SortByNumber(presets[1..]);
      assert presets == [presets[0]] + presets[1..];
      InsertDescending(presets[0], rest);
      if DistinctNumbers(presets) then
        DistinctTail(presets);
        assert forall k :: 0 <= k < |rest| ==> rest[k].number != presets[0].number by {
          forall k | 0 <= k < |rest| ensures rest[k].number != presets[0].number {
            assert rest[k] in multiset(presets[1..]);
          }
        }
        InsertStrictlyDescending(presets[0], rest);
        Insert(presets[0], rest)
      else
        Insert(presets[0], rest)
  }

  /** Sorting keeps exactly the presets there were. */
  lemma SortKeepsMembers(presets: seq<Preset>)
    ensures forall q :: q in SortByNumber(presets) <==> q in presets
  {
    var r := SortByNumber(presets);
    assert forall q :: q in r <==> q in multiset(r);
    assert forall q :: q in presets <==> q in multiset(presets);
  }

  /** What `saveUserPreset` does to the user presets: a preset with the same number is replaced, else it is appended. */
  function SavedPresets(presets: seq<Preset>, preset: Preset): (r: seq<Preset>)
    ensures |r| == |presets| || r == presets + [preset]
  {
    match FirstIndex(presets, NumberIs(preset.number))
    case Some(i) => presets[i := preset]
    case None => presets + [preset]
  }

  /** What `deleteUserPreset` does: every preset with that number goes, the others stay in order. */
  function RemovedPresets(presets: seq<Preset>, number: int): (r: seq<Preset>)
    ensures forall q :: q in r <==> q in presets && q.number != number
    ensures !HasNumber(r, number)
    ensures |r| <= |presets|
    ensures !HasNumber(presets, number) ==> r == presets
  {
    if presets == [] then []
    else
      var rest := RemovedPresets(presets[1..], number);
      assert presets == [presets[0]] + presets[1..];
      assert presets[0] in presets;
      assert forall q :: q in presets[1..] ==> q in presets;
      if presets[0].number == number then rest else [presets[0]] + rest
  }

  /** A single preset is kept exactly when its number differs. */
  lemma RemovedPresetsOne(p: Preset, number: int)
    ensures RemovedPresets([p], number) == if p.number == number then [] else [p]
  {
    assert [p][1..] == [];
  }

  /** Deleting works piece by piece: the kept presets of `a + b` are those of `a` followed by those of `b`. */
  lemma {:induction false} RemovedPresetsAppend(a: seq<Preset>, b: seq<Preset>, number: int)
    ensures RemovedPresets(a + b, number) == RemovedPresets(a, number) + RemovedPresets(b, number)
    decreases |a|
  {
    if a != [] {
      assert (a + b)[0] == a[0];
      assert (a + b)[1..] == a[1..] + b;
      RemovedPresetsAppend(a[1..], b, number);
    } else {
      assert a + b == b;
    }
  }

  /** After a save, looking up the number finds the saved preset. */
  lemma SaveThenFind(presets: seq<Preset>, preset: Preset)
    ensures FindByNumber(SavedPresets(presets, preset), preset.number) == Some(preset)
  {
    var f := NumberIs(preset.number);
    var r := SavedPresets(presets, preset);
    match FirstIndex(presets, f)
    case Some(i) =>
      assert f(presets[i]);
      assert forall j :: 0 <= j < i ==> !f(r[j]);
      assert FirstIndexFrom(r, f, i) == Some(i);
      FirstIndexSkips(r, f, 0, i);
    case None =>
      assert forall j :: 0 <= j < |presets| ==> !f(r[j]);
      assert f(r[|presets|]);
      assert FirstIndexFrom(r, f, |presets|) == Some(|presets|);
      FirstIndexSkips(r, f, 0, |presets|);
  }

  /** Elements `f` rejects between `i` and `k` do not change where the search from `i` ends. */
  lemma {:induction false} FirstIndexSkips<T>(s: seq<T>, f: T -> bool, i: nat, k: nat)
    requires i <= k <= |s|
    requires forall j :: i <= j < k ==> !f(s[j])
    ensures FirstIndexFrom(s, f, i) == FirstIndexFrom(s, f, k)
    decreases k - i
  {
    if i < k {
      FirstIndexSkips(s, f, i + 1, k);
    }
  }

  /** Saving a negatively numbered preset keeps the user numbering. */
  lemma SaveKeepsNumbering(presets: seq<Preset>, preset: Preset)
    requires UserNumbering(presets) && preset.number < 0
    ensures UserNumbering(SavedPresets(presets, preset))
  {
    var f := NumberIs(preset.number);
    var r := SavedPresets(presets, preset);
    match FirstIndex(presets, f)
    case Some(i) =>
      assert f(presets[i]);
      forall q | q in r ensures q.number < 0 {
        var k :| 0 <= k < |r| && r[k] == q;
        if k != i { assert q == presets[k]; }
      }
    case None =>
      forall j | 0 <= j < |presets| ensures presets[j].number != preset.number {
        assert !f(presets[j]);
      }
  }

  /** Deleting keeps the user numbering. */
  lemma {:induction false} RemoveKeepsNumbering(presets: seq<Preset>, number: int)
    requires UserNumbering(presets)
    ensures UserNumbering(RemovedPresets(presets, number))
    decreases |presets|
  {
    if presets != [] {
      var rest := RemovedPresets(presets[1..], number);
      assert presets == [presets[0]] + presets[1..];
      DistinctTail(presets);
      RemoveKeepsNumbering(presets[1..], number);
      if presets[0].number != number {
        DistinctCons(presets[0], rest);
      }
    }
  }

  /**
   The number the counting loop of `nextNumber` stops at, over presets sorted
   by strictly descending negative numbers that begin `-1, -2, ..., -i`: it
   is unused, and every negative number above it is used.
   */
  lemma NextNumberGap(ordered: seq<Preset>, i: nat)
    requires StrictlyDescending(ordered) && forall p :: p in ordered ==> p.number < 0
    requires i <= |ordered| && forall k :: 0 <= k < i ==> ordered[k].number == -(k + 1)
    requires i < |ordered| ==> ordered[i].number != -(i + 1)
    ensures !HasNumber(ordered, -(i + 1))
    ensures forall n :: -(i + 1) < n < 0 ==> HasNumber(ordered, n)
  {
    forall n | -(i + 1) < n < 0 ensures HasNumber(ordered, n) {
      assert ordered[-n - 1] in ordered;
    }
    if i < |ordered| {
      assert ordered[i] in ordered;
      assert ordered[i].number < -(i + 1) by {
        if i > 0 { assert ordered[i].number < ordered[i - 1].number; }
      }
    }
    forall q | q in ordered ensures q.number != -(i + 1) {
      var k :| 0 <= k < |ordered| && ordered[k] == q;
      if k > i { assert ordered[k].number < ordered[i].number; }
    }
  }

  /** The slice of the audio unit the manager works with, its save and delete behaving as the component's test double. */
  class PresetsFacade {
    var factoryPresets: Option<seq<Preset>>
    var userPresets: seq<Preset>
    var currentPreset: Option<Preset>

    constructor(factoryPresets: Option<seq<Preset>>, userPresets: seq<Preset>)
      ensures this.factoryPresets == factoryPresets && this.userPresets == userPresets && currentPreset == None
    {
      this.factoryPresets := factoryPresets;
      this.userPresets := userPresets;
      currentPreset := None;
    }

    /** `saveUserPreset`. */
    method SaveUserPreset(preset: Preset)
      modifies this
      ensures userPresets == SavedPresets(old(userPresets), preset)
      ensures factoryPresets == old(factoryPresets) && currentPreset == old(currentPreset)
    {
      userPresets := SavedPresets(userPresets, preset);
    }

    /** `deleteUserPreset`. */
    method DeleteUserPreset(preset: Preset)
      modifies this
      ensures userPresets == RemovedPresets(old(userPresets), preset.number)
      ensures factoryPresets == old(factoryPresets) && currentPreset == old(currentPreset)
    {
      userPresets := RemovedPresets(userPresets, preset.number);
    }
  }

  /** `UserPresetsManager`. */
  class UserPresetsManager {
    const audioUnit: PresetsFacade

    constructor(audioUnit: PresetsFacade)
      ensures this.audioUnit == audioUnit
    {
      this.audioUnit := audioUnit;
    }

    /** `presets`: the user presets, as the component lists them. */
    function Presets(): seq<Preset>
      reads this, audioUnit
    {
      audioUnit.userPresets
    }

    /** `presetsOrderedByNumber`. */
    function PresetsOrderedByNumber(): seq<Preset>
      reads this, audioUnit
    {
      SortByNumber(audioUnit.userPresets)
    }

    /** `find(name:)`. */
    function Find(name: string): Option<Preset>
      reads this, audioUnit
    {
      FindByName(audioUnit.userPresets, name)
    }

    /** `clearCurrentPreset`. */
    method ClearCurrentPreset()
      modifies audioUnit
      ensures audioUnit.currentPreset == None
      ensures audioUnit.userPresets == old(audioUnit.userPresets) && audioUnit.factoryPresets == old(audioUnit.factoryPresets)
    {
      audioUnit.currentPreset := None;
    }

    /** `makeCurrentPreset(name:)`: the first user preset with the name, or none. */
    method MakeCurrentPresetNamed(name: string)
      modifies audioUnit
      ensures audioUnit.currentPreset == FindByName(audioUnit.userPresets, name)
      ensures audioUnit.userPresets == old(audioUnit.userPresets) && audioUnit.factoryPresets == old(audioUnit.factoryPresets)
    {
      audioUnit.currentPreset := Find(name);
    }

    /**
     `makeCurrentPreset(number:)`: a non-negative number indexes the factory
     presets (none when out of range); a negative one is looked up among the
     user presets.
     */
    method MakeCurrentPresetNumbered(number: int)
      modifies audioUnit
      ensures number >= 0 ==> audioUnit.currentPreset == Validating(NonNil(audioUnit.factoryPresets), number)
      ensures number < 0 ==> audioUnit.currentPreset == FindByNumber(audioUnit.userPresets, number)
      ensures audioUnit.userPresets == old(audioUnit.userPresets) && audioUnit.factoryPresets == old(audioUnit.factoryPresets)
    {
      if number >= 0 {
        audioUnit.currentPreset := Validating(NonNil(audioUnit.factoryPresets), number);
      } else {
        audioUnit.currentPreset := FindByNumber(audioUnit.userPresets, number);
      }
    }

    /**
     `nextNumber`: counts down from -1 along the presets in descending number
     order while they match. Under the user numbering the result is the
     negative number closest to zero that no preset uses.
     */
    method NextNumber() returns (number: int)
      ensures audioUnit.userPresets == [] ==> number == -1
      ensures UserNumbering(audioUnit.userPresets) ==>
                number < 0 && !HasNumber(audioUnit.userPresets, number)
                && forall n :: number < n < 0 ==> HasNumber(audioUnit.userPresets, n)
    {
      var presets := audioUnit.userPresets;
      var ordered := SortByNumber(presets);
      ghost var valid := UserNumbering(presets);
      SortKeepsMembers(presets);
      if valid && |ordered| > 0 {
        assert ordered[0] in presets;
      }
      number := if |ordered| > 0 && ordered[0].number > -1 then ordered[0].number else -1;
      var i := 0;
      while i < |ordered|
        invariant 0 <= i <= |ordered|
        invariant valid ==> number == -(i + 1) && forall k :: 0 <= k < i ==> ordered[k].number == -(k + 1)
      {
        if ordered[i].number != number {
          break;
        }
        number := number - 1;
        i := i + 1;
      }
      if valid {
        SortKeepsMembers(presets);
        assert forall p :: p in ordered ==> p.number < 0;
        NextNumberGap(ordered, i);
        assert forall n :: HasNumber(ordered, n) <==> HasNumber(presets, n);
      }
    }

    /**
     `create(name:)`: a preset under the next free number is saved and made
     current. Under the user numbering that number is the negative number
     closest to zero not in use; the preset is appended and the numbering is kept.
     */
    method Create(name: string)
      modifies audioUnit
      ensures audioUnit.currentPreset.Some? && audioUnit.currentPreset.value.name == name
      ensures audioUnit.userPresets == SavedPresets(old(audioUnit.userPresets), audioUnit.currentPreset.value)
      ensures audioUnit.factoryPresets == old(audioUnit.factoryPresets)
      ensures UserNumbering(old(audioUnit.userPresets)) ==>
                var p := audioUnit.currentPreset.value;
                p.number < 0 && !HasNumber(old(audioUnit.userPresets), p.number)
                && (forall n :: p.number < n < 0 ==> HasNumber(old(audioUnit.userPresets), n))
                && audioUnit.userPresets == old(audioUnit.userPresets) + [p]
                && UserNumbering(audioUnit.userPresets)
    {
      var number := NextNumber();
      var preset := Preset(number, name);
      ghost var before := audioUnit.userPresets;
      if UserNumbering(before) {
        forall j | 0 <= j < |before| ensures !NumberIs(number)(before[j]) {
          assert before[j] in before;
        }
        SaveKeepsNumbering(before, preset);
      }
      audioUnit.SaveUserPreset(preset);
      audioUnit.currentPreset := Some(preset);
    }

    /** `update(preset:)`: only a user preset (negative number) is saved again and made current. */
    method Update(preset: Preset)
      modifies audioUnit
      ensures preset.number >= 0 ==> unchanged(audioUnit)
      ensures preset.number < 0 ==>
                audioUnit.userPresets == SavedPresets(old(audioUnit.userPresets), preset)
                && audioUnit.currentPreset == Some(preset)
                && audioUnit.factoryPresets == old(audioUnit.factoryPresets)
      ensures UserNumbering(old(audioUnit.userPresets)) ==> UserNumbering(audioUnit.userPresets)
    {
      if preset.number >= 0 {
        return;
      }
      var saved := Preset(preset.number, preset.name);
      if UserNumbering(audioUnit.userPresets) {
        SaveKeepsNumbering(audioUnit.userPresets, saved);
      }
      audioUnit.SaveUserPreset(saved);
      audioUnit.currentPreset := Some(saved);
    }

    /**
     `renameCurrent(to:)`: a current user preset is deleted and saved again
     under the new name, and the renamed one becomes current. A missing or
     factory current preset leaves everything as it is.
     */
    method RenameCurrent(name: string)
      modifies audioUnit
      ensures old(audioUnit.currentPreset).None? || old(audioUnit.currentPreset).value.number >= 0 ==> unchanged(audioUnit)
      ensures old(audioUnit.currentPreset).Some? && old(audioUnit.currentPreset).value.number < 0 ==>
                var renamed := Preset(old(audioUnit.currentPreset).value.number, name);
                audioUnit.userPresets == SavedPresets(RemovedPresets(old(audioUnit.userPresets), renamed.number), renamed)
                && audioUnit.currentPreset == Some(renamed)
                && audioUnit.factoryPresets == old(audioUnit.factoryPresets)
      ensures UserNumbering(old(audioUnit.userPresets)) ==> UserNumbering(audioUnit.userPresets)
    {
      if audioUnit.currentPreset.None? || audioUnit.currentPreset.value.number >= 0 {
        return;
      }
      var current := audioUnit.currentPreset.value;
      var renamed := Preset(current.number, name);
      if UserNumbering(audioUnit.userPresets) {
        RemoveKeepsNumbering(audioUnit.userPresets, current.number);
        SaveKeepsNumbering(RemovedPresets(audioUnit.userPresets, current.number), renamed);
      }
      audioUnit.DeleteUserPreset(current);
      audioUnit.SaveUserPreset(renamed);
      audioUnit.currentPreset := Some(renamed);
    }

    /** `deleteCurrent`: a current user preset is deleted and there is no current preset any more. */
    method DeleteCurrent()
      modifies audioUnit
      ensures old(audioUnit.currentPreset).None? || old(audioUnit.currentPreset).value.number >= 0 ==> unchanged(audioUnit)
      ensures old(audioUnit.currentPreset).Some? && old(audioUnit.currentPreset).value.number < 0 ==>
                audioUnit.userPresets == RemovedPresets(old(audioUnit.userPresets), old(audioUnit.currentPreset).value.number)
                && audioUnit.currentPreset == None
                && audioUnit.factoryPresets == old(audioUnit.factoryPresets)
      ensures UserNumbering(old(audioUnit.userPresets)) ==> UserNumbering(audioUnit.userPresets)
    {
      if audioUnit.currentPreset.None? || audioUnit.currentPreset.value.number >= 0 {
        return;
      }
      var preset := audioUnit.currentPreset.value;
      if UserNumbering(audioUnit.userPresets) {
        RemoveKeepsNumbering(audioUnit.userPresets, preset.number);
      }
      audioUnit.currentPreset := None;
      audioUnit.DeleteUserPreset(Preset(preset.number, preset.name));
    }
  }
}
