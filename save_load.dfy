/** The saved-character registry of components/SaveLoadModal.tsx: an in-memory list
    of saved sheets mirrored into browser storage, with save-by-name (overwriting
    on confirmation), delete-by-id and the shape check applied to an imported file.
    The answer to each `confirm()` dialog, the new id (`Date.now()`) and the date
    text (`toLocaleString()`) are parameters. */
module SaveLoad {
  import opened Types
  import opened JsText
  import opened ListOps

  /** The fallbacks of SaveLoadModal.tsx:30-31. */
  const NoName: string := "Sem Nome"
  const NoClass: string := "Sem Classe"

  /** `s || fallback` on a string: only the empty string is falsy. */
  function OrText(s: string, fallback: string): (r: string)
    ensures r == s || r == fallback
    ensures r == fallback <==> s == "" || s == fallback
  {
    if s == "" then fallback else s
  }

  /** The entry `handleSave` builds (SaveLoadModal.tsx:28-34). */
  function NewEntry(d: CharacterSheetData, id: string, date: string): (e: SavedCharacter)
    ensures e.name != "" && e.classLevel != ""
    ensures e.name == (if d.info.charName == "" then NoName else d.info.charName)
    ensures e.classLevel == (if d.info.classLevel == "" then NoClass else d.info.classLevel)
    ensures e.id == id && e.date == date && e.data == d
  {
    SavedCharacter(id, OrText(d.info.charName, NoName), OrText(d.info.classLevel, NoClass), date, d)
  }

  // ---------------------------------------------------------------- finding an entry to overwrite

  /** The `findIndex` predicate (SaveLoadModal.tsx:36): same name, and the name is
      not the placeholder. */
  predicate Overwrites(c: SavedCharacter, name: string) {
    c.name == name && name != NoName
  }

  /** The first index at or after `i` whose entry `Overwrites`, or -1. */
  function FirstMatchFrom(xs: seq<SavedCharacter>, name: string, i: nat): (r: int)
    requires i <= |xs|
    ensures r == -1 || i <= r < |xs|
    ensures r == -1 ==> forall j :: i <= j < |xs| ==> !Overwrites(xs[j], name)
    ensures r != -1 ==> Overwrites(xs[r], name) && forall j :: i <= j < r ==> !Overwrites(xs[j], name)
    decreases |xs| - i
  {
    if i == |xs| then -1
    else if Overwrites(xs[i], name) then i
    else FirstMatchFrom(xs, name, i + 1)
  }

  function FirstMatch(xs: seq<SavedCharacter>, name: string): int {
    FirstMatchFrom(xs, name, 0)
  }

  /** The first-match index is the one index at which the entry overwrites and no
      earlier one does. */
  lemma FirstMatchUnique(xs: seq<SavedCharacter>, name: string, k: int)
    requires k == -1 || 0 <= k < |xs|
    requires k == -1 ==> forall j :: 0 <= j < |xs| ==> !Overwrites(xs[j], name)
    requires k != -1 ==> Overwrites(xs[k], name) && forall j :: 0 <= j < k ==> !Overwrites(xs[j], name)
    ensures k == FirstMatch(xs, name)
  {
  }

  /** `savedChars.findIndex(...)`, the loop it runs. */
  method FindIndex(xs: seq<SavedCharacter>, name: string) returns (k: int)
    ensures k == FirstMatch(xs, name)
  {
    k := 0;
    while k < |xs|
      invariant 0 <= k <= |xs|
      invariant forall j :: 0 <= j < k ==> !Overwrites(xs[j], name)
    {
      if Overwrites(xs[k], name) {
        FirstMatchUnique(xs, name, k);
        return;
      }
      k := k + 1;
    }
    k := -1;
    FirstMatchUnique(xs, name, k);
  }

  // ---------------------------------------------------------------- save

  /** `handleSave`'s return without saving (SaveLoadModal.tsx:42-43): a same-named
      entry exists and the overwrite was declined. */
  predicate Declined(xs: seq<SavedCharacter>, e: SavedCharacter, confirm: bool) {
    FirstMatch(xs, e.name) != -1 && !confirm
  }

  /** The list `handleSave` stores (SaveLoadModal.tsx:36-47). */
  function SaveResult(xs: seq<SavedCharacter>, e: SavedCharacter, confirm: bool): seq<SavedCharacter> {
    var k := FirstMatch(xs, e.name);
    if k == -1 then xs + [e]
    else if confirm then xs[k := e.(id := xs[k].id)]
    else xs
  }

  /** With no entry of that name, or under the placeholder name, save appends:
      a nameless save never overwrites. */
  lemma SaveAppends(xs: seq<SavedCharacter>, e: SavedCharacter, confirm: bool)
    requires e.name == NoName || forall j :: 0 <= j < |xs| ==> xs[j].name != e.name
    ensures SaveResult(xs, e, confirm) == xs + [e]
    ensures !Declined(xs, e, confirm)
  {
  }

  /** A confirmed overwrite replaces the first entry of that name in place, keeping
      its id; the length and every other entry stay. */
  lemma SaveOverwrites(xs: seq<SavedCharacter>, e: SavedCharacter, k: nat)
    requires k < |xs| && xs[k].name == e.name && e.name != NoName
    requires forall j :: 0 <= j < k ==> xs[j].name != e.name
    ensures var r := SaveResult(xs, e, true);
      && |r| == |xs|
      && r[k] == e.(id := xs[k].id)
      && (forall j :: 0 <= j < |xs| && j != k ==> r[j] == xs[j])
  {
    FirstMatchUnique(xs, e.name, k);
  }

  /** Declining the overwrite leaves the list as it was. */
  lemma SaveDeclinedKeeps(xs: seq<SavedCharacter>, e: SavedCharacter, k: nat)
    requires k < |xs| && xs[k].name == e.name && e.name != NoName
    ensures Declined(xs, e, false)
    ensures SaveResult(xs, e, false) == xs
  {
    assert Overwrites(xs[k], e.name);
  }

  /** No two entries share a name other than the placeholder. */
  predicate NamesUnique(xs: seq<SavedCharacter>) {
    forall i, j :: 0 <= i < j < |xs| && xs[i].name == xs[j].name ==> xs[i].name == NoName
  }

  /** Saving keeps real names unique: the invariant a list built only by saves has. */
  lemma SavePreservesNamesUnique(xs: seq<SavedCharacter>, e: SavedCharacter, confirm: bool)
    requires NamesUnique(xs)
    ensures NamesUnique(SaveResult(xs, e, confirm))
  {
    var k := FirstMatch(xs, e.name);
    var r := SaveResult(xs, e, confirm);
    if k == -1 {
      forall i, j | 0 <= i < j < |r| && r[i].name == r[j].name
        ensures r[i].name == NoName
      {
        if j == |xs| {
          assert r[i] == xs[i] && r[j] == e;
          assert !Overwrites(xs[i], e.name);
        }
      }
    }
  }

  /** Saving the same named sheet again, confirming, does not add an entry. */
  lemma SaveAgainOverwrites(xs: seq<SavedCharacter>, e: SavedCharacter, e': SavedCharacter, confirm: bool)
    requires e.name == e'.name && e.name != NoName
    requires !Declined(xs, e, confirm)
    ensures |SaveResult(SaveResult(xs, e, confirm), e', true)| == |SaveResult(xs, e, confirm)|
  {
    var r := SaveResult(xs, e, confirm);
    var k := FirstMatch(xs, e.name);
    var k' := if k == -1 then |xs| else k;
    assert Overwrites(r[k'], e.name);
    var m := FirstMatch(r, e.name);
    assert m != -1;
  }

  // ---------------------------------------------------------------- delete

  function SavedId(c: SavedCharacter): string { c.id }

  /** The list `handleDelete` leaves (SaveLoadModal.tsx:54-59). */
  function DeleteResult(xs: seq<SavedCharacter>, id: string, confirm: bool): (r: seq<SavedCharacter>)
    ensures !confirm ==> r == xs
    ensures confirm ==> forall c :: c in r <==> c in xs && c.id != id
    ensures confirm ==> forall c :: multiset(r)[c] == if c.id != id then multiset(xs)[c] else 0
    ensures IsSubsequence(r, xs)
  {
    RemoveByIdKeepsOrder(xs, SavedId, id);
    SubsequenceOfItself(xs);
    if confirm then RemoveById(xs, SavedId, id) else xs
  }

  /** Deleting keeps every real name unique. */
  lemma DeletePreservesNamesUnique(xs: seq<SavedCharacter>, id: string, confirm: bool)
    requires NamesUnique(xs)
    ensures NamesUnique(DeleteResult(xs, id, confirm))
  {
    var r := DeleteResult(xs, id, confirm);
    var pos: seq<nat> :| |pos| == |r|
      && (forall i :: 0 <= i < |pos| ==> pos[i] < |xs| && xs[pos[i]] == r[i])
      && (forall i, j :: 0 <= i < j < |pos| ==> pos[i] < pos[j]);
    forall i, j | 0 <= i < j < |r| && r[i].name == r[j].name
      ensures r[i].name == NoName
    {
      assert xs[pos[i]] == r[i] && xs[pos[j]] == r[j] && pos[i] < pos[j];
    }
  }

  /** A deleted id is gone, and deleting it again changes nothing. */
  lemma DeleteIdempotent(xs: seq<SavedCharacter>, id: string)
    ensures forall i :: 0 <= i < |DeleteResult(xs, id, true)| ==> DeleteResult(xs, id, true)[i].id != id
    ensures DeleteResult(DeleteResult(xs, id, true), id, true) == DeleteResult(xs, id, true)
  {
    RemoveAbsentId(DeleteResult(xs, id, true), SavedId, id);
  }

  // ---------------------------------------------------------------- the registry

  /** The modal's state: the `savedChars` list and the copy kept under the
      storage key `runarcana-saved-chars`. */
  class Registry {
    var savedChars: seq<SavedCharacter>
    var stored: seq<SavedCharacter>

    /** The storage copy is the list the modal shows. */
    predicate Valid()
      reads this
    {
      savedChars == stored
    }

    /** The lazy initial state (SaveLoadModal.tsx:22-25): whatever storage holds. */
    constructor (fromStorage: seq<SavedCharacter>)
      ensures Valid() && savedChars == fromStorage
    {
      savedChars := fromStorage;
      stored := fromStorage;
    }

    /** `handleSave` (SaveLoadModal.tsx:27-52). `saved` says whether the success
        message is shown. */
    method HandleSave(current: CharacterSheetData, id: string, date: string, confirm: bool) returns (saved: bool)
      requires Valid()
      modifies this
      ensures Valid()
      ensures saved <==> !Declined(old(savedChars), NewEntry(current, id, date), confirm)
      ensures savedChars == SaveResult(old(savedChars), NewEntry(current, id, date), confirm)
      ensures !saved ==> savedChars == old(savedChars) && stored == old(stored)
    {
      var newChar := NewEntry(current, id, date);
      var existingIndex := FindIndex(savedChars, newChar.name);
      var updatedChars;
      if existingIndex >= 0 {
        if confirm {
          updatedChars := savedChars;
          updatedChars := updatedChars[existingIndex := newChar.(id := savedChars[existingIndex].id)];
        } else {
          return false;
        }
      } else {
        updatedChars := savedChars + [newChar];
      }
      savedChars := updatedChars;
      stored := updatedChars;
      saved := true;
    }

    /** `handleDelete` (SaveLoadModal.tsx:54-60). */
    method HandleDelete(id: string, confirm: bool)
      requires Valid()
      modifies this
      ensures Valid()
      ensures savedChars == DeleteResult(old(savedChars), id, confirm)
      ensures !confirm ==> stored == old(stored)
    {
      if confirm {
        var updatedChars := RemoveById(savedChars, SavedId, id);
        savedChars := updatedChars;
        stored := updatedChars;
      }
    }
  }

  // ---------------------------------------------------------------- import

  /** A parsed JSON value; an object keeps its members in source order. */
  datatype Json =
    | JNull
    | JBool(b: bool)
    | JNumber(n: int)
    | JString(s: string)
    | JArray(items: seq<Json>)
    | JObject(members: seq<(string, Json)>)

  predicate HasKey(members: seq<(string, Json)>, key: string) {
    exists i :: 0 <= i < |members| && members[i].0 == key
  }

  /** The shape check of SaveLoadModal.tsx:85: a truthy value of type `object`
      (so not `null`) that has both an `info` and an `attributes` key. An array
      has only index and `length` keys. */
  predicate ImportAccepted(v: Json) {
    v.JObject? && HasKey(v.members, "info") && HasKey(v.members, "attributes")
  }

  /** What the import handler does with the file's text, given what `JSON.parse`
      made of it (`None` when it threw). */
  datatype ImportOutcome = Loaded(value: Json) | InvalidSheet | ReadError

  function HandleImport(parsed: Option<Json>): (o: ImportOutcome)
    ensures o.Loaded? <==> parsed.Some? && ImportAccepted(parsed.value)
    ensures o.Loaded? ==> o.value == parsed.value
    ensures o == ReadError <==> parsed.None?
  {
    match parsed
    case None => ReadError
    case Some(v) => if ImportAccepted(v) then Loaded(v) else InvalidSheet
  }

  /** The member names `JSON.stringify` writes for a sheet (types.ts:121-142). */
  const SheetKeys: seq<string> := ["info", "attributes", "skills", "vitals", "savingThrows", "attacks",
                                   "spells", "runes", "features", "equipment", "languages",
                                   "proficiencies", "notes", "deathSaves", "exhaustion", "mana",
                                   "spellSaveDC", "spellAttack", "runeDC", "runeAttack"]

  /** An exported sheet carries every sheet key, so importing it loads it back. */
  lemma ExportedSheetImports(members: seq<(string, Json)>)
    requires forall i :: 0 <= i < |SheetKeys| ==> HasKey(members, SheetKeys[i])
    ensures HandleImport(Some(JObject(members))) == Loaded(JObject(members))
  {
    assert HasKey(members, SheetKeys[0]) && HasKey(members, SheetKeys[1]);
  }

  /** The check looks at keys only: an object with just those two keys, of any
      values, is loaded as a sheet; `null`, arrays and scalars are refused. */
  lemma ImportChecksKeysOnly()
    ensures HandleImport(Some(JObject([("info", JNull), ("attributes", JNumber(0))]))).Loaded?
    ensures HandleImport(Some(JNull)) == InvalidSheet
    ensures HandleImport(Some(JArray([]))) == InvalidSheet
    ensures HandleImport(Some(JObject([("info", JNull)]))) == InvalidSheet
  {
    var ms := [("info", JNull), ("attributes", JNumber(0))];
    assert ms[0].0 == "info" && ms[1].0 == "attributes";
    var one := [("info", JNull)];
    assert !HasKey(one, "attributes") by {
      assert "info" != "attributes" by { assert "info"[0] != "attributes"[0]; }
    }
  }
}
