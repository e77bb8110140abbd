/** The edit handlers of App.tsx: each is the function that `setData(prev => ...)`
    applies to the previous record. Ids that the source draws from `Date.now()`
    are parameters. */
module SheetEdits {
  import opened Types
  import opened JsText
  import opened ListOps
  import opened Stats
  import Reconciler

  // ---------------------------------------------------------------- attributes and level

  /** `updateAttribute` (App.tsx:138-144): the score becomes `parseInt(val) || 0`;
      the modifier is left for the reconciler. */
  function UpdateAttribute(d: CharacterSheetData, k: AttributeKey, text: string): (r: CharacterSheetData)
    ensures r.attributes.Get(k).value == OrDefault(ParseInt(text), 0)
    ensures r.attributes.Get(k).modifier == d.attributes.Get(k).modifier
    ensures forall j :: j != k ==> r.attributes.Get(j) == d.attributes.Get(j)
    ensures r.(attributes := d.attributes) == d
  {
    d.(attributes := d.attributes.Set(k, d.attributes.Get(k).(value := OrDefault(ParseInt(text), 0))))
  }

  /** Typing a score's own decimal text stores that score. */
  lemma UpdateAttributeRoundTrip(d: CharacterSheetData, k: AttributeKey, v: int)
    ensures UpdateAttribute(d, k, IntToString(v)).attributes.Get(k).value == v
  {
    ParseIntOfIntToString(v);
  }

  /** After the reconciler runs, the edited attribute's modifier is that of the
      parsed score, and the other attributes keep their scores. */
  lemma UpdateAttributeThenReconcile(d: CharacterSheetData, k: AttributeKey, text: string)
    requires HasPassiveSkills(d)
    ensures HasPassiveSkills(UpdateAttribute(d, k, text))
    ensures var r := Reconciler.Reconciled(UpdateAttribute(d, k, text));
      && r.attributes.Get(k) == Attribute(OrDefault(ParseInt(text), 0), Modifier(OrDefault(ParseInt(text), 0)))
      && (forall j :: j != k ==> r.attributes.Get(j).value == d.attributes.Get(j).value)
  {
  }

  /** The level field (App.tsx:388): `parseInt(v) || ''` keeps a nonzero number and
      blanks the field otherwise. */
  function SetLevel(d: CharacterSheetData, text: string): (r: CharacterSheetData)
    ensures r.(info := d.info) == d && r.info.(level := d.info.level) == d.info
    ensures r.info.level.LevelNumber? <==> ParseInt(text).Some? && ParseInt(text).value != 0
    ensures r.info.level.LevelNumber? ==> r.info.level.n == ParseInt(text).value
  {
    var lv := if OrDefault(ParseInt(text), 0) != 0 then LevelNumber(OrDefault(ParseInt(text), 0)) else LevelBlank;
    d.(info := d.info.(level := lv))
  }

  /** Whatever is typed into the level field, the bonus is that of the parsed level,
      or of level 1 when the text is blank, zero or not a number. */
  lemma SetLevelProficiency(d: CharacterSheetData, text: string)
    ensures ProficiencyBonus(SetLevel(d, text).info.level) == ProficiencyForLevel(OrDefault(ParseInt(text), 1))
    ensures ProficiencyTier(SetLevel(d, text).info.level) == TierForLevel(OrDefault(ParseInt(text), 1))
  {
  }

  // ---------------------------------------------------------------- toggles

  /** `toggleSkillProficiency` (App.tsx:146-151). */
  function ToggleSkillProficiency(d: CharacterSheetData, key: string): (r: CharacterSheetData)
    requires key in d.skills
    ensures r.skills.Keys == d.skills.Keys
    ensures r.skills[key].proficient == !d.skills[key].proficient
    ensures r.skills[key].(proficient := d.skills[key].proficient) == d.skills[key]
    ensures forall j :: j in d.skills && j != key ==> r.skills[j] == d.skills[j]
    ensures r.(skills := d.skills) == d
  {
    d.(skills := d.skills[key := d.skills[key].(proficient := !d.skills[key].proficient)])
  }

  /** Toggling twice restores the record. */
  lemma ToggleSkillTwice(d: CharacterSheetData, key: string)
    requires key in d.skills
    ensures ToggleSkillProficiency(ToggleSkillProficiency(d, key), key) == d
  {
    var r := ToggleSkillProficiency(ToggleSkillProficiency(d, key), key);
    assert r.skills == d.skills;
  }

  /** The toggle moves the skill total by exactly the proficiency bonus. */
  lemma ToggleSkillTotal(d: CharacterSheetData, key: string)
    requires key in d.skills
    ensures var s := d.skills[key];
      SkillTotal(d, ToggleSkillProficiency(d, key).skills[key])
        == SkillTotal(d, s) + (if s.proficient then -d.vitals.proficiencyBonus else d.vitals.proficiencyBonus)
  {
  }

  /** `toggleSaveProficiency` (App.tsx:153-158). */
  function ToggleSaveProficiency(d: CharacterSheetData, k: AttributeKey): (r: CharacterSheetData)
    ensures r.savingThrows.Get(k) == !d.savingThrows.Get(k)
    ensures forall j :: j != k ==> r.savingThrows.Get(j) == d.savingThrows.Get(j)
    ensures r.(savingThrows := d.savingThrows) == d
  {
    d.(savingThrows := d.savingThrows.Set(k, !d.savingThrows.Get(k)))
  }

  lemma ToggleSaveTwice(d: CharacterSheetData, k: AttributeKey)
    ensures ToggleSaveProficiency(ToggleSaveProficiency(d, k), k) == d
  {
    var r := ToggleSaveProficiency(ToggleSaveProficiency(d, k), k);
    PerAttributeExt(r.savingThrows, d.savingThrows);
  }

  /** The save toggle moves that save's total by the proficiency bonus and no other. */
  lemma ToggleSaveTotal(d: CharacterSheetData, k: AttributeKey)
    ensures SaveTotal(ToggleSaveProficiency(d, k), k)
            == SaveTotal(d, k) + (if d.savingThrows.Get(k) then -d.vitals.proficiencyBonus else d.vitals.proficiencyBonus)
    ensures forall j :: j != k ==> SaveTotal(ToggleSaveProficiency(d, k), j) == SaveTotal(d, j)
  {
  }

  /** The inspiration toggle (App.tsx:413). */
  function ToggleInspiration(d: CharacterSheetData): (r: CharacterSheetData)
    ensures r.vitals.inspiration == !d.vitals.inspiration
    ensures r.(vitals := d.vitals) == d && r.vitals.(inspiration := d.vitals.inspiration) == d.vitals
  {
    d.(vitals := d.vitals.(inspiration := !d.vitals.inspiration))
  }

  lemma ToggleInspirationTwice(d: CharacterSheetData)
    ensures ToggleInspiration(ToggleInspiration(d)) == d
  {
  }

  // ---------------------------------------------------------------- steppers

  /** The exhaustion bars (App.tsx:487): clicking bar `i` sets the level to `i`, or
      to `i - 1` when `i` already is the level. */
  function ClickExhaustion(level: int, i: int): int {
    if i == level then i - 1 else i
  }

  /** Bar `j` is drawn lit when `j <= exhaustion`. */
  predicate BarLit(level: int, j: int) {
    j <= level
  }

  /** A click on bar `i` lights every bar below it, toggles bar `i` and darkens every
      bar above it; the level stays within 0..6. */
  lemma ClickExhaustionBars(level: int, i: int)
    requires 0 <= level <= 6 && 1 <= i <= 6
    ensures 0 <= ClickExhaustion(level, i) <= 6
    ensures forall j :: 1 <= j < i ==> BarLit(ClickExhaustion(level, i), j)
    ensures BarLit(ClickExhaustion(level, i), i) <==> level != i
    ensures forall j :: i < j <= 6 ==> !BarLit(ClickExhaustion(level, i), j)
  {
  }

  /** A death-save pip (App.tsx:554): clicking pip `i` sets the count to `i` when
      the pip is filled and to `i + 1` otherwise. */
  function ClickDeathPip(count: int, i: int): int {
    if i < count then i else i + 1
  }

  /** Pip `j` is drawn filled when `j < count`. */
  predicate PipFilled(count: int, j: int) {
    j < count
  }

  /** A click on pip `i` fills every pip below it, toggles pip `i` and clears every
      pip above it; the count stays within 0..3. */
  lemma ClickDeathPipPips(count: int, i: int)
    requires 0 <= count <= 3 && 0 <= i <= 2
    ensures 0 <= ClickDeathPip(count, i) <= 3
    ensures forall j :: 0 <= j < i ==> PipFilled(ClickDeathPip(count, i), j)
    ensures PipFilled(ClickDeathPip(count, i), i) <==> !PipFilled(count, i)
    ensures forall j :: i < j <= 2 ==> !PipFilled(ClickDeathPip(count, i), j)
  {
  }

  /** The success and failure rows write their own counter only. */
  function ClickSuccess(d: CharacterSheetData, i: int): (r: CharacterSheetData)
    ensures r.deathSaves.success == ClickDeathPip(d.deathSaves.success, i)
    ensures r.deathSaves.failure == d.deathSaves.failure && r.(deathSaves := d.deathSaves) == d
  {
    d.(deathSaves := d.deathSaves.(success := ClickDeathPip(d.deathSaves.success, i)))
  }

  function ClickFailure(d: CharacterSheetData, i: int): (r: CharacterSheetData)
    ensures r.deathSaves.failure == ClickDeathPip(d.deathSaves.failure, i)
    ensures r.deathSaves.success == d.deathSaves.success && r.(deathSaves := d.deathSaves) == d
  {
    d.(deathSaves := d.deathSaves.(failure := ClickDeathPip(d.deathSaves.failure, i)))
  }

  function ClickExhaustionBar(d: CharacterSheetData, i: int): (r: CharacterSheetData)
    ensures r.exhaustion == ClickExhaustion(d.exhaustion, i) && r.(exhaustion := d.exhaustion) == d
  {
    d.(exhaustion := ClickExhaustion(d.exhaustion, i))
  }

  // ---------------------------------------------------------------- armour class

  /** The AC field shows the stored base plus the equipped AC bonuses (App.tsx:454). */
  function DisplayedAC(d: CharacterSheetData): int {
    d.vitals.ac + EquipmentBonus(d, BonusAC)
  }

  /** Editing the AC field stores `(parseInt(text) || 10) - equipment('ac')`, so that
      the field then shows what was typed. */
  function SetAC(d: CharacterSheetData, text: string): (r: CharacterSheetData)
    ensures r.(vitals := d.vitals) == d && r.vitals.(ac := d.vitals.ac) == d.vitals
  {
    d.(vitals := d.vitals.(ac := OrDefault(ParseInt(text), 10) - EquipmentBonus(d, BonusAC)))
  }

  lemma EquipmentOnlyReadsEquipmentAndStats(d: CharacterSheetData, ac: int, cat: BonusType)
    ensures EquipmentBonus(d.(vitals := d.vitals.(ac := ac)), cat) == EquipmentBonus(d, cat)
  {
    var d' := d.(vitals := d.vitals.(ac := ac));
    EquipmentBonusByEntry(d, cat);
    EquipmentBonusByEntry(d', cat);
    ContributionsCarryOver(d, d', d.equipment, cat);
  }

  /** Two records with the same proficiency bonus and attributes resolve every
      entry alike. */
  lemma {:induction false} ContributionsCarryOver(d: CharacterSheetData, d': CharacterSheetData,
                                                  es: seq<EquipmentEntry>, cat: BonusType)
    requires d'.vitals.proficiencyBonus == d.vitals.proficiencyBonus && d'.attributes == d.attributes
    ensures SumContributions(d', es, cat) == SumContributions(d, es, cat)
  {
    if |es| > 0 {
      ContributionsCarryOver(d, d', es[1..], cat);
    }
  }

  /** The field shows the parsed value after the edit: 10 for text that is blank,
      zero or not a number. */
  lemma SetACShows(d: CharacterSheetData, text: string)
    ensures DisplayedAC(SetAC(d, text)) == OrDefault(ParseInt(text), 10)
  {
    EquipmentOnlyReadsEquipmentAndStats(d, OrDefault(ParseInt(text), 10) - EquipmentBonus(d, BonusAC), BonusAC);
  }

  /** Re-entering the shown value keeps the record, unless the shown value is 0,
      which the field cannot store: it becomes 10. */
  lemma SetACRoundTrip(d: CharacterSheetData)
    ensures DisplayedAC(d) != 0 ==> SetAC(d, IntToString(DisplayedAC(d))) == d
    ensures DisplayedAC(d) == 0 ==> DisplayedAC(SetAC(d, IntToString(DisplayedAC(d)))) == 10
  {
    ParseIntOfIntToString(DisplayedAC(d));
    SetACShows(d, IntToString(DisplayedAC(d)));
  }

  // ---------------------------------------------------------------- attacks

  /** The attack `addAttack` creates (App.tsx:221-225). */
  function NewAttack(id: string): Attack {
    Attack(id, "", "", Attr(For), NoAttr, true, [], Attr(For), NoAttr, "1d6", "Cortante", [])
  }

  /** A new attack hits with the strength modifier plus proficiency and the equipped
      attack bonuses, and deals 1d6 plus the strength modifier and the equipped
      damage bonuses. */
  lemma NewAttackTotals(d: CharacterSheetData, id: string)
    ensures Accuracy(d, NewAttack(id))
            == d.attributes.forca.modifier + d.vitals.proficiencyBonus + EquipmentBonus(d, BonusAttack)
    ensures DamageBonus(d, NewAttack(id)) == d.attributes.forca.modifier + EquipmentBonus(d, BonusDamage)
    ensures NewAttack(id).dmgDice == "1d6"
  {
  }

  function AttackId(a: Attack): string { a.id }

  /** `addAttack` (App.tsx:219-227) */
  function AddAttack(d: CharacterSheetData, id: string): (r: CharacterSheetData)
    ensures |r.attacks| == |d.attacks| + 1
    ensures r.attacks[..|d.attacks|] == d.attacks && r.attacks[|d.attacks|] == NewAttack(id)
    ensures r.(attacks := d.attacks) == d
  {
    d.(attacks := d.attacks + [NewAttack(id)])
  }

  /** `removeAttack` (App.tsx:229-231) */
  function RemoveAttack(d: CharacterSheetData, id: string): (r: CharacterSheetData)
    ensures forall a :: a in r.attacks <==> a in d.attacks && a.id != id
    ensures forall a :: multiset(r.attacks)[a] == if a.id != id then multiset(d.attacks)[a] else 0
    ensures IsSubsequence(r.attacks, d.attacks)
    ensures r.(attacks := d.attacks) == d
  {
    RemoveByIdKeepsOrder(d.attacks, AttackId, id);
    d.(attacks := RemoveById(d.attacks, AttackId, id))
  }

  /** The fields `updateAttack` is called with (App.tsx:499-504). */
  datatype AttackEdit =
    | AtkName(name: string) | AtkDescription(description: string)
    | AtkAccAttr1(slot: AttrSlot) | AtkAccAttr2(slot: AttrSlot) | AtkAccProf(on: bool)
    | AtkAccBonuses(bonuses: seq<NamedBonus>)
    | AtkDmgAttr1(slot: AttrSlot) | AtkDmgAttr2(slot: AttrSlot)
    | AtkDmgDice(dice: string) | AtkDmgType(dmgType: string) | AtkDmgBonuses(bonuses: seq<NamedBonus>)

  /** `{ ...a, [field]: value }` */
  function ApplyAttackEdit(a: Attack, e: AttackEdit): (r: Attack)
    ensures r.id == a.id
  {
    match e
    case AtkName(v) => a.(name := v)
    case AtkDescription(v) => a.(description := v)
    case AtkAccAttr1(v) => a.(accAttr1 := v)
    case AtkAccAttr2(v) => a.(accAttr2 := v)
    case AtkAccProf(v) => a.(accProf := v)
    case AtkAccBonuses(v) => a.(accBonuses := v)
    case AtkDmgAttr1(v) => a.(dmgAttr1 := v)
    case AtkDmgAttr2(v) => a.(dmgAttr2 := v)
    case AtkDmgDice(v) => a.(dmgDice := v)
    case AtkDmgType(v) => a.(dmgType := v)
    case AtkDmgBonuses(v) => a.(dmgBonuses := v)
  }

  /** `updateAttack` (App.tsx:233-235) */
  function UpdateAttack(d: CharacterSheetData, id: string, e: AttackEdit): (r: CharacterSheetData)
    ensures |r.attacks| == |d.attacks|
    ensures forall i :: 0 <= i < |d.attacks| ==>
              r.attacks[i] == if d.attacks[i].id == id then ApplyAttackEdit(d.attacks[i], e) else d.attacks[i]
    ensures r.(attacks := d.attacks) == d
  {
    d.(attacks := UpdateById(d.attacks, AttackId, id, a => ApplyAttackEdit(a, e)))
  }

  /** Adding an attack under an id no attack has, then removing that id, restores
      the record. */
  lemma AddRemoveAttack(d: CharacterSheetData, id: string)
    requires forall i :: 0 <= i < |d.attacks| ==> d.attacks[i].id != id
    ensures RemoveAttack(AddAttack(d, id), id) == d
  {
    RemoveAfterAppend(d.attacks, NewAttack(id), AttackId);
    RemoveAbsentId(d.attacks, AttackId, id);
  }

  /** Editing an attack and then removing it is the same as removing it. */
  lemma UpdateRemoveAttack(d: CharacterSheetData, id: string, e: AttackEdit)
    ensures RemoveAttack(UpdateAttack(d, id, e), id) == RemoveAttack(d, id)
  {
    RemoveAfterUpdate(d.attacks, AttackId, id, a => ApplyAttackEdit(a, e));
  }

  // ---------------------------------------------------------------- spells

  /** The spell `addSpell` creates (App.tsx:239-243). */
  function NewSpell(id: string): Spell {
    Spell(id, "", "", DamageSpell, 1, 2, Attr(Int), NoAttr, true, CastSave, [], "", "Dano", [])
  }

  /** A new spell is cast against a difficulty of 8 plus the intelligence modifier,
      proficiency and the equipped spell-DC bonuses, and its effect adds the
      intelligence modifier. */
  lemma NewSpellTotals(d: CharacterSheetData, id: string)
    ensures CastValue(d, NewSpell(id))
            == 8 + d.attributes.inteligencia.modifier + d.vitals.proficiencyBonus + EquipmentBonus(d, BonusSpellDC)
    ensures EffectBonus(d, NewSpell(id)) == d.attributes.inteligencia.modifier
  {
  }

  function SpellId(s: Spell): string { s.id }

  /** `addSpell` (App.tsx:237-245) */
  function AddSpell(d: CharacterSheetData, id: string): (r: CharacterSheetData)
    ensures |r.spells| == |d.spells| + 1
    ensures r.spells[..|d.spells|] == d.spells && r.spells[|d.spells|] == NewSpell(id)
    ensures r.(spells := d.spells) == d
  {
    d.(spells := d.spells + [NewSpell(id)])
  }

  /** `removeSpell` (App.tsx:247-249) */
  function RemoveSpell(d: CharacterSheetData, id: string): (r: CharacterSheetData)
    ensures forall s :: s in r.spells <==> s in d.spells && s.id != id
    ensures forall s :: multiset(r.spells)[s] == if s.id != id then multiset(d.spells)[s] else 0
    ensures IsSubsequence(r.spells, d.spells)
    ensures r.(spells := d.spells) == d
  {
    RemoveByIdKeepsOrder(d.spells, SpellId, id);
    d.(spells := RemoveById(d.spells, SpellId, id))
  }

  /** The fields `updateSpell` is called with (App.tsx:521-528); the cycle and mana
      inputs pass `parseInt(v) || 1` and `parseInt(v) || 0`. */
  datatype SpellEdit =
    | SpName(name: string) | SpDescription(description: string) | SpType(spellType: SpellType)
    | SpCycleText(text: string) | SpManaCostText(text: string)
    | SpCastMode(mode: CastMode) | SpAttr1(slot: AttrSlot) | SpProficiency(on: bool)
    | SpBonuses(bonuses: seq<NamedBonus>) | SpEffectDice(dice: string) | SpEffectType(effectType: string)
    | SpEffectBonuses(bonuses: seq<NamedBonus>)

  function ApplySpellEdit(s: Spell, e: SpellEdit): (r: Spell)
    ensures r.id == s.id
    ensures e.SpCycleText? ==> r.cycle != 0 && r.cycle == OrDefault(ParseInt(e.text), 1)
  {
    match e
    case SpName(v) => s.(name := v)
    case SpDescription(v) => s.(description := v)
    case SpType(v) => s.(spellType := v)
    case SpCycleText(v) => s.(cycle := OrDefault(ParseInt(v), 1))
    case SpManaCostText(v) => s.(manaCost := OrDefault(ParseInt(v), 0))
    case SpCastMode(v) => s.(castMode := v)
    case SpAttr1(v) => s.(attr1 := v)
    case SpProficiency(v) => s.(hasProficiency := v)
    case SpBonuses(v) => s.(bonuses := v)
    case SpEffectDice(v) => s.(effectDice := v)
    case SpEffectType(v) => s.(effectType := v)
    case SpEffectBonuses(v) => s.(effectBonuses := v)
  }

  /** `updateSpell` (App.tsx:251-253) */
  function UpdateSpell(d: CharacterSheetData, id: string, e: SpellEdit): (r: CharacterSheetData)
    ensures |r.spells| == |d.spells|
    ensures forall i :: 0 <= i < |d.spells| ==>
              r.spells[i] == if d.spells[i].id == id then ApplySpellEdit(d.spells[i], e) else d.spells[i]
    ensures r.(spells := d.spells) == d
  {
    d.(spells := UpdateById(d.spells, SpellId, id, s => ApplySpellEdit(s, e)))
  }

  /** Switching the cast mode moves the cast value between the two formulas and
      leaves the effect bonus alone. */
  lemma SwitchCastMode(d: CharacterSheetData, s: Spell)
    ensures CastValue(d, ApplySpellEdit(s, SpCastMode(CastSave)))
            == CastValue(d, ApplySpellEdit(s, SpCastMode(CastAttack)))
               + 8 + EquipmentBonus(d, BonusSpellDC) - EquipmentBonus(d, BonusAttack)
    ensures EffectBonus(d, ApplySpellEdit(s, SpCastMode(CastSave))) == EffectBonus(d, s)
  {
  }

  lemma AddRemoveSpell(d: CharacterSheetData, id: string)
    requires forall i :: 0 <= i < |d.spells| ==> d.spells[i].id != id
    ensures RemoveSpell(AddSpell(d, id), id) == d
  {
    RemoveAfterAppend(d.spells, NewSpell(id), SpellId);
    RemoveAbsentId(d.spells, SpellId, id);
  }

  lemma UpdateRemoveSpell(d: CharacterSheetData, id: string, e: SpellEdit)
    ensures RemoveSpell(UpdateSpell(d, id, e), id) == RemoveSpell(d, id)
  {
    RemoveAfterUpdate(d.spells, SpellId, id, s => ApplySpellEdit(s, e));
  }

  // ---------------------------------------------------------------- generic item lists

  /** The four `ItemEntry[]` fields that `addListItem`, `removeListItem` and
      `updateListItem` are called with. */
  datatype ItemList = Features | Languages | Proficiencies | Notes

  function Items(d: CharacterSheetData, l: ItemList): seq<ItemEntry> {
    match l
    case Features => d.features
    case Languages => d.languages
    case Proficiencies => d.proficiencies
    case Notes => d.notes
  }

  /** `{ ...prev, [field]: xs }` */
  function WithItems(d: CharacterSheetData, l: ItemList, xs: seq<ItemEntry>): (r: CharacterSheetData)
    ensures Items(r, l) == xs
    ensures forall m :: m != l ==> Items(r, m) == Items(d, m)
    ensures r.(features := d.features, languages := d.languages,
               proficiencies := d.proficiencies, notes := d.notes) == d
  {
    match l
    case Features => d.(features := xs)
    case Languages => d.(languages := xs)
    case Proficiencies => d.(proficiencies := xs)
    case Notes => d.(notes := xs)
  }

  lemma WithOwnItems(d: CharacterSheetData, l: ItemList)
    ensures WithItems(d, l, Items(d, l)) == d
  {
  }

  function ItemId(x: ItemEntry): string { x.id }

  /** `addListItem` for an item list (App.tsx:262-263) */
  function AddItem(d: CharacterSheetData, l: ItemList, id: string): (r: CharacterSheetData)
    ensures Items(r, l) == Items(d, l) + [ItemEntry(id, "", "")]
    ensures forall m :: m != l ==> Items(r, m) == Items(d, m)
  {
    WithItems(d, l, Items(d, l) + [ItemEntry(id, "", "")])
  }

  /** `removeListItem` for an item list (App.tsx:271) */
  function RemoveItem(d: CharacterSheetData, l: ItemList, id: string): (r: CharacterSheetData)
    ensures forall x :: x in Items(r, l) <==> x in Items(d, l) && x.id != id
    ensures forall x :: multiset(Items(r, l))[x] == if x.id != id then multiset(Items(d, l))[x] else 0
    ensures IsSubsequence(Items(r, l), Items(d, l))
    ensures forall m :: m != l ==> Items(r, m) == Items(d, m)
  {
    RemoveByIdKeepsOrder(Items(d, l), ItemId, id);
    WithItems(d, l, RemoveById(Items(d, l), ItemId, id))
  }

  datatype ItemField = Title | Description

  function ApplyItemEdit(x: ItemEntry, f: ItemField, v: string): (r: ItemEntry)
    ensures r.id == x.id
  {
    match f
    case Title => x.(title := v)
    case Description => x.(description := v)
  }

  /** `updateListItem` (App.tsx:274-279) */
  function UpdateItem(d: CharacterSheetData, l: ItemList, id: string, f: ItemField, v: string): (r: CharacterSheetData)
    ensures |Items(r, l)| == |Items(d, l)|
    ensures forall i :: 0 <= i < |Items(d, l)| ==>
              Items(r, l)[i] == if Items(d, l)[i].id == id then ApplyItemEdit(Items(d, l)[i], f, v) else Items(d, l)[i]
    ensures forall m :: m != l ==> Items(r, m) == Items(d, m)
  {
    WithItems(d, l, UpdateById(Items(d, l), ItemId, id, x => ApplyItemEdit(x, f, v)))
  }

  lemma AddRemoveItem(d: CharacterSheetData, l: ItemList, id: string)
    requires forall i :: 0 <= i < |Items(d, l)| ==> Items(d, l)[i].id != id
    ensures RemoveItem(AddItem(d, l, id), l, id) == d
  {
    RemoveAfterAppend(Items(d, l), ItemEntry(id, "", ""), ItemId);
    RemoveAbsentId(Items(d, l), ItemId, id);
    WithOwnItems(d, l);
  }

  lemma UpdateRemoveItem(d: CharacterSheetData, l: ItemList, id: string, f: ItemField, v: string)
    ensures RemoveItem(UpdateItem(d, l, id, f, v), l, id) == RemoveItem(d, l, id)
  {
    RemoveAfterUpdate(Items(d, l), ItemId, id, x => ApplyItemEdit(x, f, v));
  }

  // ---------------------------------------------------------------- equipment

  /** The entry `addListItem('equipment')` creates (App.tsx:258): unequipped, with
      no category, a flat source and value 0. */
  function NewEquipment(id: string): EquipmentEntry {
    EquipmentEntry(id, "", "", false, BonusNone, Flat, 0)
  }

  function EquipmentId(e: EquipmentEntry): string { e.id }

  /** `addListItem('equipment')` (App.tsx:257-261) */
  function AddEquipment(d: CharacterSheetData, id: string): (r: CharacterSheetData)
    ensures |r.equipment| == |d.equipment| + 1
    ensures r.equipment[..|d.equipment|] == d.equipment && r.equipment[|d.equipment|] == NewEquipment(id)
    ensures r.(equipment := d.equipment) == d
  {
    d.(equipment := d.equipment + [NewEquipment(id)])
  }

  /** A new entry is unequipped, so no total moves. */
  lemma AddEquipmentKeepsBonuses(d: CharacterSheetData, id: string, cat: BonusType)
    ensures EquipmentBonus(AddEquipment(d, id), cat) == EquipmentBonus(d, cat)
  {
    EquipmentBonusAdd(d, NewEquipment(id), cat);
  }

  /** `removeListItem('equipment')` (App.tsx:267-270) */
  function RemoveEquipment(d: CharacterSheetData, id: string): (r: CharacterSheetData)
    ensures forall e :: e in r.equipment <==> e in d.equipment && e.id != id
    ensures forall e :: multiset(r.equipment)[e] == if e.id != id then multiset(d.equipment)[e] else 0
    ensures IsSubsequence(r.equipment, d.equipment)
    ensures r.(equipment := d.equipment) == d
  {
    RemoveByIdKeepsOrder(d.equipment, EquipmentId, id);
    d.(equipment := RemoveById(d.equipment, EquipmentId, id))
  }

  /** The fields `updateEquipment` is called with; the value input passes
      `parseInt(v) || 0`. */
  datatype EquipmentEdit =
    | EqTitle(title: string) | EqDescription(description: string) | EqEquipped(on: bool)
    | EqBonusType(kind: BonusType) | EqBonusSource(source: BonusSource) | EqBonusValueText(text: string)

  function ApplyEquipmentEdit(x: EquipmentEntry, e: EquipmentEdit): (r: EquipmentEntry)
    ensures r.id == x.id
  {
    match e
    case EqTitle(v) => x.(title := v)
    case EqDescription(v) => x.(description := v)
    case EqEquipped(v) => x.(isEquipped := v)
    case EqBonusType(v) => x.(bonusType := v)
    case EqBonusSource(v) => x.(bonusSource := v)
    case EqBonusValueText(v) => x.(bonusValue := OrDefault(ParseInt(v), 0))
  }

  /** `updateEquipment` (App.tsx:281-286) */
  function UpdateEquipment(d: CharacterSheetData, id: string, e: EquipmentEdit): (r: CharacterSheetData)
    ensures |r.equipment| == |d.equipment|
    ensures forall i :: 0 <= i < |d.equipment| ==>
              r.equipment[i] == if d.equipment[i].id == id then ApplyEquipmentEdit(d.equipment[i], e) else d.equipment[i]
    ensures r.(equipment := d.equipment) == d
  {
    d.(equipment := UpdateById(d.equipment, EquipmentId, id, x => ApplyEquipmentEdit(x, e)))
  }

  lemma AddRemoveEquipment(d: CharacterSheetData, id: string)
    requires forall i :: 0 <= i < |d.equipment| ==> d.equipment[i].id != id
    ensures RemoveEquipment(AddEquipment(d, id), id) == d
  {
    RemoveAfterAppend(d.equipment, NewEquipment(id), EquipmentId);
    RemoveAbsentId(d.equipment, EquipmentId, id);
  }

  lemma UpdateRemoveEquipment(d: CharacterSheetData, id: string, e: EquipmentEdit)
    ensures RemoveEquipment(UpdateEquipment(d, id, e), id) == RemoveEquipment(d, id)
  {
    RemoveAfterUpdate(d.equipment, EquipmentId, id, x => ApplyEquipmentEdit(x, e));
  }
}
