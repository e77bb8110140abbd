/** The derived-statistics calculators of App.tsx: ability modifiers, proficiency
    bonus and tier, skill and save totals, the equipment aggregator, the attack,
    damage and spell totals, and the signed-bonus formula string.
    They read the record's stored modifiers and proficiency bonus, as the source does. */
module Stats {
  import opened Types
  import opened JsText

  // ---------------------------------------------------------------- modifiers

  /** `getModifier` (App.tsx:64): `Math.floor((score - 10) / 2)`. Dafny's division
      by a positive number rounds downward, as `Math.floor` does. */
  function Modifier(score: int): (m: int)
    ensures 2 * m <= score - 10 < 2 * m + 2
  {
    (score - 10) / 2
  }

  /** Odd negative differences round downward. */
  lemma ModifierBoundaries()
    ensures Modifier(8) == -1 && Modifier(9) == -1 && Modifier(10) == 0 && Modifier(11) == 0
    ensures Modifier(20) == 5 && Modifier(1) == -5
  {
  }

  /** A higher score never has a lower modifier. */
  lemma ModifierMonotone(a: int, b: int)
    requires a <= b
    ensures Modifier(a) <= Modifier(b)
  {
  }

  // ---------------------------------------------------------------- progression

  /** `Number(level) || 1` (App.tsx:80) and `level || 1` (App.tsx:411): a blank or
      zero level counts as level 1. */
  function EffectiveLevel(l: LevelField): (n: int)
    ensures n != 0
    ensures l.LevelNumber? && l.n != 0 ==> n == l.n
    ensures l.LevelBlank? || l.n == 0 ==> n == 1
  {
    match l
    case LevelNumber(n) => if n != 0 then n else 1
    case LevelBlank => 1
  }

  /** `Math.max(2, Math.ceil(level / 4) + 1)` (App.tsx:81); `(L + 3) / 4` is `ceil(L / 4)`. */
  function ProficiencyForLevel(level: int): (p: int)
    ensures p >= 2
    ensures level >= 1 ==> 4 * (p - 2) < level <= 4 * (p - 1)
    ensures level <= 4 ==> p == 2
  {
    var c := (level + 3) / 4;
    if c + 1 > 2 then c + 1 else 2
  }

  function ProficiencyBonus(l: LevelField): (p: int)
    ensures p >= 2
  {
    ProficiencyForLevel(EffectiveLevel(l))
  }

  /** The table's landmarks: 2 for levels 1-4, 3 at 5, 4 at 9, 5 at 13, 6 at 17-20,
      and 2 for a blank or zero level. */
  lemma ProficiencyLandmarks()
    ensures forall l :: 1 <= l <= 4 ==> ProficiencyForLevel(l) == 2
    ensures ProficiencyForLevel(5) == 3 && ProficiencyForLevel(8) == 3
    ensures ProficiencyForLevel(9) == 4 && ProficiencyForLevel(13) == 5
    ensures ProficiencyForLevel(17) == 6 && ProficiencyForLevel(20) == 6
    ensures ProficiencyBonus(LevelBlank) == 2 && ProficiencyBonus(LevelNumber(0)) == 2
  {
  }

  /** Gaining levels never lowers the bonus. */
  lemma ProficiencyMonotone(a: int, b: int)
    requires a <= b
    ensures ProficiencyForLevel(a) <= ProficiencyForLevel(b)
  {
  }

  datatype Tier = Epico | Mestre | Regional | Local

  /** The label the sheet shows for a tier. */
  function TierLabel(t: Tier): string {
    match t
    case Epico => "\U{00C9}pico"
    case Mestre => "Mestre"
    case Regional => "Regional"
    case Local => "Local"
  }

  /** `getProficiencyTier` (App.tsx:131-136): thresholds checked highest first. */
  function TierForLevel(level: int): (t: Tier)
    ensures t == Epico <==> level >= 17
    ensures t == Mestre <==> 13 <= level < 17
    ensures t == Regional <==> 5 <= level < 13
    ensures t == Local <==> level < 5
  {
    if level >= 17 then Epico
    else if level >= 13 then Mestre
    else if level >= 5 then Regional
    else Local
  }

  /** The tier shown for the stored level (App.tsx:411 passes `level || 1`). */
  function ProficiencyTier(l: LevelField): Tier {
    TierForLevel(EffectiveLevel(l))
  }

  // ---------------------------------------------------------------- skills and saves

  /** `getAttrMod` (App.tsx:289-292): `'none'` is 0, a key reads the stored modifier. */
  function AttrMod(d: CharacterSheetData, slot: AttrSlot): int {
    match slot
    case NoAttr => 0
    case Attr(k) => d.attributes.Get(k).modifier
  }

  /** `calculateSkillTotal` (App.tsx:167-171) */
  function SkillTotal(d: CharacterSheetData, s: Skill): int {
    var prof := d.vitals.proficiencyBonus;
    d.attributes.Get(s.attr).modifier + (if s.proficient then prof else 0)
      + (if s.expertise then prof else 0)
  }

  /** `calculateSaveTotal` (App.tsx:173-178) */
  function SaveTotal(d: CharacterSheetData, k: AttributeKey): int {
    d.attributes.Get(k).modifier + (if d.savingThrows.Get(k) then d.vitals.proficiencyBonus else 0)
  }

  /** Expertise stacks one more proficiency bonus on top of proficiency, and adds it
      even to a skill that is not proficient; proficiency adds one bonus. */
  lemma SkillTotalSteps(d: CharacterSheetData, s: Skill)
    ensures SkillTotal(d, s.(expertise := true)) == SkillTotal(d, s.(expertise := false)) + d.vitals.proficiencyBonus
    ensures SkillTotal(d, s.(proficient := true)) == SkillTotal(d, s.(proficient := false)) + d.vitals.proficiencyBonus
    ensures SkillTotal(d, s.(proficient := false, expertise := false)) == d.attributes.Get(s.attr).modifier
  {
  }

  /** A save adds the bonus exactly when that save is marked proficient. */
  lemma SaveTotalSteps(d: CharacterSheetData, k: AttributeKey)
    ensures SaveTotal(d.(savingThrows := d.savingThrows.Set(k, true)), k)
              == SaveTotal(d.(savingThrows := d.savingThrows.Set(k, false)), k) + d.vitals.proficiencyBonus
  {
  }

  // ---------------------------------------------------------------- equipment

  /** The predicate of the `filter` in `getEquipmentBonus` (App.tsx:295). */
  predicate Matches(e: EquipmentEntry, cat: BonusType) {
    e.isEquipped && e.bonusType == cat
  }

  /** The value the `reduce` step adds for one entry (App.tsx:296-299). */
  function Resolve(d: CharacterSheetData, e: EquipmentEntry): int {
    match e.bonusSource
    case Flat => e.bonusValue
    case Prof => d.vitals.proficiencyBonus
    case FromAttr(k) => AttrMod(d, Attr(k))
  }

  function FilterMatching(es: seq<EquipmentEntry>, cat: BonusType): (r: seq<EquipmentEntry>)
    ensures forall i :: 0 <= i < |r| ==> Matches(r[i], cat)
    ensures |r| <= |es|
  {
    if |es| == 0 then []
    else if Matches(es[0], cat) then [es[0]] + FilterMatching(es[1..], cat)
    else FilterMatching(es[1..], cat)
  }

  /** The filter keeps every matching entry with all its copies and drops every
      other entry. */
  lemma {:induction false} FilterMatchingKeeps(es: seq<EquipmentEntry>, cat: BonusType)
    ensures forall e :: e in FilterMatching(es, cat) <==> e in es && Matches(e, cat)
    ensures forall e :: multiset(FilterMatching(es, cat))[e] == if Matches(e, cat) then multiset(es)[e] else 0
  {
    if |es| > 0 {
      FilterMatchingKeeps(es[1..], cat);
      assert es == [es[0]] + es[1..];
    }
  }

  /** `reduce((sum, eq) => sum + val, 0)` */
  function SumResolved(d: CharacterSheetData, es: seq<EquipmentEntry>): int {
    if |es| == 0 then 0 else Resolve(d, es[0]) + SumResolved(d, es[1..])
  }

  /** `getEquipmentBonus(type)` (App.tsx:294-302) */
  function EquipmentBonus(d: CharacterSheetData, cat: BonusType): int {
    SumResolved(d, FilterMatching(d.equipment, cat))
  }

  /** What one entry adds to a category: zero unless equipped and of that category. */
  function Contribution(d: CharacterSheetData, e: EquipmentEntry, cat: BonusType): int {
    if Matches(e, cat) then Resolve(d, e) else 0
  }

  /** Reference sum over every entry, matching or not. */
  function SumContributions(d: CharacterSheetData, es: seq<EquipmentEntry>, cat: BonusType): int {
    if |es| == 0 then 0 else Contribution(d, es[0], cat) + SumContributions(d, es[1..], cat)
  }

  lemma {:induction false} FilterThenSum(d: CharacterSheetData, es: seq<EquipmentEntry>, cat: BonusType)
    ensures SumResolved(d, FilterMatching(es, cat)) == SumContributions(d, es, cat)
  {
    if |es| > 0 {
      FilterThenSum(d, es[1..], cat);
    }
  }

  /** The filter-and-reduce equals the entry-by-entry sum in which unequipped and
      other-category entries count 0. */
  lemma EquipmentBonusByEntry(d: CharacterSheetData, cat: BonusType)
    ensures EquipmentBonus(d, cat) == SumContributions(d, d.equipment, cat)
  {
    FilterThenSum(d, d.equipment, cat);
  }

  lemma {:induction false} SumContributionsAppend(d: CharacterSheetData, a: seq<EquipmentEntry>,
                                                  b: seq<EquipmentEntry>, cat: BonusType)
    ensures SumContributions(d, a + b, cat) == SumContributions(d, a, cat) + SumContributions(d, b, cat)
  {
    if |a| > 0 {
      SumContributionsAppend(d, a[1..], b, cat);
      assert (a + b)[1..] == a[1..] + b;
    } else {
      assert a + b == b;
    }
  }

  /** Taking one entry out of the sum. */
  lemma SumContributionsRemoveAt(d: CharacterSheetData, b: seq<EquipmentEntry>, j: nat, cat: BonusType)
    requires j < |b|
    ensures SumContributions(d, b, cat)
              == Contribution(d, b[j], cat) + SumContributions(d, b[..j] + b[j + 1..], cat)
  {
    assert b == b[..j] + ([b[j]] + b[j + 1..]);
    SumContributionsAppend(d, b[..j], [b[j]] + b[j + 1..], cat);
    SumContributionsAppend(d, b[..j], b[j + 1..], cat);
    assert ([b[j]] + b[j + 1..])[1..] == b[j + 1..];
  }

  lemma MultisetRemoveAt<T>(a: seq<T>, b: seq<T>, j: nat)
    requires j < |b| && |a| > 0 && b[j] == a[0]
    requires multiset(a) == multiset(b)
    ensures multiset(a[1..]) == multiset(b[..j] + b[j + 1..])
  {
    assert a == [a[0]] + a[1..];
    assert b == b[..j] + [b[j]] + b[j + 1..];
    calc {
      multiset(a[1..]);
      multiset(a) - multiset{a[0]};
      multiset(b) - multiset{b[j]};
      multiset(b[..j]) + multiset(b[j + 1..]);
      multiset(b[..j] + b[j + 1..]);
    }
  }

  /** The sum does not depend on the order of the list. */
  lemma {:induction false} SumContributionsPermutation(d: CharacterSheetData, a: seq<EquipmentEntry>,
                                                       b: seq<EquipmentEntry>, cat: BonusType)
    requires multiset(a) == multiset(b)
    ensures SumContributions(d, a, cat) == SumContributions(d, b, cat)
    decreases |a|
  {
    if |a| == 0 {
      assert |b| == |multiset(b)| == 0;
    } else {
      assert a[0] in multiset(b);
      var j :| 0 <= j < |b| && b[j] == a[0];
      MultisetRemoveAt(a, b, j);
      SumContributionsPermutation(d, a[1..], b[..j] + b[j + 1..], cat);
      SumContributionsRemoveAt(d, b, j, cat);
    }
  }

  /** Reordering the equipment list leaves every category total unchanged. */
  lemma EquipmentBonusOrderFree(d: CharacterSheetData, reordered: seq<EquipmentEntry>, cat: BonusType)
    requires multiset(reordered) == multiset(d.equipment)
    ensures EquipmentBonus(d.(equipment := reordered), cat) == EquipmentBonus(d, cat)
  {
    EquipmentBonusByEntry(d, cat);
    EquipmentBonusByEntry(d.(equipment := reordered), cat);
    SumContributionsPermutation(d, reordered, d.equipment, cat);
    assert SumContributions(d.(equipment := reordered), reordered, cat) == SumContributions(d, reordered, cat) by {
      ContributionsIgnoreEquipmentList(d, reordered, reordered, cat);
    }
  }

  /** An entry's contribution depends on the record only through its attributes and
      proficiency bonus, not through the equipment list itself. */
  lemma {:induction false} ContributionsIgnoreEquipmentList(d: CharacterSheetData, es: seq<EquipmentEntry>,
                                                            other: seq<EquipmentEntry>, cat: BonusType)
    ensures SumContributions(d.(equipment := other), es, cat) == SumContributions(d, es, cat)
  {
    if |es| > 0 {
      ContributionsIgnoreEquipmentList(d, es[1..], other, cat);
    }
  }

  /** Adding an entry that is unequipped, or of another category, changes nothing;
      adding a matching one adds its resolved value. */
  lemma EquipmentBonusAdd(d: CharacterSheetData, e: EquipmentEntry, cat: BonusType)
    ensures EquipmentBonus(d.(equipment := d.equipment + [e]), cat)
              == EquipmentBonus(d, cat) + (if e.isEquipped && e.bonusType == cat then Resolve(d, e) else 0)
  {
    var d' := d.(equipment := d.equipment + [e]);
    EquipmentBonusByEntry(d, cat);
    EquipmentBonusByEntry(d', cat);
    ContributionsIgnoreEquipmentList(d, d.equipment + [e], d'.equipment, cat);
    SumContributionsAppend(d, d.equipment, [e], cat);
  }

  /** An equipped flat +1 and an equipped proficiency entry, both for attacks, at
      proficiency bonus 3, add 4; unequipped entries add nothing. */
  lemma EquipmentBonusExample(d: CharacterSheetData)
    requires d.vitals.proficiencyBonus == 3
    requires d.equipment == [EquipmentEntry("a", "", "", true, BonusAttack, Flat, 1),
                             EquipmentEntry("b", "", "", true, BonusAttack, Prof, 0),
                             EquipmentEntry("c", "", "", false, BonusAttack, Flat, 7),
                             EquipmentEntry("e", "", "", true, BonusDamage, Flat, 5)]
    ensures EquipmentBonus(d, BonusAttack) == 4
    ensures EquipmentBonus(d, BonusDamage) == 5
  {
    var es := d.equipment;
    EquipmentBonusByEntry(d, BonusAttack);
    EquipmentBonusByEntry(d, BonusDamage);
    assert es[1..][1..][1..][1..] == [];
    assert SumContributions(d, es[1..][1..][1..], BonusAttack) == 0;
    assert SumContributions(d, es[1..][1..], BonusAttack) == 0;
    assert SumContributions(d, es[1..], BonusAttack) == 3;
    assert SumContributions(d, es[1..][1..][1..], BonusDamage) == 5;
    assert SumContributions(d, es[1..][1..], BonusDamage) == 5;
    assert SumContributions(d, es[1..], BonusDamage) == 5;
  }

  // ---------------------------------------------------------------- attack and spell totals

  /** The sum of a named-bonus list, as `bonuses.forEach(b => total += b.value)` builds it. */
  function SumValues(bs: seq<NamedBonus>): int {
    if |bs| == 0 then 0 else SumValues(bs[..|bs| - 1]) + bs[|bs| - 1].value
  }

  lemma {:induction false} SumValuesAppend(a: seq<NamedBonus>, b: seq<NamedBonus>)
    ensures SumValues(a + b) == SumValues(a) + SumValues(b)
    decreases |b|
  {
    if |b| > 0 {
      SumValuesAppend(a, b[..|b| - 1]);
      assert (a + b)[..|a + b| - 1] == a + b[..|b| - 1];
    } else {
      assert a + b == a;
    }
  }

  /** Attack accuracy (App.tsx:304-312). */
  function Accuracy(d: CharacterSheetData, atk: Attack): int {
    AttrMod(d, atk.accAttr1) + AttrMod(d, atk.accAttr2)
      + (if atk.accProf then d.vitals.proficiencyBonus else 0)
      + SumValues(atk.accBonuses) + EquipmentBonus(d, BonusAttack)
  }

  /** Damage bonus (App.tsx:314-321): never the proficiency bonus. */
  function DamageBonus(d: CharacterSheetData, atk: Attack): int {
    AttrMod(d, atk.dmgAttr1) + AttrMod(d, atk.dmgAttr2)
      + SumValues(atk.dmgBonuses) + EquipmentBonus(d, BonusDamage)
  }

  /** The common base of a spell's cast value (App.tsx:324-328). */
  function CastBase(d: CharacterSheetData, s: Spell): int {
    AttrMod(d, s.attr1) + AttrMod(d, s.attr2)
      + (if s.hasProficiency then d.vitals.proficiencyBonus else 0) + SumValues(s.bonuses)
  }

  /** Spell cast value (App.tsx:323-334): a save DC adds 8 and the `spellDC`
      equipment, an attack roll adds the `attack` equipment. */
  function CastValue(d: CharacterSheetData, s: Spell): int {
    match s.castMode
    case CastSave => 8 + CastBase(d, s) + EquipmentBonus(d, BonusSpellDC)
    case CastAttack => CastBase(d, s) + EquipmentBonus(d, BonusAttack)
  }

  /** Spell effect bonus (App.tsx:336-341): the first attribute and the effect bonuses only. */
  function EffectBonus(d: CharacterSheetData, s: Spell): int {
    AttrMod(d, s.attr1) + SumValues(s.effectBonuses)
  }

  /** Adds every value of `bs` to `total`, one at a time. */
  method AddBonuses(total0: int, bs: seq<NamedBonus>) returns (total: int)
    ensures total == total0 + SumValues(bs)
  {
    total := total0;
    for i := 0 to |bs|
      invariant total == total0 + SumValues(bs[..i])
    {
      assert bs[..i + 1][..i] == bs[..i];
      total := total + bs[i].value;
    }
    assert bs[..|bs|] == bs;
  }

  /** `calculateAttackBonus` (App.tsx:304-312) */
  method CalculateAttackBonus(d: CharacterSheetData, atk: Attack) returns (total: int)
    ensures total == Accuracy(d, atk)
  {
    total := 0;
    total := total + AttrMod(d, atk.accAttr1);
    total := total + AttrMod(d, atk.accAttr2);
    if atk.accProf {
      total := total + d.vitals.proficiencyBonus;
    }
    total := AddBonuses(total, atk.accBonuses);
    total := total + EquipmentBonus(d, BonusAttack);
  }

  /** `calculateDamageBonus` (App.tsx:314-321) */
  method CalculateDamageBonus(d: CharacterSheetData, atk: Attack) returns (total: int)
    ensures total == DamageBonus(d, atk)
  {
    total := 0;
    total := total + AttrMod(d, atk.dmgAttr1);
    total := total + AttrMod(d, atk.dmgAttr2);
    total := AddBonuses(total, atk.dmgBonuses);
    total := total + EquipmentBonus(d, BonusDamage);
  }

  /** `calculateSpellCastValue` (App.tsx:323-334) */
  method CalculateSpellCastValue(d: CharacterSheetData, s: Spell) returns (total: int)
    ensures total == CastValue(d, s)
  {
    total := 0;
    total := total + AttrMod(d, s.attr1);
    total := total + AttrMod(d, s.attr2);
    if s.hasProficiency {
      total := total + d.vitals.proficiencyBonus;
    }
    total := AddBonuses(total, s.bonuses);
    if s.castMode == CastSave {
      return 8 + total + EquipmentBonus(d, BonusSpellDC);
    }
    return total + EquipmentBonus(d, BonusAttack);
  }

  /** `calculateSpellEffectBonus` (App.tsx:336-341) */
  method CalculateSpellEffectBonus(d: CharacterSheetData, s: Spell) returns (total: int)
    ensures total == EffectBonus(d, s)
  {
    total := 0;
    total := total + AttrMod(d, s.attr1);
    total := AddBonuses(total, s.effectBonuses);
  }

  /** Proficiency raises accuracy by exactly the bonus and never touches damage:
      the damage total is the same whatever `accProf` and whatever the stored bonus,
      unless an equipped damage item draws on the proficiency bonus. */
  lemma ProficiencyOnlyAffectsAccuracy(d: CharacterSheetData, atk: Attack, p: int)
    ensures Accuracy(d, atk.(accProf := true)) == Accuracy(d, atk.(accProf := false)) + d.vitals.proficiencyBonus
    ensures DamageBonus(d, atk.(accProf := true)) == DamageBonus(d, atk.(accProf := false))
    ensures (forall i :: 0 <= i < |d.equipment| && Matches(d.equipment[i], BonusDamage) ==>
               d.equipment[i].bonusSource != Prof)
            ==> DamageBonus(d.(vitals := d.vitals.(proficiencyBonus := p)), atk) == DamageBonus(d, atk)
  {
    var d' := d.(vitals := d.vitals.(proficiencyBonus := p));
    if forall i :: 0 <= i < |d.equipment| && Matches(d.equipment[i], BonusDamage) ==> d.equipment[i].bonusSource != Prof {
      SumContributionsIgnoreProf(d, d.equipment, p, BonusDamage);
      EquipmentBonusByEntry(d, BonusDamage);
      EquipmentBonusByEntry(d', BonusDamage);
    }
  }

  lemma {:induction false} SumContributionsIgnoreProf(d: CharacterSheetData, es: seq<EquipmentEntry>, p: int, cat: BonusType)
    requires forall i :: 0 <= i < |es| && Matches(es[i], cat) ==> es[i].bonusSource != Prof
    ensures SumContributions(d.(vitals := d.vitals.(proficiencyBonus := p)), es, cat) == SumContributions(d, es, cat)
  {
    if |es| > 0 {
      SumContributionsIgnoreProf(d, es[1..], p, cat);
    }
  }

  /** Equipment counts only toward its own category: an equipped damage item does
      not change accuracy, an attack item does not change damage. */
  lemma CategoriesAreSeparate(d: CharacterSheetData, atk: Attack, e: EquipmentEntry)
    ensures e.bonusType != BonusAttack ==>
              Accuracy(d.(equipment := d.equipment + [e]), atk) == Accuracy(d, atk)
    ensures e.bonusType != BonusDamage ==>
              DamageBonus(d.(equipment := d.equipment + [e]), atk) == DamageBonus(d, atk)
  {
    EquipmentBonusAdd(d, e, BonusAttack);
    EquipmentBonusAdd(d, e, BonusDamage);
  }

  /** A save DC is 8 above the attack-mode value when the `spellDC` and `attack`
      equipment totals agree; with base 5 and no equipment they are 13 and 5. */
  lemma SaveAndAttackModes(d: CharacterSheetData, s: Spell)
    ensures CastValue(d, s.(castMode := CastSave)) - EquipmentBonus(d, BonusSpellDC)
              == 8 + CastValue(d, s.(castMode := CastAttack)) - EquipmentBonus(d, BonusAttack)
    ensures CastBase(d, s) == 5 && EquipmentBonus(d, BonusSpellDC) == 0 && EquipmentBonus(d, BonusAttack) == 0
            ==> CastValue(d, s.(castMode := CastSave)) == 13 && CastValue(d, s.(castMode := CastAttack)) == 5
  {
  }

  /** The effect bonus ignores the second attribute, the proficiency flag, the cast
      bonuses and all equipment. */
  lemma EffectUsesFirstAttributeOnly(d: CharacterSheetData, s: Spell, a2: AttrSlot, prof: bool,
                                     bs: seq<NamedBonus>, eq: seq<EquipmentEntry>)
    ensures EffectBonus(d.(equipment := eq), s.(attr2 := a2, hasProficiency := prof, bonuses := bs))
              == EffectBonus(d, s)
    ensures s.effectBonuses == [] ==> EffectBonus(d, s) == AttrMod(d, s.attr1)
  {
  }

  // ---------------------------------------------------------------- formula strings

  /** The signed bonus appended to a dice expression (App.tsx:496, App.tsx:518):
      `'+' + b` when positive, `b` itself when negative, nothing when zero. */
  function BonusSuffix(b: int): string {
    if b > 0 then "+" + IntToString(b) else if b < 0 then IntToString(b) else ""
  }

  /** `${dice}${suffix}` */
  function DamageFormula(dice: string, b: int): string {
    dice + BonusSuffix(b)
  }

  /** The suffix is empty exactly for a zero bonus, is never "+-", starts with the
      bonus's own sign, and reads back as the bonus under `parseInt`. */
  lemma BonusSuffixReadsBack(b: int)
    ensures BonusSuffix(b) == "" <==> b == 0
    ensures b != 0 ==> ParseInt(BonusSuffix(b)) == Some(b)
    ensures b != 0 ==> (BonusSuffix(b)[0] == '+' <==> b > 0) && (BonusSuffix(b)[0] == '-' <==> b < 0)
    ensures |BonusSuffix(b)| >= 2 && BonusSuffix(b)[0] == '+' ==> BonusSuffix(b)[1] != '-'
  {
    IntToStringChars(b);
    if b > 0 {
      PlusSignedReadsBack(b);
    } else if b < 0 {
      ParseIntOfIntToString(b);
    }
  }

  lemma PlusSignedReadsBack(b: int)
    requires b > 0
    ensures ParseInt("+" + IntToString(b)) == Some(b)
  {
    var t := IntToString(b);
    var s := "+" + t;
    ParseIntOfIntToString(b);
    assert t == NatToString(b);
    assert !IsJsSpace(s[0]);
    assert TrimStart(s) == s;
    assert s[1..] == t;
    assert IsDigit(t[0]) && !IsJsSpace(t[0]);
    assert TrimStart(t) == t;
    assert ParseInt(t) == ParseUnsigned(t);
  }
}
