/** The records of the character sheet (types.ts), as Dafny values.
    Every TypeScript interface that the application only ever copies with a spread
    becomes a datatype; strings are `string`, numbers are `int`. */
module Types {

  /** The six attribute keys `for | des | con | int | sab | car` (types.ts:1). */
  datatype AttributeKey = For | Des | Con | Int | Sab | Car

  /** In declaration order, the order in which `Object.keys` lists them. */
  const AllKeys: seq<AttributeKey> := [For, Des, Con, Int, Sab, Car]

  /** Where a key sits in `AllKeys`: every key is listed. */
  function KeyIndex(k: AttributeKey): (i: nat)
    ensures i < |AllKeys| && AllKeys[i] == k
  {
    match k
    case For => 0
    case Des => 1
    case Con => 2
    case Int => 3
    case Sab => 4
    case Car => 5
  }

  /** One value per attribute key: the shape of `Attributes` (types.ts:15-22) and of
      `Record<AttributeKey, boolean>` (types.ts:126). */
  datatype PerAttribute<T> = PerAttribute(forca: T, destreza: T, constituicao: T,
                                          inteligencia: T, sabedoria: T, carisma: T)
  {
    function Get(k: AttributeKey): T {
      match k
      case For => forca
      case Des => destreza
      case Con => constituicao
      case Int => inteligencia
      case Sab => sabedoria
      case Car => carisma
    }

    /** `{ ...this, [k]: v }` */
    function Set(k: AttributeKey, v: T): (r: PerAttribute<T>)
      ensures r.Get(k) == v
      ensures forall j :: j != k ==> r.Get(j) == Get(j)
    {
      match k
      case For => this.(forca := v)
      case Des => this.(destreza := v)
      case Con => this.(constituicao := v)
      case Int => this.(inteligencia := v)
      case Sab => this.(sabedoria := v)
      case Car => this.(carisma := v)
    }
  }

  /** Two records agree on every key exactly when they are equal. */
  lemma PerAttributeExt<T>(a: PerAttribute<T>, b: PerAttribute<T>)
    requires forall k :: a.Get(k) == b.Get(k)
    ensures a == b
  {
    assert a.Get(For) == b.Get(For) && a.Get(Des) == b.Get(Des) && a.Get(Con) == b.Get(Con);
    assert a.Get(Int) == b.Get(Int) && a.Get(Sab) == b.Get(Sab) && a.Get(Car) == b.Get(Car);
  }

  /** types.ts:3-6 */
  datatype Attribute = Attribute(value: int, modifier: int)

  type Attributes = PerAttribute<Attribute>

  /** types.ts:8-13; `expertise` is documented as double proficiency. */
  datatype Skill = Skill(name: string, attr: AttributeKey, proficient: bool, expertise: bool)

  /** `info.level` holds a number, or the empty string that App.tsx:388 writes
      (`parseInt(v) || ''`) when the field is cleared. */
  datatype LevelField = LevelNumber(n: int) | LevelBlank

  /** types.ts:24-34 */
  datatype CharacterInfo = CharacterInfo(playerName: string, charName: string, origin: string,
                                         region: string, background: string, essence: string,
                                         classLevel: string, level: LevelField, xp: string)

  /** types.ts:36-49 */
  datatype Vitals = Vitals(hpCurrent: string, hpMax: string, hpTemp: string,
                           hitDice: string, hitDiceTotal: string, ac: int,
                           initiative: int, speed: string, proficiencyBonus: int,
                           inspiration: bool, passivePerception: int, passiveInsight: int)

  /** types.ts:51-55 */
  datatype NamedBonus = NamedBonus(id: string, name: string, value: int)

  /** An attribute slot of an attack or spell: `AttributeKey | 'none'`
      (types.ts:63-64, types.ts:69-70, types.ts:87-88). */
  datatype AttrSlot = NoAttr | Attr(key: AttributeKey)

  /** types.ts:57-75 */
  datatype Attack = Attack(id: string, name: string, description: string,
                           accAttr1: AttrSlot, accAttr2: AttrSlot, accProf: bool,
                           accBonuses: seq<NamedBonus>,
                           dmgAttr1: AttrSlot, dmgAttr2: AttrSlot, dmgDice: string,
                           dmgType: string, dmgBonuses: seq<NamedBonus>)

  /** types.ts:76 */
  datatype SpellType = DamageSpell | UtilitySpell | DefenseSpell

  /** `castMode: 'attack' | 'save'` (types.ts:91-92) */
  datatype CastMode = CastAttack | CastSave

  /** types.ts:77-100 */
  datatype Spell = Spell(id: string, name: string, description: string, spellType: SpellType,
                         cycle: int, manaCost: int,
                         attr1: AttrSlot, attr2: AttrSlot, hasProficiency: bool,
                         castMode: CastMode, bonuses: seq<NamedBonus>,
                         effectDice: string, effectType: string, effectBonuses: seq<NamedBonus>)

  /** The closed bonus category `none | attack | damage | spellDC | ac` (types.ts:102). */
  datatype BonusType = BonusNone | BonusAttack | BonusDamage | BonusSpellDC | BonusAC

  /** `'flat' | AttributeKey | 'prof'` (types.ts:103) */
  datatype BonusSource = Flat | Prof | FromAttr(key: AttributeKey)

  /** types.ts:105-113; each entry carries exactly one category. */
  datatype EquipmentEntry = EquipmentEntry(id: string, title: string, description: string,
                                           isEquipped: bool, bonusType: BonusType,
                                           bonusSource: BonusSource, bonusValue: int)

  /** types.ts:115-119 */
  datatype ItemEntry = ItemEntry(id: string, title: string, description: string)

  datatype DeathSaves = DeathSaves(success: int, failure: int)

  datatype Mana = Mana(current: string, max: string)

  /** types.ts:121-142; `skills` is a `Record<string, Skill>`. */
  datatype CharacterSheetData = CharacterSheetData(
    info: CharacterInfo,
    attributes: Attributes,
    skills: map<string, Skill>,
    vitals: Vitals,
    savingThrows: PerAttribute<bool>,
    attacks: seq<Attack>,
    spells: seq<Spell>,
    runes: string,
    features: seq<ItemEntry>,
    equipment: seq<EquipmentEntry>,
    languages: seq<ItemEntry>,
    proficiencies: seq<ItemEntry>,
    notes: seq<ItemEntry>,
    deathSaves: DeathSaves,
    exhaustion: int,
    mana: Mana,
    spellSaveDC: string,
    spellAttack: string,
    runeDC: string,
    runeAttack: string)

  /** types.ts:144-152 */
  datatype RollResult = RollResult(title: string, total: int, diceRolls: seq<int>, modifier: int,
                                   isCrit: bool, isFumble: bool, formula: string)

  /** types.ts:154-160 and components/SaveLoadModal.tsx:5-11 */
  datatype SavedCharacter = SavedCharacter(id: string, name: string, classLevel: string,
                                           date: string, data: CharacterSheetData)

  /** The two skills whose passive scores the sheet stores (App.tsx:91-92). */
  const Perception: string := "percepcao"
  const Insight: string := "intuicao"

  /** The reconciler reads `skills.percepcao` and `skills.intuicao` unguarded. */
  predicate HasPassiveSkills(d: CharacterSheetData) {
    Perception in d.skills && Insight in d.skills
  }
}
