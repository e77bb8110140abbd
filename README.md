# Ficha Runeterra: derived statistics, edits, dice and the save registry

This project models, in Dafny, the core of a single-page character sheet for a
tabletop role-playing game. The sheet stores a character's attributes, skills,
vitals, attacks, spells, equipment and notes. From them it derives the secondary
numbers it shows: ability modifiers, proficiency bonus and tier, skill and save
totals, passive scores, initiative, attack accuracy and damage, spell cast values
and effect bonuses, and the armour class with equipment.

The model covers these parts:

- **The record** (`Types`). It follows types.ts. Every interface the application
  only copies with a spread is a datatype.
- **The calculators** (`Stats`). These are `getModifier`, the proficiency formula
  and tier, `calculateSkillTotal`, `calculateSaveTotal`, `getAttrMod`,
  `getEquipmentBonus`, the four attack and spell calculators, and the signed
  formula string that the attack and spell cards show. Each calculator whose
  source is a running-total loop is a method proved equal to a specification
  function. The lemmas prove the properties of that function.
- **The reconciler** (`Reconciler`). This is the `setData(prev => ...)` effect
  that recomputes the modifiers, the proficiency bonus, initiative and the two
  stored passive scores. It hands back `prev` itself when nothing differs. A
  method with the source's loop is proved equal to a function, and the
  function's properties are lemmas.
- **The handlers** (`SheetEdits`, with `ListOps` for the three list idioms the
  sheet uses everywhere). These are the attribute, level, proficiency and
  inspiration handlers, the exhaustion and death-save clickers, the AC field that
  subtracts the equipment bonus, and the add, remove and update operations for
  attacks, spells, equipment and the four note lists.
- **The inline bonus-list editor** (`BonusList`).
- **The dice roller** `rollDice` (`Dice`). This is a method whose random numbers
  are supplied draws.
- **The saved-character registry** of the save/load dialog (`SaveLoad`). It is a
  class with the in-memory list and its storage copy as fields.
- **The JavaScript built-ins** that the arithmetic rests on (`JsText`):
  `parseInt`, `String(n)`, `split`, `toLowerCase`, the `\s` class and `x || d`.

Every `x || default` in the source is modelled with JavaScript's falsiness:
- a number uses `OrDefault`, where NaN and 0 are falsy;
- a string uses `OrText`, where only `""` is falsy.

A failed `parseInt` is `None`.

Three behaviours of the code are easy to misread:

- **Initiative.** The type declaration says the initiative is usually calculated
  but can be overridden (types.ts:43). The sheet offers no input for it: it is
  shown read-only (App.tsx:461), and the reconciler's `initiative: dexMod`
  (App.tsx:108) is its only write. A different value can arrive only with a loaded
  or imported sheet (components/SaveLoadModal.tsx:86, components/SaveLoadModal.tsx:139). The reconciler rewrites it to the Dexterity modifier on every
  pass (App.tsx:94-110), so such a stored value never survives
  (`Reconciler.InitiativeOverwritten`). This is the second row of "## Findings".
- **Stored passive scores.** The stored passive perception and insight add no
  expertise, and they are exactly 10 for a proficient skill governed by an
  attribute other than Wisdom (App.tsx:91-92, `Reconciler.StoredPassiveCases`).
  The numbers the sheet *shows* for them are `10 + calculateSkillTotal`
  (App.tsx:422, App.tsx:426). They agree with the stored ones for a Wisdom skill
  without expertise (`Reconciler.ShownPassiveAgreesWithStored`) and can differ
  otherwise (`Reconciler.ShownPassiveCanDiffer`).
- **Negative bonuses.** The attack and spell cards render a negative bonus with
  its own sign, as in "1d6-3" (App.tsx:496, App.tsx:518). The roller splits only on
  '+' and reads a term containing 'd' as dice only. When the dice text is
  non-empty the "-3" lands inside such a term or after a flat one: "1d6-3" reads as
  one d6, and "1d6+2-3" reads as one d6 and 2. Either way the bonus is lost; see
  "## Findings". With an empty dice text, the default of a new spell
  (App.tsx:243), the formula is the bonus alone: "-3" is a flat term that
  `parseInt` reads as -3, so the bonus is kept (`Dice.EmptyDiceKeepsBonus`).

## Model

| member | source | states |
|---|---|---|
| Types.KeyIndex | types.ts:1 | every attribute key is listed once in the key order that `Object.keys` walks |
| Types.PerAttribute.Set | App.tsx:142 | a per-attribute record updated at one key reads the new value there and the old value at every other key |
| Types.PerAttributeExt | types.ts:15-22 | two per-attribute records that agree at every key are equal |
| Stats.Modifier | App.tsx:64 | the modifier is floor((score - 10) / 2): twice it is at most score - 10 and within 2 of it, for negative scores too |
| Stats.ModifierBoundaries | App.tsx:64 | odd differences round downward: 9 gives -1, 11 gives 0, 1 gives -5, 20 gives 5 |
| Stats.ModifierMonotone | App.tsx:64 | a higher score never has a lower modifier |
| Stats.EffectiveLevel | App.tsx:80 | a blank or zero level counts as level 1; any other number is kept |
| Stats.ProficiencyForLevel | App.tsx:81 | the bonus is at least 2 and for level L >= 1 satisfies 4(p-2) < L <= 4(p-1), which is max(2, ceil(L/4)+1) |
| Stats.ProficiencyBonus | App.tsx:80-81 | the stored level's bonus is at least 2 |
| Stats.ProficiencyLandmarks | App.tsx:80-81 | 2 for levels 1-4, 3 at 5-8, 4 at 9, 5 at 13, 6 at 17-20, and 2 for a blank or zero level |
| Stats.ProficiencyMonotone | App.tsx:81 | gaining levels never lowers the bonus |
| Stats.TierForLevel | App.tsx:131-136 | each tier holds exactly on its level range: Épico from 17, Mestre 13-16, Regional 5-12, Local below 5 |
| Stats.SkillTotalSteps | App.tsx:167-171 | proficiency adds one bonus and expertise stacks one more, even without proficiency; with neither the total is the attribute modifier |
| Stats.SaveTotalSteps | App.tsx:173-178 | a save adds the bonus exactly when it is marked proficient |
| Stats.FilterMatching | App.tsx:295 | the filter keeps only equipped entries of the category, and never more entries than there are |
| Stats.FilterMatchingKeeps | App.tsx:295 | an entry is in the filtered list exactly when it is in the list and matches, and each matching entry keeps all its copies |
| Stats.FilterThenSum | App.tsx:294-302 | filtering then reducing equals summing every entry's contribution, with non-matching entries counting 0 |
| Stats.EquipmentBonusByEntry | App.tsx:294-302 | `getEquipmentBonus` equals the entry-by-entry contribution sum over the equipment list |
| Stats.SumContributionsAppend | App.tsx:296-299 | the contribution sum of two lists joined is the sum of their sums |
| Stats.SumContributionsPermutation | App.tsx:294-302 | lists that are permutations of each other have the same contribution sum |
| Stats.EquipmentBonusOrderFree | App.tsx:294-302 | reordering the equipment list (the drag-and-drop reorder) changes no category total |
| Stats.ContributionsIgnoreEquipmentList | App.tsx:296-299 | an entry's value depends on the record only through its attributes and proficiency bonus |
| Stats.EquipmentBonusAdd | App.tsx:294-302 | adding an entry adds its resolved value to its own category when equipped, and nothing otherwise |
| Stats.EquipmentBonusExample | App.tsx:294-302 | equipped flat +1 and proficiency (3) attack entries give 4; an unequipped one adds nothing; the damage entry counts only for damage |
| Stats.SumValuesAppend | App.tsx:309 | the sum of a bonus list joined with another is the sum of the two |
| Stats.AddBonuses | App.tsx:309 | the `forEach` loop adds exactly the sum of the list's values to the running total |
| Stats.CalculateAttackBonus | App.tsx:304-312 | accuracy is both attribute modifiers, the proficiency bonus when ticked, the bonus list and the equipped attack bonus |
| Stats.CalculateDamageBonus | App.tsx:314-321 | damage is both attribute modifiers, the bonus list and the equipped damage bonus, never the proficiency bonus |
| Stats.CalculateSpellCastValue | App.tsx:323-334 | a save DC is 8 + base + the spellDC equipment; an attack roll is base + the attack equipment |
| Stats.CalculateSpellEffectBonus | App.tsx:336-341 | the effect bonus is the first attribute's modifier plus the effect bonus list |
| Stats.ProficiencyOnlyAffectsAccuracy | App.tsx:304-321 | ticking proficiency raises accuracy by exactly the bonus and leaves damage unchanged; without a proficiency-sourced damage item, damage ignores the bonus |
| Stats.SumContributionsIgnoreProf | App.tsx:296-299 | with no matching proficiency-sourced entry, the contribution sum does not depend on the proficiency bonus |
| Stats.CategoriesAreSeparate | App.tsx:294-321 | equipment of another category changes neither accuracy nor damage |
| Stats.SaveAndAttackModes | App.tsx:323-334 | the save-mode value is 8 above the attack-mode value once the equipment totals are taken out; base 5 with no equipment gives 13 and 5 |
| Stats.EffectUsesFirstAttributeOnly | App.tsx:336-341 | the effect bonus ignores the second attribute, the proficiency flag, the cast bonuses and all equipment |
| Stats.BonusSuffixReadsBack | App.tsx:496 | the formula suffix is empty exactly for 0, starts with the bonus's own sign, is never "+-", and reads back under `parseInt` as the bonus |
| Stats.PlusSignedReadsBack | App.tsx:496 | "+" followed by the digits of a positive bonus parses back to the bonus |
| Reconciler.RecomputedAttributes | App.tsx:72-78 | every attribute keeps its score and gets the modifier of that score |
| Reconciler.ReconciledState | App.tsx:67-113 | after the pass, the scores are kept and every modifier matches its score, the bonus follows the level, initiative is the Dexterity modifier, and both stored passives are the three-case score of their skill; apart from the recomputed fields nothing in the record changes |
| Reconciler.StoredPassiveCases | App.tsx:91-92 | each stored passive, perception and insight, is 10 + Wisdom modifier when not proficient, + the bonus when proficient and governed by Wisdom, and exactly 10 when proficient under another attribute |
| Reconciler.ReconcileUnchangedIffInSync | App.tsx:94-100 | the pass returns the record unchanged exactly when every derived field already agrees |
| Reconciler.ReconcileIdempotent | App.tsx:67-113 | after one pass the record is in sync, so a second pass returns it unchanged and the effect stops re-firing |
| Reconciler.InitiativeOverwritten | App.tsx:94-110 | a stored initiative, from a loaded or imported sheet, is overwritten: the pass gives the same record whatever initiative was stored |
| Reconciler.InitiativeOverrideLost | App.tsx:94-110 | on a record whose Dexterity modifier is current, any stored initiative other than that modifier is replaced by it |
| Reconciler.ReconciledKeepingOverride | types.ts:43 | the corrected pass differs from the code's pass only in initiative: it takes the new Dexterity modifier when the stored one is stale and keeps the stored initiative otherwise |
| Reconciler.OverrideKept | types.ts:43 | with the corrected pass, a stored initiative survives every pass that does not follow a Dexterity change |
| Reconciler.ReconciledKeepingOverrideIdempotent | types.ts:43 | a second corrected pass changes nothing |
| Reconciler.Reconcile | App.tsx:67-113 | the loop computes the reconciled record; `changed` holds exactly when the record was out of sync; an unchanged record is returned as it was; a holder of the old record sees the new attributes, because the loop writes into the shared attribute objects |
| Reconciler.SkillTotalReconciled | App.tsx:167-178 | after the pass, skill and save totals use the modifier of the current score and the bonus of the current level |
| Reconciler.ShownPassiveAgreesWithStored | App.tsx:422-426 | for Perception and for Insight, when the skill is governed by Wisdom without expertise, the shown passive (10 + skill total) equals the stored one |
| Reconciler.ShownPassiveCanDiffer | App.tsx:422 | with expertise on Perception, the shown passive is one proficiency bonus above the stored one |
| Reconciler.AccuracyReconciled | App.tsx:304-321 | after the pass, accuracy and damage use the modifiers of the current scores and the bonus of the current level |
| SheetEdits.UpdateAttribute | App.tsx:138-144 | the typed text's `parseInt(v) \|\| 0` becomes the score; the stale modifier and everything else stay |
| SheetEdits.UpdateAttributeRoundTrip | App.tsx:138-144 | typing a score's decimal text stores that score |
| SheetEdits.UpdateAttributeThenReconcile | App.tsx:67-144 | an edit followed by the reconciler yields the parsed score with its modifier, every other score kept |
| SheetEdits.SetLevel | App.tsx:388 | the level becomes the parsed number, or blank when the text has no nonzero number; nothing else changes |
| SheetEdits.SetLevelProficiency | App.tsx:388 | after a level edit, the bonus and the tier are those of `parseInt(v) \|\| 1` |
| SheetEdits.ToggleSkillProficiency | App.tsx:146-151 | the skill's proficiency flips; its other fields, the other skills and the rest of the record stay |
| SheetEdits.ToggleSkillTwice | App.tsx:146-151 | toggling twice restores the record |
| SheetEdits.ToggleSkillTotal | App.tsx:146-151 | toggling moves the skill total by exactly one proficiency bonus, up or down |
| SheetEdits.ToggleSaveProficiency | App.tsx:153-158 | the save's flag flips and nothing else changes |
| SheetEdits.ToggleSaveTwice | App.tsx:153-158 | toggling twice restores the record |
| SheetEdits.ToggleSaveTotal | App.tsx:153-158 | the toggled save moves by one bonus; every other save total is unchanged |
| SheetEdits.ToggleInspiration | App.tsx:413 | inspiration flips and nothing else changes |
| SheetEdits.ToggleInspirationTwice | App.tsx:413 | toggling twice restores the record |
| SheetEdits.ClickExhaustionBars | App.tsx:487 | after clicking bar i, the bars below i are lit, bar i is lit unless it was the level, and the bars above are dark; the level stays in 0..6 |
| SheetEdits.ClickDeathPipPips | App.tsx:554 | after clicking pip i, the pips below i are filled, pip i is toggled and the pips above are cleared; the count stays in 0..3 |
| SheetEdits.ClickSuccess | App.tsx:554 | a success pip click changes only the success count |
| SheetEdits.ClickFailure | App.tsx:554 | a failure pip click changes only the failure count |
| SheetEdits.ClickExhaustionBar | App.tsx:487 | a bar click changes only the exhaustion level |
| SheetEdits.SetAC | App.tsx:454 | an AC edit changes only the stored AC |
| SheetEdits.EquipmentOnlyReadsEquipmentAndStats | App.tsx:294-302 | the equipment bonus does not depend on the stored AC |
| SheetEdits.ContributionsCarryOver | App.tsx:296-299 | records with the same attributes and bonus give every entry the same contribution |
| SheetEdits.SetACShows | App.tsx:454 | after the edit, the field shows `parseInt(text) \|\| 10` |
| SheetEdits.SetACRoundTrip | App.tsx:454 | writing back the shown AC leaves the record as it was, except that a shown 0 becomes 10 |
| SheetEdits.NewAttackTotals | App.tsx:219-227 | a new attack hits for Strength + proficiency + attack equipment, deals Strength + damage equipment, and rolls 1d6 |
| SheetEdits.AddAttack | App.tsx:219-227 | the new attack is appended after the old ones and nothing else changes |
| SheetEdits.RemoveAttack | App.tsx:229-231 | exactly the attacks of other ids remain, in their order and with their multiplicity; nothing else changes |
| SheetEdits.ApplyAttackEdit | App.tsx:233-235 | a field edit never changes the attack's id |
| SheetEdits.UpdateAttack | App.tsx:233-235 | every attack with the id gets the edit, the others stay in place, and nothing else changes |
| SheetEdits.AddRemoveAttack | App.tsx:219-231 | adding under a fresh id and removing it restores the record |
| SheetEdits.UpdateRemoveAttack | App.tsx:229-235 | removing after an edit of the same id is removing |
| SheetEdits.NewSpellTotals | App.tsx:237-245 | a new spell is a save at 8 + Intelligence + proficiency + spellDC equipment with an Intelligence effect bonus |
| SheetEdits.AddSpell | App.tsx:237-245 | the new spell is appended and nothing else changes |
| SheetEdits.RemoveSpell | App.tsx:247-249 | exactly the spells of other ids remain, in their order and with their multiplicity; nothing else changes |
| SheetEdits.ApplySpellEdit | App.tsx:251-253 | an edit keeps the id; a cycle edit stores `parseInt(v) \|\| 1`, never 0 |
| SheetEdits.UpdateSpell | App.tsx:251-253 | every spell with the id gets the edit, the others stay, and nothing else changes |
| SheetEdits.SwitchCastMode | App.tsx:323-341 | switching to save mode moves the cast value by 8 plus the difference of the two equipment totals and leaves the effect bonus alone |
| SheetEdits.AddRemoveSpell | App.tsx:237-249 | adding under a fresh id and removing it restores the record |
| SheetEdits.UpdateRemoveSpell | App.tsx:247-253 | removing after an edit of the same id is removing |
| SheetEdits.WithItems | App.tsx:263 | writing one note list sets that list and leaves the other three and the rest of the record alone |
| SheetEdits.WithOwnItems | App.tsx:263 | writing a list back unchanged restores the record |
| SheetEdits.AddItem | App.tsx:262-263 | an empty item is appended to the chosen list and the other lists stay |
| SheetEdits.RemoveItem | App.tsx:271 | exactly the items of other ids remain in the chosen list, in order and with their multiplicity; the other lists stay |
| SheetEdits.ApplyItemEdit | App.tsx:274-279 | a field edit never changes the item's id |
| SheetEdits.UpdateItem | App.tsx:274-279 | every item with the id in the chosen list gets the edit; the others and the other lists stay |
| SheetEdits.AddRemoveItem | App.tsx:262-271 | adding under a fresh id and removing it restores the record |
| SheetEdits.UpdateRemoveItem | App.tsx:271-279 | removing after an edit of the same id is removing |
| SheetEdits.AddEquipment | App.tsx:257-261 | an unequipped, category-less entry is appended and nothing else changes |
| SheetEdits.AddEquipmentKeepsBonuses | App.tsx:257-261 | adding equipment changes no category total |
| SheetEdits.RemoveEquipment | App.tsx:267-270 | exactly the entries of other ids remain, in order and with their multiplicity; nothing else changes |
| SheetEdits.ApplyEquipmentEdit | App.tsx:281-286 | a field edit never changes the entry's id |
| SheetEdits.UpdateEquipment | App.tsx:281-286 | every entry with the id gets the edit, the others stay, and nothing else changes |
| SheetEdits.AddRemoveEquipment | App.tsx:257-270 | adding under a fresh id and removing it restores the record |
| SheetEdits.UpdateRemoveEquipment | App.tsx:267-286 | removing after an edit of the same id is removing |
| ListOps.RemoveById | App.tsx:230 | the filter keeps exactly the entries of other ids, each with all its copies, and never grows the list |
| ListOps.SubsequenceOfItself | App.tsx:230 | a list is an order-preserving selection of itself |
| ListOps.RemoveByIdKeepsOrder | App.tsx:230 | the filter keeps the surviving entries in their original order |
| ListOps.RemoveAbsentId | App.tsx:230 | removing an id nobody carries changes nothing |
| ListOps.UpdateById | App.tsx:234 | the map edits exactly the entries of the id, in place, and keeps the length |
| ListOps.RemoveAfterAppend | App.tsx:226-230 | removing the id of an appended entry undoes the append, up to older entries of that id |
| ListOps.RemoveAfterUpdate | App.tsx:230-234 | removing an id after editing its entries, by an edit that keeps the id, is removing it |
| ListOps.RemoveOtherAfterUpdate | App.tsx:230-234 | removing one id and editing another commute |
| BonusList.Add | components/BonusList.tsx:20 | a nameless bonus of value 0 is appended after the old ones |
| BonusList.Rename | components/BonusList.tsx:34 | exactly the entries of the id get the new name; values and other entries stay |
| BonusList.SetValue | components/BonusList.tsx:40 | exactly the entries of the id get `parseInt(v) \|\| 0`; names and other entries stay |
| BonusList.Delete | components/BonusList.tsx:42 | exactly the entries of other ids remain, in order and with their multiplicity |
| BonusList.UniqueId | components/BonusList.tsx:40 | an id carried once counts once and sums to that entry's value |
| BonusList.AbsentId | components/BonusList.tsx:42 | an absent id counts and sums to zero |
| BonusList.SumValuesPointwise | components/BonusList.tsx:34 | lists whose values agree entry by entry have the same sum |
| BonusList.AddKeepsSum | components/BonusList.tsx:20 | adding a bonus leaves the total unchanged |
| BonusList.RenameKeepsSum | components/BonusList.tsx:34 | renaming leaves the total unchanged |
| BonusList.SetValueSum | components/BonusList.tsx:40 | setting a value replaces the id's summed values by count × the parsed value |
| BonusList.SetValueSumUnique | components/BonusList.tsx:40 | with a unique id, the total moves by the new value minus the old |
| BonusList.DeleteSum | components/BonusList.tsx:42 | deleting takes exactly the id's values out of the total |
| BonusList.AddThenDelete | components/BonusList.tsx:20-42 | adding under a fresh id and deleting it restores the list |
| BonusList.SetValueRoundTrip | components/BonusList.tsx:40 | typing a value's decimal text stores that value |
| BonusList.EditThenDelete | components/BonusList.tsx:34-42 | deleting after a rename or value edit of the same id is deleting |
| BonusList.DeleteIdempotent | components/BonusList.tsx:42 | deleting twice is deleting once |
| BonusList.AccuracyFollowsBonusList | App.tsx:304-312 | adding an accuracy bonus leaves accuracy unchanged; setting a unique one moves accuracy by the change |
| Dice.ScaleInRange | App.tsx:189 | a die of at least one face lands in 1..faces |
| Dice.Terms | App.tsx:197-198 | the lower-cased, space-free text splits into at least one term |
| Dice.DiceOf | App.tsx:201 | count and faces are `parseInt(n) \|\| 1`, never 0 |
| Dice.Repeat | App.tsx:202-206 | a group of `count` dice rolls `count` dice of that face count |
| Dice.DieFacesCount | App.tsx:199-207 | the number of dice rolled is the sum of the positive counts |
| Dice.DieFacesPrefix | App.tsx:199 | the dice of a prefix of the terms are a prefix of the dice of all terms |
| Dice.SumIntsAppend | App.tsx:205 | the running total grows by each roll |
| Dice.RollD20 | App.tsx:188-195 | one d20 in 1..20; the modifier is the number or `parseInt(s) \|\| 0`; total is roll + modifier; crit exactly on 20, fumble exactly on 1, never both; the formula text |
| Dice.RollGroup | App.tsx:202-206 | the inner loop appends `count` rolls of the group's faces, one per draw, and adds them to the total |
| Dice.RollTerm | App.tsx:199-211 | a dice term appends its rolls; a flat term adds `parseInt(part) \|\| 0` to modifier and total |
| Dice.RollParts | App.tsx:199-211 | across all terms, roll j uses draw j and die j, the modifier is the flat sum and the total is the rolls plus the modifier |
| Dice.RollDamage | App.tsx:196-214 | a damage roll rolls every die of the terms, each in range, reports the flat sum as modifier and the text as formula, and is never a crit or fumble |
| Dice.RollDice | App.tsx:180-217 | in d20 mode: one d20 scaled from the first draw, the modifier of the argument, total = roll + modifier, crit exactly on 20, fumble exactly on 1, and the "1d20 (roll) + mod" text; in damage mode: roll j is draw j scaled to die j and lies in 1..faces, the modifier is the flat sum, total = rolls + modifier, never crit or fumble, and the formula is the argument text |
| Dice.TwoDiceAndFlat | App.tsx:196-211 | "2d6+3" rolls two d6 and adds 3 |
| Dice.EmptyFormula | App.tsx:196-211 | an empty formula rolls nothing and adds nothing |
| Dice.MissingCountIsOne | App.tsx:201 | "d8" rolls one d8 |
| Dice.NegativeBonusDropped | App.tsx:496 | the card builds "1d6-3", which the roller reads as one d6 with no flat part: the -3 is lost |
| Dice.EmptyDiceKeepsBonus | App.tsx:196-211 | with an empty dice text, the default of a new spell, the formula rolls nothing and its flat sum, which the damage roll reports as its modifier, is exactly the bonus, whatever its sign |
| Dice.SignedAgreesWithoutMinus | App.tsx:199-211 | on terms without '-', the corrected reading rolls the same dice and adds the same flat sum as the code |
| Dice.TermsWithoutMinus | App.tsx:197-198 | a dice text without '-' has no term containing '-' |
| Dice.SuffixText | App.tsx:496 | a nonzero bonus's suffix is its sign and the digits of its magnitude, and those digits parse to the magnitude |
| Dice.PlusTerms | App.tsx:197-198 | "dice+n" has the terms of the dice text followed by n |
| Dice.MinusTerms | App.tsx:197-198 | "dice-n" glues "-n" onto the last term of the dice text |
| Dice.SignedPlus | App.tsx:199-211 | the corrected roller on "dice+n" rolls the same dice and adds n |
| Dice.SignedMinus | App.tsx:199-211 | the corrected roller on "dice-n" rolls the same dice and subtracts n |
| Dice.SignedRollAddsBonus | App.tsx:496 | for every dice text without '-' and every bonus, the corrected roller on the card's formula rolls the same dice and adds exactly the bonus |
| Dice.NegativeBonusKept | App.tsx:496 | the corrected roller reads "1d6-3" as one d6 and -3 |
| JsText.OrDefault | App.tsx:191 | `n \|\| d` is n unless n is NaN or 0, and d then |
| JsText.DigitChar | App.tsx:195 | a digit value's character is a digit with that value |
| JsText.LeadingDigits | App.tsx:201 | `parseInt` reads the longest run of decimal digits at the start |
| JsText.LeadingHex | App.tsx:201 | after "0x", `parseInt` reads the longest run of hex digits |
| JsText.TrimStart | App.tsx:201 | `parseInt` skips leading white space, leaving a suffix that starts with a non-space |
| JsText.ParseInt | App.tsx:201 | `parseInt` yields a number only when the text holds a digit |
| JsText.NatToString | App.tsx:195 | `String(n)` of a natural number is a nonempty run of digits without a leading zero |
| JsText.DecValueOfNatToString | App.tsx:195 | the decimal digits of n have the value n |
| JsText.LeadingDigitsOfDigits | App.tsx:201 | on a run of digits, `parseInt` reads the whole run |
| JsText.ParseUnsignedOfNatToString | App.tsx:201 | the digits of n parse to n |
| JsText.ParseIntOfIntToString | App.tsx:201 | `parseInt(String(n)) == n` for every integer, the round trip the number inputs rely on |
| JsText.IntToStringChars | App.tsx:496 | `String(n)` is digits, led by '-' exactly when n is negative |
| JsText.Split | App.tsx:198 | `split(c)` gives at least one piece and no piece contains c |
| JsText.JoinSplit | App.tsx:198 | joining the pieces with c gives back the text |
| JsText.SplitNoSeparator | App.tsx:198 | a text without c is one piece |
| JsText.SplitWithSeparator | App.tsx:198 | a text with c gives at least two pieces |
| JsText.SplitCons | App.tsx:198 | one character in front of a text either opens a new empty piece or joins the first piece |
| JsText.SplitAround | App.tsx:198 | splitting a + c + b gives a's pieces followed by b's |
| JsText.SplitAppendTail | App.tsx:198 | appending a text without c extends the last piece |
| JsText.SplitKeepsOut | App.tsx:198 | a character missing from the text is missing from every piece |
| JsText.NormalizeIsNormal | App.tsx:197 | lower-casing and removing white space leaves no space and no capital |
| JsText.NormalizeAppend | App.tsx:197 | normalising works character by character, so it distributes over concatenation |
| JsText.NormalizeFixed | App.tsx:197 | a text without spaces and capitals is already normal |
| JsText.NormalizeKeepsOut | App.tsx:197 | normalising adds no character other than a lower-case letter |
| SaveLoad.OrText | components/SaveLoadModal.tsx:30-31 | `s \|\| fallback` is s unless s is empty; the result is the fallback exactly when s is empty or is the fallback |
| SaveLoad.NewEntry | components/SaveLoadModal.tsx:28-34 | the new entry has a nonempty name and class, "Sem Nome" and "Sem Classe" standing in for empty ones, and carries the given id, date and sheet |
| SaveLoad.FirstMatchFrom | components/SaveLoadModal.tsx:36 | the search returns the first same-named entry from i on, or -1 when there is none |
| SaveLoad.FirstMatchUnique | components/SaveLoadModal.tsx:36 | any index with the first-match property is the one `findIndex` returns |
| SaveLoad.FindIndex | components/SaveLoadModal.tsx:36 | the loop returns the first entry with the same name, unless the name is the placeholder, or -1 |
| SaveLoad.SaveAppends | components/SaveLoadModal.tsx:46 | with no same-named entry, or under the placeholder name, the save appends and is never declined |
| SaveLoad.SaveOverwrites | components/SaveLoadModal.tsx:38-41 | a confirmed overwrite replaces the first same-named entry in place, keeps its id, and leaves every other entry |
| SaveLoad.SaveDeclinedKeeps | components/SaveLoadModal.tsx:42-43 | declining the overwrite keeps the list |
| SaveLoad.SavePreservesNamesUnique | components/SaveLoadModal.tsx:36-47 | if real names were unique before a save, they are unique after |
| SaveLoad.SaveAgainOverwrites | components/SaveLoadModal.tsx:36-47 | saving a named sheet a second time, confirmed, does not grow the list |
| SaveLoad.DeleteResult | components/SaveLoadModal.tsx:54-60 | a confirmed delete keeps exactly the entries of other ids, in order and with their multiplicity; a declined one keeps all |
| SaveLoad.DeletePreservesNamesUnique | components/SaveLoadModal.tsx:54-60 | deletion keeps names unique |
| SaveLoad.DeleteIdempotent | components/SaveLoadModal.tsx:56 | after a delete no entry has the id, and deleting again changes nothing |
| SaveLoad.Registry.constructor | components/SaveLoadModal.tsx:22-25 | the registry starts from what storage holds, with the list and its stored copy equal |
| SaveLoad.Registry.HandleSave | components/SaveLoadModal.tsx:27-52 | the save succeeds unless the overwrite is declined; the list becomes the save result; storage mirrors the list; a declined save changes neither |
| SaveLoad.Registry.HandleDelete | components/SaveLoadModal.tsx:54-60 | the list becomes the delete result and storage mirrors it; a declined delete changes nothing |
| SaveLoad.HandleImport | components/SaveLoadModal.tsx:74-97 | a parsed object with `info` and `attributes` keys is loaded as it is; any other parsed value is refused as invalid; a parse failure is a read error |
| SaveLoad.ExportedSheetImports | components/SaveLoadModal.tsx:85 | a sheet exported with all its keys passes the import check and loads back unchanged |
| SaveLoad.ImportChecksKeysOnly | components/SaveLoadModal.tsx:85 | the check looks at keys only: an object with just those two keys loads; null, arrays and an object missing a key are refused |

## Findings

| source | as written | input that shows it | evidently intended | confidence | as-written member | corrected member |
|---|---|---|---|---|---|---|
| App.tsx:496, App.tsx:518, App.tsx:201 | A negative damage or effect bonus is rendered with its own sign, as in "1d6-3". The roller splits only on '+', and `parseInt("6-3")` is 6, so clicking the formula rolls 1d6 with no flat part and the bonus is lost. | `dmgDice` "1d6" with a damage bonus of -3 | The roller should subtract the bonus. The model reads '-' inside a term as a subtracted flat part. Then for every dice text without '-' and every bonus, the card's formula rolls the same dice and adds exactly the bonus. | not executed | Dice.NegativeBonusDropped | Dice.SignedRollAddsBonus (and Dice.NegativeBonusKept) |
| types.ts:43, App.tsx:94-110 | The declaration says the initiative can be overridden. The reconciler compares the stored initiative with the Dexterity modifier and writes the modifier back whenever they differ, so a stored initiative other than the modifier is replaced on the next pass. The sheet has no input that writes the initiative (App.tsx:461 shows it read-only), so such a value comes only from a loaded or imported sheet, and the claim rests on the comment at types.ts:43 alone. | a record whose Dexterity modifier is current and whose initiative is that modifier + 2 | Recompute the initiative only when the Dexterity modifier has gone stale, that is after a Dexterity change, and keep a stored value otherwise. | not executed | Reconciler.InitiativeOverrideLost | Reconciler.ReconciledKeepingOverride (and Reconciler.OverrideKept) |

The methods that model the program's own steps (`Reconciler.Reconcile`,
`Dice.RollDice`) follow the code as written. Each corrected member is stated
beside them, with its intended property proved.

## Left out

- Rendering, layout, icons and the printed view (JSX around the handlers) are outside the model. The
  drag-and-drop reordering is represented only by its effect on the totals
  (`Stats.EquipmentBonusOrderFree`). The EquipmentList, DynamicList, RollModal and
  sortable card components are not part of this model.
- `localStorage`, `JSON.stringify`, `JSON.parse`, `FileReader`, `alert`, `confirm`,
  `window.print()` and the export download link are I/O. The answer to each
  `confirm()` is a parameter. `JSON.parse` is represented by its result, an
  `Option<Json>`. The storage copy is a field of `SaveLoad.Registry`.
- `handleExport` and `handlePrint` only serialise or print, so they are not
  modelled. `handleReset` replaces the record by the default sheet, and
  constants.ts, which defines it, is not part of this model.
- The load-time migration of an old saved sheet (App.tsx:22-58) reads
  `localStorage` and patches missing fields of untyped JSON, so it is not
  modelled.
- `Math.random()` is a floating-point value. The model replaces each call by a
  supplied fraction `num / den` in [0, 1), so `Math.floor(random * faces) + 1` is
  exact. Floating-point rounding of the product is not modelled.
- The ids that come from `Date.now().toString()` and the date text from
  `toLocaleString()` are parameters.
- React's scheduling is not modelled. This covers batching of `setData`, the
  effect re-running after every change, and the render that happens between an
  edit and the reconciliation. The reconciler is an explicit step
  (`Reconciler.Reconcile`).
- The plain text setters are not modelled. These are `updateInfo` for text
  fields, the hit-point, hit-dice, speed, mana, rune and spell-DC text inputs,
  and edits of an entry's `id` field. Each stores the typed string unchanged.
  The level field, which parses, is modelled (`SheetEdits.SetLevel`).
- `toLowerCase` is modelled for ASCII capitals only. Lower-casing a non-ASCII
  character cannot produce a digit, 'd', 'x', '+', '-' or white space, so what the
  roller parses does not change.
- SheetEdits.ToggleSkillProficiency: requires the skill key to be present. The
  source reads `prev.skills[skillKey].proficient`, which throws for a missing key.
  The sheet only calls it with the keys it renders.
- Reconciler.Reconcile: requires the Perception and Insight skills to be present,
  because the source reads them unguarded and would throw without them.
- SheetEdits.SetAC: the source subtracts the equipment bonus of the record that
  was rendered, not of `prev`. The model uses one record for both, which is what
  they are when no other update is pending.
- SheetEdits.ApplyAttackEdit, SheetEdits.ApplyItemEdit and
  SheetEdits.ApplyEquipmentEdit: their contracts state only that the id is kept.
  That is what the remove-after-update lemmas need. The field written is visible
  in their bodies, one case per field.
- JsText.ParseInt: its own contract states only that a result needs a digit in
  the text. Its exact behaviour on the texts the sheet writes is the round trip
  `JsText.ParseIntOfIntToString`. Radix arguments, numeric separators and values
  beyond 2^53 are not modelled.
- Numbers are unbounded integers. The sheet's numbers are JavaScript doubles, and
  fractional values never arise from any input it parses.
