/** The derived-state reconciler: the body of the `setData(prev => ...)` effect at
    App.tsx:67-113, invoked here as an explicit step. It recomputes the six
    modifiers, the proficiency bonus, the initiative and the two stored passive
    scores, and hands back `prev` itself when none of them differs. */
module Reconciler {
  import opened Types
  import opened JsText
  import opened Stats

  /** The stored passive score (App.tsx:91-92): a proficient skill counts only when
      it is governed by `sab`, and then without expertise; a proficient skill
      governed by anything else yields exactly 10. */
  function StoredPassive(s: Skill, wisMod: int, prof: int): int {
    10 + (if s.proficient then (if s.attr == Sab then wisMod + prof else 0) else wisMod)
  }

  /** An attribute whose stored modifier is not the one its score gives. */
  predicate Stale(a: Attribute) {
    a.modifier != Modifier(a.value)
  }

  /** Every attribute with its modifier recomputed from its score. */
  function RecomputedAttributes(a: Attributes): (r: Attributes)
    ensures forall k :: r.Get(k) == Attribute(a.Get(k).value, Modifier(a.Get(k).value))
  {
    PerAttribute(Attribute(a.forca.value, Modifier(a.forca.value)),
                 Attribute(a.destreza.value, Modifier(a.destreza.value)),
                 Attribute(a.constituicao.value, Modifier(a.constituicao.value)),
                 Attribute(a.inteligencia.value, Modifier(a.inteligencia.value)),
                 Attribute(a.sabedoria.value, Modifier(a.sabedoria.value)),
                 Attribute(a.carisma.value, Modifier(a.carisma.value)))
  }

  /** The record after one reconcile step. */
  function Reconciled(p: CharacterSheetData): (r: CharacterSheetData)
    requires HasPassiveSkills(p)
  {
    var attrs := RecomputedAttributes(p.attributes);
    var prof := ProficiencyBonus(p.info.level);
    var wisMod := attrs.sabedoria.modifier;
    p.(attributes := attrs,
       vitals := p.vitals.(proficiencyBonus := prof,
                           initiative := attrs.destreza.modifier,
                           passivePerception := StoredPassive(p.skills[Perception], wisMod, prof),
                           passiveInsight := StoredPassive(p.skills[Insight], wisMod, prof)))
  }

  /** The field-by-field comparison of App.tsx:74, 83 and 94-96: nothing the step
      would write differs from what is stored. */
  predicate InSync(p: CharacterSheetData)
    requires HasPassiveSkills(p)
  {
    var prof := ProficiencyBonus(p.info.level);
    var wisMod := Modifier(p.attributes.sabedoria.value);
    && (forall k :: p.attributes.Get(k).modifier == Modifier(p.attributes.Get(k).value))
    && p.vitals.proficiencyBonus == prof
    && p.vitals.initiative == Modifier(p.attributes.destreza.value)
    && p.vitals.passivePerception == StoredPassive(p.skills[Perception], wisMod, prof)
    && p.vitals.passiveInsight == StoredPassive(p.skills[Insight], wisMod, prof)
  }

  /** What the step establishes, and all it changes. */
  lemma ReconciledState(p: CharacterSheetData)
    requires HasPassiveSkills(p)
    ensures var r := Reconciled(p);
      && (forall k :: r.attributes.Get(k).value == p.attributes.Get(k).value)
      && (forall k :: r.attributes.Get(k).modifier == Modifier(r.attributes.Get(k).value))
      && r.vitals.proficiencyBonus == ProficiencyBonus(p.info.level)
      && r.vitals.initiative == r.attributes.destreza.modifier
      && r.vitals.passivePerception == StoredPassive(p.skills[Perception], Modifier(p.attributes.sabedoria.value),
                                                     ProficiencyBonus(p.info.level))
      && r.vitals.passiveInsight == StoredPassive(p.skills[Insight], Modifier(p.attributes.sabedoria.value),
                                                  ProficiencyBonus(p.info.level))
      && r.(attributes := p.attributes, vitals := p.vitals) == p
      && r.vitals.(proficiencyBonus := p.vitals.proficiencyBonus, initiative := p.vitals.initiative,
                   passivePerception := p.vitals.passivePerception,
                   passiveInsight := p.vitals.passiveInsight) == p.vitals
  {
  }

  /** The stored passive perception and passive insight, each in its three cases. */
  lemma StoredPassiveCases(p: CharacterSheetData)
    requires HasPassiveSkills(p)
    ensures var r := Reconciled(p);
      var s := p.skills[Perception];
      var wisMod := Modifier(p.attributes.sabedoria.value);
      var prof := ProficiencyBonus(p.info.level);
      && (!s.proficient ==> r.vitals.passivePerception == 10 + wisMod)
      && (s.proficient && s.attr == Sab ==> r.vitals.passivePerception == 10 + wisMod + prof)
      && (s.proficient && s.attr != Sab ==> r.vitals.passivePerception == 10)
    ensures var r := Reconciled(p);
      var s := p.skills[Insight];
      var wisMod := Modifier(p.attributes.sabedoria.value);
      var prof := ProficiencyBonus(p.info.level);
      && (!s.proficient ==> r.vitals.passiveInsight == 10 + wisMod)
      && (s.proficient && s.attr == Sab ==> r.vitals.passiveInsight == 10 + wisMod + prof)
      && (s.proficient && s.attr != Sab ==> r.vitals.passiveInsight == 10)
  {
  }

  /** The step writes back exactly when something is out of sync: the record it
      produces equals `prev` if and only if `prev` was in sync. */
  lemma ReconcileUnchangedIffInSync(p: CharacterSheetData)
    requires HasPassiveSkills(p)
    ensures Reconciled(p) == p <==> InSync(p)
  {
    var r := Reconciled(p);
    if InSync(p) {
      PerAttributeExt(r.attributes, p.attributes);
      assert r.vitals == p.vitals;
    }
  }

  /** After one step the record is in sync, so a second step is a no-op. */
  lemma ReconcileIdempotent(p: CharacterSheetData)
    requires HasPassiveSkills(p)
    ensures HasPassiveSkills(Reconciled(p))
    ensures InSync(Reconciled(p))
    ensures Reconciled(Reconciled(p)) == Reconciled(p)
  {
    ReconcileUnchangedIffInSync(Reconciled(p));
  }

  /** The stored initiative is always overwritten by the DEX modifier: the sheet
      has no input for it, and a different value that arrives with a loaded or
      imported sheet is lost at the next step. */
  lemma InitiativeOverwritten(p: CharacterSheetData, stored: int)
    requires HasPassiveSkills(p)
    ensures Reconciled(p.(vitals := p.vitals.(initiative := stored))) == Reconciled(p)
  {
  }

  /** A stored initiative from a loaded or imported sheet is lost even when nothing
      it depends on has changed: on a
      record whose DEX modifier is up to date, every value other than that modifier
      is replaced. */
  lemma InitiativeOverrideLost(p: CharacterSheetData, stored: int)
    requires HasPassiveSkills(p)
    requires !Stale(p.attributes.destreza)
    requires stored != p.attributes.destreza.modifier
    ensures Reconciled(p.(vitals := p.vitals.(initiative := stored))).vitals.initiative != stored
  {
  }

  /** The step that keeps an overridden initiative: it re-derives the initiative
      only when the DEX modifier is stale, that is when the DEX score has just
      changed, and leaves the stored value alone otherwise. Everything else is as in
      `Reconciled`. */
  function ReconciledKeepingOverride(p: CharacterSheetData): (r: CharacterSheetData)
    requires HasPassiveSkills(p)
    ensures r == Reconciled(p).(vitals := Reconciled(p).vitals.(initiative := r.vitals.initiative))
    ensures Stale(p.attributes.destreza) ==> r.vitals.initiative == Modifier(p.attributes.destreza.value)
    ensures !Stale(p.attributes.destreza) ==> r.vitals.initiative == p.vitals.initiative
  {
    var q := Reconciled(p);
    var initiative := if Stale(p.attributes.destreza) then q.attributes.destreza.modifier else p.vitals.initiative;
    q.(vitals := q.vitals.(initiative := initiative))
  }

  /** With the corrected step a stored initiative survives every step that does not
      follow a DEX change. */
  lemma OverrideKept(p: CharacterSheetData, stored: int)
    requires HasPassiveSkills(p)
    requires !Stale(p.attributes.destreza)
    ensures ReconciledKeepingOverride(p.(vitals := p.vitals.(initiative := stored))).vitals.initiative == stored
  {
  }

  /** The corrected step leaves a record it has produced alone. */
  lemma ReconciledKeepingOverrideIdempotent(p: CharacterSheetData)
    requires HasPassiveSkills(p)
    ensures HasPassiveSkills(ReconciledKeepingOverride(p))
    ensures ReconciledKeepingOverride(ReconciledKeepingOverride(p)) == ReconciledKeepingOverride(p)
  {
    var r := ReconciledKeepingOverride(p);
    ReconcileIdempotent(p);
    assert r.attributes == Reconciled(p).attributes;
    PerAttributeExt(Reconciled(r).attributes, r.attributes);
  }

  /** The reconcile step as the source runs it: a loop over the attribute keys that
      writes each stale modifier and raises `changed`, then the vitals comparison.
      `prevView` is what a holder of the old record sees afterwards: `newAttrs` is a
      shallow copy (App.tsx:69), so the modifier writes of App.tsx:75 land in the
      attribute objects that `prev` shares. */
  method Reconcile(prev: CharacterSheetData) returns (next: CharacterSheetData, changed: bool,
                                                      prevView: CharacterSheetData)
    requires HasPassiveSkills(prev)
    ensures changed <==> !InSync(prev)
    ensures !changed ==> next == prev
    ensures next == Reconciled(prev)
    ensures prevView == prev.(attributes := next.attributes)
  {
    var attrs := prev.attributes;
    changed := false;
    var i := 0;
    while i < |AllKeys|
      invariant 0 <= i <= |AllKeys|
      invariant forall j :: 0 <= j < i ==>
                  attrs.Get(AllKeys[j]) == Attribute(prev.attributes.Get(AllKeys[j]).value,
                                                     Modifier(prev.attributes.Get(AllKeys[j]).value))
      invariant forall j :: i <= j < |AllKeys| ==> attrs.Get(AllKeys[j]) == prev.attributes.Get(AllKeys[j])
      invariant changed <==> exists j :: 0 <= j < i && Stale(prev.attributes.Get(AllKeys[j]))
    {
      var key := AllKeys[i];
      var mod := Modifier(attrs.Get(key).value);
      if attrs.Get(key).modifier != mod {
        attrs := attrs.Set(key, attrs.Get(key).(modifier := mod));
        changed := true;
      }
      i := i + 1;
    }
    forall k ensures attrs.Get(k) == RecomputedAttributes(prev.attributes).Get(k) {
      assert AllKeys[KeyIndex(k)] == k;
    }
    PerAttributeExt(attrs, RecomputedAttributes(prev.attributes));
    if !changed {
      forall k ensures prev.attributes.Get(k).modifier == Modifier(prev.attributes.Get(k).value) {
        assert AllKeys[KeyIndex(k)] == k;
      }
    }

    var level := EffectiveLevel(prev.info.level);
    var prof := ProficiencyForLevel(level);
    if prev.vitals.proficiencyBonus != prof {
      changed := true;
    }
    var dexMod := attrs.destreza.modifier;
    var wisMod := attrs.sabedoria.modifier;
    var passivePerception := StoredPassive(prev.skills[Perception], wisMod, prof);
    var passiveInsight := StoredPassive(prev.skills[Insight], wisMod, prof);
    if prev.vitals.initiative != dexMod || prev.vitals.passivePerception != passivePerception
       || prev.vitals.passiveInsight != passiveInsight {
      changed := true;
    }
    prevView := prev.(attributes := attrs);
    if !changed {
      ReconcileUnchangedIffInSync(prev);
      return prev, changed, prevView;
    }
    next := prev.(attributes := attrs,
                  vitals := prev.vitals.(proficiencyBonus := prof, initiative := dexMod,
                                         passivePerception := passivePerception,
                                         passiveInsight := passiveInsight));
  }

  // ---------------------------------------------------------------- totals over a reconciled record

  /** The modifier a slot has once the record is reconciled, read from the score. */
  function ScoreMod(p: CharacterSheetData, slot: AttrSlot): int {
    match slot
    case NoAttr => 0
    case Attr(k) => Modifier(p.attributes.Get(k).value)
  }

  /** On a reconciled record the skill total is the score's modifier plus the
      level's bonus once for proficiency and once more for expertise. */
  lemma SkillTotalReconciled(p: CharacterSheetData, s: Skill)
    requires HasPassiveSkills(p)
    ensures SkillTotal(Reconciled(p), s) == Modifier(p.attributes.Get(s.attr).value)
              + (if s.proficient then ProficiencyBonus(p.info.level) else 0)
              + (if s.expertise then ProficiencyBonus(p.info.level) else 0)
    ensures SaveTotal(Reconciled(p), s.attr) == Modifier(p.attributes.Get(s.attr).value)
              + (if p.savingThrows.Get(s.attr) then ProficiencyBonus(p.info.level) else 0)
  {
  }

  /** The passive scores the sheet shows (App.tsx:422 and 426, `10 +
      calculateSkillTotal`) agree with the stored ones when the skill is governed by
      `sab` without expertise, and the two can differ otherwise. */
  lemma ShownPassiveAgreesWithStored(p: CharacterSheetData)
    requires HasPassiveSkills(p)
    ensures var r := Reconciled(p);
      var s := p.skills[Perception];
      s.attr == Sab && !s.expertise ==> 10 + SkillTotal(r, s) == r.vitals.passivePerception
    ensures var r := Reconciled(p);
      var s := p.skills[Insight];
      s.attr == Sab && !s.expertise ==> 10 + SkillTotal(r, s) == r.vitals.passiveInsight
  {
  }

  lemma ShownPassiveCanDiffer(p: CharacterSheetData)
    requires HasPassiveSkills(p)
    requires p.skills[Perception] == Skill("Percep\U{00E7}\U{00E3}o", Sab, true, true)
    ensures 10 + SkillTotal(Reconciled(p), p.skills[Perception])
            == Reconciled(p).vitals.passivePerception + ProficiencyBonus(p.info.level)
  {
  }

  /** On a reconciled record accuracy is computed from the scores and the level. */
  lemma AccuracyReconciled(p: CharacterSheetData, atk: Attack)
    requires HasPassiveSkills(p)
    ensures Accuracy(Reconciled(p), atk)
            == ScoreMod(p, atk.accAttr1) + ScoreMod(p, atk.accAttr2)
               + (if atk.accProf then ProficiencyBonus(p.info.level) else 0)
               + SumValues(atk.accBonuses) + EquipmentBonus(Reconciled(p), BonusAttack)
    ensures DamageBonus(Reconciled(p), atk)
            == ScoreMod(p, atk.dmgAttr1) + ScoreMod(p, atk.dmgAttr2)
               + SumValues(atk.dmgBonuses) + EquipmentBonus(Reconciled(p), BonusDamage)
  {
  }
}
