/** The inline editor of a `NamedBonus[]` (components/BonusList.tsx): each button or
    input hands a new array to `onChange`; nothing is mutated in place. */
module BonusList {
  import opened Types
  import opened JsText
  import opened ListOps
  import opened Stats

  function BonusId(b: NamedBonus): string { b.id }

  /** The plus button (BonusList.tsx:20): a nameless bonus of value 0 at the end. */
  function Add(bs: seq<NamedBonus>, id: string): (r: seq<NamedBonus>)
    ensures |r| == |bs| + 1
    ensures r[..|bs|] == bs
    ensures r[|bs|] == NamedBonus(id, "", 0)
  {
    bs + [NamedBonus(id, "", 0)]
  }

  /** The name input (BonusList.tsx:34). */
  function Rename(bs: seq<NamedBonus>, id: string, name: string): (r: seq<NamedBonus>)
    ensures |r| == |bs|
    ensures forall i :: 0 <= i < |bs| ==>
              r[i] == if bs[i].id == id then NamedBonus(id, name, bs[i].value) else bs[i]
  {
    UpdateById(bs, BonusId, id, (x: NamedBonus) => x.(name := name))
  }

  /** What the number input stores: `parseInt(text) || 0`. */
  function ValueOf(text: string): int {
    OrDefault(ParseInt(text), 0)
  }

  /** The number input (BonusList.tsx:40). */
  function SetValue(bs: seq<NamedBonus>, id: string, text: string): (r: seq<NamedBonus>)
    ensures |r| == |bs|
    ensures forall i :: 0 <= i < |bs| ==>
              r[i] == if bs[i].id == id then NamedBonus(id, bs[i].name, ValueOf(text)) else bs[i]
  {
    UpdateById(bs, BonusId, id, (x: NamedBonus) => x.(value := ValueOf(text)))
  }

  /** The trash button (BonusList.tsx:42). */
  function Delete(bs: seq<NamedBonus>, id: string): (r: seq<NamedBonus>)
    ensures forall b :: b in r <==> b in bs && b.id != id
    ensures forall b :: multiset(r)[b] == if b.id != id then multiset(bs)[b] else 0
    ensures IsSubsequence(r, bs)
  {
    RemoveByIdKeepsOrder(bs, BonusId, id);
    RemoveById(bs, BonusId, id)
  }

  // ---------------------------------------------------------------- the entries of one id

  function CountId(bs: seq<NamedBonus>, id: string): nat {
    if |bs| == 0 then 0
    else CountId(bs[..|bs| - 1], id) + (if bs[|bs| - 1].id == id then 1 else 0)
  }

  /** The summed value of the entries that carry `id`. */
  function SumWithId(bs: seq<NamedBonus>, id: string): int {
    if |bs| == 0 then 0
    else SumWithId(bs[..|bs| - 1], id) + (if bs[|bs| - 1].id == id then bs[|bs| - 1].value else 0)
  }

  /** An id carried by exactly one entry, at index `i`. */
  lemma {:induction false} UniqueId(bs: seq<NamedBonus>, i: nat)
    requires i < |bs|
    requires forall j :: 0 <= j < |bs| && j != i ==> bs[j].id != bs[i].id
    ensures CountId(bs, bs[i].id) == 1
    ensures SumWithId(bs, bs[i].id) == bs[i].value
    decreases |bs|
  {
    var n := |bs| - 1;
    if i < n {
      UniqueId(bs[..n], i);
    } else {
      AbsentId(bs[..n], bs[i].id);
    }
  }

  lemma {:induction false} AbsentId(bs: seq<NamedBonus>, id: string)
    requires forall j :: 0 <= j < |bs| ==> bs[j].id != id
    ensures CountId(bs, id) == 0 && SumWithId(bs, id) == 0
  {
    if |bs| > 0 {
      AbsentId(bs[..|bs| - 1], id);
    }
  }

  // ---------------------------------------------------------------- what each edit does to the sum

  /** Two lists whose values agree entry by entry have the same sum. */
  lemma {:induction false} SumValuesPointwise(a: seq<NamedBonus>, b: seq<NamedBonus>)
    requires |a| == |b|
    requires forall i :: 0 <= i < |a| ==> a[i].value == b[i].value
    ensures SumValues(a) == SumValues(b)
  {
    if |a| > 0 {
      SumValuesPointwise(a[..|a| - 1], b[..|b| - 1]);
    }
  }

  /** A new bonus is worth 0, so the total is unchanged. */
  lemma AddKeepsSum(bs: seq<NamedBonus>, id: string)
    ensures SumValues(Add(bs, id)) == SumValues(bs)
  {
    SumValuesAppend(bs, [NamedBonus(id, "", 0)]);
  }

  /** Renaming never changes the total. */
  lemma RenameKeepsSum(bs: seq<NamedBonus>, id: string, name: string)
    ensures SumValues(Rename(bs, id, name)) == SumValues(bs)
  {
    SumValuesPointwise(Rename(bs, id, name), bs);
  }

  /** Setting a value replaces the values of the matching entries by the parsed one. */
  lemma {:induction false} SetValueSum(bs: seq<NamedBonus>, id: string, text: string)
    ensures SumValues(SetValue(bs, id, text)) == SumValues(bs) - SumWithId(bs, id) + CountId(bs, id) * ValueOf(text)
  {
    if |bs| > 0 {
      var n := |bs| - 1;
      var v := ValueOf(text);
      var r := SetValue(bs, id, text);
      assert r[..n] == SetValue(bs[..n], id, text);
      SetValueSum(bs[..n], id, text);
      var c := CountId(bs[..n], id);
      if bs[n].id == id {
        assert r[n].value == v;
        assert CountId(bs, id) == c + 1;
        MulSucc(c, v);
      } else {
        assert r[n] == bs[n];
        assert CountId(bs, id) == c;
      }
    }
  }

  lemma MulSucc(c: int, v: int)
    ensures (c + 1) * v == c * v + v
  {
  }

  /** With ids unique, setting the value of entry `i` moves the total by the
      difference between the parsed value and the old one. */
  lemma SetValueSumUnique(bs: seq<NamedBonus>, i: nat, text: string)
    requires i < |bs|
    requires forall j :: 0 <= j < |bs| && j != i ==> bs[j].id != bs[i].id
    ensures SumValues(SetValue(bs, bs[i].id, text)) == SumValues(bs) - bs[i].value + ValueOf(text)
  {
    SetValueSum(bs, bs[i].id, text);
    UniqueId(bs, i);
  }

  /** Deleting an id takes exactly its entries' values out of the total. */
  lemma {:induction false} DeleteSum(bs: seq<NamedBonus>, id: string)
    ensures SumValues(Delete(bs, id)) == SumValues(bs) - SumWithId(bs, id)
  {
    if |bs| > 0 {
      var n := |bs| - 1;
      DeleteSum(bs[..n], id);
      if bs[n].id != id {
        SumValuesAppend(RemoveById(bs[..n], BonusId, id), [bs[n]]);
      }
    }
  }

  // ---------------------------------------------------------------- partners

  /** Adding under a fresh id and deleting it restores the list. */
  lemma AddThenDelete(bs: seq<NamedBonus>, id: string)
    requires forall i :: 0 <= i < |bs| ==> bs[i].id != id
    ensures Delete(Add(bs, id), id) == bs
  {
    RemoveAfterAppend(bs, NamedBonus(id, "", 0), BonusId);
    RemoveAbsentId(bs, BonusId, id);
  }

  /** Typing a value's decimal text stores that value. */
  lemma SetValueRoundTrip(bs: seq<NamedBonus>, id: string, v: int, i: nat)
    requires i < |bs| && bs[i].id == id
    ensures SetValue(bs, id, IntToString(v))[i].value == v
  {
    ParseIntOfIntToString(v);
  }

  /** Deleting after an edit of the same id is deleting. */
  lemma EditThenDelete(bs: seq<NamedBonus>, id: string, name: string, text: string)
    ensures Delete(Rename(bs, id, name), id) == Delete(bs, id)
    ensures Delete(SetValue(bs, id, text), id) == Delete(bs, id)
  {
    RemoveAfterUpdate(bs, BonusId, id, (x: NamedBonus) => x.(name := name));
    RemoveAfterUpdate(bs, BonusId, id, (x: NamedBonus) => x.(value := ValueOf(text)));
  }

  /** Deleting twice is deleting once. */
  lemma DeleteIdempotent(bs: seq<NamedBonus>, id: string)
    ensures Delete(Delete(bs, id), id) == Delete(bs, id)
  {
    RemoveAbsentId(Delete(bs, id), BonusId, id);
  }

  /** The lists feed the totals: adding an accuracy bonus leaves the attack's
      accuracy where it was, and setting a unique one moves it by the change. */
  lemma AccuracyFollowsBonusList(d: CharacterSheetData, atk: Attack, id: string, i: nat, text: string)
    requires i < |atk.accBonuses|
    requires forall j :: 0 <= j < |atk.accBonuses| && j != i ==> atk.accBonuses[j].id != atk.accBonuses[i].id
    ensures Accuracy(d, atk.(accBonuses := Add(atk.accBonuses, id))) == Accuracy(d, atk)
    ensures Accuracy(d, atk.(accBonuses := SetValue(atk.accBonuses, atk.accBonuses[i].id, text)))
            == Accuracy(d, atk) - atk.accBonuses[i].value + ValueOf(text)
  {
    AddKeepsSum(atk.accBonuses, id);
    SetValueSumUnique(atk.accBonuses, i, text);
  }
}
