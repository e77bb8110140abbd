/** The dice roller `rollDice` (App.tsx:180-217). `Math.random()` is replaced by a
    supplied sequence of draws, each a fraction `num / den` in `[0, 1)`, so that
    `Math.floor(Math.random() * faces) + 1` is computed exactly. */
module Dice {
  import opened Types
  import opened JsText
  import Stats

  /** `diceString: string | number` */
  datatype DiceArg = NumArg(n: int) | TextArg(s: string)

  /** `type: 'd20' | 'damage'` */
  datatype RollMode = D20 | DamageRoll

  /** One value of `Math.random()`, written as the fraction `num / den`. */
  datatype RandomDraw = RandomDraw(num: nat, den: nat)

  /** A draw lies in `[0, 1)`. */
  predicate ValidDraw(r: RandomDraw) {
    r.num < r.den
  }

  predicate AllValid(draws: seq<RandomDraw>) {
    forall i :: 0 <= i < |draws| ==> ValidDraw(draws[i])
  }

  /** `Math.floor(random * faces) + 1`; `/` on a positive divisor rounds down,
      as `Math.floor` does, also for a negative number of faces. */
  function Scale(r: RandomDraw, faces: int): int
    requires ValidDraw(r)
  {
    (r.num * faces) / r.den + 1
  }

  /** A die with at least one face lands on one of its faces. */
  lemma ScaleInRange(r: RandomDraw, faces: int)
    requires ValidDraw(r) && faces >= 1
    ensures 1 <= Scale(r, faces) <= faces
  {
    var q := (r.num * faces) / r.den;
    assert 0 <= r.num * faces;
    assert r.num * faces < r.den * faces by {
      assert (r.den - r.num) * faces > 0;
    }
    assert q * r.den <= r.num * faces;
    CancelFactor(q, faces, r.den);
  }

  lemma CancelFactor(a: int, b: int, c: int)
    requires c > 0 && a * c < b * c
    ensures a < b
  {
  }

  /** `String(diceString)`, and the formula a damage roll reports (App.tsx:213). */
  function ArgText(arg: DiceArg): string {
    match arg
    case NumArg(n) => IntToString(n)
    case TextArg(s) => s
  }

  /** `String(diceString).toLowerCase().replace(/\s/g, '').split('+')` (App.tsx:197-198) */
  function Terms(arg: DiceArg): (parts: seq<string>)
    ensures |parts| >= 1
  {
    Split(Normalize(ArgText(arg)), '+')
  }

  /** A dice term `count d faces`. */
  datatype DiceGroup = DiceGroup(count: int, faces: int)

  /** `part.split('d').map(n => parseInt(n) || 1)`, destructured into its first two
      pieces (App.tsx:201); a term containing `d` always has both. */
  function DiceOf(part: string): (g: DiceGroup)
    requires 'd' in part
    ensures g.count != 0 && g.faces != 0
  {
    SplitWithSeparator(part, 'd');
    var ps := Split(part, 'd');
    DiceGroup(OrDefault(ParseInt(ps[0]), 1), OrDefault(ParseInt(ps[1]), 1))
  }

  function Max0(n: int): nat {
    if n > 0 then n else 0
  }

  /** `count` copies of `x`: the faces of the dice of one group, in rolling order. */
  function Repeat(x: int, count: nat): (r: seq<int>)
    ensures |r| == count && forall i :: 0 <= i < count ==> r[i] == x
  {
    seq(count, _ => x)
  }

  /** The faces a term rolls: a `for` loop up to a count of zero or less rolls nothing. */
  function PartFaces(part: string): seq<int> {
    if 'd' in part then Repeat(DiceOf(part).faces, Max0(DiceOf(part).count)) else []
  }

  /** The value a flat term adds: `parseInt(part) || 0` (App.tsx:208). */
  function FlatOf(part: string): int {
    if 'd' in part then 0 else OrDefault(ParseInt(part), 0)
  }

  /** The faces of every die the terms roll, in order. */
  function DieFaces(parts: seq<string>): seq<int> {
    if |parts| == 0 then [] else DieFaces(parts[..|parts| - 1]) + PartFaces(parts[|parts| - 1])
  }

  /** The sum of the flat terms. */
  function FlatSum(parts: seq<string>): int {
    if |parts| == 0 then 0 else FlatSum(parts[..|parts| - 1]) + FlatOf(parts[|parts| - 1])
  }

  /** The sum of the dice counts, a count of zero or less adding nothing. */
  function DiceCount(parts: seq<string>): nat {
    if |parts| == 0 then 0
    else DiceCount(parts[..|parts| - 1])
         + (if 'd' in parts[|parts| - 1] then Max0(DiceOf(parts[|parts| - 1]).count) else 0)
  }

  function SumInts(xs: seq<int>): int {
    if |xs| == 0 then 0 else SumInts(xs[..|xs| - 1]) + xs[|xs| - 1]
  }

  /** One die is rolled for every count of every term. */
  lemma {:induction false} DieFacesCount(parts: seq<string>)
    ensures |DieFaces(parts)| == DiceCount(parts)
  {
    if |parts| > 0 {
      DieFacesCount(parts[..|parts| - 1]);
    }
  }

  /** The terms up to `m` roll a prefix of the dice of all the terms. */
  lemma {:induction false} DieFacesPrefix(parts: seq<string>, m: nat)
    requires m <= |parts|
    ensures |DieFaces(parts[..m])| <= |DieFaces(parts)|
    ensures DieFaces(parts)[..|DieFaces(parts[..m])|] == DieFaces(parts[..m])
  {
    if m < |parts| {
      var init := parts[..|parts| - 1];
      assert init[..m] == parts[..m];
      DieFacesPrefix(init, m);
    } else {
      assert parts[..m] == parts;
    }
  }

  lemma SumIntsAppend(xs: seq<int>, x: int)
    ensures SumInts(xs + [x]) == SumInts(xs) + x
  {
    assert (xs + [x])[..|xs|] == xs;
  }

  /** The modifier of a d20 roll: a number is taken as it is, a string through
      `parseInt(diceString) || 0` (App.tsx:191). */
  function D20Modifier(arg: DiceArg): int {
    match arg
    case NumArg(n) => n
    case TextArg(s) => OrDefault(ParseInt(s), 0)
  }

  /** How many draws a roll consumes. */
  function DrawsNeeded(arg: DiceArg, mode: RollMode): nat {
    if mode == D20 then 1 else |DieFaces(Terms(arg))|
  }

  /** The d20 branch (App.tsx:188-195). */
  method RollD20(title: string, arg: DiceArg, draw: RandomDraw) returns (r: RollResult)
    requires ValidDraw(draw)
    ensures r.title == title
    ensures |r.diceRolls| == 1 && 1 <= r.diceRolls[0] <= 20
    ensures r.diceRolls[0] == Scale(draw, 20)
    ensures r.modifier == D20Modifier(arg)
    ensures r.total == r.diceRolls[0] + r.modifier
    ensures r.isCrit <==> r.diceRolls[0] == 20
    ensures r.isFumble <==> r.diceRolls[0] == 1
    ensures !(r.isCrit && r.isFumble)
    ensures r.formula == "1d20 (" + IntToString(r.diceRolls[0]) + ") + " + IntToString(r.modifier)
  {
    var roll := Scale(draw, 20);
    ScaleInRange(draw, 20);
    var modifier := D20Modifier(arg);
    var total := roll + modifier;
    var formula := "1d20 (" + IntToString(roll) + ") + " + IntToString(modifier);
    r := RollResult(title, total, [roll], modifier, roll == 20, roll == 1, formula);
  }

  /** The inner `for` loop of App.tsx:203-207: `count` rolls of a die with `faces`
      faces, pushed onto `diceRolls` and added to `total`. */
  method RollGroup(faces: int, count: int, draws: seq<RandomDraw>, rolls0: seq<int>, total0: int)
    returns (rolls: seq<int>, total: int)
    requires AllValid(draws)
    requires |rolls0| + Max0(count) <= |draws|
    ensures |rolls| == |rolls0| + Max0(count)
    ensures rolls[..|rolls0|] == rolls0
    ensures forall j :: |rolls0| <= j < |rolls| ==> rolls[j] == Scale(draws[j], faces)
    ensures total - SumInts(rolls) == total0 - SumInts(rolls0)
  {
    rolls, total := rolls0, total0;
    var k := 0;
    while k < count
      invariant 0 <= k <= Max0(count)
      invariant |rolls| == |rolls0| + k
      invariant rolls[..|rolls0|] == rolls0
      invariant forall j :: |rolls0| <= j < |rolls| ==> rolls[j] == Scale(draws[j], faces)
      invariant total - SumInts(rolls) == total0 - SumInts(rolls0)
    {
      var roll := Scale(draws[|rolls|], faces);
      SumIntsAppend(rolls, roll);
      rolls := rolls + [roll];
      total := total + roll;
      k := k + 1;
    }
  }

  /** The `forEach` callback of App.tsx:199-212 on one term: a dice term pushes its
      `count` rolls onto `diceRolls` and into `total`, any other term adds its
      value to `modifier` and `total`. */
  method RollTerm(part: string, draws: seq<RandomDraw>, rolls0: seq<int>, total0: int, modifier0: int)
    returns (rolls: seq<int>, total: int, modifier: int)
    requires AllValid(draws)
    requires |rolls0| + |PartFaces(part)| <= |draws|
    ensures |rolls| == |rolls0| + |PartFaces(part)|
    ensures rolls[..|rolls0|] == rolls0
    ensures forall j :: |rolls0| <= j < |rolls| ==> rolls[j] == Scale(draws[j], PartFaces(part)[j - |rolls0|])
    ensures modifier == modifier0 + FlatOf(part)
    ensures total - SumInts(rolls) == total0 - SumInts(rolls0) + FlatOf(part)
  {
    if 'd' in part {
      var g := DiceOf(part);
      assert PartFaces(part) == Repeat(g.faces, Max0(g.count));
      rolls, total := RollGroup(g.faces, g.count, draws, rolls0, total0);
      modifier := modifier0;
    } else {
      var v := OrDefault(ParseInt(part), 0);
      rolls := rolls0;
      modifier := modifier0 + v;
      total := total0 + v;
    }
  }

  /** The `forEach` of App.tsx:199-212 over all the terms. */
  method RollParts(parts: seq<string>, draws: seq<RandomDraw>) returns (rolls: seq<int>, total: int, modifier: int)
    requires AllValid(draws)
    requires |draws| >= |DieFaces(parts)|
    ensures |rolls| == |DieFaces(parts)|
    ensures forall j :: 0 <= j < |rolls| ==> rolls[j] == Scale(draws[j], DieFaces(parts)[j])
    ensures modifier == FlatSum(parts)
    ensures total == SumInts(rolls) + modifier
  {
    rolls, total, modifier := [], 0, 0;
    var pi := 0;
    while pi < |parts|
      invariant 0 <= pi <= |parts|
      invariant |rolls| == |DieFaces(parts[..pi])| <= |draws|
      invariant forall j :: 0 <= j < |rolls| ==> rolls[j] == Scale(draws[j], DieFaces(parts[..pi])[j])
      invariant modifier == FlatSum(parts[..pi])
      invariant total == SumInts(rolls) + modifier
    {
      PrefixStep(parts, pi);
      ghost var rolls0 := rolls;
      rolls, total, modifier := RollTerm(parts[pi], draws, rolls, total, modifier);
      ExtendRolls(rolls0, rolls, draws, DieFaces(parts[..pi]), PartFaces(parts[pi]));
      pi := pi + 1;
    }
    assert parts[..pi] == parts;
  }

  /** The damage branch (App.tsx:196-214): every dice term rolls `count` dice in
      order, every other term adds its value to the modifier. */
  method RollDamage(title: string, arg: DiceArg, draws: seq<RandomDraw>) returns (r: RollResult)
    requires AllValid(draws)
    requires |draws| >= |DieFaces(Terms(arg))|
    ensures r.title == title
    ensures |r.diceRolls| == |DieFaces(Terms(arg))| == DiceCount(Terms(arg))
    ensures forall j :: 0 <= j < |r.diceRolls| ==> r.diceRolls[j] == Scale(draws[j], DieFaces(Terms(arg))[j])
    ensures forall j :: 0 <= j < |r.diceRolls| && DieFaces(Terms(arg))[j] >= 1 ==>
              1 <= r.diceRolls[j] <= DieFaces(Terms(arg))[j]
    ensures r.modifier == FlatSum(Terms(arg))
    ensures r.total == SumInts(r.diceRolls) + r.modifier
    ensures !r.isCrit && !r.isFumble
    ensures r.formula == ArgText(arg)
  {
    var parts := Terms(arg);
    var diceRolls, total, modifier := RollParts(parts, draws);
    DieFacesCount(parts);
    RollsInRange(diceRolls, draws, DieFaces(parts));
    r := RollResult(title, total, diceRolls, modifier, false, false, ArgText(arg));
  }

  /** Adding one more term to the prefix adds its dice and its flat value. */
  lemma PrefixStep(parts: seq<string>, pi: nat)
    requires pi < |parts|
    ensures DieFaces(parts[..pi + 1]) == DieFaces(parts[..pi]) + PartFaces(parts[pi])
    ensures FlatSum(parts[..pi + 1]) == FlatSum(parts[..pi]) + FlatOf(parts[pi])
    ensures |DieFaces(parts[..pi + 1])| <= |DieFaces(parts)|
  {
    assert parts[..pi + 1][..pi] == parts[..pi];
    DieFacesPrefix(parts, pi + 1);
  }

  /** The rolls of one more term continue the rolls of the terms before it. */
  lemma ExtendRolls(rolls0: seq<int>, rolls: seq<int>, draws: seq<RandomDraw>, before: seq<int>, piece: seq<int>)
    requires AllValid(draws)
    requires |rolls0| == |before| && |rolls| == |rolls0| + |piece| <= |draws|
    requires rolls[..|rolls0|] == rolls0
    requires forall j :: 0 <= j < |rolls0| ==> rolls0[j] == Scale(draws[j], before[j])
    requires forall j :: |rolls0| <= j < |rolls| ==> rolls[j] == Scale(draws[j], piece[j - |rolls0|])
    ensures forall j :: 0 <= j < |rolls| ==> rolls[j] == Scale(draws[j], (before + piece)[j])
  {
    forall j | 0 <= j < |rolls|
      ensures rolls[j] == Scale(draws[j], (before + piece)[j])
    {
      if j < |rolls0| {
        assert rolls[j] == rolls0[j];
      }
    }
  }

  /** Rolls scaled from valid draws land on a face of their die. */
  lemma RollsInRange(rolls: seq<int>, draws: seq<RandomDraw>, faces: seq<int>)
    requires AllValid(draws) && |rolls| == |faces| <= |draws|
    requires forall j :: 0 <= j < |rolls| ==> rolls[j] == Scale(draws[j], faces[j])
    ensures forall j :: 0 <= j < |rolls| && faces[j] >= 1 ==> 1 <= rolls[j] <= faces[j]
  {
    forall j | 0 <= j < |rolls| && faces[j] >= 1
      ensures 1 <= rolls[j] <= faces[j]
    {
      ScaleInRange(draws[j], faces[j]);
    }
  }

  /** `rollDice(title, diceString, type)`: the draws it takes are the first
      `DrawsNeeded(arg, mode)` of `draws`. */
  method RollDice(title: string, arg: DiceArg, mode: RollMode, draws: seq<RandomDraw>)
    returns (r: RollResult)
    requires AllValid(draws)
    requires |draws| >= DrawsNeeded(arg, mode)
    ensures r.title == title
    ensures mode == D20 ==>
              && |r.diceRolls| == 1 && 1 <= r.diceRolls[0] <= 20
              && r.diceRolls[0] == Scale(draws[0], 20)
              && r.modifier == D20Modifier(arg)
              && r.total == r.diceRolls[0] + r.modifier
              && (r.isCrit <==> r.diceRolls[0] == 20) && (r.isFumble <==> r.diceRolls[0] == 1)
              && r.formula == "1d20 (" + IntToString(r.diceRolls[0]) + ") + " + IntToString(r.modifier)
    ensures mode == DamageRoll ==>
              && |r.diceRolls| == |DieFaces(Terms(arg))| == DiceCount(Terms(arg))
              && (forall j :: 0 <= j < |r.diceRolls| ==> r.diceRolls[j] == Scale(draws[j], DieFaces(Terms(arg))[j]))
              && (forall j :: 0 <= j < |r.diceRolls| && DieFaces(Terms(arg))[j] >= 1 ==>
                    1 <= r.diceRolls[j] <= DieFaces(Terms(arg))[j])
              && r.modifier == FlatSum(Terms(arg))
              && r.total == SumInts(r.diceRolls) + r.modifier
              && !r.isCrit && !r.isFumble
              && r.formula == ArgText(arg)
  {
    if mode == D20 {
      r := RollD20(title, arg, draws[0]);
    } else {
      r := RollDamage(title, arg, draws);
    }
  }

  // ---------------------------------------------------------------- worked formulas

  /** `parseInt` of a digit followed by a non-digit that does not open a hex prefix. */
  lemma ParseLeadingDigit(c: char, rest: string)
    requires IsDigit(c)
    requires |rest| == 0 || (!IsDigit(rest[0]) && !IsJsSpace(rest[0]) && rest[0] != 'x' && rest[0] != 'X')
    ensures ParseInt([c] + rest) == Some(DigitValue(c) as int)
  {
    var s := [c] + rest;
    assert !IsJsSpace(s[0]);
    assert TrimStart(s) == s;
    assert s[1..] == rest;
    assert LeadingDigits(rest) == "";
    assert LeadingDigits(s) == [c];
    assert [c][..0] == [];
    assert DecValue([c]) == DigitValue(c);
    assert !(|s| >= 2 && s[0] == '0' && (s[1] == 'x' || s[1] == 'X'));
    assert ParseUnsigned(s) == Some(DigitValue(c));
    assert s[0] != '-' && s[0] != '+';
  }

  /** Splitting `a` around one separator when neither side holds it. */
  lemma SplitTwo(a: string, b: string, c: char)
    requires c !in a && c !in b
    ensures Split(a + [c] + b, c) == [a, b]
  {
    SplitAround(a, b, c);
    SplitNoSeparator(a, c);
    SplitNoSeparator(b, c);
  }

  lemma OneTerm(a: string)
    ensures DieFaces([a]) == PartFaces(a) && FlatSum([a]) == FlatOf(a)
  {
    assert [a][..0] == [];
  }

  lemma TwoTerms(a: string, b: string)
    ensures DieFaces([a, b]) == PartFaces(a) + PartFaces(b)
    ensures FlatSum([a, b]) == FlatOf(a) + FlatOf(b)
  {
    assert [a, b][..1] == [a];
    OneTerm(a);
  }

  /** `parseInt` of a single digit. */
  lemma ParseDigit(c: char)
    requires IsDigit(c)
    ensures ParseInt([c]) == Some(DigitValue(c) as int)
  {
    assert [c] == [c] + "";
    ParseLeadingDigit(c, "");
  }

  /** `parseInt('')` is NaN. */
  lemma ParseEmpty()
    ensures ParseInt("") == None
  {
    assert ParseUnsigned("") == None;
  }

  /** A formula without `+` that is already in normal form is one term. */
  lemma SingleTerm(s: string)
    requires '+' !in s && Normalize(s) == s
    ensures Terms(TextArg(s)) == [s]
  {
    SplitNoSeparator(s, '+');
  }

  /** The dice term `a d b`. */
  lemma DiceOfTerm(a: string, b: string)
    requires 'd' !in a && 'd' !in b
    ensures DiceOf(a + ['d'] + b) == DiceGroup(OrDefault(ParseInt(a), 1), OrDefault(ParseInt(b), 1))
  {
    SplitTwo(a, b, 'd');
  }

  lemma RepeatOne(x: int)
    ensures Repeat(x, 1) == [x]
  {
  }

  lemma RepeatTwo(x: int)
    ensures Repeat(x, 2) == [x, x]
  {
  }

  /** "2d6+3" rolls two six-sided dice and adds 3. */
  lemma TwoDiceAndFlat()
    ensures DieFaces(Terms(TextArg("2d6+3"))) == [6, 6]
    ensures FlatSum(Terms(TextArg("2d6+3"))) == 3
  {
    TermsOf2d6Plus3();
    TwoTerms("2d6", "3");
    DiceOf2d6();
    assert "2d6"[1] == 'd';
    RepeatTwo(6);
    assert PartFaces("2d6") == [6, 6] && FlatOf("2d6") == 0;
    FlatOf3();
    assert PartFaces("3") == [];
  }

  lemma TermsOf2d6Plus3()
    ensures Terms(TextArg("2d6+3")) == ["2d6", "3"]
  {
    assert "2d6+3" == "2d6" + ['+'] + "3";
    NormalizeFixed("2d6+3");
    SplitTwo("2d6", "3", '+');
  }

  lemma DiceOf2d6()
    ensures DiceOf("2d6") == DiceGroup(2, 6)
  {
    assert "2d6" == ['2', 'd', '6'] + "";
    DiceOfDigits('2', '6', "");
  }

  /** The dice term `c d f rest` with digit count and faces, e.g. "1d6-3". */
  lemma DiceOfDigits(c: char, f: char, rest: string)
    requires IsDigit(c) && IsDigit(f) && DigitValue(c) != 0 && DigitValue(f) != 0
    requires 'd' !in rest
    requires |rest| == 0 || (!IsDigit(rest[0]) && !IsJsSpace(rest[0]) && rest[0] != 'x' && rest[0] != 'X')
    ensures DiceOf([c, 'd', f] + rest) == DiceGroup(DigitValue(c), DigitValue(f))
  {
    assert [c, 'd', f] + rest == [c] + ['d'] + ([f] + rest);
    ParseDigit(c);
    ParseLeadingDigit(f, rest);
    DiceOfTerm([c], [f] + rest);
  }

  lemma FlatOf3()
    ensures FlatOf("3") == 3
  {
    assert "3" == ['3'];
    ParseDigit('3');
  }

  /** An empty formula rolls nothing and totals 0. */
  lemma EmptyFormula()
    ensures Terms(TextArg("")) == [""]
    ensures DieFaces(Terms(TextArg(""))) == [] && FlatSum(Terms(TextArg(""))) == 0
  {
    ParseEmpty();
    OneTerm("");
  }

  /** "d8" has no count: `parseInt('') || 1` rolls one die. */
  lemma MissingCountIsOne()
    ensures DieFaces(Terms(TextArg("d8"))) == [8]
  {
    TermsOfD8();
    OneTerm("d8");
    DiceOfD8();
    assert "d8"[0] == 'd';
    RepeatOne(8);
    assert PartFaces("d8") == [8];
  }

  lemma TermsOfD8()
    ensures Terms(TextArg("d8")) == ["d8"]
  {
    NormalizeFixed("d8");
    SingleTerm("d8");
  }

  lemma DiceOfD8()
    ensures DiceOf("d8") == DiceGroup(1, 8)
  {
    assert "d8" == "" + ['d'] + ['8'];
    ParseDigit('8');
    ParseEmpty();
    DiceOfTerm("", ['8']);
  }

  // ---------------------------------------------------------------- the negative-bonus finding

  /** As written, a damage bonus of -3 on "1d6" gives the formula "1d6-3": its only
      term is a dice term whose faces parse as `parseInt("6-3") == 6`, so the -3 is
      lost and the roll is a plain 1d6. */
  lemma NegativeBonusDropped()
    ensures Stats.DamageFormula("1d6", -3) == "1d6-3"
    ensures Terms(TextArg(Stats.DamageFormula("1d6", -3))) == ["1d6-3"]
    ensures FlatSum(Terms(TextArg(Stats.DamageFormula("1d6", -3)))) == 0
    ensures DieFaces(Terms(TextArg(Stats.DamageFormula("1d6", -3)))) == [6]
  {
    DamageFormulaMinusThree();
    NormalizeFixed("1d6-3");
    SingleTerm("1d6-3");
    DiceOf1d6Minus3();
    OneTerm("1d6-3");
    RepeatOne(6);
  }

  /** With an empty dice text, the default of a new spell (App.tsx:243), the
      formula is the suffix alone and the code keeps the bonus whatever its sign:
      "-3" is one flat term that `parseInt` reads as -3, and "+3" splits into an
      empty term and "3". Nothing is rolled. */
  lemma EmptyDiceKeepsBonus(b: int)
    ensures DieFaces(Terms(TextArg(Stats.DamageFormula("", b)))) == []
    ensures FlatSum(Terms(TextArg(Stats.DamageFormula("", b)))) == b
  {
    if b == 0 {
      assert Stats.DamageFormula("", b) == "";
      EmptyFormula();
    } else {
      var n := SuffixText(b);
      if b > 0 {
        assert Stats.DamageFormula("", b) == ['+'] + n;
        PlusAlone(n, b);
      } else {
        assert Stats.DamageFormula("", b) == ['-'] + n;
        MinusAlone(n, b);
      }
    }
  }

  /** "+n" splits into an empty term and `n`. */
  lemma PlusAlone(n: string, v: int)
    requires DigitText(n) && FlatOf(n) == v
    ensures DieFaces(Terms(TextArg(['+'] + n))) == [] && FlatSum(Terms(TextArg(['+'] + n))) == v
  {
    DigitTextFacts(n);
    EmptyFormula();
    PlusTerms("", n);
    assert "" + (['+'] + n) == ['+'] + n;
    assert Terms(TextArg(['+'] + n)) == ["", n];
    TwoTerms("", n);
  }

  /** "-n", the text of a negative bonus, is one flat term worth that bonus. */
  lemma MinusAlone(n: string, b: int)
    requires DigitText(n) && b < 0 && ['-'] + n == IntToString(b)
    ensures DieFaces(Terms(TextArg(['-'] + n))) == [] && FlatSum(Terms(TextArg(['-'] + n))) == b
  {
    var t := ['-'] + n;
    DigitTextFacts(n);
    EmptyFormula();
    MinusTerms("", n);
    assert "" + t == t && "" + t == t;
    assert Terms(TextArg(t)) == [t];
    assert 'd' !in t;
    ParseIntOfIntToString(b);
    OneTerm(t);
  }

  lemma DiceOf1d6Minus3()
    ensures DiceOf("1d6-3") == DiceGroup(1, 6)
  {
    assert "1d6-3" == ['1', 'd', '6'] + "-3";
    DiceOfDigits('1', '6', "-3");
  }

  lemma DamageFormulaMinusThree()
    ensures Stats.DamageFormula("1d6", -3) == "1d6-3"
  {
    MinusThree();
  }

  /** The roller as evidently intended: within a `+` term, each `-` starts a
      subtracted flat value, so "1d6-3" rolls the 1d6 and subtracts 3. A term
      without `-` reads exactly as before. */
  function SignedPartFaces(part: string): seq<int> {
    PartFaces(Split(part, '-')[0])
  }

  function SignedFlatOf(part: string): int {
    var ps := Split(part, '-');
    FlatOf(ps[0]) - FlatSum(ps[1..])
  }

  function SignedDieFaces(parts: seq<string>): seq<int> {
    if |parts| == 0 then [] else SignedDieFaces(parts[..|parts| - 1]) + SignedPartFaces(parts[|parts| - 1])
  }

  function SignedFlatSum(parts: seq<string>): int {
    if |parts| == 0 then 0 else SignedFlatSum(parts[..|parts| - 1]) + SignedFlatOf(parts[|parts| - 1])
  }

  /** On terms without `-` the corrected reading is the one the source performs. */
  lemma {:induction false} SignedAgreesWithoutMinus(parts: seq<string>)
    requires forall i :: 0 <= i < |parts| ==> '-' !in parts[i]
    ensures SignedDieFaces(parts) == DieFaces(parts)
    ensures SignedFlatSum(parts) == FlatSum(parts)
  {
    if |parts| > 0 {
      SignedAgreesWithoutMinus(parts[..|parts| - 1]);
      SplitNoSeparator(parts[|parts| - 1], '-');
      assert [parts[|parts| - 1]][1..] == [];
    }
  }

  /** A dice text without `-` has no `-` in any of its terms. */
  lemma TermsWithoutMinus(dice: string)
    requires '-' !in dice
    ensures forall i :: 0 <= i < |Terms(TextArg(dice))| ==> '-' !in Terms(TextArg(dice))[i]
  {
    NormalizeKeepsOut(dice, '-');
    SplitKeepsOut(Normalize(dice), '+', '-');
  }

  /** A nonempty run of decimal digits: the text of a bonus's magnitude. */
  predicate DigitText(n: string) {
    |n| >= 1 && forall i :: 0 <= i < |n| ==> IsDigit(n[i])
  }

  /** Digits hold no separator, no `d`, and are their own normal form, also behind a sign. */
  lemma DigitTextFacts(n: string)
    requires DigitText(n)
    ensures '+' !in n && '-' !in n && 'd' !in n
    ensures Normalize(['+'] + n) == ['+'] + n && Normalize(['-'] + n) == ['-'] + n
    ensures PartFaces(n) == []
  {
    DigitsNormal(n);
    NormalizeAppend(['+'], n);
    NormalizeAppend(['-'], n);
    SignNormal('+');
    SignNormal('-');
  }

  lemma {:induction false} DigitsNormal(n: string)
    requires forall i :: 0 <= i < |n| ==> IsDigit(n[i])
    ensures Normalize(n) == n
  {
    if |n| > 0 {
      DigitsNormal(n[1..]);
      assert [n[0]] + n[1..] == n;
    }
  }

  lemma SignNormal(c: char)
    requires c == '+' || c == '-'
    ensures Normalize([c]) == [c]
  {
    assert [c][1..] == "";
  }

  /** The suffix the sheet appends for a nonzero bonus is its sign followed by the
      digits of its magnitude, and those digits are a flat term worth the magnitude. */
  lemma SuffixText(b: int) returns (n: string)
    requires b != 0
    ensures DigitText(n)
    ensures b > 0 ==> Stats.BonusSuffix(b) == ['+'] + n && FlatOf(n) == b
    ensures b < 0 ==> Stats.BonusSuffix(b) == ['-'] + n && FlatOf(n) == -b
  {
    var k: nat := if b > 0 then b else -b;
    n := NatToString(k);
    ParseIntOfIntToString(k);
    assert IntToString(k) == n;
    assert 'd' !in n;
  }

  /** `dice + "+" + n` has the terms of `dice` and then `n`. */
  lemma PlusTerms(dice: string, n: string)
    requires DigitText(n)
    ensures Terms(TextArg(dice + (['+'] + n))) == Terms(TextArg(dice)) + [n]
  {
    DigitTextFacts(n);
    NormalizeAppend(dice, ['+'] + n);
    assert Normalize(dice + (['+'] + n)) == Normalize(dice) + ['+'] + n;
    SplitAround(Normalize(dice), n, '+');
    SplitNoSeparator(n, '+');
  }

  /** `dice + "-" + n` glues `-n` onto the last term of `dice`. */
  lemma MinusTerms(dice: string, n: string)
    requires DigitText(n)
    ensures var head := Terms(TextArg(dice));
      Terms(TextArg(dice + (['-'] + n))) == head[..|head| - 1] + [head[|head| - 1] + (['-'] + n)]
  {
    DigitTextFacts(n);
    NormalizeAppend(dice, ['-'] + n);
    SplitAppendTail(Normalize(dice), ['-'] + n, '+');
  }

  /** The corrected roller on `dice + "+" + n` adds the value of `n`. */
  lemma SignedPlus(dice: string, n: string, v: int)
    requires DigitText(n) && FlatOf(n) == v
    requires forall i :: 0 <= i < |Terms(TextArg(dice))| ==> '-' !in Terms(TextArg(dice))[i]
    ensures SignedDieFaces(Terms(TextArg(dice + (['+'] + n)))) == DieFaces(Terms(TextArg(dice)))
    ensures SignedFlatSum(Terms(TextArg(dice + (['+'] + n)))) == FlatSum(Terms(TextArg(dice))) + v
  {
    var head := Terms(TextArg(dice));
    DigitTextFacts(n);
    PlusTerms(dice, n);
    var parts := head + [n];
    assert forall i :: 0 <= i < |parts| ==> '-' !in parts[i] by {
      forall i | 0 <= i < |parts| ensures '-' !in parts[i] {
        if i < |head| {
          assert parts[i] == head[i];
        }
      }
    }
    SignedAgreesWithoutMinus(parts);
    assert parts[..|parts| - 1] == head;
  }

  /** A term `h-ds` reads as `h` less the flat value `k` of `ds`. */
  lemma LastTermMinus(t: string, h: string, ds: string, k: int)
    requires '-' !in h && '-' !in ds && t == h + (['-'] + ds) && FlatOf(ds) == k
    ensures SignedFlatOf(t) == FlatOf(h) - k
    ensures SignedPartFaces(t) == PartFaces(h)
  {
    assert t == h + ['-'] + ds;
    SplitTwo(h, ds, '-');
    var ps := Split(t, '-');
    assert ps[0] == h && ps[1..] == [ds];
    OneTerm(ds);
  }

  lemma SignedSnoc(pre: seq<string>, x: string)
    ensures SignedFlatSum(pre + [x]) == SignedFlatSum(pre) + SignedFlatOf(x)
    ensures SignedDieFaces(pre + [x]) == SignedDieFaces(pre) + SignedPartFaces(x)
  {
    assert (pre + [x])[..|pre|] == pre;
  }

  /** Gluing `-ds` onto the last of a list of terms without `-` subtracts the
      flat value of `ds` and rolls the same dice. */
  lemma MinusOnLast(head: seq<string>, ds: string, v: int)
    requires |head| >= 1 && '-' !in ds && FlatOf(ds) == v
    requires forall i :: 0 <= i < |head| ==> '-' !in head[i]
    ensures SignedDieFaces(head[..|head| - 1] + [head[|head| - 1] + (['-'] + ds)]) == DieFaces(head)
    ensures SignedFlatSum(head[..|head| - 1] + [head[|head| - 1] + (['-'] + ds)]) == FlatSum(head) - v
  {
    var k := |head| - 1;
    var pre := head[..k];
    var h := head[k];
    assert '-' !in h;
    assert forall i :: 0 <= i < |pre| ==> '-' !in pre[i];
    SignedAgreesWithoutMinus(pre);
    LastTermMinus(h + (['-'] + ds), h, ds, v);
    SignedSnoc(pre, h + (['-'] + ds));
  }

  /** The corrected roller on `dice + "-" + n` subtracts the value of `n`. */
  lemma SignedMinus(dice: string, n: string, v: int)
    requires DigitText(n) && FlatOf(n) == v
    requires forall i :: 0 <= i < |Terms(TextArg(dice))| ==> '-' !in Terms(TextArg(dice))[i]
    ensures SignedDieFaces(Terms(TextArg(dice + (['-'] + n)))) == DieFaces(Terms(TextArg(dice)))
    ensures SignedFlatSum(Terms(TextArg(dice + (['-'] + n)))) == FlatSum(Terms(TextArg(dice))) - v
  {
    DigitTextFacts(n);
    MinusTerms(dice, n);
    MinusOnLast(Terms(TextArg(dice)), n, v);
  }

  /** The evidently intended behaviour: for every dice text without `-` and every
      bonus, rolling the formula the sheet builds rolls the same dice and adds
      exactly the bonus, negative ones included. */
  lemma SignedRollAddsBonus(dice: string, b: int)
    requires '-' !in dice
    ensures SignedDieFaces(Terms(TextArg(Stats.DamageFormula(dice, b)))) == DieFaces(Terms(TextArg(dice)))
    ensures SignedFlatSum(Terms(TextArg(Stats.DamageFormula(dice, b)))) == FlatSum(Terms(TextArg(dice))) + b
  {
    TermsWithoutMinus(dice);
    if b == 0 {
      assert Stats.DamageFormula(dice, b) == dice;
      SignedAgreesWithoutMinus(Terms(TextArg(dice)));
    } else {
      var n := SuffixText(b);
      if b > 0 {
        assert Stats.DamageFormula(dice, b) == dice + (['+'] + n);
        SignedPlus(dice, n, b);
      } else {
        assert Stats.DamageFormula(dice, b) == dice + (['-'] + n);
        SignedMinus(dice, n, -b);
      }
    }
  }

  lemma MinusThree()
    ensures IntToString(-3) == "-3"
  {
    assert NatToString(3) == "3";
  }

  /** The corrected reading of the example above keeps the -3. */
  lemma NegativeBonusKept()
    ensures SignedFlatSum(Terms(TextArg(Stats.DamageFormula("1d6", -3)))) == -3
    ensures SignedDieFaces(Terms(TextArg(Stats.DamageFormula("1d6", -3)))) == [6]
  {
    TermsOf1d6();
    SignedRollAddsBonus("1d6", -3);
  }

  lemma TermsOf1d6()
    ensures Terms(TextArg("1d6")) == ["1d6"]
    ensures DieFaces(["1d6"]) == [6] && FlatSum(["1d6"]) == 0
  {
    NormalizeFixed("1d6");
    SingleTerm("1d6");
    DiceOf1d6();
    assert "1d6"[1] == 'd';
    OneTerm("1d6");
    RepeatOne(6);
  }

  lemma DiceOf1d6()
    ensures DiceOf("1d6") == DiceGroup(1, 6)
  {
    assert "1d6" == ['1', 'd', '6'] + "";
    DiceOfDigits('1', '6', "");
  }
}
