/** The JavaScript built-ins the sheet's arithmetic rests on: `parseInt` with no radix,
    `String(n)` for integers, `s.split(c)`, `toLowerCase`, the `\s` class and `x || d`
    on numbers. */
module JsText {

  datatype Option<+T> = None | Some(value: T)

  /** `n || d` for a number that `parseInt` produced: NaN and 0 (also -0) are falsy. */
  function OrDefault(o: Option<int>, d: int): (r: int)
    ensures o.Some? && o.value != 0 ==> r == o.value
    ensures o.None? || o.value == 0 ==> r == d
  {
    if o.Some? && o.value != 0 then o.value else d
  }

  /** The characters matched by `\s` and trimmed by `parseInt`: the ECMAScript
      WhiteSpace and LineTerminator characters (the Zs category written out). */
  predicate IsJsSpace(c: char) {
    c == '\t' || c == '\n' || c == '\U{000B}' || c == '\U{000C}' || c == '\r' || c == ' '
    || c == '\U{00A0}' || c == '\U{1680}' || ('\U{2000}' <= c <= '\U{200A}')
    || c == '\U{2028}' || c == '\U{2029}' || c == '\U{202F}' || c == '\U{205F}'
    || c == '\U{3000}' || c == '\U{FEFF}'
  }

  predicate IsDigit(c: char) { '0' <= c <= '9' }

  function DigitValue(c: char): (v: nat)
    requires IsDigit(c)
    ensures v < 10
  {
    (c as int) - ('0' as int)
  }

  function DigitChar(v: nat): (c: char)
    requires v < 10
    ensures IsDigit(c) && DigitValue(c) == v
  {
    (('0' as int) + v) as char
  }

  /** Hexadecimal digit value, for the `0x` prefix that `parseInt` honours. */
  function HexValue(c: char): Option<nat> {
    if '0' <= c <= '9' then Some((c as int) - ('0' as int))
    else if 'a' <= c <= 'f' then Some((c as int) - ('a' as int) + 10)
    else if 'A' <= c <= 'F' then Some((c as int) - ('A' as int) + 10)
    else None
  }

  /** The longest prefix of `s` made of decimal digits. */
  function LeadingDigits(s: string): (r: string)
    ensures |r| <= |s| && r == s[..|r|]
    ensures forall i :: 0 <= i < |r| ==> IsDigit(r[i])
    ensures |r| < |s| ==> !IsDigit(s[|r|])
  {
    if |s| == 0 || !IsDigit(s[0]) then "" else [s[0]] + LeadingDigits(s[1..])
  }

  /** The longest prefix of `s` made of hexadecimal digits. */
  function LeadingHex(s: string): (r: string)
    ensures |r| <= |s| && r == s[..|r|]
    ensures forall i :: 0 <= i < |r| ==> HexValue(r[i]).Some?
  {
    if |s| == 0 || HexValue(s[0]).None? then "" else [s[0]] + LeadingHex(s[1..])
  }

  /** The value of a string of decimal digits, most significant first. */
  function DecValue(ds: string): nat
    requires forall i :: 0 <= i < |ds| ==> IsDigit(ds[i])
  {
    if |ds| == 0 then 0 else DecValue(ds[..|ds| - 1]) * 10 + DigitValue(ds[|ds| - 1])
  }

  function HexDigitsValue(ds: string): nat
    requires forall i :: 0 <= i < |ds| ==> HexValue(ds[i]).Some?
  {
    if |ds| == 0 then 0 else HexDigitsValue(ds[..|ds| - 1]) * 16 + HexValue(ds[|ds| - 1]).value
  }

  function TrimStart(s: string): (r: string)
    ensures |r| <= |s| && r == s[|s| - |r|..]
    ensures |r| > 0 ==> !IsJsSpace(r[0])
  {
    if |s| > 0 && IsJsSpace(s[0]) then TrimStart(s[1..]) else s
  }

  /** The unsigned part of `parseInt`: a `0x`/`0X` prefix selects hexadecimal,
      otherwise decimal; no digit at all is NaN. */
  function ParseUnsigned(s: string): Option<nat> {
    if |s| >= 2 && s[0] == '0' && (s[1] == 'x' || s[1] == 'X') then
      var hs := LeadingHex(s[2..]);
      if |hs| == 0 then None else Some(HexDigitsValue(hs))
    else
      var ds := LeadingDigits(s);
      if |ds| == 0 then None else Some(DecValue(ds))
  }

  /** `parseInt(s)` with no radix; `None` stands for NaN. Leading whitespace is
      skipped and one sign is accepted; parsing stops at the first non-digit. */
  function ParseInt(s: string): (r: Option<int>)
    ensures r.Some? ==> exists i :: 0 <= i < |s| && '0' <= s[i] <= '9'
  {
    var t := TrimStart(s);
    if |t| > 0 && t[0] == '-' then
      match ParseUnsigned(t[1..])
      case None => None
      case Some(v) => Some(-(v as int))
    else if |t| > 0 && t[0] == '+' then
      ParseUnsigned(t[1..])
    else
      ParseUnsigned(t)
  }

  /** `String(n)` for a natural number: its decimal digits, no leading zero. */
  function NatToString(n: nat): (s: string)
    ensures |s| >= 1
    ensures forall i :: 0 <= i < |s| ==> IsDigit(s[i])
    ensures |s| > 1 ==> s[0] != '0'
  {
    if n < 10 then [DigitChar(n)] else NatToString(n / 10) + [DigitChar(n % 10)]
  }

  /** `String(n)` for an integer. */
  function IntToString(n: int): (s: string)
  {
    if n < 0 then "-" + NatToString(-n) else NatToString(n)
  }

  lemma {:induction false} DecValueOfNatToString(n: nat)
    ensures DecValue(NatToString(n)) == n
  {
    var s := NatToString(n);
    if n >= 10 {
      DecValueOfNatToString(n / 10);
      assert s[..|s| - 1] == NatToString(n / 10);
    }
  }

  lemma {:induction false} LeadingDigitsOfDigits(s: string)
    requires forall i :: 0 <= i < |s| ==> IsDigit(s[i])
    ensures LeadingDigits(s) == s
  {
    if |s| > 0 {
      LeadingDigitsOfDigits(s[1..]);
    }
  }

  lemma ParseUnsignedOfNatToString(n: nat)
    ensures ParseUnsigned(NatToString(n)) == Some(n)
  {
    var s := NatToString(n);
    LeadingDigitsOfDigits(s);
    DecValueOfNatToString(n);
    assert !(|s| >= 2 && s[1] == 'x');
  }

  /** `parseInt(String(n)) == n`: rendering an integer and parsing it back is the identity. */
  lemma ParseIntOfIntToString(n: int)
    ensures ParseInt(IntToString(n)) == Some(n)
  {
    var s := IntToString(n);
    if n < 0 {
      var digits := NatToString(-n);
      assert s == "-" + digits;
      assert !IsJsSpace(s[0]);
      assert TrimStart(s) == s;
      assert s[1..] == digits;
      ParseUnsignedOfNatToString(-n);
    } else {
      var digits := NatToString(n);
      assert s == digits;
      assert IsDigit(s[0]);
      assert !IsJsSpace(s[0]);
      assert TrimStart(s) == s;
      ParseUnsignedOfNatToString(n);
    }
  }

  /** `String(n)` is made of digits and at most a leading minus sign. */
  lemma IntToStringChars(n: int)
    ensures forall i :: 0 <= i < |IntToString(n)| ==>
              IsDigit(IntToString(n)[i]) || (i == 0 && n < 0 && IntToString(n)[i] == '-')
    ensures |IntToString(n)| > 0 && (IntToString(n)[0] == '-' <==> n < 0)
  {
  }

  /** `s.split(c)`: the pieces between the occurrences of `c`; the empty string
      gives one empty piece. */
  function Split(s: string, c: char): (r: seq<string>)
    ensures |r| >= 1
    ensures forall i :: 0 <= i < |r| ==> c !in r[i]
  {
    if |s| == 0 then [""]
    else
      var rest := Split(s[1..], c);
      if s[0] == c then [""] + rest else [[s[0]] + rest[0]] + rest[1..]
  }

  /** `pieces.join(c)` */
  function Join(pieces: seq<string>, c: char): string
    requires |pieces| >= 1
  {
    if |pieces| == 1 then pieces[0] else pieces[0] + [c] + Join(pieces[1..], c)
  }

  /** Splitting and joining again gives back the string. */
  lemma {:induction false} JoinSplit(s: string, c: char)
    ensures Join(Split(s, c), c) == s
  {
    if |s| > 0 {
      var rest := Split(s[1..], c);
      JoinSplit(s[1..], c);
      if s[0] == c {
        assert Split(s, c)[1..] == rest;
      } else {
        var r := Split(s, c);
        if |rest| == 1 {
          assert r == [[s[0]] + rest[0]];
        } else {
          assert r[1..] == rest[1..];
          assert Join(r, c) == [s[0]] + rest[0] + [c] + Join(rest[1..], c);
        }
      }
    }
  }

  /** A string without the separator is one piece. */
  lemma {:induction false} SplitNoSeparator(s: string, c: char)
    requires c !in s
    ensures Split(s, c) == [s]
  {
    if |s| > 0 {
      SplitNoSeparator(s[1..], c);
      assert [s[0]] + s[1..] == s;
    }
  }

  /** A string that contains the separator has at least two pieces, so the
      destructuring `[count, faces] = part.split('d')` always finds both. */
  lemma {:induction false} SplitWithSeparator(s: string, c: char)
    requires c in s
    ensures |Split(s, c)| >= 2
  {
    if s[0] != c {
      SplitWithSeparator(s[1..], c);
    }
  }

  /** One step of `Split`, on a string written as its first character and the rest. */
  lemma SplitCons(ch: char, t: string, c: char)
    ensures Split([ch] + t, c)
            == if ch == c then [""] + Split(t, c) else [[ch] + Split(t, c)[0]] + Split(t, c)[1..]
  {
    assert ([ch] + t)[0] == ch && ([ch] + t)[1..] == t;
  }

  /** Splitting `a + [c] + b` on `c` splits the two sides apart. */
  lemma {:induction false} SplitAround(a: string, b: string, c: char)
    ensures Split(a + [c] + b, c) == Split(a, c) + Split(b, c)
  {
    if |a| == 0 {
      assert a + [c] + b == [c] + b;
      SplitCons(c, b, c);
    } else {
      var t := a[1..];
      assert a == [a[0]] + t;
      assert a + [c] + b == [a[0]] + (t + [c] + b);
      SplitAround(t, b, c);
      SplitCons(a[0], t + [c] + b, c);
      SplitCons(a[0], t, c);
      if a[0] != c {
        AroundStep(a[0], Split(t, c), Split(b, c));
      } else {
        assert [""] + (Split(t, c) + Split(b, c)) == ([""] + Split(t, c)) + Split(b, c);
      }
    }
  }

  /** The list step of `SplitAround`: gluing a character onto the first piece
      commutes with appending more pieces. */
  lemma AroundStep(ch: char, left: seq<string>, right: seq<string>)
    requires |left| >= 1
    ensures [[ch] + (left + right)[0]] + (left + right)[1..] == ([[ch] + left[0]] + left[1..]) + right
  {
    assert (left + right)[0] == left[0];
    assert (left + right)[1..] == left[1..] + right;
  }

  /** Appending text without the separator lengthens the last piece only. */
  lemma {:induction false} SplitAppendTail(s: string, x: string, c: char)
    requires c !in x
    ensures var r := Split(s, c);
      Split(s + x, c) == r[..|r| - 1] + [r[|r| - 1] + x]
  {
    if |s| == 0 {
      assert s + x == x;
      SplitNoSeparator(x, c);
    } else {
      var t := s[1..];
      assert s == [s[0]] + t;
      assert s + x == [s[0]] + (t + x);
      SplitAppendTail(t, x, c);
      SplitCons(s[0], t, c);
      SplitCons(s[0], t + x, c);
      if s[0] != c {
        AppendTailStep(s[0], Split(t, c), x);
      }
    }
  }

  /** The list step of `SplitAppendTail`: gluing a character onto the first piece
      commutes with lengthening the last one. */
  lemma AppendTailStep(ch: char, rest: seq<string>, x: string)
    requires |rest| >= 1
    ensures var tail := rest[..|rest| - 1] + [rest[|rest| - 1] + x];
      var r := [[ch] + rest[0]] + rest[1..];
      [[ch] + tail[0]] + tail[1..] == r[..|r| - 1] + [r[|r| - 1] + x]
  {
    var m := |rest|;
    var tail := rest[..m - 1] + [rest[m - 1] + x];
    var r := [[ch] + rest[0]] + rest[1..];
    if m == 1 {
      assert tail == [rest[0] + x];
      assert [ch] + (rest[0] + x) == ([ch] + rest[0]) + x;
    } else {
      assert tail[0] == rest[0];
      assert tail[1..] == rest[1..m - 1] + [rest[m - 1] + x];
      assert r[..|r| - 1] == [[ch] + rest[0]] + rest[1..m - 1];
    }
  }

  /** A character the text lacks is in none of its pieces. */
  lemma {:induction false} SplitKeepsOut(s: string, c: char, d: char)
    requires d !in s
    ensures forall i :: 0 <= i < |Split(s, c)| ==> d !in Split(s, c)[i]
  {
    if |s| > 0 {
      SplitKeepsOut(s[1..], c, d);
    }
  }

  /** `toLowerCase` on the ASCII letters; every other character is kept. */
  function LowerChar(c: char): char {
    if 'A' <= c <= 'Z' then ((c as int) - ('A' as int) + ('a' as int)) as char else c
  }

  /** `s.toLowerCase().replace(/\s/g, '')` */
  function Normalize(s: string): string {
    if |s| == 0 then ""
    else if IsJsSpace(s[0]) then Normalize(s[1..])
    else [LowerChar(s[0])] + Normalize(s[1..])
  }

  /** The normal form holds no whitespace and no capital letter. */
  lemma {:induction false} NormalizeIsNormal(s: string)
    ensures forall i :: 0 <= i < |Normalize(s)| ==> !IsJsSpace(Normalize(s)[i]) && !('A' <= Normalize(s)[i] <= 'Z')
  {
    if |s| > 0 {
      NormalizeIsNormal(s[1..]);
    }
  }

  lemma {:induction false} NormalizeAppend(a: string, b: string)
    ensures Normalize(a + b) == Normalize(a) + Normalize(b)
  {
    if |a| > 0 {
      NormalizeAppend(a[1..], b);
      assert (a + b)[1..] == a[1..] + b;
    } else {
      assert a + b == b;
    }
  }

  /** A string free of whitespace and capitals is its own normal form. */
  lemma {:induction false} NormalizeFixed(s: string)
    requires forall i :: 0 <= i < |s| ==> !IsJsSpace(s[i]) && !('A' <= s[i] <= 'Z')
    ensures Normalize(s) == s
  {
    if |s| > 0 {
      NormalizeFixed(s[1..]);
      assert [s[0]] + s[1..] == s;
    }
  }

  /** Normalising never introduces a character other than a lower-case letter. */
  lemma {:induction false} NormalizeKeepsOut(s: string, d: char)
    requires d !in s && !('a' <= d <= 'z')
    ensures d !in Normalize(s)
  {
    if |s| > 0 {
      NormalizeKeepsOut(s[1..], d);
    }
  }
}
