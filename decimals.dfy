/** System.Decimal as text: ToString(CultureInfo.InvariantCulture) on the write
    side and decimal.Parse with a culture's separators on the read side. */
module Decimals {
  import opened Wrappers
  import opened Dates

  /** A decimal is a signed integer mantissa scaled by 10^-scale; the scale is
      kept, so 12.50m and 12.5m print differently. */
  datatype Decimal = Decimal(mantissa: int, scale: nat)

  /** The separators decimal.Parse consults (NumberStyles.Number). */
  datatype Culture = Culture(decimalSeparator: char, groupSeparator: char)

  predicate ValidCulture(c: Culture)
  {
    !IsDigit(c.decimalSeparator) && !IsDigit(c.groupSeparator)
    && c.decimalSeparator != '-' && c.groupSeparator != '-'
    && c.decimalSeparator != c.groupSeparator
  }

  const InvariantCulture := Culture('.', ',')

  /** pt-BR: comma for decimals, dot for thousands. */
  const BrazilianCulture := Culture(',', '.')

  /** fr-FR: comma for decimals, narrow no-break space for thousands. */
  const FrenchCulture := Culture(',', ' ')

  function Abs(n: int): nat { if n < 0 then -n else n }

  /** n in decimal without leading zeros ("0" for zero). */
  function NatToString(n: nat): string
  {
    if n < 10 then [DigitChar(n)] else NatToString(n / 10) + [DigitChar(n % 10)]
  }

  lemma {:induction false} ParseNatToString(n: nat)
    ensures |NatToString(n)| > 0
    ensures AllDigits(NatToString(n))
    ensures ParseNat(NatToString(n)) == n
  {
    var s := NatToString(n);
    if n >= 10 {
      ParseNatToString(n / 10);
      assert s[..|s| - 1] == NatToString(n / 10);
      assert AllDigits(s) by {
        forall i | 0 <= i < |s| ensures IsDigit(s[i]) {
          if i < |s| - 1 { assert s[i] == NatToString(n / 10)[i]; }
        }
      }
    }
  }

  /** d.ToString(CultureInfo.InvariantCulture): optional '-', the integer part,
      then '.' and exactly `scale` fraction digits when the scale is positive. */
  function FormatInvariant(d: Decimal): string
  {
    var m := Abs(d.mantissa);
    var p := Pow10(d.scale);
    DivModSplit(m, p);
    (if d.mantissa < 0 then "-" else "") + UnsignedText(m / p, m % p, d.scale)
  }

  /** The integer part q, then '.' and the fraction r on `scale` digits when scale > 0. */
  function UnsignedText(q: nat, r: nat, scale: nat): string
  {
    NatToString(q) + (if scale > 0 then "." + Pad(r, scale) else "")
  }

  /** The first index of c in s, or |s| when c does not occur. */
  function IndexOf(s: string, c: char): (k: nat)
    ensures k <= |s|
    ensures forall i :: 0 <= i < k ==> s[i] != c
    ensures k < |s| ==> s[k] == c
  {
    if |s| == 0 then 0 else if s[0] == c then 0 else 1 + IndexOf(s[1..], c)
  }

  /** The integer part NumberStyles.AllowThousands accepts: digits, with group
      separators anywhere after the first digit. */
  predicate IntegerPartOk(s: string, group: char)
  {
    (|s| == 0 || IsDigit(s[0])) && forall i :: 0 <= i < |s| ==> IsDigit(s[i]) || s[i] == group
  }

  /** The integer part with its group separators dropped. */
  function WithoutGroups(s: string, group: char): (r: string)
    requires IntegerPartOk(s, group)
    ensures AllDigits(r)
  {
    if |s| == 0 then ""
    else
      assert IntegerPartOk(s[..|s| - 1], group);
      WithoutGroups(s[..|s| - 1], group) + (if s[|s| - 1] == group then "" else [s[|s| - 1]])
  }

  lemma {:induction false} WithoutGroupsOfDigits(s: string, group: char)
    requires AllDigits(s) && !IsDigit(group)
    ensures IntegerPartOk(s, group)
    ensures WithoutGroups(s, group) == s
  {
    if |s| > 0 {
      assert AllDigits(s[..|s| - 1]);
      WithoutGroupsOfDigits(s[..|s| - 1], group);
      assert s == s[..|s| - 1] + [s[|s| - 1]];
    }
  }

  /** decimal.Parse(s, culture): an optional leading '-', an integer part, and
      optionally the culture's decimal separator followed by fraction digits;
      at least one digit. Anything else is a FormatException. */
  function ParseDecimal(s: string, c: Culture): Result<Decimal, FormatError>
  {
    if |s| > 0 && s[0] == '-' then
      match ParseMagnitude(s[1..], c)
      case Ok(d) => Ok(Decimal(-d.mantissa, d.scale))
      case Err(_) => Err(FormatError(s))
    else ParseMagnitude(s, c)
  }

  /** An unsigned number: split at the first decimal separator. */
  function ParseMagnitude(body: string, c: Culture): Result<Decimal, FormatError>
  {
    var k := IndexOf(body, c.decimalSeparator);
    ParseParts(body[..k], if k < |body| then body[k + 1..] else "", c.groupSeparator, body)
  }

  function ParseParts(intPart: string, fracPart: string, group: char, text: string): Result<Decimal, FormatError>
  {
    if !IntegerPartOk(intPart, group) || !AllDigits(fracPart) then Err(FormatError(text))
    else
      var digits := WithoutGroups(intPart, group);
      if |digits| + |fracPart| == 0 then Err(FormatError(text))
      else
        AllDigitsAppend(digits, fracPart);
        Ok(Decimal(ParseNat(digits + fracPart), |fracPart|))
  }

  lemma DivModSplit(m: nat, p: nat)
    requires p > 0
    ensures m / p >= 0 && 0 <= m % p < p
    ensures (m / p) * p + m % p == m
  {
  }

  /** In digits followed by '.' and more text, the first '.' is right after the digits. */
  lemma IndexAfterDigits(a: string, rest: string)
    requires AllDigits(a)
    requires |rest| == 0 || rest[0] == '.'
    ensures IndexOf(a + rest, '.') == |a|
  {
    var body := a + rest;
    assert forall i :: 0 <= i < |a| ==> body[i] == a[i];
    if |rest| > 0 { assert body[|a|] == '.'; }
  }

  /** Digits, then optionally '.' and fraction digits, split where the text says. */
  lemma ParseMagnitudeSplit(a: string, b: string, c: Culture)
    requires ValidCulture(c) && c.decimalSeparator == '.'
    requires AllDigits(a) && AllDigits(b) && |a| > 0
    ensures ParseMagnitude(a + ("." + b), c) == ParseParts(a, b, c.groupSeparator, a + ("." + b))
    ensures ParseMagnitude(a, c) == ParseParts(a, "", c.groupSeparator, a)
  {
    var body := a + ("." + b);
    IndexAfterDigits(a, "." + b);
    assert body[..|a|] == a;
    assert body[|a| + 1..] == b;
    IndexAfterDigits(a, "");
    assert a + "" == a;
    assert a[..|a|] == a;
  }

  /** Digit strings with at least one integer digit parse to their concatenated value. */
  lemma ParsePartsDigits(a: string, b: string, group: char, text: string)
    requires AllDigits(a) && AllDigits(b) && |a| > 0 && !IsDigit(group)
    ensures AllDigits(a + b)
    ensures ParseParts(a, b, group, text) == Ok(Decimal(ParseNat(a + b), |b|))
  {
    WithoutGroupsOfDigits(a, group);
    AllDigitsAppend(a, b);
  }

  /** Unsigned invariant text: the digits before '.' and the fraction after it. */
  lemma ParseUnsigned(q: nat, r: nat, scale: nat, c: Culture)
    requires ValidCulture(c) && c.decimalSeparator == '.'
    requires r < Pow10(scale)
    ensures var body := UnsignedText(q, r, scale);
      |body| > 0 && body[0] != '-' &&
      ParseMagnitude(body, c) == Ok(Decimal(q * Pow10(scale) + r, scale))
  {
    var a := NatToString(q);
    ParseNatToString(q);
    assert ParseNat(a) == q;
    if scale > 0 {
      ParseFraction(a, q, r, scale, c);
    } else {
      assert Pow10(scale) == 1 && r == 0;
      ParseMagnitudeSplit(a, "", c);
      ParsePartsDigits(a, "", c.groupSeparator, a);
      assert a + "" == a;
      assert ParseMagnitude(a, c) == Ok(Decimal(q, 0));
    }
  }

  lemma ParseFraction(a: string, q: nat, r: nat, scale: nat, c: Culture)
    requires ValidCulture(c) && c.decimalSeparator == '.'
    requires AllDigits(a) && |a| > 0 && ParseNat(a) == q
    requires r < Pow10(scale)
    ensures var body := a + ("." + Pad(r, scale));
      |body| > 0 && body[0] != '-' &&
      ParseMagnitude(body, c) == Ok(Decimal(q * Pow10(scale) + r, scale))
  {
    var b := Pad(r, scale);
    ParsePad(r, scale);
    PadShape(r, scale);
    var body := a + ("." + b);
    assert body[0] == a[0];
    ParseMagnitudeSplit(a, b, c);
    ParsePartsDigits(a, b, c.groupSeparator, body);
    ParseNatAppend(a, b);
  }

  /** A decimal written with the invariant culture is read back exactly by any
      culture whose decimal separator is '.'. */
  lemma ParseFormatInvariant(d: Decimal, c: Culture)
    requires ValidCulture(c) && c.decimalSeparator == '.'
    ensures ParseDecimal(FormatInvariant(d), c) == Ok(d)
  {
    var m := Abs(d.mantissa);
    var p := Pow10(d.scale);
    DivModSplit(m, p);
    var body := UnsignedText(m / p, m % p, d.scale);
    assert FormatInvariant(d) == (if d.mantissa < 0 then "-" else "") + body;
    ParseBody(m, d.scale, c);
    if d.mantissa < 0 {
      ParseNegative(body, m, d.scale, c);
      assert FormatInvariant(d) == "-" + body;
    } else {
      ParseUnsignedBody(body, c);
      assert FormatInvariant(d) == body;
    }
  }

  /** The unsigned text of a magnitude reads back as that magnitude. */
  lemma ParseBody(m: nat, scale: nat, c: Culture)
    requires ValidCulture(c) && c.decimalSeparator == '.'
    ensures var p := Pow10(scale);
      m / p >= 0 && m % p >= 0
      && var body := UnsignedText(m / p, m % p, scale);
      |body| > 0 && body[0] != '-' && ParseMagnitude(body, c) == Ok(Decimal(m, scale))
  {
    var p := Pow10(scale);
    DivModSplit(m, p);
    var q, r := m / p, m % p;
    assert q * p + r == m;
    ParseUnsigned(q, r, scale, c);
    assert Decimal(q * Pow10(scale) + r, scale) == Decimal(m, scale);
  }

  /** A '-' in front of an unsigned text negates what it reads as. */
  lemma ParseNegative(body: string, m: nat, scale: nat, c: Culture)
    requires ParseMagnitude(body, c) == Ok(Decimal(m, scale))
    ensures ParseDecimal("-" + body, c) == Ok(Decimal(-(m as int), scale))
  {
    assert ("-" + body)[1..] == body;
  }

  /** Text without a leading '-' reads as its magnitude. */
  lemma ParseUnsignedBody(body: string, c: Culture)
    requires |body| > 0 && body[0] != '-'
    ensures ParseDecimal(body, c) == ParseMagnitude(body, c)
  {
  }

  /** Read with the Brazilian culture, the invariant text "12.5" is taken as a
      grouped integer: 12.5 comes back as 125. */
  lemma BrazilianCultureMisreadsAmount()
    ensures FormatInvariant(Decimal(125, 1)) == "12.5"
    ensures ParseDecimal("12.5", BrazilianCulture) == Ok(Decimal(125, 0))
  {
    InvariantTextOfAmount();
    BrazilianReadOfAmount();
  }

  lemma InvariantTextOfAmount()
    ensures FormatInvariant(Decimal(125, 1)) == "12.5"
  {
    assert Pow10(1) == 10;
    assert NatToString(12) == "12";
    assert Pad(5, 1) == "5";
  }

  lemma BrazilianReadOfAmount()
    ensures ParseDecimal("12.5", BrazilianCulture) == Ok(Decimal(125, 0))
  {
    BrazilianSplitOfAmount();
    GroupsDroppedFromAmount();
    ParseNatOfAmount();
    assert "125" + "" == "125";
  }

  /** "12.5" holds no ',': all of it is the integer part. */
  lemma BrazilianSplitOfAmount()
    ensures ParseMagnitude("12.5", BrazilianCulture) == ParseParts("12.5", "", '.', "12.5")
  {
    var body := "12.5";
    assert IndexOf(body, ',') == 4;
    assert body[..4] == body;
  }

  /** With '.' as group separator, "12.5" is the digits "125". */
  lemma GroupsDroppedFromAmount()
    ensures IntegerPartOk("12.5", '.') && WithoutGroups("12.5", '.') == "125"
  {
    assert IntegerPartOk("12.5", '.');
    assert "12.5" == "12." + ['5'] && "12." == "12" + ['.'] && "12" == "1" + ['2'] && "1" == "" + ['1'];
    WithoutGroupsSnoc("12.", '5', '.');
    WithoutGroupsSnoc("12", '.', '.');
    WithoutGroupsSnoc("1", '2', '.');
    WithoutGroupsSnoc("", '1', '.');
    assert WithoutGroups("1", '.') == "1";
    assert WithoutGroups("12", '.') == "12";
    assert WithoutGroups("12.", '.') == "12";
  }

  /** Dropping the group separators one character at a time. */
  lemma WithoutGroupsSnoc(s: string, c: char, group: char)
    requires IntegerPartOk(s + [c], group)
    ensures IntegerPartOk(s, group)
    ensures WithoutGroups(s + [c], group) == WithoutGroups(s, group) + (if c == group then "" else [c])
  {
    assert (s + [c])[..|s|] == s;
    assert forall i :: 0 <= i < |s| ==> s[i] == (s + [c])[i];
  }

  lemma ParseNatOfAmount()
    ensures ParseNat("125") == 125
  {
    assert "125"[..2] == "12";
    assert "12"[..1] == "1";
  }

  /** Read with a culture that uses neither '.' as decimal nor as group
      separator, the invariant text of a fractional amount does not parse. */
  lemma FrenchCultureRejectsAmount()
    ensures ParseDecimal("12.5", FrenchCulture).Err?
  {
    assert IndexOf("12.5", ',') == 4;
    assert "12.5"[2] == '.';
  }
}
