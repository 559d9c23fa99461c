/**
 * Historical IPv4 spellings (section 7.4 of RFC 3986): one to four parts, each
 * in decimal, hexadecimal after `0x` or octal after a leading zero, the last
 * part filling the octets the others leave.
 */
module IpLiteral {
  import opened Outcomes
  import opened TextSplit
  import opened BigEndian

  const U32_LIMIT: nat := 0x1_0000_0000

  function Digit(c: char): Option<nat> {
    if '0' <= c <= '9' then Some(c as int - '0' as int)
    else if 'a' <= c <= 'z' then Some(c as int - 'a' as int + 10)
    else if 'A' <= c <= 'Z' then Some(c as int - 'A' as int + 10)
    else None
  }

  predicate AllDigits(s: string, radix: nat) {
    forall i | 0 <= i < |s| :: Digit(s[i]).Some? && Digit(s[i]).value < radix
  }

  predicate IsNumeral(s: string, radix: nat) {
    s != "" && AllDigits(s, radix)
  }

  /** The number a digit string denotes, without any bound. */
  function Value(s: string, radix: nat): nat
    requires AllDigits(s, radix)
  {
    if s == "" then 0 else Value(s[..|s| - 1], radix) * radix + Digit(s[|s| - 1]).value
  }

  lemma OneMoreDigit(digits: string, i: nat, radix: nat)
    requires i < |digits| && AllDigits(digits[..i], radix) && Digit(digits[i]).Some? && Digit(digits[i]).value < radix
    ensures AllDigits(digits[..i + 1], radix)
    ensures Value(digits[..i + 1], radix) == Value(digits[..i], radix) * radix + Digit(digits[i]).value
  {
    hide Digit;
    assert digits[..i + 1][..i] == digits[..i] && digits[..i + 1] == digits[..i] + [digits[i]];
  }

  /** Checked accumulation: fails on the first character that is no digit or overflows 32 bits. */
  method FromStrRadix(text: string, radix: nat) returns (r: Option<nat>)
    requires 2 <= radix <= 36
    ensures r == Parsed(text, radix)
  {
    if text == "" || text == "+" || text == "-" {
      return None;
    }
    var digits := if text[0] == '+' then text[1..] else text;
    var acc, i := 0, 0;
    assert digits[..0] == "" && digits[..|digits|] == digits;
    while i < |digits|
      invariant 0 <= i <= |digits|
      invariant AllDigits(digits[..i], radix)
      invariant acc == Value(digits[..i], radix) < U32_LIMIT
    {
      var d := Digit(digits[i]);
      if d.None? || d.value >= radix {
        return None;
      }
      OneMoreDigit(digits, i, radix);
      acc := acc * radix + d.value;
      i := i + 1;
      if acc >= U32_LIMIT {
        if IsNumeral(digits, radix) {
          PrefixValue(digits, i, radix);
        }
        return None;
      }
    }
    return Some(acc);
  }

  lemma AtLeastOneFold(x: nat, n: nat)
    requires n >= 1
    ensures x <= x * n
  {
  }

  lemma {:induction false} PrefixValue(s: string, i: nat, radix: nat)
    requires IsNumeral(s, radix) && i <= |s| && radix >= 1
    ensures Value(s[..i], radix) <= Value(s, radix)
    decreases |s| - i
  {
    if i == |s| {
      assert s[..i] == s;
    } else {
      PrefixValue(s, i + 1, radix);
      ValueSnoc(s[..i], s[i], radix);
      assert s[..i] + [s[i]] == s[..i + 1];
      AtLeastOneFold(Value(s[..i], radix), radix);
    }
  }

  lemma ValueSnoc(s: string, c: char, radix: nat)
    requires AllDigits(s, radix) && Digit(c).Some? && Digit(c).value < radix
    ensures Value(s + [c], radix) == Value(s, radix) * radix + Digit(c).value
  {
    assert (s + [c])[..|s|] == s;
  }

  /** What `from_str_radix` accepts: an optional plus sign and a numeral below two to the 32. */
  function Parsed(text: string, radix: nat): Option<nat> {
    var digits := if text != "" && text[0] == '+' then text[1..] else text;
    if IsNumeral(digits, radix) && Value(digits, radix) < U32_LIMIT then Some(Value(digits, radix)) else None
  }

  predicate HexMark(part: string) {
    |part| >= 2 && part[0] == '0' && (part[1] == 'x' || part[1] == 'X')
  }

  function ParseIpNumber(part: string): Option<nat> {
    if HexMark(part) then Parsed(part[2..], 16)
    else if |part| > 1 && part[0] == '0' then Parsed(part[1..], 8)
    else Parsed(part, 10)
  }

  method ParseIpNumberText(part: string) returns (r: Option<nat>)
    ensures r == ParseIpNumber(part)
  {
    if HexMark(part) {
      r := FromStrRadix(part[2..], 16);
    } else if |part| > 1 && part[0] == '0' {
      r := FromStrRadix(part[1..], 8);
    } else {
      r := FromStrRadix(part, 10);
    }
  }

  datatype Notation = Decimal | Hex(upper: bool) | Octal
  {
    function Radix(): nat { if Decimal? then 10 else if Octal? then 8 else 16 }

    function Mark(): string { if Decimal? then "" else if Octal? then "0" else if upper then "0X" else "0x" }
  }

  /** `part` is the radix mark, a sign and digits denoting `v`; a decimal has no leading zero, or is `0`. */
  predicate SpelledAs(part: string, v: nat, notation: Notation, sign: string, digits: string) {
    && part == notation.Mark() + sign + digits
    && IsNumeral(digits, notation.Radix()) && Value(digits, notation.Radix()) == v
    && (notation.Decimal? && |part| > 1 ==> part[0] != '0')
  }

  ghost predicate Spells(part: string, v: nat) {
    exists notation, digits :: SpelledAs(part, v, notation, "", digits)
  }

  lemma ParsedSigned(text: string, radix: nat, sign: string, digits: string)
    requires text == sign + digits && (sign == "" || sign == "+")
    requires IsNumeral(digits, radix) && Value(digits, radix) < U32_LIMIT
    ensures Parsed(text, radix) == Some(Value(digits, radix))
  {
    if sign == "+" {
      assert text[1..] == digits;
    } else {
      assert text == digits;
    }
  }

  lemma ParseHex(mark: string, text: string, v: nat)
    requires |mark| == 2 && HexMark(mark) && Parsed(text, 16) == Some(v)
    ensures ParseIpNumber(mark + text) == Some(v)
  {
    hide Parsed;
    assert (mark + text)[2..] == text;
  }

  lemma ParseOctal(text: string, v: nat)
    requires text != "" && text[0] != 'x' && text[0] != 'X' && Parsed(text, 8) == Some(v)
    ensures ParseIpNumber("0" + text) == Some(v)
  {
    hide Parsed;
    assert ("0" + text)[1] == text[0] && ("0" + text)[1..] == text;
  }

  lemma ParseSpelledAs(part: string, v: nat, notation: Notation, sign: string, digits: string)
    requires SpelledAs(part, v, notation, sign, digits) && v < U32_LIMIT && (sign == "" || sign == "+")
    ensures ParseIpNumber(part) == Some(v)
  {
    var text := sign + digits;
    ParsedSigned(text, notation.Radix(), sign, digits);
    FirstCharacter(text, notation.Radix(), sign, digits);
    Associate(notation.Mark(), sign, digits);
    hide Value, IsNumeral, Parsed, ParseIpNumber, Digit;
    match notation
    case Decimal => ParseDecimal(part, text, v);
    case Hex(upper) => ParseHex(notation.Mark(), text, v);
    case Octal => ParseOctal(text, v);
  }

  lemma ParseDecimal(part: string, text: string, v: nat)
    requires part == "" + text && (|part| > 1 ==> part[0] != '0') && Parsed(text, 10) == Some(v)
    ensures ParseIpNumber(part) == Some(v)
  {
    hide Parsed;
    assert part == text;
  }

  lemma FirstCharacter(text: string, radix: nat, sign: string, digits: string)
    requires text == sign + digits && (sign == "" || sign == "+") && IsNumeral(digits, radix)
    ensures text != "" && (text[0] == '+' || (Digit(text[0]).Some? && Digit(text[0]).value < radix))
    ensures radix <= 10 ==> text[0] != 'x' && text[0] != 'X'
  {
    assert text[0] == if sign == "" then digits[0] else '+';
  }

  lemma ParsedText(text: string, radix: nat, v: nat) returns (sign: string, digits: string)
    requires Parsed(text, radix) == Some(v)
    ensures text == sign + digits && (sign == "" || sign == "+")
    ensures IsNumeral(digits, radix) && Value(digits, radix) == v < U32_LIMIT
  {
    sign := if text != "" && text[0] == '+' then "+" else "";
    digits := text[|sign|..];
  }

  lemma ParsedIsSpelled(part: string, v: nat) returns (notation: Notation, sign: string, digits: string)
    requires ParseIpNumber(part) == Some(v)
    ensures SpelledAs(part, v, notation, sign, digits) && v < U32_LIMIT && (sign == "" || sign == "+")
  {
    hide Value, IsNumeral, Parsed;
    if HexMark(part) {
      notation := Hex(part[1] == 'X');
      sign, digits := ParsedText(part[2..], 16, v);
      assert part == notation.Mark() + part[2..];
    } else if |part| > 1 && part[0] == '0' {
      notation := Octal;
      sign, digits := ParsedText(part[1..], 8, v);
      assert part == notation.Mark() + part[1..];
    } else {
      notation := Decimal;
      sign, digits := ParsedText(part, 10, v);
    }
    Associate(notation.Mark(), sign, digits);
  }

  /**
   * A part is read as `v` exactly when it spells `v`, below two to the 32, in
   * some notation, with or without a plus sign after the radix mark.
   */
  lemma {:induction false} ParsesExactlySpellings(part: string, v: nat)
    ensures ParseIpNumber(part) == Some(v) <==>
            v < U32_LIMIT &&
            exists notation, sign, digits :: SpelledAs(part, v, notation, sign, digits) && (sign == "" || sign == "+")
  {
    if v < U32_LIMIT {
      forall notation, sign, digits | SpelledAs(part, v, notation, sign, digits) && (sign == "" || sign == "+")
        ensures ParseIpNumber(part) == Some(v)
      {
        ParseSpelledAs(part, v, notation, sign, digits);
      }
    }
    if ParseIpNumber(part) == Some(v) {
      var notation, sign, digits := ParsedIsSpelled(part, v);
    }
  }

  // ---------- whole literals ----------

  function Numbers(parts: seq<string>): (numbers: seq<Option<nat>>)
    ensures |numbers| == |parts|
    ensures forall i | 0 <= i < |parts| :: numbers[i] == ParseIpNumber(parts[i])
  {
    seq(|parts|, i requires 0 <= i < |parts| => ParseIpNumber(parts[i]))
  }

  /** Whether every part is a number, and every part standing for one octet fits it. */
  predicate Acceptable(numbers: seq<Option<nat>>) {
    && 1 <= |numbers| <= 4
    && (forall i | 0 <= i < |numbers| :: numbers[i].Some?)
    && (forall i | 0 <= i < |numbers| && (i < |numbers| - 1 || |numbers| == 4) :: numbers[i].value < 256)
  }

  /** The octets of an accepted literal: one per leading part, the low bytes of the last part after them. */
  function Octets(numbers: seq<Option<nat>>): seq<Byte>
    requires Acceptable(numbers)
  {
    var n := |numbers|;
    seq(n - 1, i requires 0 <= i < n - 1 => numbers[i].value) + ToBytes(numbers[n - 1].value, 4)[n - 1..]
  }

  function ParseIpv4(input: string): Option<seq<Byte>> {
    var numbers := Numbers(SplitOn(input, '.'));
    if Acceptable(numbers) then Some(Octets(numbers)) else None
  }

  lemma EmptyIsNoNumber()
    ensures ParseIpNumber("").None?
  {
  }

  lemma ShortOctets(numbers: seq<Option<nat>>, head: seq<Byte>)
    requires Acceptable(numbers) && |head| == |numbers| - 1
    requires forall i | 0 <= i < |head| :: head[i] == numbers[i].value
    ensures head + ToBytes(numbers[|head|].value, 4)[|head|..] == Octets(numbers)
  {
    hide ToBytes;
  }

  lemma FullOctets(numbers: seq<Option<nat>>, all: seq<Byte>)
    requires Acceptable(numbers) && |all| == |numbers| == 4
    requires forall i | 0 <= i < 4 :: all[i] == numbers[i].value
    ensures all == Octets(numbers)
  {
    ShortOctets(numbers, all[..3]);
    assert ToBytes(numbers[3].value, 4)[3..] == [all[3]];
  }

  method ParseIpv4Literal(input: string) returns (r: Option<seq<Byte>>)
    ensures r == ParseIpv4(input)
  {
    hide ParseIpNumber, Octets, ToBytes, SplitOn;
    EmptyIsNoNumber();
    var parts := SplitOn(input, '.');
    ghost var numbers := Numbers(parts);
    if |parts| > 4 {
      return None;
    }
    var octets := new Byte[4](_ => 0);
    var last, index := |parts| - 1, 0;
    while index < |parts|
      invariant 0 <= index <= |parts|
      invariant index == |parts| ==> |parts| == 4
      invariant forall i | 0 <= i < index :: numbers[i].Some? && octets[i] == numbers[i].value < 256
    {
      var part := parts[index];
      if part == "" {
        return None;
      }
      var value := ParseIpNumberText(part);
      if value.None? {
        return None;
      }
      if index == last && |parts| < 4 {
        ShortOctets(numbers, octets[..last]);
        FillFrom(octets, last, ToBytes(value.value, 4));
        return Some(octets[..]);
      }
      if value.value >= 256 {
        return None;
      }
      octets[index] := value.value;
      index := index + 1;
    }
    FullOctets(numbers, octets[..]);
    return Some(octets[..]);
  }

  /** Copies the bytes that are left after skipping `skip` into the octets from `skip` on. */
  method FillFrom(octets: array<Byte>, skip: nat, bytes: seq<Byte>)
    requires octets.Length == |bytes| == 4 && skip <= 4
    modifies octets
    ensures octets[..] == old(octets[..skip]) + bytes[skip..]
  {
    ghost var head := octets[..skip];
    var offset := 0;
    while offset < 4 - skip
      invariant 0 <= offset <= 4 - skip
      invariant forall k | 0 <= k < skip :: octets[k] == head[k]
      invariant forall k | skip <= k < skip + offset :: octets[k] == bytes[k]
    {
      octets[skip + offset] := bytes[skip + offset];
      offset := offset + 1;
    }
    forall k | 0 <= k < 4 ensures octets[..][k] == (head + bytes[skip..])[k] {
    }
  }

  /** `parts` spell `values`, all but the last (or all of four) fitting an octet. */
  ghost predicate SpellsParts(parts: seq<string>, values: seq<nat>) {
    && |parts| == |values| && 1 <= |parts| <= 4
    && (forall i | 0 <= i < |parts| :: Spells(parts[i], values[i]) && values[i] < U32_LIMIT)
    && (forall i | 0 <= i < |parts| && (i < |parts| - 1 || |parts| == 4) :: values[i] < 256)
  }

  lemma SpellingHasNoDot(part: string, v: nat)
    requires Spells(part, v)
    ensures '.' !in part
  {
    var notation, digits :| SpelledAs(part, v, notation, "", digits);
    assert notation.Mark() + "" == notation.Mark();
    forall c | c in part ensures c != '.' {
      if c !in digits {
        assert c in notation.Mark();
      }
    }
  }

  lemma {:induction false} PartsParse(parts: seq<string>, values: seq<nat>)
    requires SpellsParts(parts, values)
    ensures Free(parts, '.') && forall i | 0 <= i < |parts| :: ParseIpNumber(parts[i]) == Some(values[i])
  {
    forall i | 0 <= i < |parts|
      ensures '.' !in parts[i] && ParseIpNumber(parts[i]) == Some(values[i])
    {
      SpellingHasNoDot(parts[i], values[i]);
      var notation, digits :| SpelledAs(parts[i], values[i], notation, "", digits);
      ParseSpelledAs(parts[i], values[i], notation, "", digits);
    }
  }

  /** The last part of an accepted literal fills the octets the others leave, keeping its low bytes. */
  lemma LastOctets(numbers: seq<Option<nat>>)
    requires Acceptable(numbers)
    ensures var last := |numbers| - 1;
            && |Octets(numbers)| == 4
            && Octets(numbers)[..last] == seq(last, i requires 0 <= i < last => numbers[i].value)
            && FromBytes(Octets(numbers)[last..]) == numbers[last].value % Pow256(4 - last)
  {
    var last := |numbers| - 1;
    var v := numbers[last].value;
    LowBytes(v, 4, 4 - last);
    TruncatedBytes(v, 4 - last);
    assert Octets(numbers)[last..] == ToBytes(v, 4 - last);
  }

  lemma OctetsDetermined(numbers: seq<Option<nat>>, octets: seq<Byte>)
    requires Acceptable(numbers) && |octets| == 4
    requires forall i | 0 <= i < |numbers| - 1 :: octets[i] == numbers[i].value
    requires FromBytes(octets[|numbers| - 1..]) == numbers[|numbers| - 1].value % Pow256(5 - |numbers|)
    ensures Octets(numbers) == octets
  {
    var last, read := |numbers| - 1, Octets(numbers);
    LastOctets(numbers);
    ToFromBytes(read[last..]);
    ToFromBytes(octets[last..]);
    assert read == read[..last] + read[last..];
    assert octets == octets[..last] + octets[last..];
    assert read[..last] == octets[..last];
  }

  /**
   * Every one- to four-part literal parses, each part in any radix: leading
   * parts are octets, the last denotes the remaining octets modulo what they hold.
   */
  lemma {:induction false} EveryLiteralParses(parts: seq<string>, values: seq<nat>, octets: seq<Byte>)
    requires SpellsParts(parts, values) && |octets| == 4
    requires forall i | 0 <= i < |parts| - 1 :: octets[i] == values[i]
    requires FromBytes(octets[|parts| - 1..]) == values[|parts| - 1] % Pow256(5 - |parts|)
    ensures ParseIpv4(JoinOn(parts, '.')) == Some(octets)
  {
    hide Spells, ParseIpNumber, Octets, Pow256, FromBytes, JoinOn, SplitOn;
    PartsParse(parts, values);
    SplitJoin(parts, '.');
    OctetsDetermined(Numbers(parts), octets);
  }

  /** The spellings of an address: leading parts are its octets, the last part is the number of the others. */
  ghost predicate SpellsAddress(parts: seq<string>, octets: seq<Byte>) {
    && |octets| == 4 && 1 <= |parts| <= 4
    && (forall i | 0 <= i < |parts| - 1 :: Spells(parts[i], octets[i]))
    && Spells(parts[|parts| - 1], FromBytes(octets[|parts| - 1..]))
  }

  lemma PowersOf256()
    ensures Pow256(1) == 256 && Pow256(2) == 0x1_0000 && Pow256(3) == 0x1_000000 && Pow256(4) == U32_LIMIT
  {
    assert Pow256(1) == 256;
    assert Pow256(2) == 256 * Pow256(1);
    assert Pow256(3) == 256 * Pow256(2);
    assert Pow256(4) == 256 * Pow256(3);
  }

  /** Every spelling of an address, with any number of parts and any radix in each, parses to that address. */
  lemma {:induction false} EverySpellingParses(parts: seq<string>, octets: seq<Byte>)
    requires SpellsAddress(parts, octets)
    ensures ParseIpv4(JoinOn(parts, '.')) == Some(octets)
  {
    var last := |parts| - 1;
    var v := FromBytes(octets[last..]);
    PowersOf256();
    InRange(v, Pow256(4 - last));
    hide Spells, FromBytes, Pow256;
    var values: seq<nat> := seq(last, i requires 0 <= i < last => octets[i] as nat) + [v];
    assert forall i | 0 <= i < last :: values[i] == octets[i];
    EveryLiteralParses(parts, values, octets);
  }

  /** The last part is read faithfully exactly when it is in range for its position. */
  lemma {:induction false} LastPartFaithfulIffInRange(input: string, octets: seq<Byte>)
    requires ParseIpv4(input) == Some(octets)
    ensures var numbers := Numbers(SplitOn(input, '.'));
            var last := |numbers| - 1;
            && Acceptable(numbers) && |octets| == 4
            && (forall i | 0 <= i < last :: octets[i] == numbers[i].value)
            && (FromBytes(octets[last..]) == numbers[last].value <==> numbers[last].value < Pow256(4 - last))
  {
    var numbers := Numbers(SplitOn(input, '.'));
    var last := |numbers| - 1;
    LastOctets(numbers);
    InRange(numbers[last].value, Pow256(4 - last));
    forall i | 0 <= i < last ensures octets[i] == numbers[i].value {
      assert octets[i] == octets[..last][i];
    }
  }

  lemma InRange(v: nat, m: nat)
    requires m > 0
    ensures v % m == v <==> v < m
  {
    Euclid(v, m);
  }

  lemma OneDigit(s: string, v: nat)
    requires |s| == 1 && v < 10 && s[0] as int == '0' as int + v
    ensures Spells(s, v)
  {
    OneMoreDigit(s, 0, 10);
    assert s[..1] == s;
    assert SpelledAs(s, v, Decimal, "", s);
  }

  lemma FiveDigits(s: string)
    requires |s| == 5 && s[0] == '6' && s[1] == '5' && s[2] == '5' && s[3] == '3' && s[4] == '6'
    ensures Spells(s, 65536)
  {
    OneMoreDigit(s, 0, 10);
    OneMoreDigit(s, 1, 10);
    OneMoreDigit(s, 2, 10);
    OneMoreDigit(s, 3, 10);
    OneMoreDigit(s, 4, 10);
    assert s[..5] == s;
    assert SpelledAs(s, 65536, Decimal, "", s);
  }

  /** An out-of-range last part is truncated, not refused: `1.2.65536` is read as 1.2.0.0. */
  lemma OversizedLastPartIsTruncated()
    ensures ParseIpv4(JoinOn(["1", "2", "65536"], '.')) == Some([1, 2, 0, 0])
  {
    var parts, values, octets: seq<Byte> := ["1", "2", "65536"], [1, 2, 65536], [1, 2, 0, 0];
    OneDigit(parts[0], 1);
    OneDigit(parts[1], 2);
    FiveDigits(parts[2]);
    PowersOf256();
    assert octets[2..] == [0, 0];
    TwoZeroBytes();
    hide Spells, FromBytes, Pow256;
    EveryLiteralParses(parts, values, octets);
  }

  lemma TwoZeroBytes()
    ensures FromBytes([0, 0]) == 0
  {
    assert [0, 0][..1] == [0];
    assert FromBytes([0]) == 0;
  }
}
