/** The decimal conversions of Go's strconv and the string helpers used beside them. */
module Strconv {

  datatype Parsed = Number(value: int) | NotANumber

  predicate IsDigit(c: char) {
    '0' <= c <= '9'
  }

  predicate AllDigits(s: string) {
    forall i :: 0 <= i < |s| ==> IsDigit(s[i])
  }

  function Digit(n: nat): char
    requires n < 10
  {
    ('0' as int + n) as char
  }

  function FormatNat(n: nat): string {
    if n < 10 then [Digit(n)] else FormatNat(n / 10) + [Digit(n % 10)]
  }

  /** strconv.FormatInt(n, 10) */
  function FormatInt(n: int): string {
    if n < 0 then "-" + FormatNat(-n) else FormatNat(n)
  }

  function DigitsValue(s: string): nat
    requires AllDigits(s)
  {
    if s == [] then 0
    else 10 * DigitsValue(s[..|s| - 1]) + (s[|s| - 1] as int - '0' as int)
  }

  /**
   * strconv.ParseInt(s, 10, bits); Atoi is the 64-bit case. A syntax error and a range error
   * are told apart only in messages, so one failure stands for both.
   */
  function ParseInt(s: string, bits: nat): Parsed
    requires bits == 32 || bits == 64
  {
    var signed := s != "" && (s[0] == '-' || s[0] == '+');
    var digits := if signed then s[1..] else s;
    if digits == "" || !AllDigits(digits) then NotANumber
    else
      var magnitude: int := DigitsValue(digits);
      var n := if signed && s[0] == '-' then -magnitude else magnitude;
      if InRange(n, bits) then Number(n) else NotANumber
  }

  predicate InRange(n: int, bits: nat)
    requires bits == 32 || bits == 64
  {
    if bits == 32 then -0x8000_0000 <= n <= 0x7fff_ffff
    else -0x8000_0000_0000_0000 <= n <= 0x7fff_ffff_ffff_ffff
  }

  function TrimPercent(s: string): string {
    if s != "" && s[|s| - 1] == '%' then s[..|s| - 1] else s
  }

  function LowerOf(c: char): char {
    if 'A' <= c <= 'Z' then (c as int + 32) as char else c
  }

  /** strings.ToLower on the ASCII alphabet that Kubernetes label values are drawn from. */
  function ToLower(s: string): (r: string)
    ensures |r| == |s|
    ensures forall i :: 0 <= i < |s| ==> r[i] == LowerOf(s[i])
  {
    if s == "" then "" else [LowerOf(s[0])] + ToLower(s[1..])
  }

  predicate Contains(s: string, sub: string) {
    |sub| <= |s| && (s[..|sub|] == sub || (s != "" && Contains(s[1..], sub)))
  }

  lemma {:induction false} FormatNatParses(n: nat)
    ensures FormatNat(n) != "" && AllDigits(FormatNat(n))
    ensures DigitsValue(FormatNat(n)) == n
  {
    if n < 10 {
      assert FormatNat(n)[..0] == "";
    } else {
      FormatNatParses(n / 10);
      var s := FormatNat(n);
      assert s[..|s| - 1] == FormatNat(n / 10);
    }
  }

  /** Every number in range survives being written and read back. */
  lemma ParseFormat(n: int, bits: nat)
    requires bits == 32 || bits == 64
    requires InRange(n, bits)
    ensures ParseInt(FormatInt(n), bits) == Number(n)
  {
    if n < 0 {
      FormatNatParses(-n);
      assert FormatInt(n)[1..] == FormatNat(-n);
    } else {
      FormatNatParses(n);
    }
  }

  /** The percentage annotation: the suffix written after a number is the one trimmed off. */
  lemma TrimFormattedPercent(n: int)
    ensures TrimPercent(FormatInt(n) + "%") == FormatInt(n)
  {
    assert (FormatInt(n) + "%")[..|FormatInt(n)|] == FormatInt(n);
  }

  /** What the syntax of a decimal number is: an optional sign and at least one digit. */
  predicate IsNumeral(s: string) {
    var start := if s != "" && (s[0] == '-' || s[0] == '+') then 1 else 0;
    |s| > start && forall i :: start <= i < |s| ==> '0' <= s[i] <= '9'
  }

  lemma DigitsFrom(s: string, start: nat)
    requires start <= |s|
    ensures AllDigits(s[start..]) <==> forall i :: start <= i < |s| ==> '0' <= s[i] <= '9'
  {
    if AllDigits(s[start..]) {
      forall i | start <= i < |s| ensures '0' <= s[i] <= '9' {
        assert IsDigit(s[start..][i - start]);
      }
    }
  }

  /** Exactly the numbers whose value is in range are read as one. */
  lemma OnlyNumeralsParse(s: string, bits: nat)
    requires bits == 32 || bits == 64
    ensures ParseInt(s, bits).Number? ==> IsNumeral(s) && InRange(ParseInt(s, bits).value, bits)
  {
    if s != "" {
      DigitsFrom(s, 0);
      DigitsFrom(s, 1);
    }
  }

  /** A leading plus changes nothing, and a leading minus the sign alone. */
  lemma SignsParse(digits: string)
    requires digits != "" && AllDigits(digits)
    ensures ParseInt("+" + digits, 64) == ParseInt(digits, 64)
    ensures ParseInt(digits, 64).Number? ==> ParseInt("-" + digits, 64) == Number(-ParseInt(digits, 64).value)
  {
    assert ("+" + digits)[1..] == digits == ("-" + digits)[1..];
  }

  /** A number is written without a percent sign. */
  lemma FormatHasNoPercent(n: int)
    ensures TrimPercent(FormatInt(n)) == FormatInt(n)
  {
    FormatNatParses(if n < 0 then -n else n);
  }

  /** A suffix is trimmed once, and nothing else is. */
  lemma TrimsOneSuffix(s: string)
    ensures TrimPercent(s + "%") == s
    ensures s != "" && s[|s| - 1] != '%' ==> TrimPercent(s) == s
    ensures TrimPercent("") == ""
  {
    assert (s + "%")[..|s|] == s;
  }

  predicate EitherCase(c: char, lower: char)
    requires 'a' <= lower <= 'z'
  {
    c == lower || c as int == lower as int - 32
  }

  predicate PartAt(s: string, sub: string, i: int) {
    0 <= i <= |s| - |sub| && s[i..i + |sub|] == sub
  }

  lemma PartInTail(s: string, sub: string, i: int)
    requires s != "" && i > 0
    ensures PartAt(s, sub, i) <==> PartAt(s[1..], sub, i - 1)
  {
    if i <= |s| - |sub| {
      assert s[i..i + |sub|] == s[1..][i - 1..i - 1 + |sub|];
    }
  }

  /** Contains finds a part wherever it stands. */
  lemma {:induction false} ContainsIsSomewhere(s: string, sub: string)
    ensures Contains(s, sub) <==> exists i :: PartAt(s, sub, i)
  {
    assert |sub| <= |s| ==> s[..|sub|] == s[0..0 + |sub|];
    if |sub| <= |s| && s[..|sub|] == sub {
      assert PartAt(s, sub, 0);
    } else if |sub| <= |s| {
      ContainsIsSomewhere(s[1..], sub);
      forall i | i > 0 ensures PartAt(s, sub, i) <==> PartAt(s[1..], sub, i - 1) {
        PartInTail(s, sub, i);
      }
      if j :| PartAt(s[1..], sub, j) {
        assert PartAt(s, sub, j + 1);
      }
    }
  }

  lemma LowerIs(c: char, lower: char)
    requires 'a' <= lower <= 'z'
    ensures LowerOf(c) == lower <==> EitherCase(c, lower)
  {
  }

  lemma LowerAt(s: string, i: nat, lower: char)
    requires i < |s| && 'a' <= lower <= 'z'
    ensures ToLower(s)[i] == lower <==> EitherCase(s[i], lower)
  {
    LowerIs(s[i], lower);
  }

  /** A word of four letters stands at a place of the lower-cased text if its letters do in either case. */
  lemma WordInLower(s: string, word: string, i: nat)
    requires |word| == 4 && forall j :: 0 <= j < 4 ==> 'a' <= word[j] <= 'z'
    ensures PartAt(ToLower(s), word, i) <==>
              && i + 4 <= |s|
              && EitherCase(s[i], word[0]) && EitherCase(s[i + 1], word[1])
              && EitherCase(s[i + 2], word[2]) && EitherCase(s[i + 3], word[3])
  {
    if i + 4 <= |s| {
      var lower := ToLower(s);
      LowerAt(s, i, word[0]);
      LowerAt(s, i + 1, word[1]);
      LowerAt(s, i + 2, word[2]);
      LowerAt(s, i + 3, word[3]);
      FourLetters(lower, word, i);
    }
  }

  lemma FourLetters(s: string, word: string, i: nat)
    requires |word| == 4 && i + 4 <= |s|
    ensures PartAt(s, word, i) <==>
              s[i] == word[0] && s[i + 1] == word[1] && s[i + 2] == word[2] && s[i + 3] == word[3]
  {
    var part := s[i..i + 4];
    assert part[0] == s[i] && part[1] == s[i + 1] && part[2] == s[i + 2] && part[3] == s[i + 3];
    if part[0] == word[0] && part[1] == word[1] && part[2] == word[2] && part[3] == word[3] {
      assert part == word;
    }
  }

  /** A number is written as Go writes it: a minus only below zero, and no zeros in front. */
  lemma FormatIsCanonical(n: int)
    ensures n == 0 ==> FormatInt(n) == "0"
    ensures n > 0 ==> AllDigits(FormatInt(n)) && FormatInt(n) != "" && FormatInt(n)[0] != '0'
    ensures n < 0 ==> FormatInt(n) == "-" + FormatInt(-n)
  {
    if n > 0 {
      FormatNatParses(n);
      NoLeadingZero(n);
    }
  }

  lemma {:induction false} NoLeadingZero(n: nat)
    requires n > 0
    ensures FormatNat(n) != "" && FormatNat(n)[0] != '0'
  {
    if n >= 10 {
      NoLeadingZero(n / 10);
    }
  }

  /** Of all numbers written in decimal, exactly those that fit are read back. */
  lemma ParsesWhatFits(n: int)
    ensures ParseInt(FormatInt(n), 32) == if -2_147_483_648 <= n <= 2_147_483_647 then Number(n) else NotANumber
    ensures ParseInt(FormatInt(n), 64)
         == if -9_223_372_036_854_775_808 <= n <= 9_223_372_036_854_775_807 then Number(n) else NotANumber
  {
    FormatNatParses(if n < 0 then -n else n);
    if n < 0 {
      assert FormatInt(n)[1..] == FormatNat(-n);
    }
  }
}
