// Decimal numerals: what std::to_string prints and what std::atoi reads.

module Decimals {

  predicate IsDigit(c: char) {
    '0' <= c <= '9'
  }

  predicate AllDigits(s: string) {
    forall i :: 0 <= i < |s| ==> IsDigit(s[i])
  }

  function DigitOf(c: char): nat
    requires IsDigit(c)
  {
    c as nat - '0' as nat
  }

  /** The ten digits, each with its value. */
  lemma TenDigits(c: char)
    ensures IsDigit(c) <==> c in "0123456789"
    ensures IsDigit(c) ==> DigitOf(c) < 10 && "0123456789"[DigitOf(c)] == c
  {
    if IsDigit(c) {
      var d := DigitOf(c);
      assert "0123456789"[d] == ('0' as nat + d) as char;
      assert "0123456789"[d] == c;
    }
  }

  ghost function Power10(k: nat): (p: nat)
    ensures p > 0
  {
    if k == 0 then 1 else 10 * Power10(k - 1)
  }

  /** The positional value: the sum of s[i] times ten to the power |s| - 1 - i. */
  ghost function Positional(s: string): nat
    requires AllDigits(s)
  {
    if s == "" then 0 else DigitOf(s[0]) * Power10(|s| - 1) + Positional(s[1..])
  }

  /** One more digit at the end. */
  lemma {:induction false} PositionalGrows(s: string, c: char)
    requires AllDigits(s) && IsDigit(c)
    ensures AllDigits(s + [c]) && Positional(s + [c]) == 10 * Positional(s) + DigitOf(c)
  {
    if s != "" {
      PositionalGrows(s[1..], c);
      assert (s + [c])[1..] == s[1..] + [c];
      assert DigitOf(s[0]) * (10 * Power10(|s| - 1)) == 10 * (DigitOf(s[0]) * Power10(|s| - 1));
    } else {
      assert [c][1..] == "" && Power10(0) == 1;
    }
  }

  // ------------------------------------------------------------- printing

  /** std::to_string */
  function Decimal(n: nat): string {
    if n < 10 then [('0' as nat + n) as char] else Decimal(n / 10) + [('0' as nat + n % 10) as char]
  }

  /** It prints digits only, without a leading zero but for zero itself, and their positional value
      is the number. */
  lemma {:induction false} DecimalIs(n: nat)
    ensures AllDigits(Decimal(n)) && Decimal(n) != ""
    ensures Decimal(n)[0] == '0' <==> n == 0
    ensures Positional(Decimal(n)) == n
  {
    if n < 10 {
      assert Decimal(n)[1..] == "" && Power10(0) == 1;
    } else {
      DecimalIs(n / 10);
      PositionalGrows(Decimal(n / 10), ('0' as nat + n % 10) as char);
    }
  }

  // ------------------------------------------------------------- reading

  function Digits(s: string, value: nat): nat {
    if s == "" || !IsDigit(s[0]) then value else Digits(s[1..], 10 * value + DigitOf(s[0]))
  }

  predicate IsSpace(c: char) {
    c == ' ' || '\t' <= c <= '\r'
  }

  /** The blanks of std::isspace. */
  lemma SixBlanks(c: char)
    ensures IsSpace(c) <==> c in " \t\n\U{000B}\U{000C}\r"
  {
    var blanks := " \t\n\U{000B}\U{000C}\r";
    assert blanks[0] == ' ' && blanks[1] == '\t' && blanks[2] == '\n' && blanks[5] == '\r';
    assert blanks[3] as nat == 11 && blanks[4] as nat == 12;
    if IsSpace(c) && c != ' ' {
      assert c == blanks[c as nat - 8];
    }
  }

  /** std::atoi, for numbers that fit an int. */
  function Atoi(s: string): int {
    if s == "" then 0
    else if IsSpace(s[0]) then Atoi(s[1..])
    else if s[0] == '-' then 0 - Digits(s[1..], 0)
    else if s[0] == '+' then Digits(s[1..], 0)
    else Digits(s, 0)
  }

  /** A string as atoi sees it: blanks, a sign or none, digits, and what follows them. */
  datatype Numeral = Numeral(blanks: string, sign: string, digits: string, rest: string)

  ghost predicate IsNumeral(n: Numeral) {
    && (forall i :: 0 <= i < |n.blanks| ==> IsSpace(n.blanks[i]))
    && (n.sign == "" || n.sign == "+" || n.sign == "-")
    && AllDigits(n.digits)
    && (n.rest != "" ==> !IsDigit(n.rest[0]))
    && (n.sign == n.digits == "" && n.rest != "" ==> !IsSpace(n.rest[0]) && n.rest[0] != '+' && n.rest[0] != '-')
  }

  ghost function NumeralText(n: Numeral): string {
    n.blanks + n.sign + n.digits + n.rest
  }

  ghost function ValueOf(n: Numeral): int
    requires IsNumeral(n)
  {
    if n.sign == "-" then 0 - Positional(n.digits) else Positional(n.digits)
  }

  /** The text stands for this number. */
  ghost predicate Reads(s: string, value: int) {
    exists n :: IsNumeral(n) && NumeralText(n) == s && ValueOf(n) == value
  }

  /** The digits are read until something else comes. */
  lemma {:induction false} DigitsAre(done: string, digits: string, rest: string)
    requires AllDigits(done) && AllDigits(digits) && (rest != "" ==> !IsDigit(rest[0]))
    ensures AllDigits(done + digits) && Digits(digits + rest, Positional(done)) == Positional(done + digits)
    decreases |digits|
  {
    if digits == "" {
      assert digits + rest == rest && done + digits == done;
    } else {
      PositionalGrows(done, digits[0]);
      DigitsAre(done + [digits[0]], digits[1..], rest);
      assert (digits + rest)[1..] == digits[1..] + rest;
      assert done + [digits[0]] + digits[1..] == done + digits;
    }
  }

  /** atoi skips blanks, takes a sign, and reads digits to the first other character. */
  lemma {:induction false} AtoiReads(n: Numeral)
    requires IsNumeral(n)
    ensures Atoi(NumeralText(n)) == ValueOf(n)
    decreases |n.blanks|
  {
    if n.blanks != "" {
      var m := n.(blanks := n.blanks[1..]);
      AtoiReads(m);
      OneBlank(n);
    } else {
      SignedReads(n);
    }
  }

  lemma OneBlank(n: Numeral)
    requires n.blanks != "" && IsNumeral(n)
    ensures IsNumeral(n.(blanks := n.blanks[1..]))
    ensures Atoi(NumeralText(n)) == Atoi(NumeralText(n.(blanks := n.blanks[1..])))
  {
    var s := NumeralText(n);
    assert s[0] == n.blanks[0] && s[1..] == NumeralText(n.(blanks := n.blanks[1..]));
  }

  lemma SignedReads(n: Numeral)
    requires IsNumeral(n) && n.blanks == ""
    ensures Atoi(NumeralText(n)) == ValueOf(n)
  {
    var s := NumeralText(n);
    DigitsAre("", n.digits, n.rest);
    assert "" + n.digits == n.digits;
    hide Digits, Positional;
    if n.sign == "" {
      assert s == n.digits + n.rest;
    } else {
      assert s[0] == n.sign[0] && s[1..] == n.digits + n.rest;
    }
  }

  /** Every string is read as exactly one number. */
  lemma AtoiIs(s: string, value: int)
    ensures Atoi(s) == value <==> Reads(s, value)
  {
    hide Atoi, IsNumeral, NumeralText, ValueOf;
    var n := Parse(s);
    AtoiReads(n);
    if Reads(s, value) {
      var m :| IsNumeral(m) && NumeralText(m) == s && ValueOf(m) == value;
      AtoiReads(m);
    }
  }

  /** How many digits a string begins with. */
  ghost function Leading(s: string): (n: nat)
    ensures n <= |s| && AllDigits(s[..n]) && (n < |s| ==> !IsDigit(s[n]))
  {
    if s == "" || !IsDigit(s[0]) then 0 else 1 + Leading(s[1..])
  }

  lemma {:induction false} Parse(s: string) returns (n: Numeral)
    ensures IsNumeral(n) && NumeralText(n) == s
  {
    if s != "" && IsSpace(s[0]) {
      var m := Parse(s[1..]);
      n := m.(blanks := [s[0]] + m.blanks);
      assert s == [s[0]] + s[1..];
      assert NumeralText(n) == [s[0]] + NumeralText(m);
    } else {
      n := ParseSigned(s);
    }
  }

  lemma ParseSigned(s: string) returns (n: Numeral)
    requires s == "" || !IsSpace(s[0])
    ensures IsNumeral(n) && NumeralText(n) == s
  {
    if s != "" && (s[0] == '-' || s[0] == '+') {
      var digits, rest := ParseDigits(s[1..]);
      n := Numeral("", [s[0]], digits, rest);
      assert "" + [s[0]] + digits + rest == [s[0]] + (digits + rest);
      assert s == [s[0]] + s[1..];
      assert [s[0]] == "-" || [s[0]] == "+";
    } else {
      var digits, rest := ParseDigits(s);
      n := Numeral("", "", digits, rest);
      assert "" + "" + digits + rest == digits + rest;
      assert digits == "" ==> rest == s;
    }
    hide AllDigits;
  }

  lemma ParseDigits(s: string) returns (digits: string, rest: string)
    ensures digits + rest == s && AllDigits(digits) && (rest != "" ==> !IsDigit(rest[0]))
  {
    var k := Leading(s);
    digits, rest := s[..k], s[k..];
    hide Leading, AllDigits;
  }
}
