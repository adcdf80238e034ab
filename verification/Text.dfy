/** Decimal text: the `itoa` helper and the `%d` of the store keys. */
module Text {

  function Digit(d: int): char
    requires 0 <= d < 10
  {
    '0' + (d as char)
  }

  predicate IsDigit(c: char) { '0' <= c <= '9' }

  function DigitValue(c: char): int { c as int - '0' as int }

  /** The decimal digits of `n`, none for 0. */
  function Digits(n: nat): (s: string)
    ensures forall i :: 0 <= i < |s| ==> IsDigit(s[i])
    ensures n > 0 ==> s != [] && s[0] != '0'
    ensures n == 0 ==> s == []
  {
    if n == 0 then [] else Digits(n / 10) + [Digit(n % 10)]
  }

  predicate AllDigits(s: string) { forall i :: 0 <= i < |s| ==> IsDigit(s[i]) }

  /** The number a string of digits denotes. */
  function Parse(s: string): (n: nat)
    requires AllDigits(s)
  {
    if s == [] then 0 else Parse(s[..|s| - 1]) * 10 + DigitValue(s[|s| - 1])
  }

  /** Decimal text without superfluous zeros. */
  predicate Canonical(s: string) { s != [] && AllDigits(s) && (s[0] == '0' ==> |s| == 1) }

  function Numeral(n: nat): string { if n == 0 then "0" else Digits(n) }

  lemma {:induction false} ParseDigits(n: nat)
    ensures Parse(Digits(n)) == n
  {
    if n > 0 {
      ParseDigits(n / 10);
      assert Digits(n)[..|Digits(n)| - 1] == Digits(n / 10);
    }
  }

  lemma DigitsStep(m: nat, c: char)
    requires IsDigit(c) && (m > 0 || c != '0')
    ensures m * 10 + DigitValue(c) > 0 && Digits(m * 10 + DigitValue(c)) == Digits(m) + [c]
  {}

  lemma {:induction false} DigitsOfParse(s: string)
    requires AllDigits(s) && (s != [] ==> s[0] != '0')
    ensures Digits(Parse(s)) == s && (s != [] ==> Parse(s) > 0)
  {
    if s != [] {
      var init, last := s[..|s| - 1], s[|s| - 1];
      DigitsOfParse(init);
      DigitsStep(Parse(init), last);
      assert s == init + [last];
    }
  }

  /** Parsing undoes the numeral, which is canonical... */
  lemma NumeralParses(n: nat)
    ensures Canonical(Numeral(n)) && Parse(Numeral(n)) == n
  {
    ParseDigits(n);
    assert "0"[..0] == [];
  }

  /** ... and the numeral undoes parsing on every canonical string. */
  lemma {:induction false} ParsedNumeral(s: string)
    requires Canonical(s)
    ensures Numeral(Parse(s)) == s
  {
    if s[0] == '0' {
      assert s == "0" && "0"[..0] == [];
    } else {
      DigitsOfParse(s);
    }
  }

  /** `itoa`, which divides and prepends; a negative number gives the empty string. */
  method Itoa(n: int) returns (s: string)
    ensures s == if n < 0 then "" else Numeral(n)
  {
    if n == 0 {
      return "0";
    }
    var rest, buf := n, "";
    while rest > 0
      invariant n < 0 ==> rest == n && buf == ""
      invariant n > 0 ==> rest >= 0 && Digits(n) == Digits(rest) + buf
    {
      buf := [Digit(rest % 10)] + buf;
      rest := rest / 10;
    }
    return buf;
  }

  /** The text of `%d`. */
  function Decimal(n: int): string { if n < 0 then "-" + Numeral(-n) else Numeral(n) }

  /** A numeral, after a minus sign for a negative number. */
  lemma DecimalParses(n: int)
    ensures n >= 0 ==> Canonical(Decimal(n)) && Parse(Decimal(n)) == n
    ensures n < 0 ==> Decimal(n)[0] == '-' && Canonical(Decimal(n)[1..]) && Parse(Decimal(n)[1..]) == -n
  {
    NumeralParses(if n < 0 then -n else n);
    if n < 0 { assert Decimal(n)[1..] == Numeral(-n); }
  }

  lemma DecimalHasNoColon(n: int)
    ensures ':' !in Decimal(n)
  {}

  lemma DecimalInjective(m: int, n: int)
    ensures Decimal(m) == Decimal(n) ==> m == n
  {
    NumeralParses(if m < 0 then -m else m);
    NumeralParses(if n < 0 then -n else n);
    if m < 0 { assert Decimal(m)[1..] == Numeral(-m); }
    if n < 0 { assert Decimal(n)[1..] == Numeral(-n); }
  }

  /** A text followed by a colon and a colon-free suffix can be taken apart in only one way. */
  lemma LastColonSplits(a: string, x: string, b: string, y: string)
    requires ':' !in x && ':' !in y && a + ":" + x == b + ":" + y
    ensures a == b && x == y
  {
    var s := a + ":" + x;
    assert s[|a|] == ':' && s[|b|] == ':';
    assert s[..|a|] == a && s[..|b|] == b && s[|a| + 1..] == x && s[|b| + 1..] == y;
  }
}
