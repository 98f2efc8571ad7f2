/** Numbers written as digits in a base, as text or as words of a fixed width. */
module Numerals {

  /** The number whose digits, most significant first, are the given ones. */
  function Positional(digits: seq<nat>, base: nat): nat {
    if digits == [] then 0 else Positional(digits[..|digits| - 1], base) * base + digits[|digits| - 1]
  }

  ghost predicate Below(digits: seq<nat>, base: nat) {
    forall i :: 0 <= i < |digits| ==> digits[i] < base
  }

  lemma AtLeastOnce(times: int, base: nat)
    requires times >= 1
    ensures times * base >= base
  {
    assert times * base == (times - 1) * base + base;
  }

  lemma Distribute(a: int, b: int, base: int)
    ensures (a - b) * base == a * base - b * base
  {
  }

  lemma DivMod(high: nat, low: nat, base: nat)
    requires low < base
    ensures (high * base + low) / base == high && (high * base + low) % base == low
  {
    var n := high * base + low;
    var q := n / base;
    assert n == q * base + n % base;
    Distribute(q, high, base);
    Distribute(high, q, base);
    if q < high { AtLeastOnce(high - q, base); }
    if q > high { AtLeastOnce(q - high, base); }
  }

  lemma Shifted(digits: seq<nat>, base: nat)
    requires base > 0 && digits != [] && Below(digits, base)
    ensures Positional(digits, base) / base == Positional(digits[..|digits| - 1], base)
    ensures Positional(digits, base) % base == digits[|digits| - 1]
  {
    DivMod(Positional(digits[..|digits| - 1], base), digits[|digits| - 1], base);
  }

  /** Digits of the same count are determined by their number. */
  lemma {:induction false} PositionalInjective(a: seq<nat>, b: seq<nat>, base: nat)
    requires |a| == |b| && Below(a, base) && Below(b, base) && Positional(a, base) == Positional(b, base)
    ensures a == b
  {
    if a != [] {
      Shifted(a, base);
      Shifted(b, base);
      PositionalInjective(a[..|a| - 1], b[..|b| - 1], base);
      assert a == a[..|a| - 1] + [a[|a| - 1]] && b == b[..|b| - 1] + [b[|b| - 1]];
    }
  }

  // ---------- text ----------

  function DigitValue(c: char): nat {
    if '0' <= c <= '9' then c as int - '0' as int
    else if 'a' <= c <= 'f' then c as int - 'a' as int + 10
    else if 'A' <= c <= 'F' then c as int - 'A' as int + 10
    else 16
  }

  function DigitChar(digit: nat): (c: char)
    requires digit < 16
    ensures DigitValue(c) == digit && !('A' <= c <= 'F')
  {
    "0123456789abcdef"[digit]
  }

  function DigitValues(text: string): (digits: seq<nat>)
    ensures |digits| == |text| && forall i :: 0 <= i < |text| ==> digits[i] == DigitValue(text[i])
  {
    seq(|text|, i requires 0 <= i < |text| => DigitValue(text[i]))
  }

  predicate IsNumeral(text: string, base: nat) {
    text != "" && forall c :: c in text ==> DigitValue(c) < base
  }

  function NumeralValue(text: string, base: nat): nat { Positional(DigitValues(text), base) }

  /** The shortest numeral, with digits in lower case. */
  function Numeral(n: nat, base: nat): string
    requires base == 10 || base == 16
    decreases n
  {
    if n < base then [DigitChar(n)] else Numeral(n / base, base) + [DigitChar(n % base)]
  }

  /** No leading zero and no upper case. */
  predicate Shortest(text: string) {
    text != "" && (|text| > 1 ==> text[0] != '0') && forall c :: c in text ==> !('A' <= c <= 'F')
  }

  lemma NumeralAppend(front: string, c: char, base: nat)
    ensures NumeralValue(front + [c], base) == NumeralValue(front, base) * base + DigitValue(c)
  {
    var digits := DigitValues(front + [c]);
    assert digits[..|digits| - 1] == DigitValues(front);
  }

  /** Reading a printed numeral gives the number. */
  lemma {:induction false} ValueOfNumeral(n: nat, base: nat)
    requires base == 10 || base == 16
    ensures IsNumeral(Numeral(n, base), base) && Shortest(Numeral(n, base))
    ensures NumeralValue(Numeral(n, base), base) == n
    ensures n > 0 ==> Numeral(n, base)[0] != '0'
    decreases n
  {
    if n < base {
      assert DigitValues([DigitChar(n)]) == [n];
      assert Positional([n][..0], base) == 0;
    } else {
      assert n / base * base + n % base == n;
      ValueOfNumeral(n / base, base);
      NumeralAppend(Numeral(n / base, base), DigitChar(n % base), base);
    }
  }

  lemma NumeralStep(high: nat, low: nat, base: nat)
    requires (base == 10 || base == 16) && high > 0 && low < base
    ensures Numeral(high * base + low, base) == Numeral(high, base) + [DigitChar(low)]
  {
    AtLeastOnce(high, base);
    DivMod(high, low, base);
  }

  /** Printing a number that was read gives the shortest text back. */
  lemma {:induction false} NumeralOfValue(text: string, base: nat)
    requires (base == 10 || base == 16) && IsNumeral(text, base) && Shortest(text)
    ensures Numeral(NumeralValue(text, base), base) == text
    ensures text[0] != '0' ==> NumeralValue(text, base) > 0
  {
    hide Numeral, Positional, DigitValues;
    var front, c := text[..|text| - 1], text[|text| - 1];
    assert text == front + [c];
    NumeralAppend(front, c, base);
    DigitBack(c);
    if front != "" {
      assert forall x :: x in front ==> x in text;
      NumeralOfValue(front, base);
      NumeralStep(NumeralValue(front, base), DigitValue(c), base);
      AtLeastOnce(NumeralValue(front, base), base);
    } else {
      OneDigit(c, base);
    }
  }

  lemma OneDigit(c: char, base: nat)
    requires (base == 10 || base == 16) && DigitValue(c) < base
    ensures NumeralValue([c], base) == DigitValue(c)
    ensures Numeral(DigitValue(c), base) == [DigitChar(DigitValue(c))]
  {
    assert DigitValues([c]) == [DigitValue(c)];
    assert Positional([DigitValue(c)][..0], base) == 0;
  }

  lemma DigitBack(c: char)
    requires DigitValue(c) < 16 && !('A' <= c <= 'F')
    ensures DigitChar(DigitValue(c)) == c
  {
  }

  /** Four hexadecimal digits fit a word of sixteen bits, and such a word needs no more. */
  lemma {:induction false} WordBound(text: string)
    requires IsNumeral(text, 16) && |text| <= 4
    ensures NumeralValue(text, 16) < (if |text| == 1 then 16 else if |text| == 2 then 256 else if |text| == 3 then 4096 else 65536)
  {
    var front, c := text[..|text| - 1], text[|text| - 1];
    assert text == front + [c];
    NumeralAppend(front, c, 16);
    if front != "" {
      assert forall x :: x in front ==> x in text;
      WordBound(front);
    } else {
      assert NumeralValue("", 16) == 0;
    }
  }

  lemma WordLength(n: nat)
    requires n < 65536
    ensures 1 <= |Numeral(n, 16)| <= 4
  {
    assert n >= 16 ==> |Numeral(n, 16)| == |Numeral(n / 16, 16)| + 1;
    var m := n / 16;
    assert m >= 16 ==> |Numeral(m, 16)| == |Numeral(m / 16, 16)| + 1;
    var k := m / 16;
    assert k >= 16 ==> |Numeral(k, 16)| == |Numeral(k / 16, 16)| + 1;
    assert k / 16 < 16;
  }

  lemma OctetLength(n: nat)
    requires n < 256
    ensures 1 <= |Numeral(n, 10)| <= 3
  {
    if n >= 10 {
      var m := n / 10;
      assert Numeral(m / 10, 10) == [DigitChar(m / 10)];
    }
  }
}
