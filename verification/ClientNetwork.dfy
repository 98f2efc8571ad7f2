/** Networks in CIDR form and their match (parseNetwork and clientAddressMatches in
    src/client-address.ts). */
module ClientNetwork {
  import opened Strings
  import opened Numerals
  import opened AddressText
  import opened ClientAddress

  datatype Network = Network(address: Address, shift: nat)

  function Width(family: Family): nat { if family == IPv4 then 32 else 128 }

  predicate IsPrefixLength(text: string) { |text| <= 3 && IsNumeral(text, 10) && Shortest(text) }

  function ParseNetwork(value: string): (network: Option<Network>)
    ensures network.Some? ==> network.value.shift <= Width(network.value.address.family)
  {
    var parts := Split(value, '/');
    var address := ParseAddress(parts[0]);
    if address.None? || |parts| > 2 || (|parts| == 2 && !IsPrefixLength(parts[1])) then None
    else
      var width := Width(address.value.family);
      var length := if |parts| == 1 then width else NumeralValue(parts[1], 10);
      if address.value.mapped && |parts| == 2 then
        if length < 96 || length > 128 then None else Some(Network(address.value, width - (length - 96)))
      else if length > width then None
      else Some(Network(address.value, width - length))
  }

  function PowerOfTwo(exponent: nat): (power: nat)
    ensures power > 0
  {
    if exponent == 0 then 1 else 2 * PowerOfTwo(exponent - 1)
  }

  function ShiftRight(n: nat, shift: nat): nat {
    if shift == 0 then n else ShiftRight(n / 2, shift - 1)
  }

  function ClientAddressMatches(address: string, network: string): bool {
    var client, range := ParseAddress(address), ParseNetwork(network);
    client.Some? && range.Some? && client.value.family == range.value.address.family &&
    ShiftRight(client.value.bits, range.value.shift) == ShiftRight(range.value.address.bits, range.value.shift)
  }

  // ---------- bits ----------

  /** The bits of a number, most significant first. */
  function Bits(n: nat, width: nat): (bits: seq<bool>)
    ensures |bits| == width
  {
    if width == 0 then [] else Bits(n / 2, width - 1) + [n % 2 == 1]
  }

  /** Shifting right keeps the leading bits. */
  lemma {:induction false} ShiftKeepsPrefix(n: nat, width: nat, shift: nat)
    requires shift <= width
    ensures Bits(n, width)[..width - shift] == Bits(ShiftRight(n, shift), width - shift)
    decreases shift
  {
    if shift > 0 {
      ShiftKeepsPrefix(n / 2, width - 1, shift - 1);
      assert Bits(n, width)[..width - shift] == Bits(n / 2, width - 1)[..width - shift];
    }
  }

  lemma {:induction false} BitsInjective(a: nat, b: nat, width: nat)
    requires a < PowerOfTwo(width) && b < PowerOfTwo(width) && Bits(a, width) == Bits(b, width)
    ensures a == b
  {
    if width > 0 {
      var x, y := Bits(a, width), Bits(b, width);
      assert x[..width - 1] == Bits(a / 2, width - 1) && y[..width - 1] == Bits(b / 2, width - 1);
      assert x[width - 1] == y[width - 1];
      BitsInjective(a / 2, b / 2, width - 1);
    }
  }

  lemma {:induction false} ShiftBound(n: nat, width: nat, shift: nat)
    requires shift <= width && n < PowerOfTwo(width)
    ensures ShiftRight(n, shift) < PowerOfTwo(width - shift)
    decreases shift
  {
    if shift > 0 {
      ShiftBound(n / 2, width - 1, shift - 1);
    }
  }

  /** Equal after a right shift is equal in the leading bits. */
  lemma SamePrefix(a: nat, b: nat, width: nat, shift: nat)
    requires shift <= width && a < PowerOfTwo(width) && b < PowerOfTwo(width)
    ensures ShiftRight(a, shift) == ShiftRight(b, shift) <==> Bits(a, width)[..width - shift] == Bits(b, width)[..width - shift]
  {
    hide Bits, PowerOfTwo, ShiftRight;
    ShiftKeepsPrefix(a, width, shift);
    ShiftKeepsPrefix(b, width, shift);
    ShiftBound(a, width, shift);
    ShiftBound(b, width, shift);
    if Bits(a, width)[..width - shift] == Bits(b, width)[..width - shift] {
      BitsInjective(ShiftRight(a, shift), ShiftRight(b, shift), width - shift);
    }
  }

  lemma {:induction false} PositionalBound(digits: seq<nat>, base: nat, exponent: nat)
    requires base == PowerOfTwo(exponent) && Below(digits, base)
    ensures Positional(digits, base) < PowerOfTwo(exponent * |digits|)
  {
    if digits == [] {
      assert exponent * 0 == 0;
    } else {
      hide PowerOfTwo;
      var front, last := digits[..|digits| - 1], digits[|digits| - 1];
      PositionalBound(front, base, exponent);
      PowersMultiply(exponent * |front|, exponent);
      OneMoreFactor(exponent, |front|);
      Scaled(Positional(front, base), PowerOfTwo(exponent * |front|), base);
      assert last < base;
    }
  }

  lemma OneMoreFactor(exponent: nat, n: nat)
    ensures exponent * (n + 1) == exponent * n + exponent
  {
  }

  lemma Scaled(a: nat, b: nat, base: nat)
    requires a < b
    ensures a * base + base <= b * base
  {
    Distribute(b, a, base);
    if base > 0 { AtLeastOnce(b - a, base); }
  }

  lemma {:induction false} PowersMultiply(a: nat, b: nat)
    ensures PowerOfTwo(a) * PowerOfTwo(b) == PowerOfTwo(a + b)
  {
    if b > 0 {
      PowersMultiply(a, b - 1);
      assert PowerOfTwo(a) * (2 * PowerOfTwo(b - 1)) == 2 * (PowerOfTwo(a) * PowerOfTwo(b - 1));
    }
  }

  lemma Powers()
    ensures PowerOfTwo(8) == 256 && PowerOfTwo(16) == 65536
  {
    assert PowerOfTwo(4) == 16;
    PowersMultiply(4, 4);
    PowersMultiply(8, 8);
  }

  /** The number of an address fits its width. */
  lemma BitsFit(text: string)
    requires ParseAddress(text).Some?
    ensures ParseAddress(text).value.bits < PowerOfTwo(Width(ParseAddress(text).value.family))
  {
    hide ParseAddress, Unusable, Meaning, PowerOfTwo, Positional, Compressed, Dotted;
    ParseMeans(text);
    Powers();
    match Meaning(text).value
    case Octets(octets) => PositionalBound(octets, 256, 8);
    case SixWords(words) => PositionalBound(words, 65536, 16);
  }

  // ---------- main results on networks ----------

  /** The prefix length of a valid network, counted in the bits of its address. */
  function PrefixLength(network: Network): nat
    requires network.shift <= Width(network.address.family)
  {
    Width(network.address.family) - network.shift
  }

  lemma NetworkAddress(value: string)
    requires ParseNetwork(value).Some?
    ensures ParseAddress(Split(value, '/')[0]) == Some(ParseNetwork(value).value.address)
  {
    hide ParseAddress, Split;
  }

  /** Both texts are valid, of one family, and agree in as many leading bits as the network's prefix
      is long. */
  ghost predicate Within(address: string, network: string) {
    && ParseAddress(address).Some? && ParseNetwork(network).Some?
    && var client, range := ParseAddress(address).value, ParseNetwork(network).value;
       && client.family == range.address.family
       && var width, length := Width(client.family), PrefixLength(range);
          Bits(client.bits, width)[..length] == Bits(range.address.bits, width)[..length]
  }

  lemma MatchIsPrefix(address: string, network: string)
    ensures ClientAddressMatches(address, network) <==> Within(address, network)
  {
    hide ParseAddress, ParseNetwork, PowerOfTwo, Bits, Split;
    if ParseAddress(address).Some? && ParseNetwork(network).Some? {
      var client, range := ParseAddress(address).value, ParseNetwork(network).value;
      NetworkAddress(network);
      BitsFit(address);
      BitsFit(Split(network, '/')[0]);
      if client.family == range.address.family {
        SamePrefix(client.bits, range.address.bits, Width(client.family), range.shift);
      }
    }
  }

  function WithPrefix(literal: string, length: nat): string { literal + "/" + Numeral(length, 10) }

  /** A literal with a prefix length, read back. */
  lemma WithPrefixParses(literal: string, length: nat)
    requires length <= 128
    ensures ParseNetwork(WithPrefix(literal, length)) ==
      if '/' in literal || ParseAddress(literal).None? then None
      else
        var address := ParseAddress(literal).value;
        if address.mapped then if length < 96 then None else Some(Network(address, Width(address.family) - (length - 96)))
        else if length > Width(address.family) then None
        else Some(Network(address, Width(address.family) - length))
  {
    hide ParseAddress, Split, NumeralValue, Numeral;
    var digits := Numeral(length, 10);
    ValueOfNumeral(length, 10);
    DigitsLength(length);
    assert '/' !in digits;
    SplitAppend(literal, digits, '/');
    SplitWhole(digits, '/');
    if '/' in literal {
      if |Split(literal, '/')| == 1 { OnePart(literal); }
    } else {
      SplitWhole(literal, '/');
    }
  }

  /** No other text is a network: a literal by itself, or with a slash and a length of at most 128
      written as the shortest decimal numeral. */
  lemma NetworksAreWritten(value: string)
    ensures ParseNetwork(value).Some? <==>
              || ('/' !in value && ParseAddress(value).Some?)
              || exists literal, length: nat :: length <= 128 && value == WithPrefix(literal, length) && ParseNetwork(WithPrefix(literal, length)).Some?
  {
    hide ParseAddress, Split, NumeralValue, Numeral, Shortest;
    var parts := Split(value, '/');
    JoinOfSplit(value, '/');
    if '/' !in value {
      SplitWhole(value, '/');
    } else if ParseNetwork(value).Some? {
      if |parts| == 1 { OnePart(value); }
      JoinOfTwo(parts, '/');
      NumeralOfValue(parts[1], 10);
      assert value == WithPrefix(parts[0], NumeralValue(parts[1], 10));
    }
  }

  lemma OnePart(text: string)
    requires |Split(text, '/')| == 1
    ensures '/' !in text
  {
    JoinOfSplit(text, '/');
  }

  lemma DigitsLength(n: nat)
    requires n <= 128
    ensures |Numeral(n, 10)| <= 3
  {
    OctetLength(n);
  }

  lemma PrefixPrefix(a: seq<bool>, b: seq<bool>, short: nat, long: nat)
    requires short <= long <= |a| == |b| && a[..long] == b[..long]
    ensures a[..short] == b[..short]
  {
    assert a[..short] == a[..long][..short];
  }

  /** A shorter prefix matches whatever a longer one matches. */
  lemma ShorterPrefixMatchesMore(address: string, literal: string, short: nat, long: nat)
    requires short <= long <= 128 && ParseNetwork(WithPrefix(literal, short)).Some?
    requires ClientAddressMatches(address, WithPrefix(literal, long))
    ensures ClientAddressMatches(address, WithPrefix(literal, short))
  {
    hide ParseAddress, ParseNetwork, PowerOfTwo, Bits, ClientAddressMatches;
    WithPrefixParses(literal, short);
    WithPrefixParses(literal, long);
    MatchIsPrefix(address, WithPrefix(literal, short));
    MatchIsPrefix(address, WithPrefix(literal, long));
    var client, literalAddress := ParseAddress(address).value, ParseAddress(literal).value;
    var width := Width(client.family);
    var base := if literalAddress.mapped then 96 else 0;
    PrefixPrefix(Bits(client.bits, width), Bits(literalAddress.bits, width), short - base, long - base);
  }

  /** An IPv4-mapped network is the IPv4 network with 96 bits less of prefix. */
  lemma MappedNetworkAgrees(address: string, mapped: string, dotted: string, length: nat)
    requires length <= 32 && '/' !in mapped && '/' !in dotted
    requires ParseAddress(mapped).Some? && ParseAddress(mapped).value.mapped
    requires ParseAddress(dotted).Some? && !ParseAddress(dotted).value.mapped && ParseAddress(dotted).value.family == IPv4
    requires Meaning(mapped) == Meaning(dotted)
    ensures ClientAddressMatches(address, WithPrefix(mapped, 96 + length)) <==> ClientAddressMatches(address, WithPrefix(dotted, length))
  {
    hide ParseAddress, ParseNetwork, PowerOfTwo, Meaning;
    WithPrefixParses(mapped, 96 + length);
    WithPrefixParses(dotted, length);
    SameCanonicalText(mapped, dotted);
  }

  lemma MappedSide(dotted: string)
    requires IsDotted(dotted)
    ensures Side("ffff:" + dotted, true) == Some([0xffff] + Pair(dotted))
  {
    hide Positional, DigitValues, Split, IsDotted, Pair, NumeralValue;
    DottedHasNoColon(dotted);
    SplitAppend("ffff", dotted, ':');
    SplitWhole("ffff", ':');
    SplitWhole(dotted, ':');
    FourFs();
    assert "ffff:" + dotted == "ffff" + [':'] + dotted;
    assert ["ffff"] + [dotted] == ["ffff", dotted] && ["ffff", dotted][1..] == [dotted];
    assert Words([dotted], true) == Some(Pair(dotted));
  }

  /** "::ffff:" before a dotted quad makes the mapped literal of the same address. */
  lemma MappedLiteral(dotted: string)
    requires IsDotted(dotted)
    ensures Meaning("::ffff:" + dotted) == Meaning(dotted)
  {
    hide Positional, DigitValues, Split, IsDotted, Side, NumeralValue, V6Words, Pair;
    var octets := OctetsOf(dotted);
    NotDottedWithColon("::ffff:" + dotted);
    MappedWords(dotted);
    PairOfOctets(dotted);
    var words := Zeros(5) + [0xffff] + Pair(dotted);
    assert words[..6] == MAPPED_PREFIX && words[6] == Pair(dotted)[0] && words[7] == Pair(dotted)[1];
    DivMod(octets[0], octets[1], 256);
    DivMod(octets[2], octets[3], 256);
    assert PairOctets(words[6], words[7]) == octets;
  }

  lemma PairOfOctets(dotted: string)
    requires IsDotted(dotted)
    ensures var octets := OctetsOf(dotted);
            Pair(dotted) == [octets[0] * 256 + octets[1], octets[2] * 256 + octets[3]]
  {
    hide IsDotted, Split;
  }

  lemma MappedWords(dotted: string)
    requires IsDotted(dotted)
    ensures V6Words("::ffff:" + dotted) == Some(Zeros(5) + [0xffff] + Pair(dotted))
  {
    hide Positional, DigitValues, Split, IsDotted, Side, NumeralValue, Pair, DoubleColon, Words, V6Words;
    var right := "ffff:" + dotted;
    NothingDoubled();
    DividedSides("", right);
    assert "::ffff:" + dotted == "" + "::" + right;
    MappedSide(dotted);
    EmptySide();
    assert [] + Zeros(5) + ([0xffff] + Pair(dotted)) == Zeros(5) + [0xffff] + Pair(dotted);
  }

  lemma NothingDoubled()
    ensures DoubleColon("") == 0
  {
  }

  lemma EmptySide()
    ensures Side("", false) == Some([])
  {
  }

  lemma FourFs()
    ensures IsGroup("ffff") && NumeralValue("ffff", 16) == 0xffff && !IsDotted("ffff")
  {
    assert Numeral(0xfff, 16) == "fff" by { assert Numeral(0xff, 16) == "ff"; }
    assert Numeral(0xffff, 16) == "ffff";
    ValueOfNumeral(0xffff, 16);
    NotDotted("ffff");
  }

  lemma NotDottedWithColon(text: string)
    requires ':' in text
    ensures !IsDotted(text)
  {
    if IsDotted(text) { DottedHasNoColon(text); }
  }

  /** A network without a prefix length holds exactly the literals of its own address. */
  lemma WholeAddressMatches(address: string, literal: string)
    requires ParseAddress(address).Some? && ParseAddress(literal).Some? && '/' !in literal
    ensures ClientAddressMatches(address, literal) <==> Meaning(address) == Meaning(literal)
  {
    hide ParseAddress, Meaning;
    SplitWhole(literal, '/');
    SameCanonicalText(address, literal);
  }
}
