/** Client addresses (src/client-address.ts): reading a literal, its canonical text after RFC 5952,
    and matching against a network. */
module ClientAddress {
  import opened Strings
  import opened Numerals
  import opened AddressText

  datatype Family = IPv4 | IPv6
  datatype Address = Address(family: Family, bits: nat, canonical: string, mapped: bool)

  const TWO_TO_THE_32: nat := 0x1_0000_0000

  // ---------- what a literal means ----------

  /** The six words before an IPv4-mapped address (section 2.5.5.2 of RFC 4291). */
  const MAPPED_PREFIX: seq<nat> := [0, 0, 0, 0, 0, 0xffff]

  /** The address a literal denotes: its family and its octets or words. */
  datatype Denoted = Octets(octets: seq<nat>) | SixWords(words: seq<nat>)

  function Meaning(text: string): (denoted: Option<Denoted>)
    ensures denoted.Some? && denoted.value.Octets? ==> |denoted.value.octets| == 4 && Below(denoted.value.octets, 256)
    ensures denoted.Some? && denoted.value.SixWords? ==>
              |denoted.value.words| == 8 && Below(denoted.value.words, 65536) && denoted.value.words[..6] != MAPPED_PREFIX
  {
    if IsDotted(text) then Some(Octets(OctetsOf(text)))
    else
      match V6Words(text)
      case None => None
      case Some(words) =>
        if words[..6] == MAPPED_PREFIX then Some(Octets(PairOctets(words[6], words[7]))) else Some(SixWords(words))
  }

  function PairOctets(high: nat, low: nat): (octets: seq<nat>)
    requires high < 65536 && low < 65536
    ensures |octets| == 4 && Below(octets, 256)
  {
    [high / 256, high % 256, low / 256, low % 256]
  }

  // ---------- the longest run of zero words ----------

  ghost predicate AllZero(words: seq<nat>, from: int, end: int) {
    0 <= from <= end <= |words| && forall i :: from <= i < end ==> words[i] == 0
  }

  /** The run to compress after sections 4.2.2 and 4.2.3 of RFC 5952: the longest, the first among
      equals, and never a single word.  A negative start says there is none. */
  ghost predicate IsFirstLongest(words: seq<nat>, start: int, length: nat) {
    && (forall from, end {:trigger AllZero(words, from, end)} :: AllZero(words, from, end) ==> end - from <= length)
    && (start < 0 ==> length == 1)
    && (start >= 0 ==> length >= 2 && AllZero(words, start, start + length))
    && (start >= 0 ==> forall from, end {:trigger AllZero(words, from, end)} ::
          AllZero(words, from, end) && end - from == length ==> start <= from)
  }

  lemma FirstLongestIsUnique(words: seq<nat>, a: int, m: nat, b: int, n: nat)
    requires IsFirstLongest(words, a, m) && IsFirstLongest(words, b, n)
    ensures m == n && (a < 0 <==> b < 0) && (a >= 0 ==> a == b)
  {
    if a >= 0 { assert AllZero(words, a, a + m); }
    if b >= 0 { assert AllZero(words, b, b + n); }
  }

  function RunEnd(words: seq<nat>, from: nat): (end: nat)
    requires from <= |words|
    ensures AllZero(words, from, end) && (end < |words| ==> words[end] != 0)
    decreases |words| - from
  {
    if from < |words| && words[from] == 0 then RunEnd(words, from + 1) else from
  }

  function ZeroRunFrom(words: seq<nat>, i: nat, start: int, length: nat): (int, nat)
    requires i <= |words|
    decreases |words| - i
  {
    if i == |words| then (start, length)
    else if words[i] != 0 then ZeroRunFrom(words, i + 1, start, length)
    else
      var end := RunEnd(words, i + 1);
      if end - i > length then ZeroRunFrom(words, end, i, end - i) else ZeroRunFrom(words, end, start, length)
  }

  function ZeroRun(words: seq<nat>): (int, nat) { ZeroRunFrom(words, 0, -1, 1) }

  /** The runs that begin before i are accounted for. */
  ghost predicate LongestSoFar(words: seq<nat>, i: nat, start: int, length: nat) {
    && (forall from, end {:trigger AllZero(words, from, end)} :: AllZero(words, from, end) && from < i ==> end - from <= length)
    && length >= 1 && (start < 0 ==> length == 1)
    && (start >= 0 ==> length >= 2 && start < i && AllZero(words, start, start + length))
    && (start >= 0 ==> forall from, end {:trigger AllZero(words, from, end)} ::
          AllZero(words, from, end) && end - from == length ==> start <= from)
  }

  lemma SkipWord(words: seq<nat>, i: nat, start: int, length: nat)
    requires i < |words| && words[i] != 0 && LongestSoFar(words, i, start, length)
    ensures LongestSoFar(words, i + 1, start, length)
  {
    forall from, end | AllZero(words, from, end) && from < i + 1 ensures end - from <= length {
      if from == i { assert end == i; }
    }
  }

  lemma TakeRun(words: seq<nat>, i: nat, end: nat, start: int, length: nat)
    requires i < end <= |words| && LongestSoFar(words, i, start, length)
    requires AllZero(words, i, end) && (end < |words| ==> words[end] != 0)
    ensures if end - i > length then LongestSoFar(words, end, i, end - i) else LongestSoFar(words, end, start, length)
  {
    forall from, to | AllZero(words, from, to) && i <= from < end ensures to <= end {
      assert forall k :: from <= k < to ==> words[k] == 0;
    }
  }

  lemma {:induction false} ZeroRunIsFirstLongest(words: seq<nat>, i: nat, start: int, length: nat)
    requires i <= |words| && LongestSoFar(words, i, start, length)
    ensures var (s, n) := ZeroRunFrom(words, i, start, length);
            IsFirstLongest(words, s, n) && (s < 0 || s + n <= |words|) && n >= 1
    decreases |words| - i
  {
    if i == |words| {
    } else if words[i] != 0 {
      SkipWord(words, i, start, length);
      ZeroRunIsFirstLongest(words, i + 1, start, length);
    } else {
      var end := RunEnd(words, i + 1);
      assert AllZero(words, i, end);
      TakeRun(words, i, end, start, length);
      if end - i > length {
        ZeroRunIsFirstLongest(words, end, i, end - i);
      } else {
        ZeroRunIsFirstLongest(words, end, start, length);
      }
    }
  }

  /** The loop of the source. */
  method LongestZeroRun(words: seq<nat>) returns (start: int, length: nat)
    ensures (start, length) == ZeroRun(words) && IsFirstLongest(words, start, length)
  {
    start, length := -1, 1;
    var i := 0;
    while i < |words|
      invariant i <= |words| && LongestSoFar(words, i, start, length)
      invariant ZeroRunFrom(words, i, start, length) == ZeroRun(words)
    {
      if words[i] != 0 {
        SkipWord(words, i, start, length);
        i := i + 1;
        continue;
      }
      var from := i;
      while i < |words| && words[i] == 0
        invariant from <= i <= |words| && AllZero(words, from, i)
        invariant RunEnd(words, from) == RunEnd(words, i)
      {
        i := i + 1;
      }
      TakeRun(words, from, i, start, length);
      if i - from > length {
        start, length := from, i - from;
      }
    }
  }

  // ---------- canonical text ----------

  function Hexes(words: seq<nat>): (texts: seq<string>)
    ensures |texts| == |words| && forall i :: 0 <= i < |words| ==> texts[i] == Numeral(words[i], 16)
  {
    seq(|words|, i requires 0 <= i < |words| => Numeral(words[i], 16))
  }

  function Decimals(octets: seq<nat>): (texts: seq<string>)
    ensures |texts| == |octets| && forall i :: 0 <= i < |octets| ==> texts[i] == Numeral(octets[i], 10)
  {
    seq(|octets|, i requires 0 <= i < |octets| => Numeral(octets[i], 10))
  }

  function Dotted(octets: seq<nat>): string { Join(Decimals(octets), '.') }

  function CompressedAt(words: seq<nat>, start: int, length: nat): string
    requires start < 0 || start + length <= |words|
  {
    if start < 0 then Join(Hexes(words), ':')
    else Join(Hexes(words)[..start], ':') + "::" + Join(Hexes(words)[start + length..], ':')
  }

  lemma ZeroRunFits(words: seq<nat>)
    ensures var (start, length) := ZeroRun(words); IsFirstLongest(words, start, length) && (start < 0 || start + length <= |words|)
  {
    ZeroRunIsFirstLongest(words, 0, -1, 1);
  }

  function Compressed(words: seq<nat>): string {
    ZeroRunFits(words);
    var (start, length) := ZeroRun(words);
    CompressedAt(words, start, length)
  }

  // ---------- parseAddress ----------

  /** What the character class \\s holds in JavaScript. */
  predicate IsSpace(c: char) {
    var code := c as int;
    9 <= code <= 13 || code == 0x20 || code == 0xa0 || code == 0x1680 || 0x2000 <= code <= 0x200a ||
    code == 0x2028 || code == 0x2029 || code == 0x202f || code == 0x205f || code == 0x3000 || code == 0xfeff
  }

  predicate Unusable(text: string) { |text| > 45 || exists c :: c in text && (c == '%' || IsSpace(c)) }

  function ParseAddress(text: string): Option<Address> {
    if Unusable(text) then None
    else if IsDotted(text) then Some(Address(IPv4, Positional(OctetsOf(text), 256), text, false))
    else if V6Words(text).None? then None
    else
      V6Lower(text);
      ExpandedKeeps(Lower(text));
      var words := SourceWords(Expanded(Lower(text)));
      var bits := Positional(words, 65536);
      if bits / TWO_TO_THE_32 == 0xffff then
        var ipv4 := bits % TWO_TO_THE_32;
        Some(Address(IPv4, ipv4, Dotted([ipv4 / 0x100_0000, ipv4 / 0x1_0000 % 256, ipv4 / 0x100 % 256, ipv4 % 256]), true))
      else Some(Address(IPv6, bits, Compressed(words), false))
  }

  function CanonicalClientAddress(text: string): Option<string> {
    var address := ParseAddress(text);
    if address.None? then None else Some(address.value.canonical)
  }

  // ---------- what parsing computes ----------

  lemma DottedText(text: string)
    requires IsDotted(text)
    ensures Dotted(OctetsOf(text)) == text
  {
    var parts := Split(text, '.');
    forall i | 0 <= i < 4 ensures Decimals(OctetsOf(text))[i] == parts[i] { NumeralOfValue(parts[i], 10); }
    assert Decimals(OctetsOf(text)) == parts;
    JoinOfSplit(text, '.');
  }

  lemma PositionalStep(front: seq<nat>, last: nat, base: nat)
    ensures Positional(front + [last], base) == Positional(front, base) * base + last
  {
    assert (front + [last])[..|front|] == front;
  }

  /** The number of eight words, cut into its upper six and its lower two. */
  lemma LowWords(words: seq<nat>)
    requires |words| == 8 && Below(words, 65536)
    ensures Positional(words, 65536) / TWO_TO_THE_32 == Positional(words[..6], 65536)
    ensures Positional(words, 65536) % TWO_TO_THE_32 == words[6] * 65536 + words[7]
  {
    var high := Positional(words[..6], 65536);
    assert words[..7] == words[..6] + [words[6]] && words == words[..7] + [words[7]];
    PositionalStep(words[..6], words[6], 65536);
    PositionalStep(words[..7], words[7], 65536);
    DivMod(high, words[6] * 65536 + words[7], TWO_TO_THE_32);
  }

  lemma {:induction false} ZerosAreZero(zeros: seq<nat>)
    requires AllZero(zeros, 0, |zeros|)
    ensures Positional(zeros, 65536) == 0
  {
    if zeros != [] {
      assert AllZero(zeros[..|zeros| - 1], 0, |zeros| - 1);
      ZerosAreZero(zeros[..|zeros| - 1]);
    }
  }

  lemma MappedTest(words: seq<nat>)
    requires |words| == 8 && Below(words, 65536)
    ensures Positional(words, 65536) / TWO_TO_THE_32 == 0xffff <==> words[..6] == MAPPED_PREFIX
  {
    LowWords(words);
    ZerosAreZero(Zeros(5));
    PositionalStep(Zeros(5), 0xffff, 65536);
    assert Zeros(5) + [0xffff] == MAPPED_PREFIX;
    if Positional(words, 65536) / TWO_TO_THE_32 == 0xffff { PositionalInjective(words[..6], MAPPED_PREFIX, 65536); }
  }

  lemma OctetsNumber(octets: seq<nat>)
    requires |octets| == 4
    ensures Positional(octets, 256) == octets[0] * 0x100_0000 + octets[1] * 0x1_0000 + octets[2] * 0x100 + octets[3]
  {
    assert octets == [] + [octets[0]] + [octets[1]] + [octets[2]] + [octets[3]];
    PositionalStep([], octets[0], 256);
    PositionalStep([] + [octets[0]], octets[1], 256);
    PositionalStep([] + [octets[0]] + [octets[1]], octets[2], 256);
    PositionalStep([] + [octets[0]] + [octets[1]] + [octets[2]], octets[3], 256);
  }

  function ShiftedOctets(ipv4: nat): seq<nat> {
    [ipv4 / 0x100_0000, ipv4 / 0x1_0000 % 256, ipv4 / 0x100 % 256, ipv4 % 256]
  }

  lemma MappedOctets(high: nat, low: nat)
    requires high < 65536 && low < 65536
    ensures ShiftedOctets(high * 65536 + low) == PairOctets(high, low)
    ensures Positional(PairOctets(high, low), 256) == high * 65536 + low
  {
    hide Positional;
    OctetsNumber(PairOctets(high, low));
    var a, b, c, d := high / 256, high % 256, low / 256, low % 256;
    var ipv4 := high * 65536 + low;
    assert high == a * 256 + b && low == c * 256 + d;
    assert ipv4 == (a * 0x1_0000 + b * 0x100 + c) * 0x100 + d;
    DivMod(a * 0x1_0000 + b * 0x100 + c, d, 0x100);
    DivMod(a * 0x100 + b, c, 0x100);
    DivMod(high, low, 0x1_0000);
    DivMod(a, b * 0x1_0000 + low, 0x100_0000);
  }

  ghost predicate Denotes(address: Address, denoted: Denoted) {
    match denoted
    case Octets(octets) =>
      address.family == IPv4 && address.bits == Positional(octets, 256) && address.canonical == Dotted(octets)
    case SixWords(words) =>
      address.family == IPv6 && address.bits == Positional(words, 65536) && address.canonical == Compressed(words)
  }

  /** The length limit and the refused characters keep no literal of the grammar out. */
  lemma LiteralsAreUsable(text: string)
    requires Meaning(text).Some?
    ensures !Unusable(text)
  {
    hide IsDotted, V6Words, Split;
    if IsDotted(text) { DottedIsShort(text); } else { V6IsShort(text); }
  }

  /** Parsing accepts exactly the literals of the grammar, gives what they denote, and prints it. */
  lemma ParseMeans(text: string)
    ensures ParseAddress(text).Some? <==> Meaning(text).Some?
    ensures ParseAddress(text).Some? ==> Denotes(ParseAddress(text).value, Meaning(text).value)
    ensures ParseAddress(text).Some? ==> (ParseAddress(text).value.mapped <==> Meaning(text).value.Octets? && !IsDotted(text))
  {
    hide IsDotted, V6Words, Split, Dotted, Compressed, Positional, Expanded, SourceWords, PairOctets, Unusable;
    if Meaning(text).Some? { LiteralsAreUsable(text); }
    if IsDotted(text) {
      DottedText(text);
    } else if V6Words(text).Some? {
      V6Lower(text);
      ExpandedKeeps(Lower(text));
      SourceWordsAreMeant(Expanded(Lower(text)));
      var words := V6Words(text).value;
      MappedTest(words);
      LowWords(words);
      MappedOctets(words[6], words[7]);
    }
  }

  // ---------- the canonical text is read back ----------

  predicate IsPlain(c: char) { '0' <= c <= '9' || 'a' <= c <= 'f' || c == '.' || c == ':' }

  lemma NumeralIsPlain(n: nat, base: nat)
    requires base == 10 || base == 16
    ensures forall c :: c in Numeral(n, base) ==> IsPlain(c) && c != '.' && c != ':'
  {
    ValueOfNumeral(n, base);
  }

  lemma DottedMeans(octets: seq<nat>)
    requires |octets| == 4 && Below(octets, 256)
    ensures !Unusable(Dotted(octets)) && IsDotted(Dotted(octets)) && OctetsOf(Dotted(octets)) == octets
  {
    hide Positional, DigitValues, Numeral, Split;
    var parts, text := Decimals(octets), Dotted(octets);
    forall i | 0 <= i < 4 ensures IsOctet(parts[i]) && NumeralValue(parts[i], 10) == octets[i] && '.' !in parts[i] {
      ValueOfNumeral(octets[i], 10);
      OctetLength(octets[i]);
      NumeralIsPlain(octets[i], 10);
    }
    SplitOfJoin(parts, '.');
    JoinLength(parts, '.', 3);
    forall c | c in text ensures IsPlain(c) {
      if c != '.' {
        CharInAPart(parts, '.', c);
        var k :| 0 <= k < |parts| && c in parts[k];
        NumeralIsPlain(octets[k], 10);
      }
    }
  }

  lemma HexPieces(words: seq<nat>)
    requires Below(words, 65536)
    ensures var pieces := Hexes(words);
            && (forall i :: 0 <= i < |pieces| ==> IsGroup(pieces[i]) && pieces[i] != "" && ':' !in pieces[i])
            && Values(pieces, 16) == words
            && (forall c :: c in Join(pieces, ':') ==> IsPlain(c) && c != '.')
            && |Join(pieces, ':')| <= 5 * |words|
  {
    hide Positional, DigitValues, Numeral, Join;
    var pieces := Hexes(words);
    forall i | 0 <= i < |words| ensures IsGroup(pieces[i]) && ':' !in pieces[i] && NumeralValue(pieces[i], 16) == words[i] {
      ValueOfNumeral(words[i], 16);
      WordLength(words[i]);
      NumeralIsPlain(words[i], 16);
    }
    JoinLength(pieces, ':', 4);
    forall c | c in Join(pieces, ':') ensures IsPlain(c) && c != '.' {
      if c != ':' {
        CharInAPart(pieces, ':', c);
        var k :| 0 <= k < |pieces| && c in pieces[k];
        NumeralIsPlain(words[k], 16);
      }
    }
  }

  lemma {:induction false} WordsOfGroups(pieces: seq<string>, dotted: bool)
    requires forall i :: 0 <= i < |pieces| ==> IsGroup(pieces[i])
    ensures Words(pieces, dotted) == Some(Values(pieces, 16))
    decreases |pieces|
  {
    hide NumeralValue, Split;
    if pieces != [] {
      GroupHasNoColon(pieces[0]);
      NotDotted(pieces[0]);
      WordsOfGroups(pieces[1..], dotted);
      assert Values(pieces, 16) == [NumeralValue(pieces[0], 16)] + Values(pieces[1..], 16);
    } else {
      assert Values(pieces, 16) == [];
    }
  }

  /** One side of "::", or the whole text, is read back. */
  lemma SideMeans(words: seq<nat>, dotted: bool)
    requires Below(words, 65536)
    ensures Side(Join(Hexes(words), ':'), dotted) == Some(words)
    ensures words != [] ==> Words(Split(Join(Hexes(words), ':'), ':'), dotted) == Some(words)
    ensures DoubleColon(Join(Hexes(words), ':')) == |Join(Hexes(words), ':')|
  {
    hide Positional, DigitValues, Numeral, Split, Words, NumeralValue;
    HexPieces(words);
    DoubleColonOfJoin(Hexes(words));
    if words != [] {
      SplitOfJoin(Hexes(words), ':');
      WordsOfGroups(Hexes(words), dotted);
    }
  }

  lemma UncompressedMeans(words: seq<nat>)
    requires |words| == 8 && Below(words, 65536)
    ensures V6Words(Join(Hexes(words), ':')) == Some(words)
  {
    hide Split, Words, Hexes, Join;
    SideMeans(words, true);
  }

  lemma HexesSlice(words: seq<nat>, from: nat, end: nat)
    requires from <= end <= |words|
    ensures Hexes(words)[from..end] == Hexes(words[from..end])
  {
  }

  lemma CompressedAtMeans(words: seq<nat>, start: nat, length: nat)
    requires |words| == 8 && Below(words, 65536) && length >= 1 && start + length <= 8
    requires AllZero(words, start, start + length)
    ensures V6Words(CompressedAt(words, start, length)) == Some(words)
  {
    hide Split, Words, Join, Side, V6Words, DoubleColon, Hexes, Below;
    var left, right := words[..start], words[start + length..];
    CompressedPieces(words, start, length);
    PartsBelow(words, start, start + length);
    SideMeans(left, false);
    SideMeans(right, true);
    HexPieces(left);
    DoubleColonOfJoin(Hexes(left));
    if left == [] { EmptyJoin(); }
    DividedSides(Join(Hexes(left), ':'), Join(Hexes(right), ':'));
    assert left + Zeros(length) + right == words;
  }

  lemma PartsBelow(words: seq<nat>, start: nat, end: nat)
    requires start <= end <= |words| && Below(words, 65536)
    ensures Below(words[..start], 65536) && Below(words[end..], 65536)
  {
  }

  lemma CompressedPieces(words: seq<nat>, start: nat, length: nat)
    requires start + length <= |words|
    ensures CompressedAt(words, start, length) == Join(Hexes(words[..start]), ':') + "::" + Join(Hexes(words[start + length..]), ':')
  {
    hide Join;
    HexesSlice(words, 0, start);
    HexesSlice(words, start + length, |words|);
    assert Hexes(words)[..start] == Hexes(words)[0..start] && words[0..start] == words[..start];
    assert Hexes(words)[start + length..] == Hexes(words)[start + length..|words|] && words[start + length..|words|] == words[start + length..];
  }

  lemma EmptyJoin()
    ensures Join(Hexes([]), ':') == ""
  {
  }

  lemma CompressedMeans(words: seq<nat>)
    requires |words| == 8 && Below(words, 65536)
    ensures V6Words(Compressed(words)) == Some(words) && !IsDotted(Compressed(words)) && !Unusable(Compressed(words))
  {
    hide V6Words, Split, Join, IsFirstLongest, Below;
    ZeroRunFits(words);
    var (start, length) := ZeroRun(words);
    var text := CompressedAt(words, start, length);
    if start < 0 {
      UncompressedMeans(words);
      HexPieces(words);
    } else {
      assert AllZero(words, start, start + length) && length >= 2 by { OfFirstLongest(words, start, length); }
      CompressedAtMeans(words, start, length);
      CompressedText(words, start, length);
    }
    NotDotted(text);
  }

  lemma OfFirstLongest(words: seq<nat>, start: nat, length: nat)
    requires IsFirstLongest(words, start, length)
    ensures AllZero(words, start, start + length) && length >= 2
  {
  }

  lemma CompressedText(words: seq<nat>, start: nat, length: nat)
    requires |words| == 8 && Below(words, 65536) && start + length <= 8
    ensures var text := CompressedAt(words, start, length); |text| <= 42 && forall c :: c in text ==> IsPlain(c) && c != '.'
  {
    hide Join;
    var left, right := words[..start], words[start + length..];
    HexesSlice(words, 0, start);
    HexesSlice(words, start + length, 8);
    assert Hexes(words)[..start] == Hexes(words)[0..start] && Hexes(words)[start + length..] == Hexes(words)[start + length..8];
    assert words[0..start] == left && words[start + length..8] == right;
    HexPieces(left);
    HexPieces(right);
  }

  lemma CanonicalMeans(text: string)
    requires ParseAddress(text).Some?
    ensures Meaning(ParseAddress(text).value.canonical) == Meaning(text)
    ensures !Unusable(ParseAddress(text).value.canonical)
  {
    hide ParseAddress, IsDotted, V6Words, Unusable, Compressed, Dotted;
    ParseMeans(text);
    match Meaning(text).value
    case Octets(octets) => DottedMeans(octets);
    case SixWords(words) => CompressedMeans(words);
  }

  // ---------- main results on addresses ----------

  /** The canonical text parses to the same family and bits, and is its own canonical text. */
  lemma CanonicalRoundTrip(text: string)
    requires ParseAddress(text).Some?
    ensures ParseAddress(ParseAddress(text).value.canonical) == Some(ParseAddress(text).value.(mapped := false))
    ensures CanonicalClientAddress(ParseAddress(text).value.canonical) == CanonicalClientAddress(text)
  {
    hide ParseAddress, Unusable, Compressed, Dotted, Meaning;
    var canonical := ParseAddress(text).value.canonical;
    ParseMeans(text);
    CanonicalMeans(text);
    ParseMeans(canonical);
    match Meaning(text).value
    case Octets(octets) => DottedMeans(octets);
    case SixWords(words) => NotMapped(canonical);
  }

  lemma NotMapped(text: string)
    requires ParseAddress(text).Some? && Meaning(text).Some? && Meaning(text).value.SixWords?
    ensures !ParseAddress(text).value.mapped
  {
    ParseMeans(text);
  }

  lemma NumberIsMeaning(a: Denoted, b: Denoted, x: Address, y: Address)
    requires Denotes(x, a) && Denotes(y, b) && x.family == y.family && x.bits == y.bits
    requires a.Octets? ==> |a.octets| == 4 && Below(a.octets, 256)
    requires b.Octets? ==> |b.octets| == 4 && Below(b.octets, 256)
    requires a.SixWords? ==> |a.words| == 8 && Below(a.words, 65536)
    requires b.SixWords? ==> |b.words| == 8 && Below(b.words, 65536)
    ensures a == b
  {
    if a.Octets? {
      PositionalInjective(a.octets, b.octets, 256);
    } else {
      PositionalInjective(a.words, b.words, 65536);
    }
  }

  /** Two literals share a canonical text exactly when they denote the same address, which is when
      they parse to the same family and bits. */
  lemma SameCanonicalText(a: string, b: string)
    requires ParseAddress(a).Some? && ParseAddress(b).Some?
    ensures ParseAddress(a).value.canonical == ParseAddress(b).value.canonical <==> Meaning(a) == Meaning(b)
    ensures ParseAddress(a).value.family == ParseAddress(b).value.family && ParseAddress(a).value.bits == ParseAddress(b).value.bits
            <==> Meaning(a) == Meaning(b)
  {
    hide ParseAddress, Unusable, Compressed, Dotted, Meaning, Positional;
    ParseMeans(a);
    ParseMeans(b);
    CanonicalMeans(a);
    CanonicalMeans(b);
    var x, y := ParseAddress(a).value, ParseAddress(b).value;
    if x.family == y.family && x.bits == y.bits { NumberIsMeaning(Meaning(a).value, Meaning(b).value, x, y); }
  }

  /** The canonical text of an IPv6 address: its words in lower-case hexadecimal without leading
      zeros (sections 4.1 and 4.3 of RFC 5952), and "::" for exactly the run that sections 4.2.2
      and 4.2.3 name. */
  lemma CanonicalFollowsRfc5952(text: string) returns (words: seq<nat>, start: int, length: nat)
    requires ParseAddress(text).Some? && ParseAddress(text).value.family == IPv6
    ensures V6Words(text) == Some(words) && IsFirstLongest(words, start, length) && (start < 0 || start + length <= |words|)
    ensures ParseAddress(text).value.canonical == CompressedAt(words, start, length)
    ensures forall i :: 0 <= i < |words| ==> Shortest(Hexes(words)[i]) && NumeralValue(Hexes(words)[i], 16) == words[i]
  {
    hide ParseAddress, Unusable, IsFirstLongest, V6Words, NumeralValue, Numeral, IsDotted;
    ParseMeans(text);
    words := Meaning(text).value.words;
    ZeroRunFits(words);
    var (s, n) := ZeroRun(words);
    start, length := s, n;
    forall i | 0 <= i < |words| ensures Shortest(Hexes(words)[i]) && NumeralValue(Hexes(words)[i], 16) == words[i] {
      ValueOfNumeral(words[i], 16);
    }
  }
}
