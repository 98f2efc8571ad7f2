/** IP literals as text (node:net isIP and the first half of parseAddress in src/client-address.ts):
    the grammar with its meaning, the expansion of a dotted tail and of "::", and the proof that the
    words the source reads are the words the grammar means. */
module AddressText {
  import opened Strings
  import opened Numerals

  datatype Option<T> = None | Some(value: T)

  // ---------- the grammar of section 2.2 of RFC 4291, with its meaning ----------

  predicate IsOctet(part: string) {
    IsNumeral(part, 10) && Shortest(part) && |part| <= 3 && NumeralValue(part, 10) < 256
  }

  predicate IsDotted(text: string) {
    var parts := Split(text, '.');
    |parts| == 4 && forall i :: 0 <= i < 4 ==> IsOctet(parts[i])
  }

  function Values(parts: seq<string>, base: nat): (values: seq<nat>)
    ensures |values| == |parts| && forall i :: 0 <= i < |parts| ==> values[i] == NumeralValue(parts[i], base)
  {
    seq(|parts|, i requires 0 <= i < |parts| => NumeralValue(parts[i], base))
  }

  function OctetsOf(text: string): (octets: seq<nat>)
    requires IsDotted(text)
    ensures |octets| == 4 && Below(octets, 256)
  {
    Values(Split(text, '.'), 10)
  }

  predicate IsGroup(part: string) { |part| <= 4 && IsNumeral(part, 16) }

  /** The index of the first "::", or the length of the text. */
  function DoubleColon(text: string): (index: nat)
    ensures index == |text| || (index + 2 <= |text| && text[index] == ':' && text[index + 1] == ':')
  {
    if |text| < 2 then |text|
    else if text[0] == ':' && text[1] == ':' then 0
    else 1 + DoubleColon(text[1..])
  }

  /** The words of pieces that colons separated; a dotted quad may stand last for two words. */
  function Words(pieces: seq<string>, dotted: bool): (words: Option<seq<nat>>)
    ensures words.Some? ==> Below(words.value, 65536) && |pieces| <= |words.value| <= |pieces| + 1
    decreases |pieces|
  {
    if pieces == [] then Some([])
    else if dotted && |pieces| == 1 && IsDotted(pieces[0]) then Some(Pair(pieces[0]))
    else if !IsGroup(pieces[0]) then None
    else
      match Words(pieces[1..], dotted)
      case None => None
      case Some(rest) => WordBound(pieces[0]); Some([NumeralValue(pieces[0], 16)] + rest)
  }

  function Pair(text: string): (words: seq<nat>)
    requires IsDotted(text)
    ensures |words| == 2 && Below(words, 65536)
  {
    var octets := OctetsOf(text);
    [octets[0] * 256 + octets[1], octets[2] * 256 + octets[3]]
  }

  function Side(text: string, dotted: bool): (words: Option<seq<nat>>)
    ensures words.Some? ==> Below(words.value, 65536)
  {
    if text == "" then Some([]) else Words(Split(text, ':'), dotted)
  }

  function Zeros(count: nat): (zeros: seq<nat>)
    ensures |zeros| == count && forall i :: 0 <= i < count ==> zeros[i] == 0
  {
    seq(count, _ => 0)
  }

  /** The eight words of an IPv6 literal; "::" stands for one word of zero or more. */
  function V6Words(text: string): (words: Option<seq<nat>>)
    ensures words.Some? ==> |words.value| == 8 && Below(words.value, 65536)
  {
    var at := DoubleColon(text);
    if at == |text| then
      var words := Words(Split(text, ':'), true);
      if words.Some? && |words.value| == 8 then words else None
    else Filled(Side(text[..at], false), Side(text[at + 2..], true))
  }

  /** The words on both sides of "::", with zeros between them. */
  function Filled(left: Option<seq<nat>>, right: Option<seq<nat>>): (words: Option<seq<nat>>)
    requires left.Some? ==> Below(left.value, 65536)
    requires right.Some? ==> Below(right.value, 65536)
    ensures words.Some? ==> |words.value| == 8 && Below(words.value, 65536)
  {
    if left.Some? && right.Some? && |left.value| + |right.value| <= 7
    then Some(left.value + Zeros(8 - |left.value| - |right.value|) + right.value)
    else None
  }

  // ---------- the first "::" ----------

  lemma {:induction false} DoubleColonStays(front: string, back: string)
    requires DoubleColon(front) < |front|
    ensures DoubleColon(front + back) == DoubleColon(front)
  {
    if !(front[0] == ':' && front[1] == ':') {
      DoubleColonStays(front[1..], back);
      assert (front + back)[1..] == front[1..] + back;
    }
  }

  /** Text without "::" stays so when it is put before such text and no "::" forms between them. */
  lemma {:induction false} DoubleColonAbsent(front: string, back: string)
    requires DoubleColon(front) == |front| && DoubleColon(back) == |back|
    requires front == "" || back == "" || front[|front| - 1] != ':' || back[0] != ':'
    ensures DoubleColon(front + back) == |front + back|
  {
    if front == "" {
      assert front + back == back;
    } else {
      assert (front + back)[1..] == front[1..] + back;
      if |front| > 1 {
        assert DoubleColon(front) == 1 + DoubleColon(front[1..]);
        DoubleColonAbsent(front[1..], back);
      } else {
        assert DoubleColon(front[1..]) == 0;
        DoubleColonAbsent(front[1..], back);
      }
    }
  }

  /** The first "::" after text that has none and does not end in a colon. */
  lemma {:induction false} DoubleColonAfter(front: string, back: string)
    requires DoubleColon(front) == |front| && (front == "" || front[|front| - 1] != ':')
    ensures DoubleColon(front + "::" + back) == |front|
  {
    var text := front + "::" + back;
    if front != "" {
      assert text[1..] == front[1..] + "::" + back;
      if |front| > 1 { assert DoubleColon(front) == 1 + DoubleColon(front[1..]); }
      DoubleColonAfter(front[1..], back);
    }
  }

  lemma {:induction false} NoColonNoDouble(text: string)
    requires ':' !in text
    ensures DoubleColon(text) == |text|
  {
    if |text| >= 2 { NoColonNoDouble(text[1..]); }
  }

  /** Joining pieces that are not empty makes no "::". */
  lemma {:induction false} DoubleColonOfJoin(pieces: seq<string>)
    requires forall i :: 0 <= i < |pieces| ==> pieces[i] != "" && ':' !in pieces[i]
    ensures DoubleColon(Join(pieces, ':')) == |Join(pieces, ':')|
    ensures pieces != [] ==> Join(pieces, ':') != "" && Join(pieces, ':')[0] != ':' && Join(pieces, ':')[|Join(pieces, ':')| - 1] != ':'
    decreases |pieces|
  {
    if pieces != [] {
      NoColonNoDouble(pieces[0]);
      if |pieces| > 1 {
        DoubleColonOfJoin(pieces[1..]);
        assert DoubleColon(":") == 1;
        DoubleColonAbsent(":", Join(pieces[1..], ':'));
        DoubleColonAbsent(pieces[0], ":" + Join(pieces[1..], ':'));
        assert Join(pieces, ':') == pieces[0] + (":" + Join(pieces[1..], ':'));
      }
    }
  }

  // ---------- pieces ----------

  lemma {:induction false} PiecesAreNonEmpty(pieces: seq<string>, dotted: bool)
    requires Words(pieces, dotted).Some?
    ensures forall i :: 0 <= i < |pieces| ==> pieces[i] != ""
    decreases |pieces|
  {
    if pieces != [] {
      if dotted && |pieces| == 1 && IsDotted(pieces[0]) {
        assert Split("", '.') == [""];
      } else {
        PiecesAreNonEmpty(pieces[1..], dotted);
      }
    }
  }

  lemma {:induction false} GroupsHaveNoDot(pieces: seq<string>, dotted: bool)
    requires Words(pieces, dotted).Some? && (dotted && pieces != [] ==> !IsDotted(pieces[|pieces| - 1]))
    ensures forall i :: 0 <= i < |pieces| ==> '.' !in pieces[i]
    decreases |pieces|
  {
    if pieces != [] {
      if |pieces| > 1 { assert pieces[1..][|pieces[1..]| - 1] == pieces[|pieces| - 1]; }
      GroupsHaveNoDot(pieces[1..], dotted);
    }
  }

  lemma SideHasNoDot(text: string, dotted: bool)
    requires Side(text, dotted).Some? && (dotted ==> !IsDotted(Split(text, ':')[|Split(text, ':')| - 1]))
    ensures '.' !in text
  {
    if '.' in text {
      GroupsHaveNoDot(Split(text, ':'), dotted);
      JoinOfSplit(text, ':');
      CharInAPart(Split(text, ':'), ':', '.');
    }
  }

  /** A dotted quad may be written as the two groups it stands for. */
  lemma {:induction false} WordsOfDotted(front: seq<string>, tail: string, high: string, low: string)
    requires IsDotted(tail) && IsGroup(high) && IsGroup(low)
    requires NumeralValue(high, 16) == Pair(tail)[0] && NumeralValue(low, 16) == Pair(tail)[1]
    ensures Words(front + [tail], true) == Words(front + [high, low], true)
    decreases |front|
  {
    hide IsDotted, Pair, Split, Positional, DigitValues;
    NotDotted(high);
    NotDotted(low);
    if front == [] {
      assert [high, low][1..] == [low] && [low][1..] == [];
      assert Words([low][1..], true) == Some([]);
      assert [NumeralValue(low, 16)] + [] == [NumeralValue(low, 16)];
      assert Words([low], true) == Some([NumeralValue(low, 16)]);
      assert Words([high, low], true) == Some([NumeralValue(high, 16)] + [NumeralValue(low, 16)]);
      assert front + [tail] == [tail] && front + [high, low] == [high, low];
      assert Pair(tail) == [NumeralValue(high, 16)] + [NumeralValue(low, 16)];
    } else {
      WordsOfDotted(front[1..], tail, high, low);
      assert (front + [tail])[1..] == front[1..] + [tail];
      assert (front + [high, low])[1..] == front[1..] + [high, low];
    }
  }

  lemma NotDotted(text: string)
    requires '.' !in text
    ensures !IsDotted(text)
  {
    SplitWhole(text, '.');
  }

  // ---------- the dotted tail ----------

  function LastColon(text: string): (index: int)
    ensures -1 <= index < |text| && forall k :: index < k < |text| ==> text[k] != ':'
    ensures index >= 0 ==> text[index] == ':'
  {
    if text == "" then -1
    else if text[|text| - 1] == ':' then |text| - 1
    else LastColon(text[..|text| - 1])
  }

  function AfterLastColon(text: string): string { text[LastColon(text) + 1..] }

  lemma CutAtLastColon(text: string)
    ensures ':' !in AfterLastColon(text)
    ensures LastColon(text) >= 0 ==> text == text[..LastColon(text)] + ":" + AfterLastColon(text)
    ensures LastColon(text) < 0 ==> AfterLastColon(text) == text
  {
    hide LastColon;
  }

  lemma LastPieceOf(front: string, back: string)
    requires ':' !in back
    ensures Split(front + ":" + back, ':') == Split(front, ':') + [back]
  {
    SplitAppend(front, back, ':');
    SplitWhole(back, ':');
  }

  lemma LastPiece(text: string)
    ensures Split(text, ':')[|Split(text, ':')| - 1] == AfterLastColon(text)
    ensures LastColon(text) < 0 ==> Split(text, ':') == [text]
  {
    hide Split, LastColon, AfterLastColon;
    CutAtLastColon(text);
    if LastColon(text) >= 0 {
      LastPieceOf(text[..LastColon(text)], AfterLastColon(text));
    } else {
      SplitWhole(text, ':');
    }
  }

  lemma {:induction false} LastColonIs(front: string, back: string)
    requires ':' !in back
    ensures LastColon(front + ":" + back) == |front|
  {
    if back != "" {
      var text := front + ":" + back;
      assert text[..|text| - 1] == front + ":" + back[..|back| - 1];
      LastColonIs(front, back[..|back| - 1]);
    }
  }

  lemma LastPieceIsDotted(text: string)
    requires Side(text, true).Some? && '.' in text
    ensures IsDotted(AfterLastColon(text))
  {
    hide Split, LastColon, AfterLastColon, IsDotted, Words;
    LastPiece(text);
    if !IsDotted(AfterLastColon(text)) { SideHasNoDot(text, true); }
  }

  lemma SidesOf(text: string)
    requires V6Words(text).Some?
    ensures DoubleColon(text) == |text| ==> Side(text, true).Some? && |Split(text, ':')| > 1
    ensures DoubleColon(text) < |text| ==> Side(text[..DoubleColon(text)], false).Some? && Side(text[DoubleColon(text) + 2..], true).Some?
  {
    hide Split, IsDotted, Words;
  }

  lemma DotOnTheRight(left: string, right: string)
    requires Side(left, false).Some? && '.' in left + "::" + right
    ensures '.' in right
  {
    hide Side;
    SideHasNoDot(left, false);
  }

  /** In a literal with a dot, what follows the last colon is a dotted quad. */
  lemma TailIsDotted(text: string)
    requires V6Words(text).Some? && '.' in text
    ensures LastColon(text) >= 0 && IsDotted(AfterLastColon(text))
  {
    hide Split, LastColon, AfterLastColon, IsDotted, Words, V6Words, Side, DoubleColon;
    var at := DoubleColon(text);
    SidesOf(text);
    if at == |text| {
      LastPieceIsDotted(text);
      LastPiece(text);
    } else {
      var left, right := text[..at], text[at + 2..];
      assert text == left + "::" + right;
      DotOnTheRight(left, right);
      LastPieceIsDotted(right);
      LastColonOfRight(left + ":", right);
      assert left + ":" + ":" + right == text;
    }
  }

  /** What follows the last colon is the same for the text and for its end after a colon. */
  lemma LastColonOfRight(front: string, right: string)
    ensures LastColon(front + ":" + right) >= 0
    ensures var text := front + ":" + right; AfterLastColon(text) == AfterLastColon(right)
  {
    hide LastColon, AfterLastColon, Split;
    var text := front + ":" + right;
    SplitAppend(front, right, ':');
    LastPiece(text);
    LastPiece(right);
  }

  lemma DottedHasNoColon(text: string)
    requires IsDotted(text)
    ensures ':' !in text && text != ""
  {
    JoinOfSplit(text, '.');
    if ':' in text { CharInAPart(Split(text, '.'), '.', ':'); }
    assert Split("", '.') == [""];
  }

  lemma GroupHasNoColon(text: string)
    requires IsGroup(text)
    ensures ':' !in text && '.' !in text && text != ""
  {
  }

  ghost predicate Replaces(tail: string, high: string, low: string) {
    && IsDotted(tail) && IsGroup(high) && IsGroup(low)
    && NumeralValue(high, 16) == Pair(tail)[0] && NumeralValue(low, 16) == Pair(tail)[1]
  }

  lemma PairPieces(front: string, high: string, low: string)
    requires IsGroup(high) && IsGroup(low)
    ensures Split(high + ":" + low, ':') == [high, low]
    ensures Split(front + ":" + (high + ":" + low), ':') == Split(front, ':') + [high, low]
    ensures DoubleColon(high + ":" + low) == |high + ":" + low| && high[0] != ':'
  {
    GroupHasNoColon(high);
    GroupHasNoColon(low);
    SplitAppend(high, low, ':');
    SplitWhole(high, ':');
    SplitWhole(low, ':');
    SplitAppend(front, high + ":" + low, ':');
    DoubleColonOfJoin([high, low]);
    assert Join([high, low], ':') == high + ":" + low;
  }

  lemma SideOfPair(prefix: string, tail: string, high: string, low: string)
    requires Replaces(tail, high, low) && (prefix == "" || prefix[|prefix| - 1] == ':')
    ensures Side(prefix + tail, true) == Side(prefix + (high + ":" + low), true)
    ensures prefix != "" ==> Words(Split(prefix + tail, ':'), true) == Words(Split(prefix + (high + ":" + low), ':'), true)
  {
    hide IsDotted, Words, Pair, Split, Positional, DigitValues, DoubleColon, Side, IsGroup, NumeralValue;
    if prefix == "" {
      BareSideOfPair(tail, high, low);
      assert prefix + tail == tail && prefix + (high + ":" + low) == high + ":" + low;
    } else {
      var front := prefix[..|prefix| - 1];
      assert prefix == front + ":";
      FrontSideOfPair(front, tail, high, low);
    }
  }

  lemma BareSideOfPair(tail: string, high: string, low: string)
    requires Replaces(tail, high, low)
    ensures Side(tail, true) == Side(high + ":" + low, true)
  {
    hide IsDotted, Words, Pair, Split, Positional, DigitValues, DoubleColon;
    DottedHasNoColon(tail);
    SplitWhole(tail, ':');
    GroupHasNoColon(high);
    WordsOfDotted([], tail, high, low);
    PairPieces("", high, low);
    assert [] + [tail] == [tail] && [] + [high, low] == [high, low];
  }

  lemma FrontSideOfPair(front: string, tail: string, high: string, low: string)
    requires Replaces(tail, high, low)
    ensures Words(Split(front + ":" + tail, ':'), true) == Words(Split(front + ":" + (high + ":" + low), ':'), true)
    ensures Side(front + ":" + tail, true) == Side(front + ":" + (high + ":" + low), true)
  {
    hide IsDotted, Words, Pair, Split, Positional, DigitValues, DoubleColon, IsGroup, NumeralValue;
    DottedHasNoColon(tail);
    SplitWhole(tail, ':');
    PairPieces(front, high, low);
    SplitAppend(front, tail, ':');
    WordsOfDotted(Split(front, ':'), tail, high, low);
  }

  /** Writing the dotted tail as two groups keeps the meaning. */
  lemma TailReplaced(head: string, tail: string, high: string, low: string)
    requires Replaces(tail, high, low)
    ensures V6Words(head + ":" + tail) == V6Words(head + ":" + (high + ":" + low))
  {
    hide IsDotted, Words, Pair, Split, Positional, DigitValues, Side, V6Words, DoubleColon, Replaces;
    var prefix, pair := head + ":", high + ":" + low;
    SideOfPair(prefix[if DoubleColon(prefix) < |prefix| then DoubleColon(prefix) + 2 else 0..], tail, high, low);
    if DoubleColon(prefix) < |prefix| {
      SidesOfTail(prefix, tail);
      SidesOfTail(prefix, pair);
    } else {
      assert prefix[0..] == prefix;
      WholeOfTail(prefix, tail, high, low);
    }
  }

  /** A "::" in front of the last piece stays the first one. */
  lemma SidesOfTail(prefix: string, back: string)
    requires DoubleColon(prefix) < |prefix|
    ensures V6Words(prefix + back) == Filled(Side(prefix[..DoubleColon(prefix)], false), Side(prefix[DoubleColon(prefix) + 2..] + back, true))
  {
    hide Words, Split, Side, DoubleColon, Filled;
    var at := DoubleColon(prefix);
    DoubleColonStays(prefix, back);
    assert (prefix + back)[at + 2..] == prefix[at + 2..] + back;
    assert (prefix + back)[..at] == prefix[..at];
  }

  lemma WholeOfTail(prefix: string, tail: string, high: string, low: string)
    requires Replaces(tail, high, low) && prefix != "" && DoubleColon(prefix) == |prefix|
    requires Words(Split(prefix + tail, ':'), true) == Words(Split(prefix + (high + ":" + low), ':'), true)
    ensures V6Words(prefix + tail) == V6Words(prefix + (high + ":" + low))
  {
    hide IsDotted, Words, Pair, Split, Positional, DigitValues, Side, DoubleColon, IsGroup, NumeralValue, V6Words;
    DottedHasNoColon(tail);
    NoColonNoDouble(tail);
    assert tail[0] in tail;
    PairPieces("", high, low);
    GroupHasNoColon(high);
    assert (high + ":" + low)[0] == high[0];
    DoubleColonAbsent(prefix, tail);
    DoubleColonAbsent(prefix, high + ":" + low);
    NoSides(prefix + tail);
    NoSides(prefix + (high + ":" + low));
  }

  lemma NoSides(text: string)
    requires DoubleColon(text) == |text|
    ensures var words := Words(Split(text, ':'), true);
            V6Words(text) == if words.Some? && |words.value| == 8 then words else None
  {
    hide Words, Split, Side, DoubleColon, Filled;
  }

  /** The first "::" divides the text. */
  lemma DividedSides(front: string, back: string)
    requires DoubleColon(front) == |front| && (front == "" || front[|front| - 1] != ':')
    ensures V6Words(front + "::" + back) == Filled(Side(front, false), Side(back, true))
  {
    hide Words, Split, Side, DoubleColon, Filled;
    var text := front + "::" + back;
    DoubleColonAfter(front, back);
    assert text[..|front|] == front && text[|front| + 2..] == back;
  }

  /** The literal with its dotted tail, if any, written as two groups. */
  function Expanded(text: string): string
    requires V6Words(text).Some?
  {
    if '.' !in text then text
    else
      TailIsDotted(text);
      var colon := LastColon(text);
      var words := Pair(AfterLastColon(text));
      text[..colon] + ":" + (Numeral(words[0], 16) + ":" + Numeral(words[1], 16))
  }

  lemma NumeralsReplace(tail: string)
    requires IsDotted(tail)
    ensures Replaces(tail, Numeral(Pair(tail)[0], 16), Numeral(Pair(tail)[1], 16))
  {
    hide IsDotted, Pair, Split, Positional, DigitValues, Numeral;
    ValueOfNumeral(Pair(tail)[0], 16);
    ValueOfNumeral(Pair(tail)[1], 16);
    WordLength(Pair(tail)[0]);
    WordLength(Pair(tail)[1]);
  }

  lemma NoDotLeft(front: string, low: string)
    requires V6Words(front + ":" + low).Some? && IsGroup(low)
    ensures '.' !in front + ":" + low
  {
    hide IsDotted, Split, V6Words, LastColon;
    GroupHasNoColon(low);
    NotDotted(low);
    LastColonIs(front, low);
    var text := front + ":" + low;
    assert text[|front| + 1..] == low;
    if '.' in text { TailIsDotted(text); }
  }

  lemma ExpandedKeeps(text: string)
    requires V6Words(text).Some?
    ensures V6Words(Expanded(text)) == V6Words(text) && '.' !in Expanded(text)
  {
    hide IsDotted, Pair, Split, V6Words, LastColon, AfterLastColon, Numeral;
    if '.' in text {
      TailIsDotted(text);
      var colon := LastColon(text);
      var head, tail := text[..colon], AfterLastColon(text);
      var high, low := Numeral(Pair(tail)[0], 16), Numeral(Pair(tail)[1], 16);
      NumeralsReplace(tail);
      CutAtLastColon(text);
      TailReplaced(head, tail, high, low);
      assert Expanded(text) == head + ":" + (high + ":" + low) == (head + ":" + high) + ":" + low;
      NoDotLeft(head + ":" + high, low);
    }
  }

  // ---------- the words the source reads ----------

  function PiecesOf(text: string): seq<string> { if text == "" then [] else Split(text, ':') }

  /** The two halves around "::", filled with "0" groups to eight, each group then read. */
  function SourceWords(text: string): seq<nat>
    requires V6Words(text).Some? && '.' !in text
  {
    var at := DoubleColon(text);
    var groups := PiecesOf(text[..at]);
    if at == |text| then Values(groups, 16)
    else
      var rest := text[at + 2..];
      HalvesFit(text);
      FilledWords(groups, PiecesOf(rest[..DoubleColon(rest)]))
  }

  function FilledWords(groups: seq<string>, tail: seq<string>): seq<nat>
    requires |groups| + |tail| <= 8
  {
    Values(groups + seq(8 - |groups| - |tail|, _ => "0") + tail, 16)
  }

  lemma {:induction false} WordsAreValues(pieces: seq<string>, dotted: bool)
    requires Words(pieces, dotted).Some? && forall i :: 0 <= i < |pieces| ==> '.' !in pieces[i]
    ensures Words(pieces, dotted).value == Values(pieces, 16)
    decreases |pieces|
  {
    if pieces != [] {
      NotDotted(pieces[0]);
      WordsAreValues(pieces[1..], dotted);
    }
  }

  lemma PiecesHaveNoDot(text: string)
    requires '.' !in text
    ensures forall i :: 0 <= i < |Split(text, ':')| ==> '.' !in Split(text, ':')[i]
  {
    hide Split;
    var pieces := Split(text, ':');
    JoinOfSplit(text, ':');
    forall i | 0 <= i < |pieces| ensures '.' !in pieces[i] { PartInJoin(pieces, ':', i); }
  }

  lemma SplitHasNoDouble(text: string)
    requires forall i :: 0 <= i < |Split(text, ':')| ==> Split(text, ':')[i] != ""
    ensures DoubleColon(text) == |text|
  {
    hide Split, DoubleColon;
    PartsHaveNoSeparator(text, ':');
    DoubleColonOfJoin(Split(text, ':'));
    JoinOfSplit(text, ':');
  }

  lemma SideIsValues(text: string, dotted: bool)
    requires Side(text, dotted).Some? && '.' !in text
    ensures Side(text, dotted).value == Values(PiecesOf(text), 16)
    ensures DoubleColon(text) == |text|
  {
    hide Split, Words, Values, DoubleColon;
    if text == "" {
      assert DoubleColon("") == 0 by { NoColonNoDouble(""); }
      assert Values([], 16) == [];
    } else {
      PiecesHaveNoDot(text);
      WordsAreValues(Split(text, ':'), dotted);
      PiecesAreNonEmpty(Split(text, ':'), dotted);
      SplitHasNoDouble(text);
    }
  }

  lemma HalvesFit(text: string)
    requires V6Words(text).Some? && '.' !in text && DoubleColon(text) < |text|
    ensures var at := DoubleColon(text);
            var rest := text[at + 2..];
            rest[..DoubleColon(rest)] == rest && |PiecesOf(text[..at])| + |PiecesOf(rest)| <= 7
            && V6Words(text).value == FilledWords(PiecesOf(text[..at]), PiecesOf(rest))
  {
    hide Words, Split, IsDotted, Values, PiecesOf, Side, FilledWords;
    var at := DoubleColon(text);
    var front, rest := text[..at], text[at + 2..];
    NoDotIn(text, at);
    SideIsValues(front, false);
    SideIsValues(rest, true);
    hide DoubleColon;
    FilledValues(PiecesOf(front), PiecesOf(rest));
  }

  /** The words the source reads are the words the grammar means. */
  lemma SourceWordsAreMeant(text: string)
    requires V6Words(text).Some? && '.' !in text
    ensures SourceWords(text) == V6Words(text).value
  {
    var at := DoubleColon(text);
    if at == |text| {
      WholeIsMeant(text);
    } else {
      HalvesAreMeant(text);
    }
  }

  lemma WholeIsMeant(text: string)
    requires V6Words(text).Some? && '.' !in text && DoubleColon(text) == |text|
    ensures SourceWords(text) == V6Words(text).value
  {
    hide Words, Split, IsDotted, Positional, DigitValues;
    NotGroup();
    assert text[..|text|] == text && text != "";
    SideIsValues(text, true);
  }

  lemma HalvesAreMeant(text: string)
    requires V6Words(text).Some? && '.' !in text && DoubleColon(text) < |text|
    ensures SourceWords(text) == V6Words(text).value
  {
    hide V6Words, DoubleColon, PiecesOf, FilledWords;
    HalvesFit(text);
  }

  lemma NoDotIn(text: string, at: nat)
    requires '.' !in text && at + 2 <= |text|
    ensures '.' !in text[..at] && '.' !in text[at + 2..]
  {
  }

  lemma FilledValues(groups: seq<string>, tail: seq<string>)
    requires |groups| + |tail| <= 7
    ensures FilledWords(groups, tail) == Values(groups, 16) + Zeros(8 - |groups| - |tail|) + Values(tail, 16)
  {
    hide Values, Zeros;
    var fill := seq(8 - |groups| - |tail|, _ => "0");
    FillIsZeros(8 - |groups| - |tail|);
    ValuesAppend(groups + fill, tail);
    ValuesAppend(groups, fill);
  }

  lemma FillIsZeros(count: nat)
    ensures Values(seq(count, _ => "0"), 16) == Zeros(count)
  {
    hide Positional, DigitValues;
    OneDigit('0', 16);
  }

  lemma NotGroup()
    ensures V6Words("").None?
  {
    assert Split("", ':') == [""];
  }

  lemma ValuesAppend(a: seq<string>, b: seq<string>)
    ensures Values(a + b, 16) == Values(a, 16) + Values(b, 16)
  {
  }

  // ---------- letter case ----------

  function LowerChar(c: char): char { if 'A' <= c <= 'Z' then (c as int + 32) as char else c }

  function Lower(text: string): (lower: string)
    ensures |lower| == |text| && forall i :: 0 <= i < |text| ==> lower[i] == LowerChar(text[i])
  {
    seq(|text|, i requires 0 <= i < |text| => LowerChar(text[i]))
  }

  function LowerAll(parts: seq<string>): (lower: seq<string>)
    ensures |lower| == |parts| && forall i :: 0 <= i < |parts| ==> lower[i] == Lower(parts[i])
  {
    seq(|parts|, i requires 0 <= i < |parts| => Lower(parts[i]))
  }

  lemma LowerTail(text: string)
    requires text != ""
    ensures Lower(text) != "" && Lower(text)[0] == LowerChar(text[0]) && Lower(text)[1..] == Lower(text[1..])
  {
  }

  lemma LowerJoined(c: char, rest: seq<string>)
    requires rest != []
    ensures LowerAll([[c] + rest[0]] + rest[1..]) == [[LowerChar(c)] + LowerAll(rest)[0]] + LowerAll(rest)[1..]
    ensures LowerAll([""] + rest) == [""] + LowerAll(rest)
  {
    assert Lower([c] + rest[0]) == [LowerChar(c)] + Lower(rest[0]);
    assert Lower("") == "";
  }

  lemma {:induction false} SplitLower(text: string)
    ensures Split(Lower(text), ':') == LowerAll(Split(text, ':'))
  {
    if text == "" {
      assert Lower(text) == "";
      assert LowerAll([""]) == [""];
    } else {
      hide Split, Lower, LowerAll;
      SplitLower(text[1..]);
      LowerTail(text);
      SplitHead(text, ':');
      SplitHead(Lower(text), ':');
      LowerJoined(text[0], Split(text[1..], ':'));
    }
  }

  lemma {:induction false} DoubleColonLower(text: string)
    ensures DoubleColon(Lower(text)) == DoubleColon(text)
  {
    if |text| >= 2 {
      DoubleColonLower(text[1..]);
      assert Lower(text)[1..] == Lower(text[1..]);
    }
  }

  lemma DottedIsLower(text: string)
    requires IsDotted(text)
    ensures Lower(text) == text
  {
    forall i | 0 <= i < |text| ensures LowerChar(text[i]) == text[i] {
      var c := text[i];
      JoinOfSplit(text, '.');
      if c != '.' { CharInAPart(Split(text, '.'), '.', c); }
    }
  }

  lemma GroupLower(text: string)
    requires IsGroup(text)
    ensures IsGroup(Lower(text)) && NumeralValue(Lower(text), 16) == NumeralValue(text, 16)
    ensures !IsDotted(text) && !IsDotted(Lower(text))
  {
    assert DigitValues(Lower(text)) == DigitValues(text);
    NotDotted(text);
    NotDotted(Lower(text));
  }

  lemma {:induction false} WordsLower(pieces: seq<string>, dotted: bool)
    requires Words(pieces, dotted).Some?
    ensures Words(LowerAll(pieces), dotted) == Words(pieces, dotted)
    decreases |pieces|
  {
    hide IsDotted, Pair, NumeralValue;
    if pieces != [] {
      if dotted && |pieces| == 1 && IsDotted(pieces[0]) {
        DottedIsLower(pieces[0]);
      } else {
        WordsLower(pieces[1..], dotted);
        GroupLower(pieces[0]);
        assert LowerAll(pieces)[1..] == LowerAll(pieces[1..]);
      }
    }
  }

  lemma SideLower(text: string, dotted: bool)
    requires Side(text, dotted).Some?
    ensures Side(Lower(text), dotted) == Side(text, dotted)
  {
    if text != "" {
      SplitLower(text);
      WordsLower(Split(text, ':'), dotted);
    }
  }

  /** Letter case does not matter. */
  lemma V6Lower(text: string)
    requires V6Words(text).Some?
    ensures V6Words(Lower(text)) == V6Words(text)
  {
    hide Words, Split, Lower;
    DoubleColonLower(text);
    var at := DoubleColon(text);
    if at == |text| {
      NotGroup();
      SideLower(text, true);
    } else {
      SideLower(text[..at], false);
      SideLower(text[at + 2..], true);
      assert Lower(text)[..at] == Lower(text[..at]) && Lower(text)[at + 2..] == Lower(text[at + 2..]);
    }
  }

  // ---------- how long a literal can be ----------

  /** Characters that literals are made of. */
  predicate IsLiteral(c: char) { DigitValue(c) < 16 || c == ':' || c == '.' }

  lemma DottedIsShort(text: string)
    requires IsDotted(text)
    ensures |text| <= 15 && forall c :: c in text ==> IsLiteral(c)
  {
    hide NumeralValue, Split, Join, Shortest;
    var parts := Split(text, '.');
    JoinOfSplit(text, '.');
    JoinLength(parts, '.', 3);
    forall c | c in text ensures IsLiteral(c) {
      if c != '.' {
        CharInAPart(parts, '.', c);
        var k :| 0 <= k < |parts| && c in parts[k];
        assert IsOctet(parts[k]);
      }
    }
  }

  lemma {:induction false} WordsAreShort(pieces: seq<string>, dotted: bool)
    requires pieces != [] && Words(pieces, dotted).Some?
    ensures |Join(pieces, ':')| <= 5 * |Words(pieces, dotted).value| - 1 + if dotted then 6 else 0
    ensures forall c :: c in Join(pieces, ':') ==> IsLiteral(c)
    decreases |pieces|
  {
    hide NumeralValue, IsDotted, Split;
    if dotted && |pieces| == 1 && IsDotted(pieces[0]) {
      DottedIsShort(pieces[0]);
    } else if |pieces| > 1 {
      WordsAreShort(pieces[1..], dotted);
    }
  }

  lemma SideIsShort(text: string, dotted: bool)
    requires Side(text, dotted).Some?
    ensures |text| <= 5 * |Side(text, dotted).value| + if dotted then 6 else 0
    ensures forall c :: c in text ==> IsLiteral(c)
  {
    hide Words, Split, Join, IsLiteral;
    if text != "" {
      JoinOfSplit(text, ':');
      WordsAreShort(Split(text, ':'), dotted);
    }
  }

  /** The longest literal has six groups and a dotted quad. */
  lemma V6IsShort(text: string)
    requires V6Words(text).Some?
    ensures |text| <= 45 && forall c :: c in text ==> IsLiteral(c)
  {
    hide Words, Split, Join, Side, IsLiteral;
    var at := DoubleColon(text);
    if at == |text| {
      JoinOfSplit(text, ':');
      WordsAreShort(Split(text, ':'), true);
    } else {
      SideIsShort(text[..at], false);
      SideIsShort(text[at + 2..], true);
      assert text == text[..at] + "::" + text[at + 2..];
      ColonIsLiteral();
    }
  }

  lemma ColonIsLiteral()
    ensures IsLiteral(':')
  {
  }
}
