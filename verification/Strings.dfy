/** String operations that several components share. */
module Strings {

  function Split(text: string, separator: char): (parts: seq<string>)
    ensures parts != []
  {
    if text == "" then [""]
    else
      var rest := Split(text[1..], separator);
      if text[0] == separator then [""] + rest else [[text[0]] + rest[0]] + rest[1..]
  }

  lemma {:induction false} PartsHaveNoSeparator(text: string, separator: char)
    ensures forall i :: 0 <= i < |Split(text, separator)| ==> separator !in Split(text, separator)[i]
  {
    if text != "" { PartsHaveNoSeparator(text[1..], separator); }
  }

  function Join(parts: seq<string>, separator: char): string {
    if parts == [] then ""
    else if |parts| == 1 then parts[0]
    else parts[0] + [separator] + Join(parts[1..], separator)
  }

  lemma {:induction false} JoinOfSplit(text: string, separator: char)
    ensures Join(Split(text, separator), separator) == text
  {
    if text != "" {
      JoinOfSplit(text[1..], separator);
      var rest := Split(text[1..], separator);
      if text[0] == separator {
        assert Split(text, separator)[1..] == rest;
      } else {
        assert Split(text, separator)[1..] == rest[1..];
      }
    }
  }

  lemma {:induction false} SplitOfJoin(parts: seq<string>, separator: char)
    requires parts != [] && forall i :: 0 <= i < |parts| ==> separator !in parts[i]
    ensures Split(Join(parts, separator), separator) == parts
    decreases |parts|, if parts == [] then 0 else |parts[0]|
  {
    if parts[0] == "" {
      if |parts| > 1 {
        SplitOfJoin(parts[1..], separator);
        assert Join(parts, separator)[1..] == Join(parts[1..], separator);
      }
    } else {
      var shorter := [parts[0][1..]] + parts[1..];
      SplitOfJoin(shorter, separator);
      assert shorter[1..] == parts[1..];
      assert Join(parts, separator)[1..] == Join(shorter, separator);
      assert Join(parts, separator)[0] == parts[0][0];
      assert [parts[0][0]] + shorter[0] == parts[0];
      assert [parts[0]] + parts[1..] == parts;
    }
  }

  /** What is put in front of a text, and taken off again. */
  lemma PrefixDropped(front: string, text: string)
    ensures front <= front + text && (front + text)[|front|..] == text
  {
  }

  lemma PrefixKept(front: string, text: string)
    requires front <= text
    ensures text == front + text[|front|..]
  {
  }

  lemma Regrouped(a: string, b: string, c: string)
    ensures a + b + c == a + (b + c)
  {
  }

  lemma JoinOfTwo(parts: seq<string>, separator: char)
    requires 1 <= |parts| <= 2
    ensures Join(parts, separator) == parts[0] + if |parts| == 2 then [separator] + parts[1] else ""
  {
    if |parts| == 2 {
      assert parts[1..] == [parts[1]];
      Regrouped(parts[0], [separator], parts[1]);
    }
  }

  lemma {:induction false} JoinBoth(a: seq<string>, b: seq<string>, separator: char)
    requires a != [] && b != []
    ensures Join(a + b, separator) == Join(a, separator) + [separator] + Join(b, separator)
    decreases |a|
  {
    if |a| == 1 {
      assert (a + b)[1..] == b;
    } else {
      JoinBoth(a[1..], b, separator);
      assert (a + b)[1..] == a[1..] + b;
    }
  }

  lemma HeadAndTail(front: string, middle: string, back: string)
    requires front != ""
    ensures (front + middle + back)[0] == front[0] && (front + middle + back)[1..] == front[1..] + middle + back
  {
  }

  lemma SplitHead(text: string, separator: char)
    requires text != ""
    ensures var rest := Split(text[1..], separator);
            Split(text, separator) == if text[0] == separator then [""] + rest else [[text[0]] + rest[0]] + rest[1..]
  {
  }

  lemma AppendToHead(c: char, a: seq<string>, b: seq<string>)
    requires a != []
    ensures [""] + (a + b) == ([""] + a) + b
    ensures [[c] + (a + b)[0]] + (a + b)[1..] == ([[c] + a[0]] + a[1..]) + b
  {
  }

  lemma {:induction false} SplitAppend(front: string, back: string, separator: char)
    ensures Split(front + [separator] + back, separator) == Split(front, separator) + Split(back, separator)
  {
    var text := front + [separator] + back;
    if front == "" {
      assert text[1..] == back;
      assert Split("", separator) == [""];
    } else {
      hide Split;
      SplitAppend(front[1..], back, separator);
      HeadAndTail(front, [separator], back);
      SplitHead(text, separator);
      SplitHead(front, separator);
      AppendToHead(front[0], Split(front[1..], separator), Split(back, separator));
    }
  }

  lemma SplitWhole(text: string, separator: char)
    requires separator !in text
    ensures Split(text, separator) == [text]
  {
    SplitOfJoin([text], separator);
  }

  lemma {:induction false} CharInAPart(parts: seq<string>, separator: char, c: char)
    requires c in Join(parts, separator) && c != separator
    ensures exists k :: 0 <= k < |parts| && c in parts[k]
    decreases |parts|
  {
    if |parts| == 1 || c in parts[0] {
      assert c in parts[0];
    } else {
      CharInAPart(parts[1..], separator, c);
      var k :| 0 <= k < |parts[1..]| && c in parts[1..][k];
      assert c in parts[k + 1];
    }
  }

  lemma {:induction false} PartInJoin(parts: seq<string>, separator: char, k: nat)
    requires k < |parts|
    ensures forall c :: c in parts[k] ==> c in Join(parts, separator)
    decreases |parts|
  {
    if k > 0 { PartInJoin(parts[1..], separator, k - 1); }
  }

  lemma {:induction false} JoinLength(parts: seq<string>, separator: char, width: nat)
    requires forall i :: 0 <= i < |parts| ==> |parts[i]| <= width
    ensures |Join(parts, separator)| <= (width + 1) * |parts| - if parts == [] then 0 else 1
    decreases |parts|
  {
    if |parts| > 1 {
      JoinLength(parts[1..], separator, width);
      assert (width + 1) * |parts| == (width + 1) * |parts[1..]| + width + 1;
    }
  }
}
