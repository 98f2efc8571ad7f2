/** The readiness scanner of the development file-inspection sidecar (retainStdout inside
    startDevClamavSidecar in src/dev-clamav-sidecar.ts): a line is recognized in a stream that
    arrives in chunks of any size, with memory bounded by the length of the line. */
module ReadinessScanner {
  import opened Strings

  const MARKER: string := "sporades-clamav-ready-v1"
  const NEWLINE: char := '\n'

  predicate IsReady(line: string) { line == MARKER || line == MARKER + "\r" }

  // ---------- what is recognized ----------

  /** Some line that a newline ended is the marker, with or without a carriage return. */
  ghost predicate ReadyLineAt(stream: string, from: int, to: int) {
    && 0 <= from <= to < |stream| && stream[to] == NEWLINE
    && (from == 0 || stream[from - 1] == NEWLINE)
    && (stream[from..to] == "sporades-clamav-ready-v1" || stream[from..to] == "sporades-clamav-ready-v1\r")
  }

  ghost predicate Ready(stream: string) { exists from, to :: ReadyLineAt(stream, from, to) }

  function Lines(stream: string): (lines: seq<string>)
    ensures lines != []
  {
    Split(stream, NEWLINE)
  }

  function Partial(stream: string): string { Lines(stream)[|Lines(stream)| - 1] }

  ghost predicate ReadyAmong(lines: seq<string>) { exists i :: 0 <= i < |lines| - 1 && IsReady(lines[i]) }

  lemma ReadyIsPlain(line: string)
    requires IsReady(line)
    ensures NEWLINE !in line
  {
    assert NEWLINE !in MARKER;
  }

  /** The same, by the lines of the stream. */
  lemma ReadyByLines(stream: string)
    ensures Ready(stream) <==> ReadyAmong(Lines(stream))
  {
    if from, to :| ReadyLineAt(stream, from, to) { ReadyIsAmong(stream, from, to); }
    if i :| 0 <= i < |Lines(stream)| - 1 && IsReady(Lines(stream)[i]) { AmongIsReady(stream, i); }
  }

  lemma ReadyIsAmong(stream: string, from: int, to: int)
    requires ReadyLineAt(stream, from, to)
    ensures ReadyAmong(Lines(stream))
  {
    hide Split;
    var line, rest := stream[from..to], stream[to + 1..];
    ReadyIsPlain(line);
    SplitWhole(line, NEWLINE);
    SplitAppend(line, rest, NEWLINE);
    var tail := line + [NEWLINE] + rest;
    assert stream[from..] == tail;
    assert Lines(tail)[0] == line && |Lines(tail)| >= 2;
    if from == 0 {
      assert stream == tail;
    } else {
      var front := stream[..from - 1];
      SplitAppend(front, tail, NEWLINE);
      assert stream == front + [NEWLINE] + tail;
      assert Lines(stream)[|Lines(front)|] == line;
    }
  }

  lemma AmongIsReady(stream: string, i: nat)
    requires i < |Lines(stream)| - 1 && IsReady(Lines(stream)[i])
    ensures Ready(stream)
  {
    hide Split, Join;
    var lines := Lines(stream);
    var line, after := lines[i], lines[i + 1..];
    JoinOfSplit(stream, NEWLINE);
    JoinBoth([line], after, NEWLINE);
    assert Join([line], NEWLINE) == line by { JoinOfOne(line); }
    var tail := line + [NEWLINE] + Join(after, NEWLINE);
    assert lines[i..] == [line] + after;
    if i == 0 {
      assert lines == lines[0..];
      assert stream == tail;
      assert stream[0..|line|] == line;
      assert ReadyLineAt(stream, 0, |line|);
    } else {
      JoinBoth(lines[..i], lines[i..], NEWLINE);
      assert lines == lines[..i] + lines[i..];
      var front := Join(lines[..i], NEWLINE);
      assert stream == front + [NEWLINE] + tail;
      var from := |front| + 1;
      assert stream[from..from + |line|] == line;
      assert ReadyLineAt(stream, from, from + |line|);
    }
  }

  lemma JoinOfOne(line: string)
    ensures Join([line], NEWLINE) == line
  {
  }

  // ---------- the stream grows ----------

  lemma SegmentGrows(stream: string, segment: string)
    requires NEWLINE !in segment
    ensures var lines := Lines(stream);
            Lines(stream + segment) == lines[..|lines| - 1] + [lines[|lines| - 1] + segment]
  {
    hide Split, Join;
    var lines := Lines(stream);
    var front, last := lines[..|lines| - 1], lines[|lines| - 1];
    PartsHaveNoSeparator(stream, NEWLINE);
    JoinOfSplit(stream, NEWLINE);
    SplitWhole(last + segment, NEWLINE);
    JoinOfOne(last);
    assert lines == front + [last];
    if front == [] {
      assert lines == [last] && stream == last;
    } else {
      JoinBoth(front, [last], NEWLINE);
      SplitOfJoin(front, NEWLINE);
      SplitAppend(Join(front, NEWLINE), last + segment, NEWLINE);
      assert stream + segment == Join(front, NEWLINE) + [NEWLINE] + (last + segment);
    }
  }

  lemma LineEnds(stream: string)
    ensures Lines(stream + [NEWLINE]) == Lines(stream) + [""]
  {
    SplitAppend(stream, "", NEWLINE);
    assert stream + [NEWLINE] + "" == stream + [NEWLINE];
    assert Split("", NEWLINE) == [""];
  }

  // ---------- the scanner ----------

  /** What the three variables say about the stream so far. */
  ghost predicate Tracks(stream: string, line: string, overflow: bool, proven: bool) {
    && (overflow <==> |Partial(stream)| > |MARKER| + 1)
    && line == (if overflow then "" else Partial(stream))
    && (proven <==> ReadyAmong(Lines(stream)))
  }

  lemma SegmentTracks(stream: string, line: string, overflow: bool, proven: bool, segment: string)
    requires Tracks(stream, line, overflow, proven) && NEWLINE !in segment
    ensures var fits := !overflow && |line + segment| <= |MARKER| + 1;
            Tracks(stream + segment, if fits then line + segment else "", !fits, proven)
  {
    hide Lines, IsReady;
    SegmentGrows(stream, segment);
    var before, after := Lines(stream), Lines(stream + segment);
    assert forall i :: 0 <= i < |before| - 1 ==> after[i] == before[i];
  }

  lemma NewlineTracks(stream: string, line: string, overflow: bool, proven: bool)
    requires Tracks(stream, line, overflow, proven)
    ensures Tracks(stream + [NEWLINE], "", false, proven || (!overflow && IsReady(line)))
  {
    hide Lines;
    LineEnds(stream);
    var before, after := Lines(stream), Lines(stream + [NEWLINE]);
    assert forall i :: 0 <= i < |before| ==> after[i] == before[i];
    assert IsReady(Partial(stream)) ==> !overflow;
    if IsReady(Partial(stream)) { assert IsReady(after[|before| - 1]); }
  }

  method IndexOfNewline(text: string, cursor: nat) returns (index: int)
    requires cursor <= |text|
    ensures index < 0 ==> NEWLINE !in text[cursor..]
    ensures index >= 0 ==> cursor <= index < |text| && text[index] == NEWLINE && NEWLINE !in text[cursor..index]
  {
    for i := cursor to |text|
      invariant NEWLINE !in text[cursor..i]
    {
      if text[i] == NEWLINE { return i; }
      assert text[cursor..i + 1] == text[cursor..i] + [text[i]];
    }
    assert text[cursor..|text|] == text[cursor..];
    return -1;
  }

  class Scanner {
    var line: string
    var overflow: bool
    var proven: bool
    ghost var stream: string

    constructor ()
      ensures Valid() && stream == ""
    {
      line, overflow, proven, stream := "", false, false, "";
      new;
      assert Split("", NEWLINE) == [""];
    }

    ghost predicate Valid()
      reads this
    {
      Tracks(stream, line, overflow, proven)
    }

    /** retainStdout on the text of one chunk. */
    method RetainStdout(text: string)
      requires Valid()
      modifies this
      ensures Valid() && stream == old(stream) + text
      ensures proven <==> Ready(stream)
      ensures |line| <= |MARKER| + 1
    {
      hide Tracks, IsReady;
      ghost var before := stream;
      var cursor := 0;
      assert before + text[..0] == before;
      while cursor < |text|
        invariant cursor <= |text| && stream == before + text[..cursor] && Valid()
      {
        var newline := IndexOfNewline(text, cursor);
        var end := if newline < 0 then |text| else newline;
        RetainSegment(text[cursor..end]);
        assert text[..end] == text[..cursor] + text[cursor..end];
        if newline < 0 {
          cursor := |text|;
          break;
        }
        EndLine();
        assert text[..newline + 1] == text[..newline] + [NEWLINE];
        cursor := newline + 1;
      }
      assert text[..|text|] == text;
      ProvenIsReady(stream, line, overflow, proven);
    }

    /** A stretch without a newline extends the partial line, or overflows it. */
    method RetainSegment(segment: string)
      requires Valid() && NEWLINE !in segment
      modifies this
      ensures Valid() && stream == old(stream) + segment
    {
      hide Tracks, IsReady;
      SegmentTracks(stream, line, overflow, proven, segment);
      if !overflow {
        line := line + segment;
        if |line| > |MARKER| + 1 { line, overflow := "", true; }
      } else {
        assert line == "" by { OverflowKeepsNothing(stream, line, overflow, proven); }
      }
      stream := stream + segment;
    }

    /** A newline ends the partial line. */
    method EndLine()
      requires Valid()
      modifies this
      ensures Valid() && stream == old(stream) + [NEWLINE]
    {
      hide Tracks, IsReady;
      NewlineTracks(stream, line, overflow, proven);
      if !overflow && IsReady(line) { proven := true; }
      line, overflow, stream := "", false, stream + [NEWLINE];
    }

    /** Any sequence of chunks. */
    method RetainAll(chunks: seq<string>)
      requires Valid()
      modifies this
      ensures Valid() && stream == old(stream) + Concat(chunks)
      ensures proven <==> Ready(old(stream) + Concat(chunks))
      ensures |line| <= |MARKER| + 1
    {
      hide Tracks;
      ProvenIsReady(stream, line, overflow, proven);
      for i := 0 to |chunks|
        invariant Valid() && stream == old(stream) + Concat(chunks[..i])
        invariant (proven <==> Ready(stream)) && |line| <= |MARKER| + 1
      {
        RetainStdout(chunks[i]);
        assert chunks[..i + 1][..i] == chunks[..i];
      }
      assert chunks[..|chunks|] == chunks;
    }
  }

  function Concat(chunks: seq<string>): string {
    if chunks == [] then "" else Concat(chunks[..|chunks| - 1]) + chunks[|chunks| - 1]
  }

  lemma OverflowKeepsNothing(stream: string, line: string, overflow: bool, proven: bool)
    requires Tracks(stream, line, overflow, proven) && overflow
    ensures line == ""
  {
  }

  lemma ProvenIsReady(stream: string, line: string, overflow: bool, proven: bool)
    requires Tracks(stream, line, overflow, proven)
    ensures proven <==> Ready(stream)
    ensures |line| <= |MARKER| + 1
  {
    ReadyByLines(stream);
  }
}
