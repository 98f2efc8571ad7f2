/** Text replacements as src/client-prerender.ts applies them: sorted by start from right to left
    and spliced one by one.  That equals substituting all of them at once. */
module TextEdits {

  datatype Edit = Edit(start: nat, end: nat, value: string)

  // ---------- substituting at once ----------

  /** Edits in text order that do not overlap, inside a range. */
  predicate Within(edits: seq<Edit>, from: nat, to: nat)
    decreases |edits|
  {
    if edits == [] then from <= to
    else from <= edits[0].start <= edits[0].end && Within(edits[1..], edits[0].end, to)
  }

  lemma {:induction false} WithinFits(edits: seq<Edit>, from: nat, to: nat)
    requires Within(edits, from, to)
    ensures from <= to && forall i :: 0 <= i < |edits| ==> from <= edits[i].start <= edits[i].end <= to
    decreases |edits|
  {
    if edits != [] { WithinFits(edits[1..], edits[0].end, to); }
  }

  /** The text that begins at a base offset, with every edited range replaced. */
  function Substituted(text: string, base: nat, edits: seq<Edit>): string
    requires Within(edits, base, base + |text|)
    decreases |edits|
  {
    if edits == [] then text
    else
      WithinFits(edits, base, base + |text|);
      text[..edits[0].start - base] + edits[0].value + Substituted(text[edits[0].end - base..], edits[0].end, edits[1..])
  }

  /** Editing the text gives the result. */
  ghost predicate Gives(text: string, base: nat, edits: seq<Edit>, result: string) {
    Within(edits, base, base + |text|) && Substituted(text, base, edits) == result
  }

  lemma GivesText(text: string, base: nat)
    ensures Gives(text, base, [], text)
  {
  }

  lemma GivesOne(text: string, base: nat, value: string)
    ensures Gives(text, base, [Edit(base, base + |text|, value)], value)
  {
    var edits := [Edit(base, base + |text|, value)];
    assert Within(edits[1..], base + |text|, base + |text|);
    assert text[..0] == "" && text[|text|..] == "";
    assert Substituted("", base + |text|, edits[1..]) == "";
  }

  /** Text in front that no edit touches. */
  lemma GivesAfter(front: string, text: string, base: nat, edits: seq<Edit>, result: string)
    requires Gives(text, base + |front|, edits, result)
    ensures Gives(front + text, base, edits, front + result)
  {
    var whole := front + text;
    if edits != [] {
      var e := edits[0];
      WithinFits(edits, base + |front|, base + |whole|);
      assert whole[..e.start - base] == front + text[..e.start - base - |front|];
      assert whole[e.end - base..] == text[e.end - base - |front|..];
      var rest := Substituted(text[e.end - base - |front|..], e.end, edits[1..]);
      assert front + (text[..e.start - base - |front|] + e.value + rest) == (front + text[..e.start - base - |front|]) + e.value + rest;
    }
  }

  lemma TakeDrop(a: string, b: string, i: nat, j: nat)
    requires i <= |a| && j <= |a|
    ensures (a + b)[..i] == a[..i] && (a + b)[j..] == a[j..] + b
  {
  }

  lemma Regroup(a: string, b: string, c: string, d: string)
    ensures (a + b + c) + d == a + b + (c + d)
  {
  }

  lemma FirstEdit(text: string, base: nat, edits: seq<Edit>, rest: string)
    requires edits != [] && Within(edits, base, base + |text|)
    requires edits[0].end <= base + |text| && Gives(text[edits[0].end - base..], edits[0].end, edits[1..], rest)
    ensures Gives(text, base, edits, text[..edits[0].start - base] + edits[0].value + rest)
  {
  }

  /** Adjacent texts with their own edits. */
  lemma {:induction false} GivesBoth(a: string, b: string, base: nat, ea: seq<Edit>, eb: seq<Edit>, ra: string, rb: string)
    requires Gives(a, base, ea, ra) && Gives(b, base + |a|, eb, rb)
    ensures Gives(a + b, base, ea + eb, ra + rb)
    decreases |ea|
  {
    if ea == [] {
      assert ea + eb == eb;
      GivesAfter(a, b, base, eb, rb);
    } else {
      var e := ea[0];
      WithinFits(ea, base, base + |a|);
      var tail := a[e.end - base..];
      var rest := Substituted(tail, e.end, ea[1..]);
      GivesBoth(tail, b, e.end, ea[1..], eb, rest, rb);
      hide Substituted;
      assert (ea + eb)[1..] == ea[1..] + eb && (ea + eb)[0] == e;
      TakeDrop(a, b, e.start - base, e.end - base);
      Regroup(a[..e.start - base], e.value, rest, rb);
      FirstEdit(a + b, base, ea + eb, rest + rb);
    }
  }

  // ---------- one by one, from right to left ----------

  function Spliced(text: string, edit: Edit): string
    requires edit.start <= edit.end <= |text|
  {
    text[..edit.start] + edit.value + text[edit.end..]
  }

  /** Edits in text order, the last one spliced first. */
  lemma {:induction false} LastFirst(text: string, edits: seq<Edit>, last: Edit)
    requires Within(edits + [last], 0, |text|)
    ensures last.start <= last.end <= |text|
    ensures Gives(Spliced(text, last), 0, edits, Substituted(text, 0, edits + [last]))
  {
    WithinFits(edits + [last], 0, |text|);
    assert (edits + [last])[|edits|] == last;
    FrontWithin(edits, [last], 0, |text|);
    assert Within([last][1..], last.end, |text|);
    Cut(edits, last, 0, |text|);
    var front, back := text[..last.start], text[last.end..];
    var middle := text[last.start..];
    assert text == front + middle;
    assert Gives(middle, last.start, [last], last.value + back) by {
      assert middle[last.end - last.start..] == back && middle[..0] == "";
      assert Substituted(back, last.end, [last][1..]) == back;
    }
    var edited := Substituted(front, 0, edits);
    GivesBoth(front, middle, 0, edits, [last], edited, last.value + back);
    GivesText(last.value + back, last.start);
    GivesBoth(front, last.value + back, 0, edits, [], edited, last.value + back);
    assert edits + [] == edits;
    assert Spliced(text, last) == front + (last.value + back);
  }

  lemma {:induction false} FrontWithin(front: seq<Edit>, back: seq<Edit>, from: nat, to: nat)
    requires Within(front + back, from, to)
    ensures Within(front, from, to)
    decreases |front|
  {
    if front != [] {
      assert (front + back)[1..] == front[1..] + back;
      FrontWithin(front[1..], back, front[0].end, to);
    } else {
      WithinFits(front + back, from, to);
    }
  }

  /** The edits before the last one end where it starts. */
  lemma {:induction false} Cut(edits: seq<Edit>, last: Edit, from: nat, to: nat)
    requires Within(edits + [last], from, to)
    ensures Within(edits, from, last.start) && last.start <= last.end <= to
    decreases |edits|
  {
    if edits == [] {
      assert (edits + [last])[0] == last;
      WithinFits(edits + [last], from, to);
    } else {
      assert (edits + [last])[1..] == edits[1..] + [last];
      Cut(edits[1..], last, edits[0].end, to);
    }
  }

  // ---------- the sort ----------

  /** A stable place for one more edit: before the first one that starts earlier. */
  function Inserted(sorted: seq<Edit>, edit: Edit): seq<Edit> {
    if sorted == [] then [edit]
    else if sorted[0].start < edit.start then [edit] + sorted
    else [sorted[0]] + Inserted(sorted[1..], edit)
  }

  /** sort((left, right) => right.start - left.start), which is stable. */
  function Sorted(edits: seq<Edit>): seq<Edit> {
    if edits == [] then [] else Inserted(Sorted(edits[..|edits| - 1]), edits[|edits| - 1])
  }

  ghost predicate Descending(edits: seq<Edit>) {
    forall i, j :: 0 <= i < j < |edits| ==> edits[j].start <= edits[i].start
  }

  lemma {:induction false} InsertedKeeps(sorted: seq<Edit>, edit: Edit)
    ensures multiset(Inserted(sorted, edit)) == multiset(sorted) + multiset{edit}
  {
    if sorted != [] {
      InsertedKeeps(sorted[1..], edit);
      assert sorted == [sorted[0]] + sorted[1..];
    }
  }

  lemma {:induction false} InsertedHolds(sorted: seq<Edit>, edit: Edit)
    ensures forall i :: 0 <= i < |Inserted(sorted, edit)| ==> Inserted(sorted, edit)[i] == edit || Inserted(sorted, edit)[i] in sorted
  {
    if sorted != [] && sorted[0].start >= edit.start {
      InsertedHolds(sorted[1..], edit);
      forall e | e in sorted[1..] ensures e in sorted {}
    }
  }

  lemma InFront(first: Edit, rest: seq<Edit>)
    requires Descending(rest) && forall i :: 0 <= i < |rest| ==> rest[i].start <= first.start
    ensures Descending([first] + rest)
  {
  }

  lemma {:induction false} InsertedSorts(sorted: seq<Edit>, edit: Edit)
    requires Descending(sorted)
    ensures Descending(Inserted(sorted, edit))
  {
    if sorted != [] && sorted[0].start >= edit.start {
      var rest := Inserted(sorted[1..], edit);
      InsertedSorts(sorted[1..], edit);
      InsertedHolds(sorted[1..], edit);
      hide Descending;
      forall i | 0 <= i < |rest| ensures rest[i].start <= sorted[0].start {
        if rest[i] != edit {
          assert rest[i] in sorted[1..];
          LaterStartsBefore(sorted, rest[i]);
        }
      }
      InFront(sorted[0], rest);
    } else {
      InFrontOfAll(sorted, edit);
    }
  }

  lemma LaterStartsBefore(sorted: seq<Edit>, e: Edit)
    requires Descending(sorted) && sorted != [] && e in sorted[1..]
    ensures e.start <= sorted[0].start
  {
    var k :| 0 <= k < |sorted[1..]| && sorted[1..][k] == e;
    assert sorted[k + 1] == e;
  }

  lemma InFrontOfAll(sorted: seq<Edit>, edit: Edit)
    requires Descending(sorted) && (sorted != [] ==> sorted[0].start < edit.start)
    ensures Descending(Inserted(sorted, edit))
  {
    if sorted != [] { InFront(edit, sorted); }
  }

  /** The sort orders the edits by start and keeps every one of them. */
  lemma {:induction false} SortedSorts(edits: seq<Edit>)
    ensures Descending(Sorted(edits)) && multiset(Sorted(edits)) == multiset(edits)
  {
    if edits != [] {
      var front := edits[..|edits| - 1];
      SortedSorts(front);
      InsertedSorts(Sorted(front), edits[|edits| - 1]);
      InsertedKeeps(Sorted(front), edits[|edits| - 1]);
      assert edits == front + [edits[|edits| - 1]];
    }
  }

  function Reversed(edits: seq<Edit>): seq<Edit> {
    if edits == [] then [] else Reversed(edits[1..]) + [edits[0]]
  }

  lemma {:induction false} ReversedSnoc(front: seq<Edit>, last: Edit)
    ensures Reversed(front + [last]) == [last] + Reversed(front)
  {
    if front == [] {
      assert (front + [last])[1..] == [];
    } else {
      ReversedSnoc(front[1..], last);
      assert (front + [last])[1..] == front[1..] + [last];
    }
  }

  /** Replacements of nonempty ranges, in text order. */
  ghost predicate Proper(edits: seq<Edit>, from: nat, to: nat) {
    Within(edits, from, to) && forall i :: 0 <= i < |edits| ==> edits[i].start < edits[i].end
  }

  lemma {:induction false} SortedReverses(edits: seq<Edit>, from: nat, to: nat)
    requires Proper(edits, from, to)
    ensures Sorted(edits) == Reversed(edits)
  {
    if edits != [] {
      var front, last := edits[..|edits| - 1], edits[|edits| - 1];
      assert edits == front + [last];
      FrontWithin(front, [last], from, to);
      Cut(front, last, from, to);
      WithinFits(front, from, last.start);
      SortedReverses(front, from, to);
      ReversedSnoc(front, last);
      assert front != [] ==> Reversed(front)[0] == front[|front| - 1] by { if front != [] { ReversedHead(front); } }
    }
  }

  lemma ReversedHead(edits: seq<Edit>)
    requires edits != []
    ensures Reversed(edits) != [] && Reversed(edits)[0] == edits[|edits| - 1]
  {
    hide Reversed;
    var front, last := edits[..|edits| - 1], edits[|edits| - 1];
    assert edits == front + [last];
    ReversedSnoc(front, last);
  }

  /** An insertion pushed last, no later in the text than any other edit, is sorted last: even
      when a replacement starts at its very offset. */
  lemma InsertionGoesLast(edits: seq<Edit>, insertion: Edit, to: nat)
    requires Proper(edits, insertion.start, to) && insertion.start == insertion.end
    ensures Sorted(edits + [insertion]) == Reversed([insertion] + edits)
    ensures Within([insertion] + edits, 0, to)
  {
    var all := edits + [insertion];
    assert all[..|all| - 1] == edits;
    SortedReverses(edits, insertion.start, to);
    WithinFits(edits, insertion.start, to);
    assert ([insertion] + edits)[1..] == edits;
    ReversedMembers(edits);
    InsertedLast(Reversed(edits), insertion);
  }

  lemma {:induction false} ReversedMembers(edits: seq<Edit>)
    ensures forall e :: e in Reversed(edits) ==> e in edits
  {
    if edits != [] { ReversedMembers(edits[1..]); }
  }

  lemma {:induction false} InsertedLast(sorted: seq<Edit>, edit: Edit)
    requires forall e :: e in sorted ==> edit.start <= e.start
    ensures Inserted(sorted, edit) == sorted + [edit]
  {
    if sorted != [] {
      InsertedLast(sorted[1..], edit);
      assert sorted == [sorted[0]] + sorted[1..];
    }
  }

  /** What is left after one splice. */
  lemma SplicedOne(text: string, left: seq<Edit>) returns (front: seq<Edit>)
    requires left != [] && Within(left, 0, |text|)
    ensures front == left[..|left| - 1] && Reversed(left) == [left[|left| - 1]] + Reversed(front)
    ensures left[|left| - 1].start <= left[|left| - 1].end <= |text|
    ensures Gives(Spliced(text, left[|left| - 1]), 0, front, Substituted(text, 0, left))
  {
    front := left[..|left| - 1];
    var last := left[|left| - 1];
    assert left == front + [last];
    ReversedSnoc(front, last);
    LastFirst(text, front, last);
  }

  /** The loop of the source over sorted edits equals substituting them all at once. */
  method SpliceAll(contents: string, sorted: seq<Edit>, ghost edits: seq<Edit>) returns (rewritten: string)
    requires sorted == Reversed(edits) && Within(edits, 0, |contents|)
    ensures rewritten == Substituted(contents, 0, edits)
  {
    hide Substituted, Within, Spliced, Reversed;
    rewritten := contents;
    ghost var left := edits;
    var i := 0;
    assert sorted[0..] == sorted;
    while i < |sorted|
      invariant i <= |sorted| && sorted[i..] == Reversed(left)
      invariant Gives(rewritten, 0, left, Substituted(contents, 0, edits))
    {
      if left == [] { EmptyReversed(); }
      ghost var front := SplicedOne(rewritten, left);
      assert sorted[i] == sorted[i..][0] && sorted[i + 1..] == sorted[i..][1..];
      rewritten := Spliced(rewritten, sorted[i]);
      left := front;
      i := i + 1;
    }
    NothingLeft(rewritten, left, Substituted(contents, 0, edits));
  }

  lemma EmptyReversed()
    ensures Reversed([]) == []
  {
  }

  lemma NothingLeft(text: string, left: seq<Edit>, result: string)
    requires Reversed(left) == [] && Gives(text, 0, left, result)
    ensures text == result
  {
    if left != [] { ReversedHead(left); }
  }
}
