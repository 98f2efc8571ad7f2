/** Wildcard scope grants of access keys (scopeGrantMatches in src/auth-admission.ts): the matcher
    places the literal parts of a grant greedily, each at its first occurrence.  It is proved to
    accept exactly the scopes in which the parts can be placed at all. */
module ScopeGrant {
  import opened Strings

  const STAR: char := '*'

  // ---------- string operations of the source ----------

  predicate OccursAt(text: string, part: string, at: int) {
    0 <= at && at + |part| <= |text| && text[at..at + |part|] == part
  }

  /** The first occurrence at or after an offset, or -1. */
  function IndexOf(text: string, part: string, offset: nat): (at: int)
    ensures at == -1 || (offset <= at && OccursAt(text, part, at))
    ensures forall k :: offset <= k && OccursAt(text, part, k) ==> at != -1 && at <= k
    decreases |text| - offset
  {
    if offset > |text| then -1
    else if OccursAt(text, part, offset) then offset
    else if offset == |text| then -1
    else IndexOf(text, part, offset + 1)
  }

  predicate StartsWith(text: string, prefix: string) { prefix <= text }

  predicate EndsWith(text: string, suffix: string) {
    |suffix| <= |text| && text[|text| - |suffix|..] == suffix
  }

  // ---------- what a grant means ----------

  /** Character by character: a star stands for any string, every other character for itself. */
  ghost predicate Glob(grant: string, scope: string) {
    if grant == "" then scope == ""
    else if grant[0] == STAR then exists k :: 0 <= k <= |scope| && Glob(grant[1..], scope[k..])
    else scope != "" && scope[0] == grant[0] && Glob(grant[1..], scope[1..])
  }

  /** The literal parts of a grant with one string in the place of each star. */
  function Woven(parts: seq<string>, gaps: seq<string>): string
    requires |parts| == |gaps| + 1
  {
    if gaps == [] then parts[0] else parts[0] + gaps[0] + Woven(parts[1..], gaps[1..])
  }

  /** The parts, each after a star, can be placed from an offset to the end of the text. */
  ghost predicate Placeable(parts: seq<string>, text: string, offset: nat)
    requires parts != []
  {
    exists at: int :: offset <= at && OccursAt(text, parts[0], at) &&
      if |parts| == 1 then at + |parts[0]| == |text| else Placeable(parts[1..], text, at + |parts[0]|)
  }

  /** The parts can be placed in order between two bounds, without overlapping. */
  ghost predicate Between(parts: seq<string>, text: string, offset: int, limit: int) {
    if parts == [] then offset <= limit
    else exists at: int :: offset <= at && OccursAt(text, parts[0], at) && at + |parts[0]| <= limit
           && Between(parts[1..], text, at + |parts[0]|, limit)
  }

  /** The first part stands at a position, and the others can be placed after it. */
  ghost predicate PlacedAt(parts: seq<string>, text: string, at: int)
    requires parts != []
  {
    OccursAt(text, parts[0], at) &&
    if |parts| == 1 then at + |parts[0]| == |text| else Placeable(parts[1..], text, at + |parts[0]|)
  }

  ghost predicate FitsAt(parts: seq<string>, text: string, limit: int, at: int)
    requires parts != []
  {
    OccursAt(text, parts[0], at) && at + |parts[0]| <= limit && Between(parts[1..], text, at + |parts[0]|, limit)
  }

  lemma PlaceableSomewhere(parts: seq<string>, text: string, offset: nat)
    requires parts != []
    ensures Placeable(parts, text, offset) <==> exists at: int :: offset <= at && PlacedAt(parts, text, at)
  {
    if at: int :| offset <= at && PlacedAt(parts, text, at) {
      assert OccursAt(text, parts[0], at);
    }
    if Placeable(parts, text, offset) {
      var at: int :| offset <= at && OccursAt(text, parts[0], at) &&
        if |parts| == 1 then at + |parts[0]| == |text| else Placeable(parts[1..], text, at + |parts[0]|);
      assert PlacedAt(parts, text, at);
    }
  }

  lemma BetweenSomewhere(parts: seq<string>, text: string, offset: int, limit: int)
    requires parts != []
    ensures Between(parts, text, offset, limit) <==> exists at: int :: offset <= at && FitsAt(parts, text, limit, at)
  {
    if at: int :| offset <= at && FitsAt(parts, text, limit, at) {
      assert OccursAt(text, parts[0], at);
    }
    if Between(parts, text, offset, limit) {
      var at: int :| offset <= at && OccursAt(text, parts[0], at) && at + |parts[0]| <= limit && Between(parts[1..], text, at + |parts[0]|, limit);
      assert FitsAt(parts, text, limit, at);
    }
  }

  // ---------- the matcher ----------

  method ScopeGrantMatches(grant: string, requiredScope: string) returns (matched: bool)
    ensures matched <==> Glob(grant, requiredScope)
    ensures matched <==> exists gaps :: |gaps| + 1 == |Split(grant, STAR)| && Woven(Split(grant, STAR), gaps) == requiredScope
  {
    var parts := Split(grant, STAR);
    matched := Greedy(grant, requiredScope, parts);
    GlobIsWoven(grant, requiredScope);
  }

  method Greedy(grant: string, requiredScope: string, parts: seq<string>) returns (matched: bool)
    requires parts == Split(grant, STAR)
    ensures matched <==> Glob(grant, requiredScope)
  {
    hide Glob, Placeable, Between;
    GlobIsPlacement(grant, requiredScope);
    if |parts| == 1 {
      NoStarIsItself(grant);
      return grant == requiredScope;
    }
    StarEnds(grant);
    var fromStar, toStar := StartsWith(grant, [STAR]), EndsWith(grant, [STAR]);
    var offset := if fromStar then 0 else |parts[0]|;
    if !fromStar && !StartsWith(requiredScope, parts[0]) { return false; }
    var suffix := if toStar then "" else parts[|parts| - 1];
    var limit := |requiredScope| - |suffix|;
    PlaceableIsBetween(parts[1..], requiredScope, |parts[0]|);
    assert parts[1..][|parts| - 2] == suffix && parts[1..][..|parts| - 2] == parts[1..|parts| - 1];
    assert EndsWith(requiredScope, suffix) || suffix != "" by { assert requiredScope[|requiredScope|..] == ""; }
    if limit < offset || (suffix != "" && !EndsWith(requiredScope, suffix)) { return false; }
    var first, last := if fromStar then 0 else 1, if toStar then |parts| else |parts| - 1;
    BlankEnds(parts, first, last, requiredScope, offset, limit);
    matched := PlaceInterior(parts[first..last], requiredScope, offset, limit);
  }

  /** The loop over the parts that are neither prefix nor suffix. */
  method PlaceInterior(parts: seq<string>, requiredScope: string, from: nat, limit: nat) returns (matched: bool)
    requires from <= limit <= |requiredScope|
    ensures matched <==> Between(parts, requiredScope, from, limit)
  {
    hide FitsAt, OccursAt;
    var offset := from;
    var i := 0;
    assert parts[0..] == parts;
    while i < |parts|
      invariant 0 <= i <= |parts| && 0 <= offset <= limit
      invariant Between(parts[i..], requiredScope, offset, limit) == Between(parts, requiredScope, from, limit)
    {
      var part := parts[i];
      assert parts[i..][1..] == parts[i + 1..];
      if part != "" {
        var foundAt := IndexOf(requiredScope, part, offset);
        FirstOccurrenceIsBest(parts[i..], requiredScope, offset, limit, foundAt);
        if foundAt == -1 || foundAt + |part| > limit { return false; }
        offset := foundAt + |part|;
      } else {
        BlankPart(parts[i..], requiredScope, offset, limit);
      }
      i := i + 1;
    }
    return true;
  }

  // ---------- greedy placement loses nothing ----------

  lemma EarlierIsBetter(parts: seq<string>, text: string, earlier: int, offset: int, limit: int)
    requires earlier <= offset && Between(parts, text, offset, limit)
    ensures Between(parts, text, earlier, limit)
  {
  }

  /** If the parts can be placed at all, they can with the first one at its first occurrence. */
  lemma FirstOccurrenceIsBest(parts: seq<string>, text: string, offset: nat, limit: int, foundAt: int)
    requires parts != [] && foundAt == IndexOf(text, parts[0], offset) && limit <= |text|
    ensures Between(parts, text, offset, limit) <==>
              foundAt != -1 && foundAt + |parts[0]| <= limit && Between(parts[1..], text, foundAt + |parts[0]|, limit)
  {
    BetweenSomewhere(parts, text, offset, limit);
    if at: int :| offset <= at && FitsAt(parts, text, limit, at) {
      EarlierIsBetter(parts[1..], text, foundAt + |parts[0]|, at + |parts[0]|, limit);
    }
    if foundAt != -1 && foundAt + |parts[0]| <= limit && Between(parts[1..], text, foundAt + |parts[0]|, limit) {
      assert FitsAt(parts, text, limit, foundAt);
    }
  }

  lemma BlankPart(parts: seq<string>, text: string, offset: nat, limit: int)
    requires parts != [] && parts[0] == "" && offset <= limit <= |text|
    ensures Between(parts, text, offset, limit) == Between(parts[1..], text, offset, limit)
  {
    BetweenSomewhere(parts, text, offset, limit);
    if at: int :| offset <= at && FitsAt(parts, text, limit, at) {
      EarlierIsBetter(parts[1..], text, offset, at, limit);
    }
    if Between(parts[1..], text, offset, limit) {
      assert FitsAt(parts, text, limit, offset);
    }
  }

  lemma {:induction false} BlankLast(parts: seq<string>, text: string, offset: nat, limit: int)
    requires parts != [] && parts[|parts| - 1] == "" && offset <= limit <= |text|
    ensures Between(parts, text, offset, limit) == Between(parts[..|parts| - 1], text, offset, limit)
  {
    if |parts| == 1 {
      BlankPart(parts, text, offset, limit);
      assert parts[1..] == parts[..0];
    } else {
      var init := parts[..|parts| - 1];
      assert init[1..] == parts[1..][..|parts| - 2] && init[0] == parts[0];
      forall at: int | offset <= at ensures FitsAt(parts, text, limit, at) == FitsAt(init, text, limit, at) {
        if OccursAt(text, parts[0], at) && at + |parts[0]| <= limit { BlankLast(parts[1..], text, at + |parts[0]|, limit); }
      }
      BetweenSomewhere(parts, text, offset, limit);
      BetweenSomewhere(init, text, offset, limit);
    }
  }

  /** The parts the loop visits differ from the interior ones only by blank first and last parts. */
  lemma BlankEnds(parts: seq<string>, first: nat, last: nat, text: string, offset: nat, limit: int)
    requires |parts| >= 2 && offset <= limit <= |text|
    requires first == 1 || (first == 0 && parts[0] == "")
    requires last == |parts| - 1 || (last == |parts| && parts[|parts| - 1] == "")
    ensures Between(parts[first..last], text, offset, limit) == Between(parts[1..|parts| - 1], text, offset, limit)
  {
    if first == 0 {
      BlankPart(parts[0..last], text, offset, limit);
      assert parts[0..last][1..] == parts[1..last];
    }
    if last == |parts| {
      BlankLast(parts[1..last], text, offset, limit);
      assert parts[1..last][..|parts| - 2] == parts[1..|parts| - 1];
    }
  }

  /** The last part must end the text; the others fit before it. */
  lemma {:induction false} PlaceableIsBetween(parts: seq<string>, text: string, offset: nat)
    requires parts != []
    ensures var last := parts[|parts| - 1];
            var limit := |text| - |last|;
            Placeable(parts, text, offset) <==> (offset <= limit && EndsWith(text, last) && Between(parts[..|parts| - 1], text, offset, limit))
    decreases |parts|, 1
  {
    var last, init := parts[|parts| - 1], parts[..|parts| - 1];
    var limit := |text| - |last|;
    PlaceableSomewhere(parts, text, offset);
    if |parts| == 1 {
      if offset <= limit && EndsWith(text, last) { assert PlacedAt(parts, text, limit); }
    } else {
      forall at: int | offset <= at
        ensures PlacedAt(parts, text, at) <==> (EndsWith(text, last) && FitsAt(init, text, limit, at))
      {
        if OccursAt(text, parts[0], at) { PlacedIsFitting(parts, text, at); }
      }
      BetweenSomewhere(init, text, offset, limit);
      if Between(init, text, offset, limit) { BetweenBounds(init, text, offset, limit); }
    }
  }

  lemma BetweenBounds(parts: seq<string>, text: string, offset: int, limit: int)
    requires Between(parts, text, offset, limit)
    ensures offset <= limit
  {
  }

  lemma {:induction false} PlacedIsFitting(parts: seq<string>, text: string, at: int)
    requires |parts| > 1 && OccursAt(text, parts[0], at)
    ensures var last := parts[|parts| - 1];
            PlacedAt(parts, text, at) <==> (EndsWith(text, last) && FitsAt(parts[..|parts| - 1], text, |text| - |last|, at))
    decreases |parts|, 0
  {
    var rest, init := parts[1..], parts[..|parts| - 1];
    PlaceableIsBetween(rest, text, at + |parts[0]|);
    assert rest[|rest| - 1] == parts[|parts| - 1] && init[1..] == rest[..|rest| - 1] && init[0] == parts[0];
    if Between(init[1..], text, at + |parts[0]|, |text| - |parts[|parts| - 1]|) {
      BetweenBounds(init[1..], text, at + |parts[0]|, |text| - |parts[|parts| - 1]|);
    }
  }

  // ---------- the three meanings agree ----------

  /** The parts of a grant placed in a text that has been read up to an offset. */
  ghost predicate Placement(parts: seq<string>, text: string)
    requires parts != []
  {
    if |parts| == 1 then text == parts[0] else StartsWith(text, parts[0]) && Placeable(parts[1..], text, |parts[0]|)
  }

  lemma OccursShift(text: string, part: string, at: int, k: nat)
    requires k <= at && k <= |text|
    ensures OccursAt(text, part, at) <==> OccursAt(text[k..], part, at - k)
  {
    if at + |part| <= |text| { assert text[k..][at - k..at - k + |part|] == text[at..at + |part|]; }
  }

  lemma {:induction false} PlaceableShift(parts: seq<string>, text: string, offset: nat, k: nat)
    requires parts != [] && k <= offset && k <= |text|
    ensures Placeable(parts, text, offset) <==> Placeable(parts, text[k..], offset - k)
    decreases |parts|, 1
  {
    forall at: int | offset <= at ensures PlacedAt(parts, text, at) <==> PlacedAt(parts, text[k..], at - k) {
      PlacedShift(parts, text, at, k);
    }
    PlaceableSomewhere(parts, text, offset);
    PlaceableSomewhere(parts, text[k..], offset - k);
    if at: int :| offset <= at && PlacedAt(parts, text, at) {
      assert PlacedAt(parts, text[k..], at - k);
    }
    if at: int :| offset - k <= at && PlacedAt(parts, text[k..], at) {
      assert PlacedAt(parts, text, at + k) <==> PlacedAt(parts, text[k..], at + k - k);
    }
  }

  lemma {:induction false} PlacedShift(parts: seq<string>, text: string, at: int, k: nat)
    requires parts != [] && k <= at && k <= |text|
    ensures PlacedAt(parts, text, at) <==> PlacedAt(parts, text[k..], at - k)
    decreases |parts|, 0
  {
    OccursShift(text, parts[0], at, k);
    if |parts| > 1 && OccursAt(text, parts[0], at) { PlaceableShift(parts[1..], text, at + |parts[0]|, k); }
  }

  lemma PlacedIsPlacement(parts: seq<string>, text: string, k: nat)
    requires parts != [] && k <= |text|
    ensures Placement(parts, text[k..]) <==> PlacedAt(parts, text, k)
  {
    PlacedShift(parts, text, k, k);
    if |parts[0]| <= |text[k..]| { assert text[k..][0..|parts[0]|] == text[k..][..|parts[0]|]; }
    assert OccursAt(text[k..], parts[0], 0) <==> StartsWith(text[k..], parts[0]);
  }

  /** After a star, the parts can be placed from the start on when they match some suffix. */
  lemma PlaceableIsSuffix(parts: seq<string>, text: string)
    requires parts != []
    ensures Placeable(parts, text, 0) <==> exists k :: 0 <= k <= |text| && Placement(parts, text[k..])
  {
    hide Placement;
    forall k: nat | k <= |text| ensures Placement(parts, text[k..]) <==> PlacedAt(parts, text, k) {
      PlacedIsPlacement(parts, text, k);
    }
    PlaceableSomewhere(parts, text, 0);
    if at: int :| 0 <= at && PlacedAt(parts, text, at) {
      assert Placement(parts, text[at..]);
    }
  }

  lemma {:induction false} GlobIsPlacement(grant: string, scope: string)
    ensures Glob(grant, scope) <==> Placement(Split(grant, STAR), scope)
    decreases |grant|
  {
    var parts := Split(grant, STAR);
    if grant != "" {
      var rest := Split(grant[1..], STAR);
      if grant[0] == STAR {
        assert parts[1..] == rest;
        forall k | 0 <= k <= |scope| ensures Glob(grant[1..], scope[k..]) <==> Placement(rest, scope[k..]) {
          GlobIsPlacement(grant[1..], scope[k..]);
        }
        PlaceableIsSuffix(rest, scope);
      } else {
        assert parts[0] == [grant[0]] + rest[0] && parts[1..] == rest[1..];
        if scope != "" && scope[0] == grant[0] {
          GlobIsPlacement(grant[1..], scope[1..]);
          assert StartsWith(scope, parts[0]) <==> StartsWith(scope[1..], rest[0]);
          assert scope == parts[0] <==> scope[1..] == rest[0];
          if |rest| > 1 && StartsWith(scope, parts[0]) { PlaceableShift(rest[1..], scope, |parts[0]|, 1); }
        }
      }
    }
  }

  lemma {:induction false} PlacementIsWoven(parts: seq<string>, text: string)
    requires parts != []
    ensures Placement(parts, text) <==> exists gaps :: |gaps| + 1 == |parts| && Woven(parts, gaps) == text
    decreases |parts|
  {
    if |parts| == 1 {
      assert Woven(parts, []) == parts[0];
    } else {
      if Placement(parts, text) {
        var gaps := WeaveFor(parts, text);
      }
      if gaps :| |gaps| + 1 == |parts| && Woven(parts, gaps) == text {
        WovenPlaces(parts, gaps);
      }
    }
  }

  lemma {:induction false} WeaveFor(parts: seq<string>, text: string) returns (gaps: seq<string>)
    requires parts != [] && Placement(parts, text)
    ensures |gaps| + 1 == |parts| && Woven(parts, gaps) == text
    decreases |parts|
  {
    if |parts| == 1 {
      gaps := [];
    } else {
      hide Placement, Woven;
      var tail, k := NextPlacement(parts, text);
      var rest := WeaveFor(parts[1..], tail[k..]);
      gaps := [tail[..k]] + rest;
      WovenStep(parts, tail[..k], rest);
      assert tail == tail[..k] + tail[k..];
      Regrouped(parts[0], tail[..k], tail[k..]);
    }
  }

  lemma NextPlacement(parts: seq<string>, text: string) returns (tail: string, k: nat)
    requires |parts| > 1 && Placement(parts, text)
    ensures text == parts[0] + tail && k <= |tail| && Placement(parts[1..], tail[k..])
  {
    hide PlacedAt, Placeable;
    tail := text[|parts[0]|..];
    PlaceableShift(parts[1..], text, |parts[0]|, |parts[0]|);
    PlaceableIsSuffix(parts[1..], tail);
    hide Placement;
    k :| 0 <= k <= |tail| && Placement(parts[1..], tail[k..]);
  }

  lemma WovenStep(parts: seq<string>, gap: string, gaps: seq<string>)
    requires |parts| == |gaps| + 2
    ensures Woven(parts, [gap] + gaps) == parts[0] + gap + Woven(parts[1..], gaps)
  {
    assert ([gap] + gaps)[1..] == gaps;
  }

  lemma {:induction false} WovenPlaces(parts: seq<string>, gaps: seq<string>)
    requires |parts| == |gaps| + 1
    ensures Placement(parts, Woven(parts, gaps))
    decreases |parts|
  {
    if |parts| > 1 {
      hide PlacedAt, Placeable;
      var rest, text := parts[1..], Woven(parts, gaps);
      var tail := Woven(rest, gaps[1..]);
      WovenPlaces(rest, gaps[1..]);
      assert text[..|parts[0]|] == parts[0];
      assert text[|parts[0]|..] == gaps[0] + tail && (gaps[0] + tail)[|gaps[0]|..] == tail;
      PlaceableIsSuffix(rest, text[|parts[0]|..]);
      PlaceableShift(rest, text, |parts[0]|, |parts[0]|);
    }
  }

  lemma GlobIsWoven(grant: string, scope: string)
    ensures Glob(grant, scope) <==> exists gaps :: |gaps| + 1 == |Split(grant, STAR)| && Woven(Split(grant, STAR), gaps) == scope
  {
    GlobIsPlacement(grant, scope);
    PlacementIsWoven(Split(grant, STAR), scope);
  }

  // ---------- facts about splitting ----------

  lemma {:induction false} NoStarIsItself(grant: string)
    requires |Split(grant, STAR)| == 1
    ensures Split(grant, STAR)[0] == grant
  {
    if grant != "" { NoStarIsItself(grant[1..]); }
  }

  lemma {:induction false} StarEnds(grant: string)
    requires |Split(grant, STAR)| >= 2
    ensures StartsWith(grant, [STAR]) ==> Split(grant, STAR)[0] == ""
    ensures EndsWith(grant, [STAR]) ==> Split(grant, STAR)[|Split(grant, STAR)| - 1] == ""
  {
    if |grant| == 1 {
      assert Split(grant[1..], STAR) == [""];
    } else if |grant| > 1 {
      assert grant[|grant| - 1..] == grant[1..][|grant| - 2..];
      if |Split(grant[1..], STAR)| >= 2 {
        StarEnds(grant[1..]);
      } else {
        NoStarIsItself(grant[1..]);
        PartsHaveNoSeparator(grant[1..], STAR);
        assert grant[1..][|grant| - 2] == grant[|grant| - 1..][0];
        assert Split(grant[1..], STAR)[0] == grant[1..];
      }
    }
  }

  ghost predicate Covered(grants: seq<string>, scope: string) {
    exists j :: 0 <= j < |grants| && Glob(grants[j], scope)
  }

  lemma CoveredOneMore(grants: seq<string>, scope: string, j: nat)
    requires j < |grants|
    ensures Covered(grants[..j + 1], scope) <==> Covered(grants[..j], scope) || Glob(grants[j], scope)
  {
    hide Glob;
    var more := grants[..j + 1];
    assert more == grants[..j] + [grants[j]];
    if Glob(grants[j], scope) { assert Glob(more[j], scope); }
    if Covered(grants[..j], scope) {
      var i :| 0 <= i < |grants[..j]| && Glob(grants[..j][i], scope);
      assert Glob(more[i], scope);
    }
    if Covered(more, scope) {
      var i :| 0 <= i < |more| && Glob(more[i], scope);
      if i < j { assert Glob(grants[..j][i], scope); }
    }
  }

  method SomeGrantMatches(grants: seq<string>, requiredScope: string) returns (covered: bool)
    ensures covered <==> Covered(grants, requiredScope)
  {
    hide Glob, Covered;
    covered := false;
    var j := 0;
    NothingCovers(requiredScope);
    assert grants[..0] == [];
    while j < |grants| && !covered
      invariant 0 <= j <= |grants|
      invariant covered <==> Covered(grants[..j], requiredScope)
    {
      CoveredOneMore(grants, requiredScope, j);
      covered := ScopeGrantMatches(grants[j], requiredScope);
      j := j + 1;
    }
    CoveredByMore(grants, requiredScope, j);
    assert grants[..|grants|] == grants;
  }

  lemma NothingCovers(scope: string)
    ensures !Covered([], scope)
  {
  }

  lemma CoveredByMore(grants: seq<string>, scope: string, j: nat)
    requires j <= |grants|
    ensures Covered(grants[..j], scope) ==> Covered(grants, scope)
  {
    hide Glob;
    if Covered(grants[..j], scope) {
      var i :| 0 <= i < |grants[..j]| && Glob(grants[..j][i], scope);
      assert Glob(grants[i], scope);
    }
  }

  /** accessKeyGrantsSatisfyScopes: every required scope is covered by some grant. */
  method GrantsSatisfyScopes(grants: seq<string>, requiredScopes: seq<string>) returns (satisfied: bool)
    ensures satisfied <==> forall i :: 0 <= i < |requiredScopes| ==> Covered(grants, requiredScopes[i])
  {
    hide Covered;
    for i := 0 to |requiredScopes|
      invariant forall h :: 0 <= h < i ==> Covered(grants, requiredScopes[h])
    {
      var covered := SomeGrantMatches(grants, requiredScopes[i]);
      if !covered { return false; }
    }
    return true;
  }
}
