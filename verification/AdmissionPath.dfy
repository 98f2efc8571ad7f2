/** The canonical pathname of an admission request (canonicalAdmissionPathname in
    src/admission-policy.ts).  The stack of segments is proved to compute remove_dot_segments of
    section 5.2.4 of RFC 3986.  decodeURIComponent is a parameter. */
module AdmissionPath {
  import opened Strings

  datatype Result = Canonical(pathname: string) | Invalid
  datatype Decoded = Text(text: string) | UriError

  // ---------- what the source checks ----------

  predicate IsControl(c: char) { c as int <= 0x1f || c as int == 0x7f }

  predicate IsHex(c: char) { '0' <= c <= '9' || 'a' <= c <= 'f' || 'A' <= c <= 'F' }

  /** An escape of two hexadecimal digits. */
  ghost predicate HasEscape(text: string) {
    exists i :: EscapeAt(text, i)
  }

  predicate EscapeAt(text: string, i: int) {
    0 <= i && i + 2 < |text| && text[i] == '%' && IsHex(text[i + 1]) && IsHex(text[i + 2])
  }

  predicate EscapedSeparatorAt(text: string, i: int) {
    0 <= i && i + 2 < |text| && text[i] == '%' &&
    ((text[i + 1] == '2' && text[i + 2] in "fF") || (text[i + 1] == '5' && text[i + 2] in "cC"))
  }

  predicate Refused(c: char) { c == '\\' || c == '?' || c == '#' || c as int <= 0x20 || c as int == 0x7f }

  ghost predicate RawAccepted(raw: string) {
    && raw != "" && raw[0] == '/'
    && (forall c :: c in raw ==> !Refused(c))
    && (forall i :: !EscapedSeparatorAt(raw, i))
  }

  ghost predicate DecodedAccepted(text: string) {
    (forall c :: c in text ==> !IsControl(c)) && !HasEscape(text)
  }

  /** decodeURIComponent leaves text without a percent sign alone, and rejects a percent sign that
      does not begin an escape. */
  ghost predicate Decodes(decode: string -> Decoded) {
    && (forall t: string :: '%' !in t ==> decode(t) == Text(t))
    && (forall t: string :: '%' in t && !HasEscape(t) ==> decode(t) == UriError)
    && (forall t: string :: t != "" && t[0] == '/' && decode(t).Text? ==> decode(t).text != "" && decode(t).text[0] == '/')
  }

  // ---------- the stack of segments ----------

  predicate IsDot(segment: string) { segment == "." || segment == ".." }

  function Popped(stack: seq<string>): seq<string> {
    if stack == [] then [] else stack[..|stack| - 1]
  }

  /** The stack after the remaining segments. */
  function Resolved(segments: seq<string>, stack: seq<string>): seq<string>
    decreases |segments|
  {
    if segments == [] then stack
    else if IsDot(segments[0]) then
      var popped := if segments[0] == ".." then Popped(stack) else stack;
      Resolved(segments[1..], if |segments| == 1 then popped + [""] else popped)
    else Resolved(segments[1..], stack + [segments[0]])
  }

  method ResolveSegments(segments: seq<string>) returns (output: seq<string>)
    ensures output == Resolved(segments, [])
  {
    output := [];
    var index := 0;
    assert segments[0..] == segments;
    while index < |segments|
      invariant index <= |segments| && Resolved(segments[index..], output) == Resolved(segments, [])
    {
      var segment := segments[index];
      assert segments[index..][1..] == segments[index + 1..];
      if segment == "." || segment == ".." {
        if segment == ".." { output := Popped(output); }
        if index == |segments| - 1 { output := output + [""]; }
      } else {
        output := output + [segment];
      }
      index := index + 1;
    }
  }

  ghost function CanonicalPathname(raw: string, decode: string -> Decoded): Result {
    if raw == "*" then Canonical(raw)
    else if !RawAccepted(raw) then Invalid
    else
      match decode(raw)
      case UriError => Invalid
      case Text(decoded) =>
        if decoded == "" || !DecodedAccepted(decoded) then Invalid
        else Canonical("/" + Join(Resolved(Split(decoded[1..], '/'), []), '/'))
  }

  // ---------- which pathnames are refused ----------

  predicate Occurs(piece: string, raw: string, i: nat) { i + |piece| <= |raw| && raw[i..i + |piece|] == piece }

  /** An escaped slash or backslash, in either case. */
  ghost predicate HidesSeparator(raw: string) {
    exists piece: string, i: nat :: piece in ["%2f", "%2F", "%5c", "%5C"] && Occurs(piece, raw, i)
  }

  lemma SeparatorHidden(raw: string)
    ensures HidesSeparator(raw) <==> exists i :: EscapedSeparatorAt(raw, i)
  {
    if piece: string, i: nat :| piece in ["%2f", "%2F", "%5c", "%5C"] && Occurs(piece, raw, i) {
      assert raw[i..i + 3] == piece;
      assert piece[0] == raw[i] && piece[1] == raw[i + 1] && piece[2] == raw[i + 2];
      assert EscapedSeparatorAt(raw, i);
    }
    if i :| EscapedSeparatorAt(raw, i) {
      var piece := raw[i..i + 3];
      assert piece == [raw[i], raw[i + 1], raw[i + 2]];
      assert piece in ["%2f", "%2F", "%5c", "%5C"] && Occurs(piece, raw, i);
    }
  }

  /** No backslash, question mark, hash, control character or space. */
  ghost predicate PlainText(raw: string) {
    forall c :: c in raw ==> c != '\\' && c != '?' && c != '#' && c as int > 0x20 && c as int != 0x7f
  }

  /** No control character, and no percent sign before two hexadecimal digits. */
  ghost predicate FullyDecoded(text: string) {
    && (forall c :: c in text ==> c as int > 0x1f && c as int != 0x7f)
    && (forall i: nat :: i + 2 < |text| && text[i] == '%' ==> !(IsHex(text[i + 1]) && IsHex(text[i + 2])))
  }

  lemma RawIsPlain(raw: string)
    ensures RawAccepted(raw) <==> raw != "" && raw[0] == '/' && PlainText(raw) && !HidesSeparator(raw)
  {
    hide HidesSeparator, EscapedSeparatorAt;
    SeparatorHidden(raw);
  }

  lemma DecodedIsFully(text: string)
    ensures DecodedAccepted(text) <==> FullyDecoded(text)
  {
    if i: nat :| i + 2 < |text| && text[i] == '%' && IsHex(text[i + 1]) && IsHex(text[i + 2]) {
      assert EscapeAt(text, i);
    }
  }

  /** Apart from `*`, a pathname is accepted exactly when it is rooted and plain, hides no separator in
      an escape, and can be decoded to text without control characters and further escapes. */
  lemma AcceptedExactly(raw: string, decode: string -> Decoded)
    requires Decodes(decode) && raw != "*"
    ensures CanonicalPathname(raw, decode).Canonical? <==>
              raw != "" && raw[0] == '/' && PlainText(raw) && !HidesSeparator(raw) && decode(raw).Text? && FullyDecoded(decode(raw).text)
  {
    RawIsPlain(raw);
    if decode(raw).Text? { DecodedIsFully(decode(raw).text); }
    hide Split, Join, Resolved, RawAccepted, DecodedAccepted, PlainText, FullyDecoded, HidesSeparator;
  }

  // ---------- section 5.2.4 of RFC 3986 ----------

  function IndexOfSlash(text: string, from: nat): nat
    requires from <= |text|
    ensures from <= IndexOfSlash(text, from) <= |text|
    ensures IndexOfSlash(text, from) < |text| ==> text[IndexOfSlash(text, from)] == '/'
    ensures forall i :: from <= i < IndexOfSlash(text, from) ==> text[i] != '/'
    decreases |text| - from
  {
    if from == |text| || text[from] == '/' then from else IndexOfSlash(text, from + 1)
  }

  /** The output buffer without its last segment and the slash before it. */
  function WithoutLastSegment(output: string): string {
    if output == "" then ""
    else if output[|output| - 1] == '/' then output[..|output| - 1]
    else WithoutLastSegment(output[..|output| - 1])
  }

  /** The loop of the RFC on its input and output buffers. */
  function RemoveDots(input: string, output: string): string
    decreases |input|
  {
    if input == "" then output
    // 2A
    else if "../" <= input then RemoveDots(input[3..], output)
    else if "./" <= input then RemoveDots(input[2..], output)
    // 2B
    else if "/./" <= input then RemoveDots(input[2..], output)
    else if input == "/." then RemoveDots("/", output)
    // 2C
    else if "/../" <= input then RemoveDots(input[3..], WithoutLastSegment(output))
    else if input == "/.." then RemoveDots("/", WithoutLastSegment(output))
    // 2D
    else if input == "." || input == ".." then RemoveDots("", output)
    // 2E
    else
      var end := IndexOfSlash(input, 1);
      RemoveDots(input[end..], output + input[..end])
  }

  function RemoveDotSegments(path: string): string { RemoveDots(path, "") }

  // ---------- the two agree ----------

  /** Segments with a slash before each. */
  function Rooted(segments: seq<string>): string {
    if segments == [] then "" else "/" + segments[0] + Rooted(segments[1..])
  }

  predicate SlashFree(segments: seq<string>) {
    forall i :: 0 <= i < |segments| ==> '/' !in segments[i]
  }

  lemma {:induction false} RootedIsJoined(segments: seq<string>)
    requires segments != []
    ensures Rooted(segments) == "/" + Join(segments, '/')
  {
    if |segments| > 1 { RootedIsJoined(segments[1..]); }
  }

  lemma {:induction false} RootedAppend(front: seq<string>, last: string)
    ensures Rooted(front + [last]) == Rooted(front) + "/" + last
  {
    if front != [] {
      RootedAppend(front[1..], last);
      assert (front + [last])[1..] == front[1..] + [last];
    } else {
      assert Rooted([last][1..]) == "";
    }
  }

  lemma {:induction false} LastSegmentGoes(front: string, last: string)
    requires '/' !in last
    ensures WithoutLastSegment(front + "/" + last) == front
  {
    if last == "" {
      assert (front + "/" + "")[..|front|] == front;
    } else {
      var init := last[..|last| - 1];
      assert (front + "/" + last)[..|front + "/" + last| - 1] == front + "/" + init;
      assert (front + "/" + last)[|front + "/" + last| - 1] == last[|last| - 1];
      LastSegmentGoes(front, init);
    }
  }

  lemma PoppedRooted(stack: seq<string>)
    requires SlashFree(stack)
    ensures WithoutLastSegment(Rooted(stack)) == Rooted(Popped(stack))
  {
    if stack != [] {
      assert stack == Popped(stack) + [stack[|stack| - 1]];
      RootedAppend(Popped(stack), stack[|stack| - 1]);
      LastSegmentGoes(Rooted(Popped(stack)), stack[|stack| - 1]);
    }
  }

  /** One turn of the RFC loop on a rooted path, by its first segment. */
  lemma FirstSegment(segments: seq<string>, output: string)
    requires segments != [] && SlashFree(segments)
    ensures var rest := Rooted(segments[1..]);
            RemoveDots(Rooted(segments), output) ==
              if segments[0] == "." then RemoveDots(if |segments| == 1 then "/" else rest, output)
              else if segments[0] == ".." then RemoveDots(if |segments| == 1 then "/" else rest, WithoutLastSegment(output))
              else RemoveDots(rest, output + "/" + segments[0])
  {
    hide RemoveDots, SlashFree, WithoutLastSegment;
    var rest, first := Rooted(segments[1..]), segments[0];
    assert Rooted(segments) == "/" + first + rest;
    assert |segments| == 1 <==> rest == "";
    assert rest != "" ==> rest[0] == '/';
    if first == "." {
      OneDot(rest, output);
    } else if first == ".." {
      TwoDots(rest, output);
    } else {
      assert '/' !in first by { FirstIsSlashFree(segments); }
      OtherSegment(first, rest, output);
    }
  }

  lemma FirstIsSlashFree(segments: seq<string>)
    requires segments != [] && SlashFree(segments)
    ensures '/' !in segments[0]
  {
  }

  lemma OneDot(rest: string, output: string)
    requires rest == "" || rest[0] == '/'
    ensures RemoveDots("/" + "." + rest, output) == RemoveDots(if rest == "" then "/" else rest, output)
  {
    var input := "/" + "." + rest;
    assert input[0] == '/';
    if rest == "" {
      assert input == "/.";
    } else {
      assert input[2..] == rest && input[..3] == "/./";
    }
  }

  lemma TwoDots(rest: string, output: string)
    requires rest == "" || rest[0] == '/'
    ensures RemoveDots("/" + ".." + rest, output) == RemoveDots(if rest == "" then "/" else rest, WithoutLastSegment(output))
  {
    var input := "/" + ".." + rest;
    assert input[0] == '/' && input[1] == '.' && input[2] == '.';
    if rest == "" {
      assert input == "/..";
    } else {
      assert input[3..] == rest && input[..4] == "/../";
    }
  }

  lemma OtherSegment(first: string, rest: string, output: string)
    requires '/' !in first && !IsDot(first) && (rest == "" || rest[0] == '/')
    ensures RemoveDots("/" + first + rest, output) == RemoveDots(rest, output + "/" + first)
  {
    hide IndexOfSlash, RemoveDots;
    var rooted := "/" + first;
    var input := rooted + rest;
    NotADotSegment(first, rest);
    FirstSlash(first, rest);
    PrefixDropped(rooted, rest);
    assert input[..|rooted|] == rooted && input[0] == '/';
    OneSegmentMoved(input, output, |rooted|);
    Regrouped(output, "/", first);
  }

  lemma OneSegmentMoved(input: string, output: string, end: nat)
    requires input != "" && input[0] == '/' && 1 <= end <= |input| && IndexOfSlash(input, 1) == end
    requires !("/./" <= input) && input != "/." && !("/../" <= input) && input != "/.."
    ensures RemoveDots(input, output) == RemoveDots(input[end..], output + input[..end])
  {
    hide IndexOfSlash;
  }

  lemma FirstSlash(first: string, rest: string)
    requires '/' !in first && (rest == "" || rest[0] == '/')
    ensures IndexOfSlash("/" + first + rest, 1) == |first| + 1
  {
    hide IndexOfSlash;
    var input := "/" + first + rest;
    var end := IndexOfSlash(input, 1);
    assert |input| == 1 + |first| + |rest|;
    forall i | 1 <= i <= |first| ensures input[i] != '/' {
      assert input[i] == first[i - 1] && first[i - 1] in first;
    }
    if rest != "" { assert input[|first| + 1] == rest[0]; }
  }

  lemma NotADotSegment(first: string, rest: string)
    requires '/' !in first && !IsDot(first) && (rest == "" || rest[0] == '/')
    ensures var input := "/" + first + rest; !("/./" <= input) && input != "/." && !("/../" <= input) && input != "/.."
  {
    var input := "/" + first + rest;
    assert forall i :: 0 <= i < |first| ==> input[i + 1] == first[i];
    assert rest != "" ==> input[|first| + 1] == '/';
    assert |first| == 1 ==> first == [first[0]];
    assert |first| == 2 ==> first == [first[0], first[1]];
    assert |first| >= 2 ==> first[1] != '/';
    assert |first| >= 3 ==> first[2] != '/';
    assert "/./"[1] == '.' && "/./"[2] == '/' && "/../"[1] == '.' && "/../"[2] == '.' && "/../"[3] == '/';
    assert "/."[1] == '.' && "/.."[1] == '.' && "/.."[2] == '.';
  }

  lemma {:induction false} StackIsRfc(segments: seq<string>, stack: seq<string>)
    requires SlashFree(segments) && SlashFree(stack)
    ensures RemoveDots(Rooted(segments), Rooted(stack)) == Rooted(Resolved(segments, stack))
    decreases |segments|
  {
    if segments != [] {
      FirstSegment(segments, Rooted(stack));
      PoppedRooted(stack);
      if IsDot(segments[0]) {
        var popped := if segments[0] == ".." then Popped(stack) else stack;
        if |segments| == 1 {
          // The RFC leaves "/" in its input buffer, which is one empty segment.
          FirstSegment([""], Rooted(popped));
          assert Rooted([""]) == "/" && Rooted([""][1..]) == "";
          RootedAppend(popped, "");
        } else {
          StackIsRfc(segments[1..], popped);
        }
      } else {
        RootedAppend(stack, segments[0]);
        StackIsRfc(segments[1..], stack + [segments[0]]);
      }
    }
  }

  lemma {:induction false} ResolvedShape(segments: seq<string>, stack: seq<string>)
    requires SlashFree(segments) && SlashFree(stack) && forall i :: 0 <= i < |stack| ==> !IsDot(stack[i])
    ensures SlashFree(Resolved(segments, stack))
    ensures forall i :: 0 <= i < |Resolved(segments, stack)| ==> !IsDot(Resolved(segments, stack)[i])
    ensures segments != [] ==> Resolved(segments, stack) != []
    ensures forall i :: 0 <= i < |Resolved(segments, stack)| ==>
              Resolved(segments, stack)[i] == "" || Resolved(segments, stack)[i] in segments || Resolved(segments, stack)[i] in stack
    decreases |segments|
  {
    if segments != [] {
      if IsDot(segments[0]) {
        var popped := if segments[0] == ".." then Popped(stack) else stack;
        ResolvedShape(segments[1..], if |segments| == 1 then popped + [""] else popped);
      } else {
        ResolvedShape(segments[1..], stack + [segments[0]]);
      }
    }
  }

  lemma {:induction false} ResolvedPlain(segments: seq<string>, stack: seq<string>)
    requires forall i :: 0 <= i < |segments| ==> !IsDot(segments[i])
    ensures Resolved(segments, stack) == stack + segments
    decreases |segments|
  {
    if segments != [] { ResolvedPlain(segments[1..], stack + [segments[0]]); }
  }

  // ---------- escapes do not span segments ----------

  lemma {:induction false} EscapeInAPart(parts: seq<string>, i: int) returns (k: nat, j: int)
    requires EscapeAt(Join(parts, '/'), i)
    ensures k < |parts| && EscapeAt(parts[k], j)
    decreases |parts|
  {
    var first := parts[0];
    if |parts| == 1 || i + 2 < |first| {
      k, j := 0, i;
    } else {
      var joined := Join(parts, '/');
      assert joined[|first|] == '/' && joined[|first| + 1..] == Join(parts[1..], '/');
      assert i > |first| && EscapeAt(Join(parts[1..], '/'), i - |first| - 1);
      k, j := EscapeInAPart(parts[1..], i - |first| - 1);
      k := k + 1;
    }
  }

  lemma {:induction false} PartEscapes(parts: seq<string>, k: nat, j: int)
    requires k < |parts| && EscapeAt(parts[k], j)
    ensures HasEscape(Join(parts, '/'))
    decreases |parts|
  {
    var first, joined := parts[0], Join(parts, '/');
    if k == 0 {
      assert first <= joined;
      assert EscapeAt(joined, j);
    } else {
      PartEscapes(parts[1..], k - 1, j);
      var i :| EscapeAt(Join(parts[1..], '/'), i);
      assert joined[|first| + 1..] == Join(parts[1..], '/');
      assert EscapeAt(joined, |first| + 1 + i);
    }
  }

  // ---------- main results ----------

  /** What a returned pathname other than "*" is made of. */
  lemma OutputSegments(raw: string, decode: string -> Decoded) returns (decoded: string, segments: seq<string>)
    requires raw != "*" && CanonicalPathname(raw, decode).Canonical?
    ensures decode(raw) == Text(decoded) && decoded != "" && DecodedAccepted(decoded) && raw != "" && raw[0] == '/'
    ensures segments == Resolved(Split(decoded[1..], '/'), []) && segments != [] && SlashFree(segments)
    ensures CanonicalPathname(raw, decode).pathname == "/" + Join(segments, '/')
    ensures forall i :: 0 <= i < |segments| ==> !IsDot(segments[i])
    ensures forall i :: 0 <= i < |segments| ==> segments[i] == "" || segments[i] in Split(decoded[1..], '/')
  {
    decoded := decode(raw).text;
    segments := Resolved(Split(decoded[1..], '/'), []);
    PartsHaveNoSeparator(decoded[1..], '/');
    ResolvedShape(Split(decoded[1..], '/'), []);
  }

  /** The pathname is remove_dot_segments of the decoded text. */
  lemma PathnameIsRfc(raw: string, decode: string -> Decoded)
    requires Decodes(decode) && raw != "*" && CanonicalPathname(raw, decode).Canonical?
    ensures decode(raw).Text? && CanonicalPathname(raw, decode).pathname == RemoveDotSegments(decode(raw).text)
  {
    hide CanonicalPathname, Resolved, Split, Join, RemoveDots, DecodedAccepted;
    var decoded, segments := OutputSegments(raw, decode);
    var given := Split(decoded[1..], '/');
    PartsHaveNoSeparator(decoded[1..], '/');
    JoinOfSplit(decoded[1..], '/');
    RootedIsJoined(given);
    assert decoded == "/" + decoded[1..];
    StackIsRfc(given, []);
    RootedIsJoined(segments);
  }

  /** Nothing is left to resolve in segments without dots. */
  lemma JoinedIsResolved(segments: seq<string>)
    requires segments != [] && SlashFree(segments) && forall i :: 0 <= i < |segments| ==> !IsDot(segments[i])
    ensures Split(Join(segments, '/'), '/') == segments && Resolved(segments, []) == segments
    ensures RemoveDotSegments("/" + Join(segments, '/')) == "/" + Join(segments, '/')
  {
    SplitOfJoin(segments, '/');
    ResolvedPlain(segments, []);
    RootedIsJoined(segments);
    StackIsRfc(segments, []);
  }

  ghost predicate IsResolved(pathname: string) {
    && pathname != "" && pathname[0] == '/'
    && (forall i :: 0 <= i < |Split(pathname[1..], '/')| ==> !IsDot(Split(pathname[1..], '/')[i]))
    && "/" + Join(Resolved(Split(pathname[1..], '/'), []), '/') == pathname
    && RemoveDotSegments(pathname) == pathname
  }

  /** No segment of the pathname is a dot segment, and a second pass of the loop changes nothing. */
  lemma PathnameIsResolved(raw: string, decode: string -> Decoded)
    requires raw != "*" && CanonicalPathname(raw, decode).Canonical?
    ensures IsResolved(CanonicalPathname(raw, decode).pathname)
  {
    hide CanonicalPathname, Resolved, Split, Join, RemoveDots;
    var decoded, segments := OutputSegments(raw, decode);
    JoinedIsResolved(segments);
    assert ("/" + Join(segments, '/'))[1..] == Join(segments, '/');
  }

  /** The characters that a pathname may hold after decoding but not before. */
  predicate Reserved(c: char) { c == '%' || c == ' ' || c == '\\' || c == '?' || c == '#' }

  /** Text made of segments of accepted text is accepted. */
  lemma SegmentsAreDecoded(text: string, given: seq<string>, segments: seq<string>)
    requires DecodedAccepted(text) && text == Join(given, '/')
    requires forall i :: 0 <= i < |segments| ==> segments[i] == "" || segments[i] in given
    ensures DecodedAccepted(Join(segments, '/'))
  {
    hide Join;
    var joined := Join(segments, '/');
    forall c | c in joined ensures !IsControl(c) {
      if c != '/' {
        CharInAPart(segments, '/', c);
        var k :| 0 <= k < |segments| && c in segments[k];
        var g :| 0 <= g < |given| && given[g] == segments[k];
        PartInJoin(given, '/', g);
      }
    }
    if HasEscape(joined) {
      var i :| EscapeAt(joined, i);
      var k, j := EscapeInAPart(segments, i);
      var g :| 0 <= g < |given| && given[g] == segments[k];
      PartEscapes(given, g, j);
    }
  }

  lemma DecodedTail(text: string)
    ensures DecodedAccepted("/" + text) <==> DecodedAccepted(text)
  {
    var rooted := "/" + text;
    assert forall c :: c in rooted <==> c == '/' || c in text;
    if HasEscape(text) {
      var i :| EscapeAt(text, i);
      assert EscapeAt(rooted, i + 1);
    }
    if HasEscape(rooted) {
      var i :| EscapeAt(rooted, i);
      assert EscapeAt(text, i - 1);
    }
  }

  /** A pathname holds no escape and no control character. */
  lemma PathnameIsDecoded(raw: string, decode: string -> Decoded)
    requires Decodes(decode) && raw != "*" && CanonicalPathname(raw, decode).Canonical?
    ensures DecodedAccepted(CanonicalPathname(raw, decode).pathname)
  {
    hide CanonicalPathname, DecodedAccepted, Split, Join, Resolved;
    var decoded, segments := OutputSegments(raw, decode);
    var text := decoded[1..];
    assert decoded == "/" + text;
    DecodedTail(text);
    JoinOfSplit(text, '/');
    SegmentsAreDecoded(text, Split(text, '/'), segments);
    DecodedTail(Join(segments, '/'));
  }

  lemma SecondCheck(pathname: string)
    requires pathname != "" && pathname[0] == '/' && DecodedAccepted(pathname)
    ensures RawAccepted(pathname) <==> forall c :: c in pathname ==> !Reserved(c) || c == '%'
  {
    forall i ensures !EscapedSeparatorAt(pathname, i) {
      assert EscapedSeparatorAt(pathname, i) ==> EscapeAt(pathname, i);
    }
  }

  /** Applying the whole function to its own result gives that result exactly when the result holds
      none of the characters that only an escape can bring in; otherwise it throws. */
  lemma SecondCall(raw: string, decode: string -> Decoded)
    requires Decodes(decode) && raw != "*" && CanonicalPathname(raw, decode).Canonical?
    ensures var pathname := CanonicalPathname(raw, decode).pathname;
            CanonicalPathname(pathname, decode) ==
              if forall c :: c in pathname ==> !Reserved(c) then Canonical(pathname) else Invalid
  {
    hide Resolved, Split, Join, RemoveDotSegments, RawAccepted;
    var pathname := CanonicalPathname(raw, decode).pathname;
    PathnameIsDecoded(raw, decode);
    PathnameIsResolved(raw, decode);
    SecondCheck(pathname);
    assert pathname != "*";
    if '%' in pathname {
      assert decode(pathname) == UriError;
    } else {
      assert decode(pathname) == Text(pathname);
    }
  }

  /** The whole function is not idempotent: an escaped space becomes a space, which the second call
      refuses. */
  lemma SecondCallRefusesSpace(decode: string -> Decoded)
    requires Decodes(decode) && decode("/a%20b") == Text("/a b")
    ensures CanonicalPathname("/a%20b", decode) == Canonical("/a b")
    ensures CanonicalPathname("/a b", decode) == Invalid
  {
    EscapedSpaceAccepted();
    OneSegment();
    hide RawAccepted, DecodedAccepted, Split, Join, Resolved;
    assert "/a b"[1..] == "a b";
    assert "/" + "a b" == "/a b";
  }

  lemma EscapedSpaceAccepted()
    ensures RawAccepted("/a%20b") && DecodedAccepted("/a b") && !RawAccepted("/a b")
  {
    forall i ensures !EscapedSeparatorAt("/a%20b", i) {}
    forall i ensures !EscapeAt("/a b", i) {}
    assert Refused("/a b"[2]);
    assert forall c :: c in "/a%20b" ==> !Refused(c);
  }

  lemma OneSegment()
    ensures Split("a b", '/') == ["a b"] && Join(Resolved(["a b"], []), '/') == "a b"
  {
    SplitWhole("a b", '/');
    OneResolved("a b");
  }

  lemma OneResolved(segment: string)
    requires !IsDot(segment)
    ensures Resolved([segment], []) == [segment]
  {
    assert [segment][1..] == [];
  }

  /** There is such a decoder. */
  function DecodeOneSpace(text: string): Decoded {
    if text == "/a%20b" then Text("/a b") else if '%' in text then UriError else Text(text)
  }

  lemma OneSpaceDecodes()
    ensures Decodes(DecodeOneSpace) && DecodeOneSpace("/a%20b") == Text("/a b")
    ensures CanonicalPathname("/a%20b", DecodeOneSpace) == Canonical("/a b") && CanonicalPathname("/a b", DecodeOneSpace) == Invalid
  {
    assert EscapeAt("/a%20b", 2);
    SecondCallRefusesSpace(DecodeOneSpace);
  }
}
