/** Dependency validation of Capsule services (validateContainerDependencies and inheritedSource in
    src/container-services.ts): a depth-first search that rejects cycles. */
module ServiceGraph {
  import opened Strings

  datatype Option<T> = None | Some(value: T)

  /** An entry of volumes_from, as found in the declaration. */
  datatype Entry = Text(text: string) | NotText

  datatype Service = Service(isContainer: bool, dependsOn: seq<string>, volumesFrom: seq<Entry>)

  /** Declarations by name, with the names in the order of the object's keys. */
  datatype Declarations = Declarations(names: seq<string>, services: map<string, Service>)

  datatype Failure = TooMany | Cycle(name: string) | BadEntry(name: string)

  const MAX_CONTAINERS: nat := 8

  // ---------- entries of volumes_from ----------

  datatype Source = Source(external: bool, name: string, suffix: string)

  const EXTERNAL: string := "container:"

  predicate IsAlphanumeric(c: char) { 'a' <= c <= 'z' || 'A' <= c <= 'Z' || '0' <= c <= '9' }

  predicate IsName(text: string) {
    && 1 <= |text| <= 128 && IsAlphanumeric(text[0])
    && forall c :: c in text ==> IsAlphanumeric(c) || c == '_' || c == '.' || c == '-'
  }

  const LOWER: string := "abcdefghijklmnopqrstuvwxyz"
  const UPPER: string := "ABCDEFGHIJKLMNOPQRSTUVWXYZ"
  const DIGITS: string := "0123456789"

  /** A name has 1 to 128 letters, digits, underscores, dots and hyphens, and begins with a letter or digit. */
  lemma NameIsText(text: string)
    ensures IsName(text) <==> 0 < |text| < 129 && text[0] in LOWER + UPPER + DIGITS && forall c :: c in text ==> c in LOWER + UPPER + DIGITS + "_.-"
  {
    hide LOWER, UPPER, DIGITS;
    forall c | c in text ensures IsAlphanumeric(c) <==> c in LOWER + UPPER + DIGITS {
      LowerLetter(c);
      UpperLetter(c);
      Digit(c);
    }
  }

  lemma LowerLetter(c: char)
    ensures 'a' <= c <= 'z' <==> c in LOWER
  {
    if 'a' <= c <= 'z' { assert LOWER[c as int - 'a' as int] == c; }
  }

  lemma UpperLetter(c: char)
    ensures 'A' <= c <= 'Z' <==> c in UPPER
  {
    if 'A' <= c <= 'Z' { assert UPPER[c as int - 'A' as int] == c; }
  }

  lemma Digit(c: char)
    ensures '0' <= c <= '9' <==> c in DIGITS
  {
    if '0' <= c <= '9' { assert DIGITS[c as int - '0' as int] == c; }
  }

  function InheritedSource(entry: Entry): Option<Source> {
    if entry.NotText? then None
    else
      var external := EXTERNAL <= entry.text;
      SourceOf(external, Split(if external then entry.text[|EXTERNAL|..] else entry.text, ':'))
  }

  function SourceOf(external: bool, parts: seq<string>): Option<Source>
    requires parts != []
  {
    if |parts| > 2 || !IsName(parts[0]) || (|parts| == 2 && parts[1] != "ro" && parts[1] != "rw") then None
    else Some(Source(external, parts[0], if |parts| == 2 && parts[1] != "" then ":" + parts[1] else ""))
  }

  predicate IsSource(source: Source) { IsName(source.name) && source.suffix in {"", ":ro", ":rw"} }

  function SourceText(source: Source): string {
    (if source.external then EXTERNAL else "") + source.name + source.suffix
  }

  /** An accepted entry is the text of its source. */
  lemma ParsedIsPrinted(entry: Entry)
    requires InheritedSource(entry).Some?
    ensures IsSource(InheritedSource(entry).value) && Text(SourceText(InheritedSource(entry).value)) == entry
  {
    hide Split, Join, IsName;
    var text := entry.text;
    var external := EXTERNAL <= text;
    var rest := if external then text[|EXTERNAL|..] else text;
    JoinOfSplit(rest, ':');
    SourceOfParts(external, Split(rest, ':'));
    var source := InheritedSource(entry).value;
    if external {
      PrefixKept(EXTERNAL, text);
      Regrouped(EXTERNAL, source.name, source.suffix);
    } else {
      Regrouped("", source.name, source.suffix);
      assert "" + (source.name + source.suffix) == source.name + source.suffix;
    }
  }

  lemma SourceOfParts(external: bool, parts: seq<string>)
    requires parts != [] && SourceOf(external, parts).Some?
    ensures var source := SourceOf(external, parts).value;
            IsSource(source) && source.external == external && source.name + source.suffix == Join(parts, ':')
  {
    hide Join, IsName;
    JoinOfTwo(parts, ':');
    if |parts| == 2 {
      assert [':'] + parts[1] == ":" + parts[1];
      assert ":" + "ro" == ":ro" && ":" + "rw" == ":rw";
    }
  }

  lemma SplitSource(name: string, suffix: string)
    requires IsName(name) && suffix in {"", ":ro", ":rw"}
    ensures Split(name + suffix, ':') == if suffix == "" then [name] else [name, suffix[1..]]
    ensures suffix != "" ==> ":" + suffix[1..] == suffix
  {
    hide Split;
    SplitWhole(name, ':');
    if suffix == "" {
      assert name + suffix == name;
    } else {
      SplitWhole(suffix[1..], ':');
      SplitAppend(name, suffix[1..], ':');
      assert name + suffix == name + [':'] + suffix[1..];
    }
  }

  /** The text of a source is read back, except that a declared service named "container" cannot be
      inherited from with a suffix: that text names an external container. */
  lemma PrintedIsParsed(source: Source)
    requires IsSource(source)
    ensures InheritedSource(Text(SourceText(source))) == Some(source)
            <==> source.external || source.name != "container" || source.suffix == ""
  {
    hide Split, IsName;
    var rest := source.name + source.suffix;
    SplitSource(source.name, source.suffix);
    PartsOfSource(source);
    if source.external {
      Regrouped(EXTERNAL, source.name, source.suffix);
      PrefixDropped(EXTERNAL, rest);
    } else {
      Regrouped("", source.name, source.suffix);
      assert "" + rest == rest;
      LooksExternal(source.name, source.suffix);
      if source.name == "container" && source.suffix != "" { ReadsAsExternal(source, rest); }
    }
  }

  lemma PartsOfSource(source: Source)
    requires IsSource(source)
    ensures SourceOf(source.external, if source.suffix == "" then [source.name] else [source.name, source.suffix[1..]]) == Some(source)
  {
    hide IsName;
    if source.suffix != "" {
      assert ":ro"[1..] == "ro" && ":rw"[1..] == "rw";
      assert ":" + source.suffix[1..] == source.suffix;
    }
  }

  lemma ReadsAsExternal(source: Source, text: string)
    requires !source.external && EXTERNAL <= text
    ensures InheritedSource(Text(text)) != Some(source)
  {
  }

  lemma LooksExternal(name: string, suffix: string)
    requires IsName(name) && suffix in {"", ":ro", ":rw"}
    ensures EXTERNAL <= name + suffix <==> name == "container" && suffix != ""
  {
    var text := name + suffix;
    assert ':' !in name;
    assert forall i :: 0 <= i < |name| ==> text[i] == name[i] && name[i] in name;
    assert forall i :: 0 <= i < |suffix| ==> text[|name| + i] == suffix[i];
    if EXTERNAL <= text {
      assert text[9] == ':' && |name| <= 9 && suffix != "";
      assert suffix[9 - |name|] == ':' && suffix[1] != ':' && suffix[2] != ':';
      assert |name| == 9 && name == text[..9];
    }
    if name == "container" && suffix != "" {
      assert text[..10] == "container" + [suffix[0]];
    }
  }

  // ---------- the graph ----------

  function DependsOn(d: Declarations, name: string): seq<string> {
    if name in d.services then d.services[name].dependsOn else []
  }

  function VolumesFrom(d: Declarations, name: string): seq<Entry> {
    if name in d.services then d.services[name].volumesFrom else []
  }

  predicate Inherits(entry: Entry, target: string) {
    var source := InheritedSource(entry);
    source.Some? && !source.value.external && source.value.name == target
  }

  ghost predicate Edge(d: Declarations, a: string, b: string) {
    b in DependsOn(d, a) || exists i :: 0 <= i < |VolumesFrom(d, a)| && Inherits(VolumesFrom(d, a)[i], b)
  }

  /** The edges out of a declared service: what it depends on, and the services whose names stand in its
      volumes_from, with or without a suffix; the name "container" counts without one only. */
  lemma EdgeMeans(d: Declarations, a: string, b: string)
    requires a in d.services
    ensures Edge(d, a, b) <==>
              || b in d.services[a].dependsOn
              || (IsName(b) && exists suffix :: suffix in {"", ":ro", ":rw"} && (b == "container" ==> suffix == "")
                                                && Text(b + suffix) in d.services[a].volumesFrom)
  {
    hide IsName, InheritedSource;
    var entries := d.services[a].volumesFrom;
    if i :| 0 <= i < |entries| && Inherits(entries[i], b) {
      ParsedIsPrinted(entries[i]);
      var suffix := InheritedSource(entries[i]).value.suffix;
      PrintedIsParsed(Source(false, b, suffix));
      assert SourceText(Source(false, b, suffix)) == b + suffix;
    }
    if suffix :| IsName(b) && suffix in {"", ":ro", ":rw"} && (b == "container" ==> suffix == "") && Text(b + suffix) in entries {
      PrintedIsParsed(Source(false, b, suffix));
      assert SourceText(Source(false, b, suffix)) == b + suffix;
      var i :| 0 <= i < |entries| && entries[i] == Text(b + suffix);
      assert VolumesFrom(d, a)[i] == entries[i] && Inherits(entries[i], b);
    }
  }

  ghost predicate WellFormed(d: Declarations, name: string) {
    forall i :: 0 <= i < |VolumesFrom(d, name)| ==> InheritedSource(VolumesFrom(d, name)[i]).Some?
  }

  /** A walk along edges. */
  ghost predicate Walk(d: Declarations, path: seq<string>) {
    forall i :: 0 < i < |path| ==> Edge(d, path[i - 1], path[i])
  }

  ghost predicate IsCycle(d: Declarations, path: seq<string>) {
    |path| >= 2 && path[0] == path[|path| - 1] && Walk(d, path)
  }

  ghost predicate Acyclic(d: Declarations) { forall path :: !IsCycle(d, path) }

  /** Every edge out of a listed name leads to an earlier one. */
  ghost predicate Topological(d: Declarations, order: seq<string>) {
    && (forall i, j :: 0 <= i < j < |order| ==> order[i] != order[j])
    && (forall j, b :: 0 <= j < |order| && Edge(d, order[j], b) ==> b in order[..j])
  }

  lemma {:induction false} WalkDescends(d: Declarations, order: seq<string>, path: seq<string>, at: nat)
    requires Topological(d, order) && Walk(d, path) && path != []
    requires at < |order| && order[at] == path[0]
    ensures exists k :: 0 <= k <= at && order[k] == path[|path| - 1] && (|path| > 1 ==> k < at)
    decreases |path|
  {
    if |path| == 1 {
    } else {
      assert Edge(d, path[0], path[1]);
      var k :| 0 <= k < at && order[k] == path[1];
      assert Walk(d, path[1..]) by {
        forall i | 0 < i < |path[1..]| ensures Edge(d, path[1..][i - 1], path[1..][i]) {
          assert Edge(d, path[i], path[i + 1]);
        }
      }
      WalkDescends(d, order, path[1..], k);
    }
  }

  /** A topological order of every declared name leaves no cycle. */
  lemma OrderedIsAcyclic(d: Declarations, order: seq<string>)
    requires Topological(d, order) && forall name :: name in d.services ==> name in order
    ensures Acyclic(d)
  {
    forall path ensures !IsCycle(d, path) {
      if IsCycle(d, path) {
        assert Edge(d, path[0], path[1]);
        assert path[0] in d.services;
        var at :| 0 <= at < |order| && order[at] == path[0];
        WalkDescends(d, order, path, at);
        assert false;
      }
    }
  }

  lemma CycleFound(d: Declarations, path: seq<string>, i: nat, name: string)
    requires i < |path| && path[i] == name && Walk(d, path) && Edge(d, path[|path| - 1], name)
    ensures IsCycle(d, path[i..] + [name]) && (path[i..] + [name])[0] == name
  {
    hide Edge;
    var cycle := path[i..] + [name];
    forall k | 0 < k < |cycle| ensures Edge(d, cycle[k - 1], cycle[k]) {
      if k < |cycle| - 1 { assert Edge(d, path[i + k - 1], path[i + k]); }
    }
  }

  lemma WalkExtends(d: Declarations, path: seq<string>, name: string)
    requires Walk(d, path) && (path != [] ==> Edge(d, path[|path| - 1], name))
    ensures Walk(d, path + [name])
  {
    hide Edge;
  }

  lemma OrderExtends(d: Declarations, order: seq<string>, name: string)
    requires Topological(d, order) && name !in order && forall b :: Edge(d, name, b) ==> b in order
    ensures Topological(d, order + [name])
  {
    hide Edge;
    var longer := order + [name];
    forall j, b | 0 <= j < |longer| && Edge(d, longer[j], b) ensures b in longer[..j] {
      if j < |order| {
        assert Edge(d, order[j], b);
        assert longer[..j] == order[..j];
      } else {
        assert longer[..j] == order;
      }
    }
  }

  lemma EdgesCovered(d: Declarations, name: string, order: seq<string>)
    requires forall b :: b in DependsOn(d, name) ==> b in order
    requires forall i, b :: 0 <= i < |VolumesFrom(d, name)| && Inherits(VolumesFrom(d, name)[i], b) ==> b in order
    ensures forall b :: Edge(d, name, b) ==> b in order
  {
  }

  ghost predicate Keeps(before: seq<string>, after: seq<string>) {
    forall name :: name in before ==> name in after
  }

  // ---------- termination ----------

  function TargetsOf(entries: seq<Entry>): set<string> {
    set i | 0 <= i < |entries| && InheritedSource(entries[i]).Some? :: InheritedSource(entries[i]).value.name
  }

  function NamesOf(d: Declarations): set<string> {
    d.services.Keys
      + (set a, b | a in d.services && b in d.services[a].dependsOn :: b)
      + (set a, b | a in d.services && b in TargetsOf(d.services[a].volumesFrom) :: b)
  }

  lemma EdgeStays(d: Declarations, a: string, b: string)
    requires Edge(d, a, b)
    ensures a in d.services && b in NamesOf(d)
  {
    if b !in DependsOn(d, a) {
      var i :| 0 <= i < |VolumesFrom(d, a)| && Inherits(VolumesFrom(d, a)[i], b);
      assert b in TargetsOf(d.services[a].volumesFrom);
    }
  }

  lemma {:induction false} SmallerRest(all: set<string>, visiting: set<string>, name: string)
    requires name in all && name !in visiting
    ensures |all - (visiting + {name})| < |all - visiting|
  {
    assert all - (visiting + {name}) == (all - visiting) - {name};
  }

  // ---------- the search ----------

  function ContainerCount(d: Declarations, names: seq<string>): nat {
    if names == [] then 0
    else (if names[0] in d.services && d.services[names[0]].isContainer then 1 else 0) + ContainerCount(d, names[1..])
  }

  /** The count is the number of the container services. */
  lemma {:induction false} CountIsContainers(d: Declarations, names: seq<string>)
    requires forall i, j :: 0 <= i < j < |names| ==> names[i] != names[j]
    ensures ContainerCount(d, names) == |set name | name in names && name in d.services && d.services[name].isContainer|
  {
    if names != [] {
      CountIsContainers(d, names[1..]);
      var all, rest := set name | name in names && name in d.services && d.services[name].isContainer,
                       set name | name in names[1..] && name in d.services && d.services[name].isContainer;
      assert all == if names[0] in d.services && d.services[names[0]].isContainer then rest + {names[0]} else rest;
    }
  }

  ghost predicate Consistent(d: Declarations) {
    forall name :: name in d.names <==> name in d.services
  }

  class Search {
    const declarations: Declarations
    var visiting: set<string>
    /** Finished names in the order the source's set keeps them. */
    var finished: seq<string>

    constructor (d: Declarations)
      ensures declarations == d && visiting == {} && finished == []
    {
      declarations := d;
      visiting, finished := {}, [];
    }

    ghost predicate Valid()
      reads this
    {
      && Topological(declarations, finished)
      && (forall name :: name in finished ==> WellFormed(declarations, name) && name !in visiting)
    }

    /** The names under way are the ones on the walk from the outermost call to here. */
    ghost predicate Along(path: seq<string>)
      reads this
    {
      Walk(declarations, path) && forall name :: name in visiting <==> name in path
    }

    method Visit(name: string, ghost path: seq<string>) returns (failure: Option<Failure>, ghost cycle: seq<string>)
      requires Valid() && Along(path) && name in NamesOf(declarations)
      requires path != [] ==> Edge(declarations, path[|path| - 1], name)
      modifies this
      ensures failure.None? ==> Valid() && visiting == old(visiting) && name in finished && Keeps(old(finished), finished)
      ensures failure.Some? ==> Explained(declarations, failure.value, cycle)
      decreases |NamesOf(declarations) - visiting|, 1
    {
      hide Edge, Walk, Topological, WellFormed, NamesOf, InheritedSource, IsCycle;
      cycle := [];
      if name in visiting {
        ghost var i :| 0 <= i < |path| && path[i] == name;
        CycleFound(declarations, path, i, name);
        return Some(Cycle(name)), path[i..] + [name];
      }
      if name in finished { return None, cycle; }
      failure, cycle := Explore(name, path);
    }

    method Explore(name: string, ghost path: seq<string>) returns (failure: Option<Failure>, ghost cycle: seq<string>)
      requires Valid() && Along(path) && name in NamesOf(declarations) && name !in visiting && name !in finished
      requires path != [] ==> Edge(declarations, path[|path| - 1], name)
      modifies this
      ensures failure.None? ==> Valid() && visiting == old(visiting) && name in finished && Keeps(old(finished), finished)
      ensures failure.Some? ==> Explained(declarations, failure.value, cycle)
      decreases |NamesOf(declarations) - visiting|, 0
    {
      hide Edge, Walk, Topological, WellFormed, NamesOf, InheritedSource, Explained;
      SmallerRest(NamesOf(declarations), visiting, name);
      WalkExtends(declarations, path, name);
      visiting := visiting + {name};
      failure, cycle := Descend(name, path + [name]);
      if failure.None? { Finish(name); }
    }

    method Finish(name: string)
      requires Valid() && name in visiting && name !in finished
      requires WellFormed(declarations, name) && forall b :: Edge(declarations, name, b) ==> b in finished
      modifies this
      ensures Valid() && visiting == old(visiting) - {name} && finished == old(finished) + [name]
    {
      hide Edge, Topological, WellFormed;
      OrderExtends(declarations, finished, name);
      visiting := visiting - {name};
      finished := finished + [name];
    }

    /** Both kinds of edges of a name under way. */
    method Descend(name: string, ghost path: seq<string>) returns (failure: Option<Failure>, ghost cycle: seq<string>)
      requires Valid() && Along(path) && path != [] && path[|path| - 1] == name
      modifies this
      ensures failure.None? ==> Valid() && visiting == old(visiting) && Keeps(old(finished), finished)
      ensures failure.None? ==> WellFormed(declarations, name) && forall b :: Edge(declarations, name, b) ==> b in finished
      ensures failure.Some? ==> Explained(declarations, failure.value, cycle)
      decreases |NamesOf(declarations) - visiting|, 3
    {
      hide Edge, Walk, Topological, WellFormed, NamesOf, InheritedSource, Explained;
      failure, cycle := VisitDependencies(name, path);
      if failure.Some? { return; }
      ghost var middle := finished;
      failure, cycle := VisitSources(name, path);
      if failure.Some? { return; }
      assert forall b :: b in DependsOn(declarations, name) ==> b in middle;
      EdgesCovered(declarations, name, finished);
    }

    method VisitDependencies(name: string, ghost path: seq<string>) returns (failure: Option<Failure>, ghost cycle: seq<string>)
      requires Valid() && Along(path) && path != [] && path[|path| - 1] == name
      modifies this
      ensures failure.None? ==> Valid() && visiting == old(visiting) && Keeps(old(finished), finished)
      ensures failure.None? ==> forall b :: b in DependsOn(declarations, name) ==> b in finished
      ensures failure.Some? ==> Explained(declarations, failure.value, cycle)
      decreases |NamesOf(declarations) - visiting|, 2
    {
      hide Walk, Topological, WellFormed, NamesOf, InheritedSource, IsCycle;
      var dependencies := DependsOn(declarations, name);
      for i := 0 to |dependencies|
        invariant Valid() && visiting == old(visiting) && Keeps(old(finished), finished)
        invariant forall k :: 0 <= k < i ==> dependencies[k] in finished
      {
        EdgeStays(declarations, name, dependencies[i]);
        failure, cycle := Visit(dependencies[i], path);
        if failure.Some? { return; }
      }
      return None, [];
    }

    method VisitSources(name: string, ghost path: seq<string>) returns (failure: Option<Failure>, ghost cycle: seq<string>)
      requires Valid() && Along(path) && path != [] && path[|path| - 1] == name
      modifies this
      ensures failure.None? ==> Valid() && visiting == old(visiting) && Keeps(old(finished), finished)
      ensures failure.None? ==> WellFormed(declarations, name)
      ensures failure.None? ==> forall i, b :: 0 <= i < |VolumesFrom(declarations, name)| && Inherits(VolumesFrom(declarations, name)[i], b) ==> b in finished
      ensures failure.Some? ==> Explained(declarations, failure.value, cycle)
      decreases |NamesOf(declarations) - visiting|, 2
    {
      hide Walk, Topological, NamesOf, InheritedSource, IsCycle;
      var entries := VolumesFrom(declarations, name);
      for i := 0 to |entries|
        invariant Valid() && visiting == old(visiting) && Keeps(old(finished), finished)
        invariant forall k :: 0 <= k < i ==> InheritedSource(entries[k]).Some?
        invariant forall k, b :: 0 <= k < i && Inherits(entries[k], b) ==> b in finished
      {
        var source := InheritedSource(entries[i]);
        if source.None? { return Some(BadEntry(name)), []; }
        if !source.value.external {
          assert Inherits(entries[i], source.value.name);
          EdgeStays(declarations, name, source.value.name);
          failure, cycle := Visit(source.value.name, path);
          if failure.Some? { return; }
        }
      }
      return None, [];
    }
  }

  /** What a rejection shows. */
  ghost predicate Explained(d: Declarations, failure: Failure, cycle: seq<string>) {
    match failure
    case TooMany => ContainerCount(d, d.names) > MAX_CONTAINERS
    case Cycle(name) => IsCycle(d, cycle) && cycle[0] == name
    case BadEntry(name) => !WellFormed(d, name)
  }

  /** validateContainerDependencies: accepted declarations come with a topological order of every
      name that was reached, and a rejection with its reason. */
  method ValidateContainerDependencies(d: Declarations) returns (failure: Option<Failure>, order: seq<string>, ghost cycle: seq<string>)
    requires Consistent(d)
    ensures failure.None? ==> Topological(d, order) && forall name :: name in d.services ==> name in order
    ensures failure.Some? ==> Explained(d, failure.value, cycle)
    ensures failure.None? <==> ContainerCount(d, d.names) <= MAX_CONTAINERS && Acyclic(d) && forall name :: name in d.services ==> WellFormed(d, name)
  {
    order, cycle := [], [];
    if ContainerCount(d, d.names) > MAX_CONTAINERS { return Some(TooMany), order, cycle; }
    var search := new Search(d);
    for i := 0 to |d.names|
      invariant search.declarations == d && search.Valid() && search.visiting == {}
      invariant forall k :: 0 <= k < i ==> d.names[k] in search.finished
    {
      assert d.names[i] in d.services;
      failure, cycle := search.Visit(d.names[i], []);
      if failure.Some? { return; }
    }
    OrderedIsAcyclic(d, search.finished);
    return None, search.finished, [];
  }
}
