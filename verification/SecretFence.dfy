/** The generated secrets of container services (resolveContainerSecrets and
    finalizeContainerSecrets in src/container-services.ts).  A start resolves secrets, runs, and
    finalizes them later; other commands may act in between.  Each update of the credentials file
    runs under a lock and is one step; an update that throws leaves the file as it was. */
module SecretFence {

  datatype Option<T> = None | Some(value: T)

  datatype EnvValue = Literal(text: string) | Sealed(key: string) | Generated(key: string)

  /** A declared service with its environment, under its own name. */
  datatype Declaration = Declaration(name: string, env: seq<EnvValue>)

  type Secrets = map<string, string>
  type Generation = nat

  /** What a resolution hands to the start that asked for it. */
  datatype Resolution = Resolution(services: map<string, Secrets>, generation: Generation)

  datatype Credentials = Credentials(container: map<string, Secrets>, generation: Option<Generation>)

  predicate IsHexDigit(c: char) { '0' <= c <= '9' || 'a' <= c <= 'f' }

  predicate IsSecret(text: string) { |text| == 64 && forall c :: c in text ==> IsHexDigit(c) }

  predicate Names(declaration: Declaration, key: string) { Generated(key) in declaration.env }

  ghost predicate Declared(declarations: seq<Declaration>, service: string, key: string) {
    exists i :: 0 <= i < |declarations| && declarations[i].name == service && Names(declarations[i], key)
  }

  ghost predicate DistinctServices(declarations: seq<Declaration>) {
    forall i, j :: 0 <= i < j < |declarations| ==> declarations[i].name != declarations[j].name
  }

  ghost predicate Has(container: map<string, Secrets>, service: string, key: string) {
    service in container && key in container[service]
  }

  /** No stored secret changes or goes away. */
  ghost predicate NothingLost(before: map<string, Secrets>, after: map<string, Secrets>) {
    forall service, key :: Has(before, service, key) ==> Has(after, service, key) && after[service][key] == before[service][key]
  }

  /** A resolution keeps what is stored, adds what is missing, and marks the file as its own. */
  ghost predicate ResolvedTo(before: Credentials, after: Credentials, declarations: seq<Declaration>, r: Resolution) {
    && NothingLost(before.container, after.container) && after.generation == Some(r.generation)
    && (forall service, key :: Has(r.services, service, key) <==> Declared(declarations, service, key))
    && forall service, key :: Declared(declarations, service, key) ==>
         && Has(r.services, service, key) && Has(after.container, service, key)
         && after.container[service][key] == r.services[service][key] && IsSecret(r.services[service][key])
  }

  /** A finalization keeps exactly the declared secrets, with the values its start resolved. */
  ghost predicate FinalizedTo(before: Credentials, after: Credentials, declarations: seq<Declaration>, expected: Option<Resolution>) {
    && (expected.Some? ==> before.generation == Some(expected.value.generation))
    && (after.generation == before.generation || after == Credentials(map[], None))
    && (forall service, key :: Has(after.container, service, key) <==> Declared(declarations, service, key))
    && forall service, key :: Declared(declarations, service, key) ==>
         && Has(before.container, service, key) && Has(after.container, service, key)
         && after.container[service][key] == before.container[service][key]
         && IsSecret(after.container[service][key])
         && (expected.Some? ==> Has(expected.value.services, service, key) && expected.value.services[service][key] == after.container[service][key])
  }

  lemma SomeSecret()
    ensures exists text :: IsSecret(text)
  {
    var zeros := seq(64, _ => '0');
    assert IsSecret(zeros);
  }

  /** A usable secret is 64 lower-case hexadecimal digits. */
  lemma SecretIsHex(text: string)
    ensures IsSecret(text) <==> |text| == 64 && forall c :: c in text ==> c in "0123456789abcdef"
  {
    forall c | c in text ensures IsHexDigit(c) <==> c in "0123456789abcdef" { DigitIsHex(c); }
  }

  lemma DigitIsHex(c: char)
    ensures IsHexDigit(c) <==> c in "0123456789abcdef"
  {
    var digits := "0123456789abcdef";
    if '0' <= c <= '9' { assert digits[c as int - '0' as int] == c; }
    if 'a' <= c <= 'f' { assert digits[c as int - 'a' as int + 10] == c; }
  }

  class CredentialStore {
    var saved: Credentials

    constructor (saved: Credentials)
      ensures this.saved == saved
    {
      this.saved := saved;
    }

    /** The secrets of one service: a stored one is never replaced, and an unusable one stops the
        command. */
    method ResolveService(declaration: Declaration, previous: Secrets) returns (ok: bool, secrets: Secrets)
      ensures ok <==> forall key :: Names(declaration, key) && key in previous ==> IsSecret(previous[key])
      ensures ok ==> forall key :: key in secrets <==> Names(declaration, key)
      ensures ok ==> forall key :: key in secrets ==> IsSecret(secrets[key]) && (key in previous ==> secrets[key] == previous[key])
    {
      secrets := map[];
      for i := 0 to |declaration.env|
        invariant forall key :: key in secrets <==> Generated(key) in declaration.env[..i]
        invariant forall key :: key in secrets ==> IsSecret(secrets[key]) && (key in previous ==> secrets[key] == previous[key])
      {
        if declaration.env[i].Generated? {
          var key := declaration.env[i].key;
          if key in previous && !IsSecret(previous[key]) {
            assert Names(declaration, key);
            return false, secrets;
          }
          if key !in secrets {
            SomeSecret();
            var drawn: string :| IsSecret(drawn);
            secrets := secrets[key := if key in previous then previous[key] else drawn];
          }
        }
        assert declaration.env[..i + 1] == declaration.env[..i] + [declaration.env[i]];
      }
      assert declaration.env[..|declaration.env|] == declaration.env;
      return true, secrets;
    }

    /** resolveContainerSecrets, from the saved record on; the generation is drawn at random. */
    method Resolve(declarations: seq<Declaration>, drawn: Generation) returns (result: Option<Resolution>)
      requires DistinctServices(declarations)
      modifies this
      ensures result.Some? ==> ResolvedTo(old(saved), saved, declarations, result.value) && result.value.generation == drawn
      ensures result.None? ==> saved == old(saved)
      ensures result.Some? <==> forall service, key :: Declared(declarations, service, key) && Has(old(saved).container, service, key) ==>
                IsSecret(old(saved).container[service][key])
    {
      hide ResolvedFirst, NothingLost;
      var retained := saved.container;
      var services: map<string, Secrets> := map[];
      NoneResolved(declarations, saved.container);
      for i := 0 to |declarations|
        invariant saved == old(saved) && ResolvedFirst(declarations, i, saved.container, retained, services)
      {
        var name := declarations[i].name;
        var previous := if name in saved.container then saved.container[name] else map[];
        var ok, secrets := ResolveService(declarations[i], previous);
        if !ok {
          var key :| Names(declarations[i], key) && key in previous && !IsSecret(previous[key]);
          assert Declared(declarations, name, key) && Has(saved.container, name, key);
          return None;
        }
        OneMoreResolved(declarations, i, saved.container, retained, services, secrets);
        retained := retained[name := previous + secrets];
        services := services[name := secrets];
      }
      AllResolved(declarations, saved.container, retained, services);
      saved := Credentials(retained, Some(drawn));
      return Some(Resolution(services, drawn));
    }

    /** finalizeContainerSecrets: it throws unless the file is still the one that the start resolved. */
    method Finalize(declarations: seq<Declaration>, expected: Option<Resolution>) returns (ok: bool)
      requires DistinctServices(declarations)
      modifies this
      ensures ok ==> FinalizedTo(old(saved), saved, declarations, expected)
      ensures !ok ==> saved == old(saved)
      ensures ok <==> (expected.Some? ==> old(saved).generation == Some(expected.value.generation))
                      && forall service, key :: Declared(declarations, service, key) ==> Finalizable(service, key, old(saved).container, expected)
    {
      if expected.Some? && saved.generation != Some(expected.value.generation) { return false; }
      var retained: map<string, Secrets> := map[];
      for i := 0 to |declarations|
        invariant saved == old(saved)
        invariant forall service :: service in retained <==> exists j :: 0 <= j < i && declarations[j].name == service
        invariant forall j :: 0 <= j < i ==> FinalizedOne(declarations[j], saved.container, retained, expected)
      {
        var finalized, secrets := FinalizeService(declarations[i], expected);
        if !finalized {
          ghost var key :| Names(declarations[i], key) && !Finalizable(declarations[i].name, key, saved.container, expected);
          assert Declared(declarations, declarations[i].name, key);
          return false;
        }
        ghost var before := retained;
        retained := retained[declarations[i].name := secrets];
        forall j | 0 <= j < i ensures FinalizedOne(declarations[j], saved.container, retained, expected) {
          assert FinalizedOne(declarations[j], saved.container, before, expected);
        }
      }
      AllFinalized(declarations, saved.container, retained, expected);
      saved := if retained == map[] then Credentials(map[], None) else Credentials(retained, saved.generation);
      return true;
    }

    method FinalizeService(declaration: Declaration, expected: Option<Resolution>) returns (ok: bool, secrets: Secrets)
      ensures ok <==> forall key :: Names(declaration, key) ==> Finalizable(declaration.name, key, saved.container, expected)
      ensures ok ==> FinalizedOne(declaration, saved.container, map[declaration.name := secrets], expected)
    {
      secrets := map[];
      var stored := if declaration.name in saved.container then saved.container[declaration.name] else map[];
      for i := 0 to |declaration.env|
        invariant forall key :: key in secrets <==> Generated(key) in declaration.env[..i]
        invariant forall key :: key in secrets ==> FinalSecret(declaration.name, key, secrets[key], saved.container, expected)
      {
        if declaration.env[i].Generated? {
          var key := declaration.env[i].key;
          assert Names(declaration, key);
          if key !in stored || !IsSecret(stored[key]) { return false, secrets; }
          if expected.Some? && !(declaration.name in expected.value.services && key in expected.value.services[declaration.name]
                                 && expected.value.services[declaration.name][key] == stored[key]) { return false, secrets; }
          secrets := secrets[key := stored[key]];
        }
        assert declaration.env[..i + 1] == declaration.env[..i] + [declaration.env[i]];
      }
      assert declaration.env[..|declaration.env|] == declaration.env;
      return true, secrets;
    }
  }

  // ---------- one service at a time ----------

  ghost predicate ResolvedOne(d: Declaration, before: map<string, Secrets>, retained: map<string, Secrets>, services: map<string, Secrets>) {
    && d.name in services && (forall key :: key in services[d.name] <==> Names(d, key))
    && forall key :: key in services[d.name] ==> ResolvedSecret(d.name, key, before, retained, services[d.name][key])
  }

  ghost predicate ResolvedSecret(service: string, key: string, before: map<string, Secrets>, retained: map<string, Secrets>, value: string) {
    Has(retained, service, key) && retained[service][key] == value && IsSecret(value) && (Has(before, service, key) ==> before[service][key] == value)
  }

  /** Exactly the services of the first declarations. */
  ghost predicate Listed(declarations: seq<Declaration>, n: nat, services: map<string, Secrets>)
    requires n <= |declarations|
  {
    forall service :: service in services <==> exists j :: 0 <= j < n && declarations[j].name == service
  }

  ghost predicate OthersUntouched(before: map<string, Secrets>, retained: map<string, Secrets>, services: map<string, Secrets>) {
    forall service :: service !in services ==> (service in retained <==> service in before) && (service in before ==> retained[service] == before[service])
  }

  /** The first declarations are resolved, and the other services are as they were. */
  ghost predicate ResolvedFirst(declarations: seq<Declaration>, n: nat, before: map<string, Secrets>, retained: map<string, Secrets>, services: map<string, Secrets>) {
    && n <= |declarations| && NothingLost(before, retained)
    && Listed(declarations, n, services) && OthersUntouched(before, retained, services)
    && forall j :: 0 <= j < n ==> ResolvedOne(declarations[j], before, retained, services)
  }

  lemma NoneResolved(declarations: seq<Declaration>, before: map<string, Secrets>)
    ensures ResolvedFirst(declarations, 0, before, before, map[])
  {
  }

  lemma OneMoreResolved(declarations: seq<Declaration>, n: nat, before: map<string, Secrets>, retained: map<string, Secrets>, services: map<string, Secrets>, secrets: Secrets)
    requires DistinctServices(declarations) && n < |declarations| && ResolvedFirst(declarations, n, before, retained, services)
    requires forall key :: key in secrets <==> Names(declarations[n], key)
    requires var previous := if declarations[n].name in before then before[declarations[n].name] else map[];
             forall key :: key in secrets ==> IsSecret(secrets[key]) && (key in previous ==> secrets[key] == previous[key])
    ensures var name := declarations[n].name;
            var previous := if name in before then before[name] else map[];
            ResolvedFirst(declarations, n + 1, before, retained[name := previous + secrets], services[name := secrets])
  {
    hide IsSecret, Names, ResolvedOne, NothingLost, Listed, OthersUntouched;
    var name := declarations[n].name;
    var previous := if name in before then before[name] else map[];
    AddedLosesNothing(before, retained, name, secrets);
    AddedIsResolved(declarations[n], before, retained, services, secrets);
    forall j | 0 <= j < n ensures ResolvedOne(declarations[j], before, retained[name := previous + secrets], services[name := secrets]) {
      assert declarations[j].name != name;
      StaysResolved(declarations[j], before, retained, services, name, previous + secrets, secrets);
    }
    ListedOneMore(declarations, n, services, secrets);
    OthersStay(before, retained, services, name, previous + secrets, secrets);
  }

  lemma ListedOneMore(declarations: seq<Declaration>, n: nat, services: map<string, Secrets>, secrets: Secrets)
    requires n < |declarations| && Listed(declarations, n, services)
    ensures Listed(declarations, n + 1, services[declarations[n].name := secrets])
  {
    var more := services[declarations[n].name := secrets];
    forall service ensures service in more <==> exists j :: 0 <= j < n + 1 && declarations[j].name == service {
      if service in services {
        var j :| 0 <= j < n && declarations[j].name == service;
      }
      if service == declarations[n].name { assert declarations[n].name == service; }
    }
  }

  lemma OthersStay(before: map<string, Secrets>, retained: map<string, Secrets>, services: map<string, Secrets>, name: string, kept: Secrets, secrets: Secrets)
    requires OthersUntouched(before, retained, services)
    ensures OthersUntouched(before, retained[name := kept], services[name := secrets])
  {
  }

  lemma AddedLosesNothing(before: map<string, Secrets>, retained: map<string, Secrets>, name: string, secrets: Secrets)
    requires NothingLost(before, retained)
    requires var previous := if name in before then before[name] else map[]; forall key :: key in secrets && key in previous ==> secrets[key] == previous[key]
    ensures NothingLost(before, retained[name := (if name in before then before[name] else map[]) + secrets])
  {
    var after := retained[name := (if name in before then before[name] else map[]) + secrets];
    forall service, key | Has(before, service, key) ensures Has(after, service, key) && after[service][key] == before[service][key] {
      assert Has(retained, service, key);
    }
  }

  lemma AddedIsResolved(d: Declaration, before: map<string, Secrets>, retained: map<string, Secrets>, services: map<string, Secrets>, secrets: Secrets)
    requires forall key :: key in secrets <==> Names(d, key)
    requires var previous := if d.name in before then before[d.name] else map[];
             forall key :: key in secrets ==> IsSecret(secrets[key]) && (key in previous ==> secrets[key] == previous[key])
    ensures ResolvedOne(d, before, retained[d.name := (if d.name in before then before[d.name] else map[]) + secrets], services[d.name := secrets])
  {
    hide IsSecret, Names;
  }

  lemma StaysResolved(d: Declaration, before: map<string, Secrets>, retained: map<string, Secrets>, services: map<string, Secrets>, other: string, kept: Secrets, secrets: Secrets)
    requires ResolvedOne(d, before, retained, services) && d.name != other
    ensures ResolvedOne(d, before, retained[other := kept], services[other := secrets])
  {
    forall key | key in services[d.name] ensures ResolvedSecret(d.name, key, before, retained[other := kept], services[d.name][key]) {
      assert ResolvedSecret(d.name, key, before, retained, services[d.name][key]);
    }
  }

  lemma AllResolved(declarations: seq<Declaration>, before: map<string, Secrets>, retained: map<string, Secrets>, services: map<string, Secrets>)
    requires ResolvedFirst(declarations, |declarations|, before, retained, services)
    ensures NothingLost(before, retained)
    ensures forall service, key :: Has(services, service, key) <==> Declared(declarations, service, key)
    ensures forall service, key :: Declared(declarations, service, key) ==>
              Has(services, service, key) && ResolvedSecret(service, key, before, retained, services[service][key])
  {
    forall service, key ensures Has(services, service, key) <==> Declared(declarations, service, key) {
      if Has(services, service, key) {
        var j :| 0 <= j < |declarations| && declarations[j].name == service;
        assert ResolvedOne(declarations[j], before, retained, services);
      }
    }
    forall service, key | Declared(declarations, service, key)
      ensures Has(services, service, key) && ResolvedSecret(service, key, before, retained, services[service][key])
    {
      var j :| 0 <= j < |declarations| && declarations[j].name == service && Names(declarations[j], key);
      assert ResolvedOne(declarations[j], before, retained, services);
    }
  }

  ghost predicate FinalSecret(service: string, key: string, value: string, before: map<string, Secrets>, expected: Option<Resolution>) {
    && Has(before, service, key) && before[service][key] == value && IsSecret(value)
    && (expected.Some? ==> Has(expected.value.services, service, key) && expected.value.services[service][key] == value)
  }

  ghost predicate Finalizable(service: string, key: string, before: map<string, Secrets>, expected: Option<Resolution>) {
    Has(before, service, key) && FinalSecret(service, key, before[service][key], before, expected)
  }

  ghost predicate FinalizedOne(d: Declaration, before: map<string, Secrets>, retained: map<string, Secrets>, expected: Option<Resolution>) {
    && d.name in retained && (forall key :: key in retained[d.name] <==> Names(d, key))
    && forall key :: key in retained[d.name] ==> FinalSecret(d.name, key, retained[d.name][key], before, expected)
  }

  lemma AllFinalized(declarations: seq<Declaration>, before: map<string, Secrets>, retained: map<string, Secrets>, expected: Option<Resolution>)
    requires forall j :: 0 <= j < |declarations| ==> FinalizedOne(declarations[j], before, retained, expected)
    requires forall service :: service in retained <==> exists j :: 0 <= j < |declarations| && declarations[j].name == service
    ensures forall service, key :: Has(retained, service, key) <==> Declared(declarations, service, key)
    ensures forall service, key :: Declared(declarations, service, key) ==>
              Has(retained, service, key) && FinalSecret(service, key, retained[service][key], before, expected)
  {
    forall service, key ensures Has(retained, service, key) <==> Declared(declarations, service, key) {
      if Has(retained, service, key) {
        var j :| 0 <= j < |declarations| && declarations[j].name == service;
        assert FinalizedOne(declarations[j], before, retained, expected);
      }
    }
    forall service, key | Declared(declarations, service, key) ensures Has(retained, service, key) && FinalSecret(service, key, retained[service][key], before, expected) {
      var j :| 0 <= j < |declarations| && declarations[j].name == service && Names(declarations[j], key);
      assert FinalizedOne(declarations[j], before, retained, expected);
    }
  }

  // ---------- runs ----------

  datatype Step =
    | Resolves(declarations: seq<Declaration>, result: Resolution)
    | Finalizes(declarations: seq<Declaration>, expected: Option<Resolution>)
    | Refused

  ghost predicate Moves(before: Credentials, after: Credentials, step: Step) {
    match step
    case Resolves(declarations, result) => ResolvedTo(before, after, declarations, result)
    case Finalizes(declarations, expected) => FinalizedTo(before, after, declarations, expected)
    case Refused => after == before
  }

  /** A run of commands; no two resolutions draw the same generation. */
  ghost predicate Run(states: seq<Credentials>, steps: seq<Step>) {
    && |states| == |steps| + 1
    && (forall i :: 0 <= i < |steps| ==> Moves(states[i], states[i + 1], steps[i]))
    && forall i, j :: 0 <= i < j < |steps| && steps[i].Resolves? && steps[j].Resolves? ==> steps[i].result.generation != steps[j].result.generation
  }

  /** Once another generation is stored, a generation does not come back. */
  lemma {:induction false} GenerationIsGone(states: seq<Credentials>, steps: seq<Step>, i: nat, m: nat, j: nat)
    requires Run(states, steps) && i < m < |steps| && m < j <= |steps| && steps[i].Resolves?
    requires states[m + 1].generation != Some(steps[i].result.generation)
    ensures states[j].generation != Some(steps[i].result.generation)
    decreases j
  {
    if j > m + 1 {
      GenerationIsGone(states, steps, i, m, j - 1);
      assert Moves(states[j - 1], states[j], steps[j - 1]);
    }
  }

  /** The fence: a start whose finalization succeeds was the last one to resolve, and what is stored
      afterwards is exactly what it resolved for the declared names. */
  lemma FinalizedStartWasLast(states: seq<Credentials>, steps: seq<Step>, i: nat, j: nat)
    requires Run(states, steps) && i < j < |steps| && steps[i].Resolves?
    requires steps[j].Finalizes? && steps[j].expected == Some(steps[i].result)
    ensures forall m :: i < m < j ==> !steps[m].Resolves?
    ensures forall service, key :: Has(states[j + 1].container, service, key) ==>
              Has(steps[i].result.services, service, key) && states[j + 1].container[service][key] == steps[i].result.services[service][key]
  {
    assert Moves(states[j], states[j + 1], steps[j]);
    forall m | i < m < j ensures !steps[m].Resolves? {
      assert Moves(states[m], states[m + 1], steps[m]);
      if steps[m].Resolves? { GenerationIsGone(states, steps, i, m, j); }
    }
  }

  /** A stored secret is never rotated while every finalization declares it. */
  lemma {:induction false} SecretsAreNeverRotated(states: seq<Credentials>, steps: seq<Step>, i: nat, j: nat, service: string, key: string)
    requires Run(states, steps) && i <= j <= |steps| && Has(states[i].container, service, key)
    requires forall m :: i <= m < j && steps[m].Finalizes? ==> Declared(steps[m].declarations, service, key)
    ensures Has(states[j].container, service, key) && states[j].container[service][key] == states[i].container[service][key]
    decreases j
  {
    if i < j {
      SecretsAreNeverRotated(states, steps, i, j - 1, service, key);
      assert Moves(states[j - 1], states[j], steps[j - 1]);
    }
  }
}
