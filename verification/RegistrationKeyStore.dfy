/** The transactions of RegistrationKeys as they change the tables row by row
    (reconcileOAuthRegistrationKeysOnAdapter, rotateOAuthRegistrationKey,
    retireOAuthRegistrationKeys and the key lookups in src/auth-runtime.ts).  Each method is one
    transaction or a part of one, and is proved to be the step of RegistrationKeys that models it. */
module RegistrationKeyStore {

  import opened RegistrationKeys

  lemma LatestIs(instants: set<Instant>, base: Instant, latest: Instant)
    requires base <= latest && (forall i :: i in instants ==> i <= latest)
    requires latest == base || latest in instants
    ensures Latest(instants, base) == latest
  {
  }

  lemma SameRows(s: State, t: State, ref: KeyRef)
    requires s.sealed == t.sealed
    ensures StoredExpiries(s, ref) == StoredExpiries(t, ref)
  {
  }

  class KeyStore {
    var clock: Instant
    var active: Active
    var materials: map<KeyId, Material>
    var alias: Option<Alias>
    var retention: map<KeyId, Instant>
    var sealed: map<StateId, Sealed>
    ghost var begun: map<StateId, Instant>

    ghost function View(): State
      reads this
    {
      State(clock, active, materials, alias, retention, begun, sealed)
    }

    /** oauthRegistrationOutstandingExpiry. */
    method OutstandingExpiry(ref: KeyRef, now: Instant) returns (latest: Instant)
      ensures latest == Outstanding(View(), ref, now)
    {
      latest := now;
      var rows := sealed.Keys;
      while rows != {}
        invariant rows <= sealed.Keys && now <= latest
        invariant latest == now || latest in StoredExpiries(View(), ref)
        invariant forall id :: id in sealed && id !in rows && sealed[id].stored && RefLike(ref, sealed[id].ref) ==> sealed[id].expiresAt <= latest
        decreases |rows|
      {
        var id :| id in rows;
        rows := rows - {id};
        var row := sealed[id];
        if row.stored && RefLike(ref, row.ref) && row.expiresAt > latest { latest := row.expiresAt; }
      }
      LatestIs(StoredExpiries(View(), ref), now, latest);
    }

    /** oauthRegistrationAlias of the stored row. */
    method ReadAlias(now: Instant) returns (live: Option<Alias>)
      ensures live == LiveAlias(View(), now)
    {
      if alias.Some? && alias.value.expiresAt > now { return alias; }
      return None;
    }

    /** reconcileOAuthRegistrationKeysOnAdapter; no key id stands for the error that aborts the
        transaction. */
    method Reconcile(now: Instant, candidateId: KeyId, candidateMaterial: Material) returns (keyId: Option<KeyId>)
      requires Fresh(View(), candidateId)
      modifies `active, `materials, `alias
      ensures keyId.None? ==> View() == old(View()) && RegistrationKeys.Reconcile(View(), now, candidateId, candidateMaterial).None?
      ensures keyId.Some? ==> active == Current(keyId.value) && keyId.value in materials
      ensures keyId.Some? ==> RegistrationKeys.Reconcile(old(View()), now, candidateId, candidateMaterial) == Some(View())
    {
      if active.Current? {
        return if active.id in materials then Some(active.id) else None;
      }
      if active.Malformed? { return None; }
      var previous := active;
      materials := materials[candidateId := if previous.Legacy? then previous.material else candidateMaterial];
      active := Current(candidateId);
      if previous.Legacy? {
        var outstanding := OutstandingExpiry(LegacyActive, now);
        alias := Some(Alias(candidateId, if now + KEY_GRACE < outstanding then outstanding else now + KEY_GRACE));
      }
      return Some(candidateId);
    }

    /** reconcileOAuthRegistrationKeys. */
    method Migrate(now: Instant, candidateId: KeyId, candidateMaterial: Material) returns (keyId: Option<KeyId>)
      requires Enabled(View(), Step.Migrate(now, candidateId, candidateMaterial))
      modifies `active, `materials, `alias
      ensures View() == Next(old(View()), Step.Migrate(now, candidateId, candidateMaterial))
      ensures keyId.Some? ==> active == Current(keyId.value) && keyId.value in materials
    {
      keyId := Reconcile(now, candidateId, candidateMaterial);
    }

    /** rotateOAuthRegistrationKey: the new key, or none when the transaction aborts. */
    method Rotate(now: Instant, candidateId: KeyId, candidateMaterial: Material, nextId: KeyId, nextMaterial: Material)
      returns (previous: Option<KeyId>)
      requires Enabled(View(), Step.Rotate(now, candidateId, candidateMaterial, nextId, nextMaterial))
      modifies `active, `materials, `alias, `retention
      ensures View() == Next(old(View()), Step.Rotate(now, candidateId, candidateMaterial, nextId, nextMaterial))
      ensures previous.Some? ==> active == Current(nextId) && previous.value in materials && previous.value in retention
    {
      var current := Reconcile(now, candidateId, candidateMaterial);
      if current.None? { return None; }
      materials := materials[nextId := nextMaterial];
      active := Current(nextId);
      var outstanding := OutstandingExpiry(ById(current.value), now);
      var live := ReadAlias(now);
      var legacyOutstanding := if live.Some? && live.value.id == current.value then live.value.expiresAt else now;
      retention := retention[current.value := Max(Max(now + KEY_GRACE, outstanding), legacyOutstanding)];
      return current;
    }

    /** retireOAuthRegistrationKeys: the deleted keys, or none when the transaction aborts. */
    method Retire(now: Instant, candidateId: KeyId, candidateMaterial: Material) returns (retired: Option<set<KeyId>>)
      requires Enabled(View(), Step.Retire(now, candidateId, candidateMaterial))
      modifies `active, `materials, `alias, `retention
      ensures View() == Next(old(View()), Step.Retire(now, candidateId, candidateMaterial))
      ensures retired.Some? ==> retired.value !! retention.Keys && retired.value <= old(retention).Keys
    {
      var current := Reconcile(now, candidateId, candidateMaterial);
      if current.None? { return None; }
      var gone := RetireRows(current.value, now);
      var live := ReadAlias(now);
      if alias.Some? && live.None? { alias := None; }
      return Some(gone);
    }

    /** One retained key: it is deleted once nothing can need it any more. */
    method RetireRow(id: KeyId, currentId: KeyId, now: Instant, ghost s: State) returns (deleted: bool)
      requires active == Current(currentId) == s.active && sealed == s.sealed
      requires id in retention && id in s.retention && retention[id] == s.retention[id]
      modifies `materials, `retention
      ensures deleted <==> Retirable(s, id, now)
      ensures deleted ==> materials == old(materials) - {id} && retention == old(retention) - {id}
      ensures !deleted ==> materials == old(materials) && retention == old(retention)
    {
      if id == currentId { return false; }
      var outstanding := OutstandingExpiry(ById(id), now);
      SameRows(View(), s, ById(id));
      hide Outstanding;
      if retention[id] > now || outstanding > now { return false; }
      materials := materials - {id};
      retention := retention - {id};
      return true;
    }

    /** The loop over the retained keys. */
    method RetireRows(currentId: KeyId, now: Instant) returns (gone: set<KeyId>)
      requires active == Current(currentId)
      modifies `materials, `retention
      ensures gone == set id | id in old(retention) && Retirable(old(View()), id, now)
      ensures materials == old(materials) - gone && retention == old(retention) - gone
    {
      hide Retirable;
      gone := {};
      var rows := retention.Keys;
      while rows != {}
        invariant rows <= old(retention).Keys && gone <= old(retention).Keys && rows !! gone
        invariant forall id :: id in old(retention) && id !in rows ==> (id in gone <==> Retirable(old(View()), id, now))
        invariant materials == old(materials) - gone && retention == old(retention) - gone
        decreases |rows|
      {
        var id :| id in rows;
        rows := rows - {id};
        var deleted := RetireRow(id, currentId, now, old(View()));
        if deleted { gone := gone + {id}; }
      }
    }

    /** oauthRegistrationKeyForUnseal. */
    method KeyToUnseal(ref: KeyRef) returns (material: Option<Material>)
      ensures material == KeyForUnseal(View(), ref)
    {
      var resolved: KeyId;
      if ref.LegacyActive? {
        var live := ReadAlias(clock);
        if live.None? { return None; }
        resolved := live.value.id;
      } else {
        resolved := ref.id;
      }
      return if resolved in materials then Some(materials[resolved]) else None;
    }

    /** sealOAuthRegistration: the key is chosen in a transaction of its own. */
    method Seal(id: StateId, expiresAt: Instant, candidateId: KeyId, candidateMaterial: Material) returns (key: Option<(KeyId, Material)>)
      requires Enabled(View(), Step.Seal(id, candidateId, candidateMaterial)) && begun[id] == expiresAt
      modifies this
      ensures View() == Next(old(View()), Step.Seal(id, candidateId, candidateMaterial))
      ensures key.Some? ==> id in sealed && sealed[id].ref == ById(key.value.0) && sealed[id].material == key.value.1
    {
      var current := Reconcile(clock, candidateId, candidateMaterial);
      if current.None? { return None; }
      var material := materials[current.value];
      sealed := sealed[id := Sealed(ById(current.value), material, expiresAt, false)];
      begun := begun - {id};
      return Some((current.value, material));
    }
  }
}
