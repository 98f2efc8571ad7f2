/** The keys that seal OAuth registrations (src/auth-runtime.ts): migration of the single legacy
    key, rotation and retirement, interleaved with sign-ins that seal a registration, store it
    later, and unseal it later still.  Every transaction is one atomic step; the clock reading a
    transaction uses is a parameter of its step, because the source takes it before the
    transaction starts.  Randomly drawn key ids are taken to be fresh. */
module RegistrationKeys {

  type KeyId = string
  type Material = string
  type StateId = nat
  type Instant = nat

  /** The lifetime of a sign-in state and the grace period of a retired key, in milliseconds. */
  const STATE_LIFETIME: Instant := 600_000
  const KEY_GRACE: Instant := 600_000

  datatype Option<T> = None | Some(value: T)

  /** The key named in front of a ciphertext; registrations sealed before the migration say "active". */
  datatype KeyRef = LegacyActive | ById(id: KeyId)

  /** The value stored under the active key name. */
  datatype Active = NoKey | Legacy(material: Material) | Current(id: KeyId) | Malformed

  datatype Alias = Alias(id: KeyId, expiresAt: Instant)

  /** A sealed registration; stored says whether its row is in the table of sign-in states. */
  datatype Sealed = Sealed(ref: KeyRef, material: Material, expiresAt: Instant, stored: bool)

  datatype State = State(
    clock: Instant,
    active: Active,
    materials: map<KeyId, Material>,
    alias: Option<Alias>,
    retention: map<KeyId, Instant>,
    begun: map<StateId, Instant>,
    sealed: map<StateId, Sealed>
  )

  // ---------- reading the tables ----------

  /** SQL LIKE on key ids, which may contain the wildcard '_'. */
  predicate Like(pattern: KeyId, text: KeyId) {
    |pattern| == |text| && forall i :: 0 <= i < |text| ==> pattern[i] == '_' || pattern[i] == text[i]
  }

  predicate RefLike(pattern: KeyRef, ref: KeyRef) {
    match (pattern, ref)
    case (LegacyActive, LegacyActive) => true
    case (ById(p), ById(t)) => Like(p, t)
    case _ => false
  }

  ghost function Latest(instants: set<Instant>, base: Instant): (latest: Instant)
    ensures base <= latest && (forall i :: i in instants ==> i <= latest)
    ensures latest == base || latest in instants
  {
    if instants == {} then base
    else
      var i :| i in instants;
      var rest := Latest(instants - {i}, base);
      assert forall j :: j in instants ==> j == i || j in instants - {i};
      if i > rest then i else rest
  }

  function Max(a: Instant, b: Instant): Instant { if a < b then b else a }

  ghost function StoredExpiries(s: State, ref: KeyRef): set<Instant> {
    set id | id in s.sealed && s.sealed[id].stored && RefLike(ref, s.sealed[id].ref) :: s.sealed[id].expiresAt
  }

  /** oauthRegistrationOutstandingExpiry: the last expiry among the stored rows of a key. */
  ghost function Outstanding(s: State, ref: KeyRef, now: Instant): Instant {
    Latest(StoredExpiries(s, ref), now)
  }

  /** oauthRegistrationAlias: an expired alias reads as absent. */
  function LiveAlias(s: State, now: Instant): Option<Alias> {
    if s.alias.Some? && s.alias.value.expiresAt > now then s.alias else None
  }

  /** oauthRegistrationKeyForUnseal. */
  function KeyForUnseal(s: State, ref: KeyRef): Option<Material> {
    var resolved := match ref
      case ById(id) => Some(id)
      case LegacyActive =>
        var alias := LiveAlias(s, s.clock);
        if alias.Some? then Some(alias.value.id) else None;
    if resolved.Some? && resolved.value in s.materials then Some(s.materials[resolved.value]) else None
  }

  // ---------- transactions ----------

  /** How long a migration lets the alias stand. */
  ghost function AliasUntil(s: State, now: Instant): Instant {
    Max(now + KEY_GRACE, Outstanding(s, LegacyActive, now))
  }

  /** reconcileOAuthRegistrationKeysOnAdapter; a failure leaves the transaction without effect. */
  ghost function Reconcile(s: State, now: Instant, freshId: KeyId, freshMaterial: Material): Option<State> {
    match s.active
    case Current(id) => if id in s.materials then Some(s) else None
    case Malformed => None
    case NoKey =>
      Some(s.(materials := s.materials[freshId := freshMaterial], active := Current(freshId)))
    case Legacy(material) =>
      Some(s.(materials := s.materials[freshId := material], active := Current(freshId),
              alias := Some(Alias(freshId, AliasUntil(s, now)))))
  }

  ghost function RetainUntil(s: State, id: KeyId, now: Instant): Instant {
    var alias := LiveAlias(s, now);
    var legacyOutstanding := if alias.Some? && alias.value.id == id then alias.value.expiresAt else now;
    Max(Max(now + KEY_GRACE, Outstanding(s, ById(id), now)), legacyOutstanding)
  }

  /** The body of rotateOAuthRegistrationKey after reconciliation. */
  ghost function Rotated(s: State, now: Instant, nextId: KeyId, nextMaterial: Material): State
    requires s.active.Current?
  {
    s.(materials := s.materials[nextId := nextMaterial], active := Current(nextId),
       retention := s.retention[s.active.id := RetainUntil(s, s.active.id, now)])
  }

  ghost predicate Retirable(s: State, id: KeyId, now: Instant) {
    id in s.retention && s.active != Current(id) && s.retention[id] <= now && Outstanding(s, ById(id), now) <= now
  }

  /** The body of retireOAuthRegistrationKeys after reconciliation. */
  ghost function Retired(s: State, now: Instant): State {
    var gone := set id | id in s.retention && Retirable(s, id, now);
    s.(materials := s.materials - gone, retention := s.retention - gone, alias := LiveAlias(s, now))
  }

  datatype Step =
    | Tick(to: Instant)
    | Begin(id: StateId)
    | Seal(id: StateId, freshId: KeyId, freshMaterial: Material)
    | Store(id: StateId)
    | Consume(id: StateId)
    | Finish(id: StateId)
    | Migrate(now: Instant, freshId: KeyId, freshMaterial: Material)
    | Rotate(now: Instant, freshId: KeyId, freshMaterial: Material, nextId: KeyId, nextMaterial: Material)
    | Retire(now: Instant, freshId: KeyId, freshMaterial: Material)

  /** A key id that has never been drawn before. */
  ghost predicate Fresh(s: State, id: KeyId) {
    && id !in s.materials && id !in s.retention && s.active != Current(id)
    && (s.alias.Some? ==> s.alias.value.id != id)
    && (forall p :: p in s.sealed ==> s.sealed[p].ref != ById(id))
  }

  /** What the environment guarantees of a step: time does not run back, readings were taken
      before they are used, and drawn ids are fresh. */
  ghost predicate Enabled(s: State, step: Step) {
    match step
    case Tick(to) => s.clock <= to
    case Begin(id) => id !in s.begun && id !in s.sealed
    case Seal(id, freshId, _) => id in s.begun && Fresh(s, freshId)
    case Store(id) => id in s.sealed
    case Consume(id) => id in s.sealed
    case Finish(id) => true
    case Migrate(now, freshId, _) => now <= s.clock && Fresh(s, freshId)
    case Rotate(now, freshId, _, nextId, _) => now <= s.clock && Fresh(s, freshId) && Fresh(s, nextId) && freshId != nextId
    case Retire(now, freshId, _) => now <= s.clock && Fresh(s, freshId)
  }

  ghost function Next(s: State, step: Step): State
    requires Enabled(s, step)
  {
    match step
    case Tick(to) => s.(clock := to)
    case Begin(id) => s.(begun := s.begun[id := s.clock + STATE_LIFETIME])
    case Seal(id, freshId, freshMaterial) =>
      var ready := Reconcile(s, s.clock, freshId, freshMaterial);
      if ready.None? then s
      else
        var r := ready.value;
        r.(begun := r.begun - {id},
           sealed := r.sealed[id := Sealed(ById(r.active.id), r.materials[r.active.id], s.begun[id], false)])
    case Store(id) => s.(sealed := s.sealed[id := s.sealed[id].(stored := true)])
    case Consume(id) => s.(sealed := s.sealed[id := s.sealed[id].(stored := false)])
    case Finish(id) => s.(begun := s.begun - {id}, sealed := s.sealed - {id})
    case Migrate(now, freshId, freshMaterial) =>
      var ready := Reconcile(s, now, freshId, freshMaterial);
      if ready.None? then s else ready.value
    case Rotate(now, freshId, freshMaterial, nextId, nextMaterial) =>
      var ready := Reconcile(s, now, freshId, freshMaterial);
      if ready.None? then s else Rotated(ready.value, now, nextId, nextMaterial)
    case Retire(now, freshId, freshMaterial) =>
      var ready := Reconcile(s, now, freshId, freshMaterial);
      if ready.None? then s else Retired(ready.value, now)
  }

  // ---------- what is to be kept ----------

  /** Every unexpired registration can be unsealed with the material that sealed it. */
  ghost predicate AllFound(s: State) {
    forall p :: p in s.sealed && s.sealed[p].expiresAt > s.clock && (s.sealed[p].ref.LegacyActive? ==> s.active.Current?) ==>
      KeyForUnseal(s, s.sealed[p].ref) == Some(s.sealed[p].material)
  }

  /** The active id names stored material. */
  ghost predicate ActiveStored(s: State) {
    s.active.Current? ==> s.active.id in s.materials
  }

  /** The reading a rotation or migration uses is recent enough for the registrations that are
      sealed but not in the table at that moment. */
  ghost predicate ReadingCovers(s: State, step: Step) {
    match step
    case Rotate(now, _, _, _, _) => UnstoredCovered(s, now)
    case Migrate(now, _, _) => s.active.Legacy? ==> UnstoredCovered(s, now)
    case Retire(now, _, _) => s.active.Legacy? ==> UnstoredCovered(s, now)
    case _ => true
  }

  ghost predicate UnstoredCovered(s: State, now: Instant) {
    forall p :: p in s.sealed && !s.sealed[p].stored && s.sealed[p].expiresAt > s.clock ==>
      match s.active
      case Current(id) => s.sealed[p].ref == ById(id) ==> s.sealed[p].expiresAt <= RetainUntil(s, id, now)
      case Legacy(_) => s.sealed[p].ref.LegacyActive? ==> s.sealed[p].expiresAt <= AliasUntil(s, now)
      case _ => true
  }

  /** Storage as an earlier version left it, or no storage at all. */
  ghost predicate Initial(s: State) {
    && (s.active.NoKey? || s.active.Legacy?)
    && s.materials == map[] && s.alias.None? && s.retention == map[] && s.begun == map[]
    && (forall p :: p in s.sealed ==>
          && s.sealed[p].ref.LegacyActive?
          && s.sealed[p].expiresAt <= s.clock + STATE_LIFETIME
          && s.active == Legacy(s.sealed[p].material))
  }

  // ---------- the invariant ----------

  /** An id is held until an instant when it is active, or retained at least that long. */
  ghost predicate HeldUntil(s: State, id: KeyId, until: Instant) {
    id in s.materials && (s.active == Current(id) || (id in s.retention && until <= s.retention[id]))
  }

  ghost predicate Inv(s: State) {
    && !s.active.Malformed?
    && ActiveStored(s)
    && (s.active.Current? ==> s.active.id !in s.retention)
    && (forall id :: id in s.begun ==> s.begun[id] <= s.clock + STATE_LIFETIME)
    && (forall p :: p in s.sealed ==> s.sealed[p].expiresAt <= s.clock + STATE_LIFETIME)
    && (forall p :: p in s.sealed && s.sealed[p].ref.ById? ==> s.active.Current? && SealedById(s, s.sealed[p]))
    && (forall p :: p in s.sealed && s.sealed[p].ref.LegacyActive? ==> SealedLegacy(s, s.sealed[p]))
    && (s.alias.Some? ==> s.active.Current? && (s.alias.value.expiresAt <= s.clock || HeldUntil(s, s.alias.value.id, s.alias.value.expiresAt)))
  }

  ghost predicate SealedById(s: State, p: Sealed)
    requires p.ref.ById?
  {
    && (p.ref.id in s.materials ==> s.materials[p.ref.id] == p.material)
    && (p.expiresAt <= s.clock || HeldUntil(s, p.ref.id, p.expiresAt))
  }

  ghost predicate SealedLegacy(s: State, p: Sealed) {
    match s.active
    case Legacy(material) => material == p.material
    case Current(_) =>
      || p.expiresAt <= s.clock
      || (s.alias.Some? && p.expiresAt <= s.alias.value.expiresAt
          && s.alias.value.id in s.materials && s.materials[s.alias.value.id] == p.material)
    case _ => false
  }

  lemma InvFinds(s: State)
    requires Inv(s)
    ensures AllFound(s) && ActiveStored(s)
  {
  }

  lemma InitialInv(s: State)
    requires Initial(s)
    ensures Inv(s)
  {
  }

  lemma OutstandingBounds(s: State, ref: KeyRef, now: Instant, p: StateId)
    requires p in s.sealed && s.sealed[p].stored && RefLike(ref, s.sealed[p].ref)
    ensures s.sealed[p].expiresAt <= Outstanding(s, ref, now)
  {
    assert s.sealed[p].expiresAt in StoredExpiries(s, ref);
  }

  lemma ReconcileKeeps(s: State, now: Instant, freshId: KeyId, freshMaterial: Material)
    requires Inv(s) && Fresh(s, freshId) && now <= s.clock
    requires s.active.Legacy? ==> UnstoredCovered(s, now)
    ensures Reconcile(s, now, freshId, freshMaterial).Some?
    ensures Inv(Reconcile(s, now, freshId, freshMaterial).value)
    ensures Reconcile(s, now, freshId, freshMaterial).value.active.Current?
  {
    forall p | p in s.sealed && s.sealed[p].stored && s.sealed[p].ref.LegacyActive?
      ensures s.sealed[p].expiresAt <= Outstanding(s, LegacyActive, now)
    {
      OutstandingBounds(s, LegacyActive, now, p);
    }
  }

  lemma RotatedKeeps(s: State, now: Instant, nextId: KeyId, nextMaterial: Material)
    requires Inv(s) && s.active.Current? && Fresh(s, nextId) && now <= s.clock && UnstoredCovered(s, now)
    ensures Inv(Rotated(s, now, nextId, nextMaterial))
  {
    hide RetainUntil, Outstanding;
    AliasBounds(s, now);
    forall p | p in s.sealed && s.sealed[p].ref == ById(s.active.id) && s.sealed[p].expiresAt > s.clock
      ensures s.sealed[p].expiresAt <= RetainUntil(s, s.active.id, now)
    {
      if s.sealed[p].stored { OutstandingBounds(s, ById(s.active.id), now, p); }
    }
  }

  lemma AliasBounds(s: State, now: Instant)
    requires s.active.Current? && now <= s.clock
    ensures s.alias.Some? && s.alias.value.id == s.active.id && s.alias.value.expiresAt > s.clock ==>
              s.alias.value.expiresAt <= RetainUntil(s, s.active.id, now)
    ensures Outstanding(s, ById(s.active.id), now) <= RetainUntil(s, s.active.id, now)
  {
    hide Outstanding;
  }

  lemma RetiredKeeps(s: State, now: Instant)
    requires Inv(s) && s.active.Current? && now <= s.clock
    ensures Inv(Retired(s, now))
  {
  }

  lemma SealKeeps(s: State, step: Step)
    requires Inv(s) && step.Seal? && Enabled(s, step)
    ensures Inv(Next(s, step))
  {
    ReconcileKeeps(s, s.clock, step.freshId, step.freshMaterial);
    var r := Reconcile(s, s.clock, step.freshId, step.freshMaterial).value;
    var n := Next(s, step);
    assert n.sealed[step.id].ref == ById(r.active.id);
    assert SealedById(n, n.sealed[step.id]);
    forall p | p in n.sealed && p != step.id
      ensures n.sealed[p].ref.ById? ==> SealedById(n, n.sealed[p])
      ensures n.sealed[p].ref.LegacyActive? ==> SealedLegacy(n, n.sealed[p])
    {
      assert n.sealed[p] == r.sealed[p];
    }
  }

  /** Steps that only move time or the progress of one sign-in. */
  lemma ProgressKeeps(s: State, step: Step)
    requires Inv(s) && Enabled(s, step)
    requires step.Tick? || step.Begin? || step.Store? || step.Consume? || step.Finish?
    ensures Inv(Next(s, step))
  {
    var n := Next(s, step);
    forall p | p in n.sealed
      ensures n.sealed[p].ref.ById? ==> SealedById(n, n.sealed[p])
      ensures n.sealed[p].ref.LegacyActive? ==> SealedLegacy(n, n.sealed[p])
    {
      assert p in s.sealed && n.sealed[p] == s.sealed[p].(stored := n.sealed[p].stored);
    }
  }

  /** Every step keeps the invariant, provided the reading it uses covers what is not stored. */
  lemma NextKeeps(s: State, step: Step)
    requires Inv(s) && Enabled(s, step) && ReadingCovers(s, step)
    ensures Inv(Next(s, step))
  {
    match step
    case Seal(_, _, _) => SealKeeps(s, step);
    case Migrate(now, freshId, freshMaterial) =>
      ReconcileKeeps(s, now, freshId, freshMaterial);
    case Rotate(now, freshId, freshMaterial, nextId, nextMaterial) =>
      RotateKeeps(s, step);
    case Retire(now, freshId, freshMaterial) =>
      ReconcileKeeps(s, now, freshId, freshMaterial);
      RetiredKeeps(Reconcile(s, now, freshId, freshMaterial).value, now);
    case _ => ProgressKeeps(s, step);
  }

  lemma RotateKeeps(s: State, step: Step)
    requires Inv(s) && step.Rotate? && Enabled(s, step) && ReadingCovers(s, step)
    ensures Inv(Next(s, step))
  {
    ReconcileKeeps(s, step.now, step.freshId, step.freshMaterial);
    var r := Reconcile(s, step.now, step.freshId, step.freshMaterial).value;
    RotatedKeeps(r, step.now, step.nextId, step.nextMaterial);
  }

  // ---------- runs ----------

  ghost predicate Runs(s: State, steps: seq<Step>)
    decreases |steps|
  {
    steps == [] || (Enabled(s, steps[0]) && Runs(Next(s, steps[0]), steps[1..]))
  }

  ghost predicate ReadingsCover(s: State, steps: seq<Step>)
    requires Runs(s, steps)
    decreases |steps|
  {
    steps == [] || (ReadingCovers(s, steps[0]) && ReadingsCover(Next(s, steps[0]), steps[1..]))
  }

  ghost function Final(s: State, steps: seq<Step>): State
    requires Runs(s, steps)
    decreases |steps|
  {
    if steps == [] then s else Final(Next(s, steps[0]), steps[1..])
  }

  lemma {:induction false} RunKeeps(s: State, steps: seq<Step>)
    requires Inv(s) && Runs(s, steps) && ReadingsCover(s, steps)
    ensures Inv(Final(s, steps))
    decreases |steps|
  {
    if steps != [] {
      NextKeeps(s, steps[0]);
      RunKeeps(Next(s, steps[0]), steps[1..]);
    }
  }

  /** In every run whose readings cover, every unexpired registration, stored or not, can be
      unsealed, legacy ones through the alias, and the active id names stored material. */
  lemma KeysAreFound(s: State, steps: seq<Step>)
    requires Initial(s) && Runs(s, steps) && ReadingsCover(s, steps)
    ensures AllFound(Final(s, steps)) && ActiveStored(Final(s, steps))
  {
    InitialInv(s);
    RunKeeps(s, steps);
    InvFinds(Final(s, steps));
  }

  /** A reading taken inside the transaction always covers: states live no longer than the grace. */
  lemma ReadingAtCommitCovers(s: State, step: Step)
    requires Inv(s)
    requires match step
      case Rotate(now, _, _, _, _) => now == s.clock
      case Migrate(now, _, _) => now == s.clock
      case Retire(now, _, _) => now == s.clock
      case _ => true
    ensures ReadingCovers(s, step)
  {
  }

  // ---------- nothing is kept for longer ----------

  /** Nothing that time limits lies further ahead than a lifetime or the grace period. */
  ghost predicate Timed(s: State) {
    && (forall id :: id in s.begun ==> s.begun[id] <= s.clock + STATE_LIFETIME)
    && (forall p :: p in s.sealed ==> s.sealed[p].expiresAt <= s.clock + STATE_LIFETIME)
    && (forall id :: id in s.retention ==> s.retention[id] <= s.clock + KEY_GRACE)
    && (s.alias.Some? ==> s.alias.value.expiresAt <= s.clock + KEY_GRACE)
  }

  /** An alias stands for the grace period, or until the last stored registration of the legacy key
      expires, if that is later. */
  lemma AliasNoLonger(s: State, now: Instant)
    ensures now + KEY_GRACE <= AliasUntil(s, now)
    ensures AliasUntil(s, now) > now + KEY_GRACE ==>
              exists p :: p in s.sealed && s.sealed[p].stored && s.sealed[p].ref.LegacyActive? && s.sealed[p].expiresAt == AliasUntil(s, now)
  {
    if AliasUntil(s, now) > now + KEY_GRACE { assert Outstanding(s, LegacyActive, now) in StoredExpiries(s, LegacyActive); }
  }

  /** A key that is rotated out is retained for the grace period, or until its alias ends or the last
      stored registration that its id is like expires, if one of these is later. */
  lemma RetainedNoLonger(s: State, id: KeyId, now: Instant)
    ensures now + KEY_GRACE <= RetainUntil(s, id, now)
    ensures RetainUntil(s, id, now) > now + KEY_GRACE ==>
              || (s.alias.Some? && s.alias.value == Alias(id, RetainUntil(s, id, now)))
              || exists p :: p in s.sealed && s.sealed[p].stored && RefLike(ById(id), s.sealed[p].ref) && s.sealed[p].expiresAt == RetainUntil(s, id, now)
  {
    if Outstanding(s, ById(id), now) > now { assert Outstanding(s, ById(id), now) in StoredExpiries(s, ById(id)); }
  }

  lemma OutstandingTimed(s: State, ref: KeyRef, now: Instant)
    requires Timed(s) && now <= s.clock
    ensures Outstanding(s, ref, now) <= s.clock + STATE_LIFETIME
  {
  }

  lemma ReconcileTimed(s: State, now: Instant, freshId: KeyId, freshMaterial: Material)
    requires Timed(s) && now <= s.clock
    ensures var r := Reconcile(s, now, freshId, freshMaterial); r.Some? ==> Timed(r.value) && r.value.clock == s.clock && r.value.active.Current?
  {
    hide Outstanding;
    OutstandingTimed(s, LegacyActive, now);
  }

  lemma RotatedTimed(s: State, now: Instant, nextId: KeyId, nextMaterial: Material)
    requires Timed(s) && now <= s.clock && s.active.Current?
    ensures Timed(Rotated(s, now, nextId, nextMaterial))
  {
    hide Outstanding;
    OutstandingTimed(s, ById(s.active.id), now);
  }

  lemma StepTimed(s: State, step: Step)
    requires Timed(s) && Enabled(s, step)
    ensures Timed(Next(s, step))
  {
    hide Reconcile, Rotated, Retirable;
    match step
    case Seal(_, freshId, freshMaterial) => ReconcileTimed(s, s.clock, freshId, freshMaterial);
    case Migrate(now, freshId, freshMaterial) => ReconcileTimed(s, now, freshId, freshMaterial);
    case Rotate(now, freshId, freshMaterial, nextId, nextMaterial) =>
      ReconcileTimed(s, now, freshId, freshMaterial);
      var r := Reconcile(s, now, freshId, freshMaterial);
      if r.Some? { RotatedTimed(r.value, now, nextId, nextMaterial); }
    case Retire(now, freshId, freshMaterial) => ReconcileTimed(s, now, freshId, freshMaterial);
    case _ =>
  }

  /** In every run, whatever its readings cover, a retained key and the alias end within the grace
      period from now. */
  lemma {:induction false} KeptNoLongerThanGrace(s: State, steps: seq<Step>)
    requires Timed(s) && Runs(s, steps)
    ensures Timed(Final(s, steps))
    decreases |steps|
  {
    hide Next, Enabled, Timed;
    if steps != [] {
      StepTimed(s, steps[0]);
      KeptNoLongerThanGrace(Next(s, steps[0]), steps[1..]);
    }
  }

  lemma InitialTimed(s: State)
    requires Initial(s)
    ensures Timed(s)
  {
  }

  /** Retirement keeps a retained key, and what it unseals with, exactly while it is the active one, its
      retention lasts, or a registration stored under it has not expired. */
  lemma RetirementForgets(s: State, step: Step, id: KeyId)
    requires step.Retire? && s.active.Current? && s.active.id in s.materials && Enabled(s, step) && id in s.retention
    ensures var n := Next(s, step);
            (id in n.retention <==>
               || s.active == Current(id) || s.retention[id] > step.now
               || exists p :: p in s.sealed && s.sealed[p].stored && RefLike(ById(id), s.sealed[p].ref) && s.sealed[p].expiresAt > step.now)
            && (id in n.materials <==> id in n.retention && id in s.materials)
            && (id in n.retention ==> n.retention[id] == s.retention[id])
    ensures Next(s, step).alias.Some? ==> Next(s, step).alias == s.alias && s.alias.value.expiresAt > step.now
  {
    if Outstanding(s, ById(id), step.now) > step.now {
      assert Outstanding(s, ById(id), step.now) in StoredExpiries(s, ById(id));
    }
    if p :| p in s.sealed && s.sealed[p].stored && RefLike(ById(id), s.sealed[p].ref) && s.sealed[p].expiresAt > step.now {
      assert s.sealed[p].expiresAt in StoredExpiries(s, ById(id));
    }
  }

  /** No other key goes. */
  lemma RetirementSparesOthers(s: State, step: Step, id: KeyId)
    requires step.Retire? && Enabled(s, step) && id !in s.retention && id in s.materials
    ensures id in Next(s, step).materials
  {
  }

  /** A rotation aborts exactly when the stored key is malformed or has lost its material. Otherwise the
      new key is active, and the one before it is retained for the grace period at least; every material
      and every other retention stay. */
  lemma RotationTakesOver(s: State, step: Step)
    requires step.Rotate? && Enabled(s, step)
    ensures var n := Next(s, step);
            if s.active.Malformed? || (s.active.Current? && s.active.id !in s.materials) then n == s
            else
              var previous := if s.active.Current? then s.active.id else step.freshId;
              && n.active == Current(step.nextId) && step.nextId in n.materials && n.materials[step.nextId] == step.nextMaterial
              && previous in n.materials && (s.active.Legacy? ==> n.materials[previous] == s.active.material)
              && (forall id :: id in s.materials ==> id in n.materials && n.materials[id] == s.materials[id])
              && n.retention.Keys == s.retention.Keys + {previous} && n.retention[previous] >= step.now + KEY_GRACE
              && forall id :: id in s.retention && id != previous ==> n.retention[id] == s.retention[id]
  {
    hide AliasUntil, RetainUntil;
    var ready := Reconcile(s, step.now, step.freshId, step.freshMaterial);
    if ready.Some? { RetainedNoLonger(ready.value, ready.value.active.id, step.now); }
  }

  // ---------- the limit of a reading taken before the transaction ----------

  /** A step is safe in every continuation exactly when the reading it uses covers.  When that of a
      rotation does not, waiting for the retention to run out and then retiring loses a key in use;
      when that of a migration does not, in whichever transaction it happens, waiting for the alias
      to run out does.  What covering means depends on sealed states that no caller can see; the
      sufficient condition that a caller can check is that of ReadingAtCommitCovers. */
  lemma SafeExactlyWhenCovered(s: State, step: Step)
    requires Inv(s) && Enabled(s, step)
    ensures ReadingCovers(s, step) <==>
            forall steps :: Runs(Next(s, step), steps) && ReadingsCover(Next(s, step), steps) ==> AllFound(Final(Next(s, step), steps))
  {
    var s1 := Next(s, step);
    hide Next, Inv, Enabled, AllFound;
    if ReadingCovers(s, step) {
      NextKeeps(s, step);
      forall steps | Runs(s1, steps) && ReadingsCover(s1, steps) ensures AllFound(Final(s1, steps)) {
        RunKeeps(s1, steps);
        InvFinds(Final(s1, steps));
      }
    } else if s.active.Current? {
      var p :| p in s.sealed && !s.sealed[p].stored && s.sealed[p].expiresAt > s.clock
               && s.sealed[p].ref == ById(s.active.id) && s.sealed[p].expiresAt > RetainUntil(s, s.active.id, step.now);
      var steps := LosingRun(s, step, p);
      assert !AllFound(Final(s1, steps));
    } else {
      var p :| p in s.sealed && !s.sealed[p].stored && s.sealed[p].expiresAt > s.clock
               && s.sealed[p].ref.LegacyActive? && s.sealed[p].expiresAt > AliasUntil(s, step.now);
      var steps := LosingMigration(s, step, p);
      assert !AllFound(Final(s1, steps));
    }
  }

  /** Any transaction that migrates the legacy key leaves an alias with this expiry. */
  lemma Migrated(s: State, step: Step)
    requires Inv(s) && s.active.Legacy? && Enabled(s, step) && (step.Migrate? || step.Rotate? || step.Retire?)
    ensures var n := Next(s, step);
            && n.active.Current? && n.clock == s.clock && n.sealed == s.sealed
            && n.alias.Some? && n.alias.value.expiresAt == AliasUntil(s, step.now)
  {
    hide Inv, Outstanding;
  }

  lemma LosingMigration(s: State, step: Step, p: StateId) returns (steps: seq<Step>)
    requires Inv(s) && s.active.Legacy? && Enabled(s, step) && (step.Migrate? || step.Rotate? || step.Retire?)
    requires p in s.sealed && s.sealed[p].ref.LegacyActive?
    requires s.sealed[p].expiresAt > s.clock && s.sealed[p].expiresAt > AliasUntil(s, step.now)
    ensures Runs(Next(s, step), steps) && ReadingsCover(Next(s, step), steps)
    ensures !AllFound(Final(Next(s, step), steps))
  {
    hide Inv, Outstanding;
    Migrated(s, step);
    var s1 := Next(s, step);
    hide Reconcile, Rotated, Retired;
    var tick := Tick(Max(s.clock, AliasUntil(s, step.now)));
    steps := [tick];
    var s2 := Next(s1, tick);
    assert KeyForUnseal(s2, s2.sealed[p].ref).None?;
    assert steps[1..] == [];
    assert Final(s1, steps) == Final(s2, []) == s2;
  }

  lemma LosingRun(s: State, step: Step, p: StateId) returns (steps: seq<Step>)
    requires Inv(s) && s.active.Current? && step.Rotate? && Enabled(s, step)
    requires p in s.sealed && !s.sealed[p].stored && s.sealed[p].ref == ById(s.active.id)
    requires s.sealed[p].expiresAt > s.clock && s.sealed[p].expiresAt > RetainUntil(s, s.active.id, step.now)
    ensures Runs(Next(s, step), steps) && ReadingsCover(Next(s, step), steps)
    ensures !AllFound(Final(Next(s, step), steps))
  {
    hide Inv, Next, Enabled, RetainUntil, Retirable;
    var s1 := Next(s, step);
    var at := Max(s.clock, RetainUntil(s, s.active.id, step.now));
    var retire := Retire(at, step.freshId, step.freshMaterial);
    steps := [Tick(at), retire];
    RotatedState(s, step, at);
    var s2 := Next(s1, Tick(at));
    KeyRetired(s2, s.active.id, at, retire);
    var s3 := Next(s2, retire);
    assert KeyForUnseal(s3, s3.sealed[p].ref).None?;
    assert steps[1..] == [retire] && [retire][1..] == [];
    assert Runs(s2, [retire]) && ReadingsCover(s2, [retire]);
    assert Final(s1, steps) == Final(s2, [retire]) == Final(s3, []) == s3;
  }

  /** A rotation and some time later: the old key is up for retirement. */
  lemma RotatedState(s: State, step: Step, at: Instant)
    requires Inv(s) && s.active.Current? && step.Rotate? && Enabled(s, step) && at == Max(s.clock, RetainUntil(s, s.active.id, step.now))
    ensures var s1 := Next(s, step); var s2 := Next(s1, Tick(at));
            && Enabled(s1, Tick(at)) && s2.clock == at && s2.sealed == s.sealed
            && s2.active == Current(step.nextId) && step.nextId != s.active.id && step.nextId in s2.materials
            && Fresh(s2, step.freshId) && Retirable(s2, s.active.id, at)
  {
    hide Outstanding;
    var s2 := Next(Next(s, step), Tick(at));
    OutstandingAfter(s, s2, step.now, at);
  }

  lemma KeyRetired(s: State, id: KeyId, at: Instant, retire: Step)
    requires retire.Retire? && retire.now == at == s.clock && Fresh(s, retire.freshId) && Retirable(s, id, at)
    requires s.active.Current? && s.active.id in s.materials && s.active.id != id
    ensures Enabled(s, retire) && ReadingCovers(s, retire)
    ensures id !in Next(s, retire).materials && Next(s, retire).clock == s.clock && Next(s, retire).sealed == s.sealed && Next(s, retire).active.Current?
  {
    hide Outstanding;
  }

  /** The stored rows of a rotated key expire no later than its retention, however long one waits. */
  lemma OutstandingAfter(s: State, later: State, now: Instant, at: Instant)
    requires s.active.Current? && later.sealed == s.sealed && RetainUntil(s, s.active.id, now) <= at
    ensures Outstanding(later, ById(s.active.id), at) <= at
  {
  }

  /** The failure is real: a registration begun two milliseconds after the reading of a rotation
      that commits after it loses its key before it expires. */
  lemma StaleReadingLosesAKey() returns (s: State, steps: seq<Step>)
    ensures Initial(s) && Runs(s, steps) && !AllFound(Final(s, steps))
  {
    s := State(0, NoKey, map[], None, map[], map[], map[]);
    var s1 := s.(clock := 2);
    var s2 := s1.(begun := map[0 := 600_002]);
    var s3 := State(2, Current("a"), map["a" := "m"], None, map[], map[], map[0 := Sealed(ById("a"), "m", 600_002, false)]);
    var rotate, seal := Rotate(0, "c", "", "b", "n"), Seal(0, "a", "m");
    assert Enabled(s, Tick(2)) && Next(s, Tick(2)) == s1;
    assert Enabled(s1, Begin(0)) && Next(s1, Begin(0)) == s2;
    assert Enabled(s2, seal) && Next(s2, seal) == s3;
    var losing := LosingRotation(s3, rotate);
    hide Next, Enabled, AllFound, Initial;
    Cons(s3, rotate, losing);
    Cons(s2, seal, [rotate] + losing);
    Cons(s1, Begin(0), [seal] + ([rotate] + losing));
    steps := [Tick(2)] + ([Begin(0)] + ([seal] + ([rotate] + losing)));
    Cons(s, Tick(2), [Begin(0)] + ([seal] + ([rotate] + losing)));
  }

  lemma LosingRotation(s: State, rotate: Step) returns (steps: seq<Step>)
    requires s == State(2, Current("a"), map["a" := "m"], None, map[], map[], map[0 := Sealed(ById("a"), "m", 600_002, false)])
    requires rotate == Rotate(0, "c", "", "b", "n")
    ensures Enabled(s, rotate) && Runs(Next(s, rotate), steps) && !AllFound(Final(Next(s, rotate), steps))
  {
    NothingStored(s, ById("a"), 0);
    hide Outstanding;
    steps := LosingRun(s, rotate, 0);
  }

  lemma NothingStored(s: State, ref: KeyRef, now: Instant)
    requires forall p :: p in s.sealed ==> !s.sealed[p].stored
    ensures Outstanding(s, ref, now) == now
  {
    assert StoredExpiries(s, ref) == {};
  }

  lemma Cons(s: State, step: Step, rest: seq<Step>)
    requires Enabled(s, step) && Runs(Next(s, step), rest)
    ensures Runs(s, [step] + rest)
    ensures Final(s, [step] + rest) == Final(Next(s, step), rest)
  {
    assert ([step] + rest)[1..] == rest;
  }
}
