/** The email credential fence (src/auth-runtime.ts, src/access-keys-runtime.ts): email sign-in,
    password reset and own password change each verify first and commit in a later transaction,
    and their parts interleave arbitrarily with one another and with registration, trusted
    password writes, unlinking, termination and every other way a Session is made.
    Every transaction is one atomic step.  Adapter methods act on the tables as
    src/database-runtime.ts defines them.  A password hash with its salt is modelled as a version;
    a newly salted hash is a version never written before. */
module CredentialFence {

  type UserId = nat
  type Email = string
  type Token = nat
  type Selector = nat
  type Verifier = nat
  type Version = nat
  type KeyId = nat
  type Attempt = nat
  type Instant = nat

  const MAX_OUTSTANDING: nat := 5

  datatype Option<T> = None | Some(value: T)

  datatype Lifecycle = Live | Disabled | Terminated

  /** linked: authenticated and not a guest. */
  datatype User = User(human: bool, lifecycle: Lifecycle, linked: bool)

  datatype Credential = Credential(userId: UserId, version: Version)

  /** How a Session came about; an email sign-in remembers what it verified and when. */
  datatype Origin = EmailSignIn(email: Email, version: Version, verifiedAt: nat) | Elsewhere

  /** at is the position of the Session's commit in the log. */
  datatype Session = Session(userId: UserId, expiresAt: Instant, origin: Origin, at: nat)

  datatype AccessKey = AccessKey(owner: UserId, at: nat)

  datatype ResetCode = ResetCode(email: Email, userId: UserId, verifier: Verifier, expiresAt: Instant)

  /** What a request has established before its transaction starts. */
  datatype Pending =
    | SigningIn(email: Email, userId: UserId, version: Version, verifiedAt: nat, token: Token)
    | Resetting(selector: Selector, verifier: Verifier, userId: UserId)
    | Changing(token: Token, userId: UserId, email: Email, version: Version)

  /** A reset remembers the verifier that was presented, and when. */
  datatype Cause = ByReset(selector: Selector, presented: Verifier, presentedAt: Instant) | ByOwner | ByServer | ByRegistration

  /** The committed history. */
  datatype Event =
    | Written(email: Email, userId: UserId, version: Version, cause: Cause)
    | Removed(email: Email)
    | Issued(selector: Selector, code: ResetCode)
    | Minted(userId: UserId)

  datatype State = State(
    clock: Instant,
    users: map<UserId, User>,
    credentials: map<Email, Credential>,
    sessions: map<Token, Session>,
    keys: map<KeyId, AccessKey>,
    codes: map<Selector, ResetCode>,
    pending: map<Attempt, Pending>,
    requested: set<Selector>,
    log: seq<Event>
  )

  // ---------- adapter methods ----------

  function FindCredentialWithUser(s: State, email: Email): Option<Credential> {
    if email in s.credentials && s.credentials[email].userId in s.users
       && s.users[s.credentials[email].userId].lifecycle != Terminated
    then Some(s.credentials[email])
    else None
  }

  predicate HumanLive(s: State, userId: UserId) {
    userId in s.users && s.users[userId].human && s.users[userId].lifecycle == Live
  }

  function WithoutSessionsOf(s: State, userId: UserId): map<Token, Session> {
    map t | t in s.sessions && s.sessions[t].userId != userId :: s.sessions[t]
  }

  function WithoutCodesOf(s: State, userId: UserId): map<Selector, ResetCode> {
    map c | c in s.codes && s.codes[c].userId != userId :: s.codes[c]
  }

  function WithoutKeysOf(s: State, userId: UserId): map<KeyId, AccessKey> {
    map k | k in s.keys && s.keys[k].owner != userId :: s.keys[k]
  }

  /** readPasswordResetCode: unknown, mismatched, expired and orphaned codes look alike. */
  function ReadResetCode(s: State, selector: Selector, verifier: Verifier): Option<ResetCode> {
    if selector !in s.codes || s.codes[selector].verifier != verifier || s.clock >= s.codes[selector].expiresAt then None
    else
      var row := s.codes[selector];
      var credential := FindCredentialWithUser(s, row.email);
      if HumanLive(s, row.userId) && credential.Some? && credential.value.userId == row.userId then Some(row) else None
  }

  predicate ClaimVersion(s: State, email: Email, version: Version) {
    email in s.credentials && s.credentials[email].version == version
  }

  /** rotateAuthSession: an UPDATE of the caller's Session row, which may be gone by now. */
  function RotateSession(s: State, previous: Token, token: Token, session: Session): State {
    if previous !in s.sessions then s
    else s.(sessions := (s.sessions - {previous})[token := session], log := s.log + [Minted(session.userId)])
  }

  /** An UPDATE of the password columns. */
  function WritePassword(s: State, email: Email, version: Version, cause: Cause): State
    requires email in s.credentials
  {
    var credential := Credential(s.credentials[email].userId, version);
    s.(credentials := s.credentials[email := credential],
       log := s.log + [Written(email, credential.userId, version, cause)])
  }

  /** What a reset and an own change do once authorized: write, and retire all other authority. */
  function ReplaceAuthority(s: State, email: Email, userId: UserId, version: Version, cause: Cause): State
    requires email in s.credentials
  {
    WritePassword(s, email, version, cause).(
      codes := WithoutCodesOf(s, userId), sessions := WithoutSessionsOf(s, userId), keys := WithoutKeysOf(s, userId))
  }

  function RemoveCredential(s: State, email: Email): State {
    s.(credentials := s.credentials - {email}, log := s.log + [Removed(email)])
  }

  // ---------- steps ----------

  datatype Step =
    | Tick(to: Instant)
    | VerifySignIn(attempt: Attempt, email: Email, token: Token)
    | CommitSignIn(attempt: Attempt, token: Token, expiresAt: Instant)
    | BeginReset(attempt: Attempt, selector: Selector, verifier: Verifier)
    | CommitReset(attempt: Attempt, version: Version)
    | BeginChange(attempt: Attempt, token: Token, userId: UserId, email: Email)
    | CommitChange(attempt: Attempt, version: Version)
    | IssueCode(email: Email, selector: Selector, verifier: Verifier, fromRequest: bool, lifetime: Instant)
    | ServerWrite(email: Email, version: Version)
    | Register(previous: Token, userId: UserId, email: Email, version: Version, token: Token, expiresAt: Instant)
    | MintElsewhere(token: Token, userId: UserId, expiresAt: Instant)
    | SignOut(token: Token)
    | AddUser(userId: UserId, user: User)
    | AddKey(key: KeyId, userId: UserId)
    | Unlink(userId: UserId, email: Email)
    | Terminate(userId: UserId, email: Email)

  ghost predicate NeverWritten(s: State, version: Version) {
    forall i :: 0 <= i < |s.log| && s.log[i].Written? ==> s.log[i].version != version
  }

  ghost predicate NeverIssued(s: State, selector: Selector) {
    && selector !in s.codes && selector !in s.requested
    && (forall i :: 0 <= i < |s.log| && s.log[i].Issued? ==> s.log[i].selector != selector)
  }

  /** What randomness and time guarantee: drawn tokens, selectors and salts are new. */
  ghost predicate Enabled(s: State, step: Step) {
    match step
    case Tick(to) => s.clock <= to
    case CommitSignIn(attempt, token, _) => attempt in s.pending && s.pending[attempt].SigningIn? && token !in s.sessions
    case CommitReset(attempt, version) => attempt in s.pending && s.pending[attempt].Resetting? && NeverWritten(s, version)
    case CommitChange(attempt, version) => attempt in s.pending && s.pending[attempt].Changing? && NeverWritten(s, version)
    // The first delivery attempt of a request names a selector drawn for it; retries repeat it.
    case IssueCode(_, selector, _, fromRequest, _) => NeverIssued(s, selector) || (fromRequest && selector in s.requested)
    case ServerWrite(_, version) => NeverWritten(s, version)
    case Register(_, _, _, version, token, _) => NeverWritten(s, version) && token !in s.sessions
    case MintElsewhere(token, _, _) => token !in s.sessions
    case AddUser(userId, _) => userId !in s.users
    case AddKey(key, _) => key !in s.keys
    case _ => true
  }

  /** signInWithEmail, up to its transaction. */
  function VerifiedSignIn(s: State, attempt: Attempt, email: Email, token: Token): State {
    var row := FindCredentialWithUser(s, email);
    if row.None? then s
    else s.(pending := s.pending[attempt := SigningIn(email, row.value.userId, row.value.version, |s.log|, token)])
  }

  /** signInWithEmail, its transaction. */
  function CommittedSignIn(s: State, a: Pending, token: Token, expiresAt: Instant): State
    requires a.SigningIn?
  {
    var current := FindCredentialWithUser(s, a.email);
    if current.None? || current.value.userId != a.userId || !ClaimVersion(s, a.email, a.version) then s
    else RotateSession(s, a.token, token, Session(a.userId, expiresAt, EmailSignIn(a.email, a.version, a.verifiedAt), |s.log|))
  }

  /** confirmPasswordReset, its transaction. */
  function CommittedReset(s: State, a: Pending, version: Version): State
    requires a.Resetting?
  {
    if !HumanLive(s, a.userId) then s
    else
      var row := ReadResetCode(s, a.selector, a.verifier);
      if row.None? then s
      else
        var spent := s.(codes := s.codes - {a.selector});
        var credential := FindCredentialWithUser(spent, row.value.email);
        if credential.None? || credential.value.userId != row.value.userId then spent
        else ReplaceAuthority(spent, row.value.email, row.value.userId, version, ByReset(a.selector, a.verifier, s.clock))
  }

  /** setOwnEmailPassword, its owner-security transaction; any refusal rolls everything back. */
  function CommittedChange(s: State, a: Pending, version: Version): State
    requires a.Changing?
  {
    var sessionLive :=
      a.token in s.sessions && s.sessions[a.token].userId == a.userId && s.sessions[a.token].expiresAt > s.clock
      && a.userId in s.users && s.users[a.userId].linked && s.users[a.userId].lifecycle != Terminated;
    var live := FindCredentialWithUser(s, a.email);
    if sessionLive && HumanLive(s, a.userId) && live.Some? && live.value.userId == a.userId && ClaimVersion(s, a.email, a.version)
    then ReplaceAuthority(s, a.email, a.userId, version, ByOwner)
    else s
  }

  /** prunePasswordResetCodes. */
  function UnexpiredCodes(s: State): map<Selector, ResetCode> {
    map c | c in s.codes && s.codes[c].expiresAt > s.clock :: s.codes[c]
  }

  ghost function OutstandingFor(codes: map<Selector, ResetCode>, email: Email): set<Selector> {
    set c | c in codes && codes[c].email == email
  }

  /** Expired codes go; a new one is inserted unless too many are outstanding. */
  ghost function InsertedCode(s: State, email: Email, userId: UserId, selector: Selector, verifier: Verifier, lifetime: Instant): State {
    var pruned := UnexpiredCodes(s);
    if |OutstandingFor(pruned, email)| >= MAX_OUTSTANDING then s.(codes := pruned)
    else s.(codes := pruned[selector := ResetCode(email, userId, verifier, s.clock + lifetime)],
            log := s.log + [Issued(selector, ResetCode(email, userId, verifier, s.clock + lifetime))])
  }

  /** issuePasswordResetCode with issuePasswordResetCodeOnAdapter. */
  ghost function IssuedCode(s: State, email: Email, selector: Selector, verifier: Verifier, fromRequest: bool, lifetime: Instant): State {
    var current := FindCredentialWithUser(s, email);
    if current.None? || !HumanLive(s, current.value.userId) then s
    else if fromRequest && selector in s.codes && s.codes[selector].expiresAt > s.clock then s
    else if fromRequest && selector in s.requested then s
    else
      InsertedCode(s.(requested := if fromRequest then s.requested + {selector} else s.requested),
                   email, current.value.userId, selector, verifier, lifetime)
  }

  /** signUpWithEmail, its transaction: a guest links its own Session's user. */
  function Registered(s: State, previous: Token, userId: UserId, email: Email, version: Version, token: Token, expiresAt: Instant): State {
    if previous !in s.sessions || s.sessions[previous].userId != userId || s.sessions[previous].expiresAt <= s.clock
       || userId !in s.users || !s.users[userId].human || s.users[userId].lifecycle == Terminated || s.users[userId].linked
       || email in s.credentials
    then s
    else
      var written := s.(users := s.users[userId := s.users[userId].(linked := true)],
                        credentials := s.credentials[email := Credential(userId, version)],
                        log := s.log + [Written(email, userId, version, ByRegistration)]);
      RotateSession(written, previous, token, Session(userId, expiresAt, Elsewhere, |written.log|))
  }

  ghost function Next(s: State, step: Step): State
    requires Enabled(s, step)
  {
    match step
    case Tick(to) => s.(clock := to)
    case VerifySignIn(attempt, email, token) => VerifiedSignIn(s, attempt, email, token)
    case CommitSignIn(attempt, token, expiresAt) =>
      CommittedSignIn(s, s.pending[attempt], token, expiresAt).(pending := s.pending - {attempt})
    case BeginReset(attempt, selector, verifier) =>
      var row := ReadResetCode(s, selector, verifier);
      if row.None? then s else s.(pending := s.pending[attempt := Resetting(selector, verifier, row.value.userId)])
    case CommitReset(attempt, version) =>
      CommittedReset(s, s.pending[attempt], version).(pending := s.pending - {attempt})
    case BeginChange(attempt, token, userId, email) =>
      var row := FindCredentialWithUser(s, email);
      if row.None? || row.value.userId != userId then s
      else s.(pending := s.pending[attempt := Changing(token, userId, email, row.value.version)])
    case CommitChange(attempt, version) =>
      CommittedChange(s, s.pending[attempt], version).(pending := s.pending - {attempt})
    case IssueCode(email, selector, verifier, fromRequest, lifetime) =>
      IssuedCode(s, email, selector, verifier, fromRequest, lifetime)
    case ServerWrite(email, version) =>
      if FindCredentialWithUser(s, email).None? then s else WritePassword(s, email, version, ByServer)
    case Register(previous, userId, email, version, token, expiresAt) =>
      Registered(s, previous, userId, email, version, token, expiresAt)
    case MintElsewhere(token, userId, expiresAt) =>
      s.(sessions := s.sessions[token := Session(userId, expiresAt, Elsewhere, |s.log|)], log := s.log + [Minted(userId)])
    case SignOut(token) => s.(sessions := s.sessions - {token})
    case AddUser(userId, user) => s.(users := s.users[userId := user])
    case AddKey(key, userId) =>
      s.(keys := s.keys[key := AccessKey(userId, |s.log|)], log := s.log + [Minted(userId)])
    case Unlink(userId, email) =>
      if userId !in s.users || email !in s.credentials || s.credentials[email].userId != userId then s
      else RemoveCredential(s, email).(users := s.users[userId := s.users[userId].(linked := false)],
                                       codes := WithoutCodesOf(s, userId), keys := WithoutKeysOf(s, userId))
    case Terminate(userId, email) =>
      if userId !in s.users || email !in s.credentials || s.credentials[email].userId != userId then s
      else RemoveCredential(s, email).(users := s.users[userId := User(s.users[userId].human, Terminated, false)],
                                       codes := WithoutCodesOf(s, userId), sessions := WithoutSessionsOf(s, userId),
                                       keys := WithoutKeysOf(s, userId))
  }

  // ---------- the history read back ----------

  /** The credential an email address had after a history, by its last write or removal. */
  function CredentialAfter(log: seq<Event>, email: Email): Option<Credential> {
    if log == [] then None
    else
      var last := log[|log| - 1];
      if last.Written? && last.email == email then Some(Credential(last.userId, last.version))
      else if last.Removed? && last.email == email then None
      else CredentialAfter(log[..|log| - 1], email)
  }

  predicate Touches(event: Event, email: Email) {
    (event.Written? || event.Removed?) && event.email == email
  }

  /** A committed password reset or own password change of a user. */
  predicate Evicts(event: Event, userId: UserId) {
    event.Written? && event.userId == userId && (event.cause.ByReset? || event.cause.ByOwner?)
  }

  // ---------- the invariant ----------

  function Lookup(credentials: map<Email, Credential>, email: Email): Option<Credential> {
    if email in credentials then Some(credentials[email]) else None
  }

  ghost predicate CredentialsMatch(log: seq<Event>, credentials: map<Email, Credential>) {
    forall e: Email :: CredentialAfter(log, e) == Lookup(credentials, e)
  }

  /** The Session was committed after every eviction of its user. */
  ghost predicate AfterEvictions(log: seq<Event>, userId: UserId, at: nat) {
    at < |log| && forall i :: 0 <= i < |log| && Evicts(log[i], userId) ==> i < at
  }

  /** An email sign-in verified the credential current at its commit, and nothing touched that
      credential in between. */
  ghost predicate SignInSound(log: seq<Event>, x: Session) {
    x.origin.EmailSignIn? ==>
      && x.origin.verifiedAt <= x.at <= |log|
      && CredentialAfter(log[..x.at], x.origin.email) == Some(Credential(x.userId, x.origin.version))
      && (forall i :: x.origin.verifiedAt <= i < x.at ==> !Touches(log[i], x.origin.email))
  }

  ghost predicate AuthoritySound(log: seq<Event>, sessions: map<Token, Session>, keys: map<KeyId, AccessKey>) {
    && (forall t :: t in sessions ==> AfterEvictions(log, sessions[t].userId, sessions[t].at) && SignInSound(log, sessions[t]))
    && (forall k :: k in keys ==> AfterEvictions(log, keys[k].owner, keys[k].at))
  }

  ghost predicate PendingSound(log: seq<Event>, pending: map<Attempt, Pending>) {
    forall a :: a in pending && pending[a].SigningIn? ==>
      && pending[a].verifiedAt <= |log|
      && CredentialAfter(log[..pending[a].verifiedAt], pending[a].email) == Some(Credential(pending[a].userId, pending[a].version))
  }

  ghost predicate IssuedIn(log: seq<Event>, selector: Selector, code: ResetCode) {
    exists j :: 0 <= j < |log| && log[j] == Issued(selector, code)
  }

  /** The code was issued for the identity and the email that were written, with the verifier that was
      presented, and had not expired. */
  predicate Redeems(event: Event, code: ResetCode) {
    && event.Written? && event.cause.ByReset?
    && code.email == event.email && code.userId == event.userId
    && code.verifier == event.cause.presented && event.cause.presentedAt < code.expiresAt
  }

  /** A reset in the history redeems a code that was issued before it. */
  ghost predicate RedeemedAt(log: seq<Event>, i: nat) {
    i < |log| && log[i].Written? && log[i].cause.ByReset?
    && exists j :: 0 <= j < i && log[j].Issued? && log[j].selector == log[i].cause.selector && Redeems(log[i], log[j].code)
  }

  ghost predicate WritesDistinct(log: seq<Event>) {
    && (forall i, j :: 0 <= i < j < |log| && log[i].Written? && log[j].Written? ==> log[i].version != log[j].version)
    && (forall i, j :: 0 <= i < j < |log| && log[i].Written? && log[j].Written? && log[i].cause.ByReset? && log[j].cause.ByReset? ==>
          log[i].cause.selector != log[j].cause.selector)
  }

  ghost predicate CodesSound(log: seq<Event>, codes: map<Selector, ResetCode>) {
    && (forall c :: c in codes ==> IssuedIn(log, c, codes[c]))
    && (forall i :: 0 <= i < |log| && log[i].Written? && log[i].cause.ByReset? ==> log[i].cause.selector !in codes && RedeemedAt(log, i))
  }

  ghost predicate Inv(s: State) {
    && CredentialsMatch(s.log, s.credentials)
    && AuthoritySound(s.log, s.sessions, s.keys)
    && PendingSound(s.log, s.pending)
    && WritesDistinct(s.log)
    && CodesSound(s.log, s.codes)
  }

  // ---------- how the parts of the invariant survive one more event ----------

  ghost predicate SubMap<K, V>(small: map<K, V>, large: map<K, V>) {
    forall k :: k in small ==> k in large && small[k] == large[k]
  }

  lemma Extended(log: seq<Event>, event: Event)
    ensures forall e: Email :: CredentialAfter(log + [event], e) ==
              if !Touches(event, e) then CredentialAfter(log, e)
              else if event.Written? then Some(Credential(event.userId, event.version)) else None
    ensures forall a :: 0 <= a <= |log| ==> (log + [event])[..a] == log[..a]
  {
    assert (log + [event])[..|log|] == log;
  }

  lemma AuthorityExtends(log: seq<Event>, event: Event, sessions: map<Token, Session>, keys: map<KeyId, AccessKey>,
                         sessions': map<Token, Session>, keys': map<KeyId, AccessKey>)
    requires AuthoritySound(log, sessions, keys) && SubMap(sessions', sessions) && SubMap(keys', keys)
    requires forall t :: t in sessions' ==> !Evicts(event, sessions'[t].userId)
    requires forall k :: k in keys' ==> !Evicts(event, keys'[k].owner)
    ensures AuthoritySound(log + [event], sessions', keys')
  {
    Extended(log, event);
    forall t | t in sessions' ensures SignInSound(log + [event], sessions'[t]) {
      assert SignInSound(log, sessions[t]);
    }
  }

  lemma PendingExtends(log: seq<Event>, event: Event, pending: map<Attempt, Pending>, pending': map<Attempt, Pending>)
    requires PendingSound(log, pending) && SubMap(pending', pending)
    ensures PendingSound(log + [event], pending')
  {
    Extended(log, event);
  }

  lemma CodesExtend(log: seq<Event>, event: Event, codes: map<Selector, ResetCode>, codes': map<Selector, ResetCode>)
    requires CodesSound(log, codes) && SubMap(codes', codes)
    requires event.Written? && event.cause.ByReset? ==>
               && event.cause.selector !in codes'
               && exists code :: IssuedIn(log, event.cause.selector, code) && Redeems(event, code)
    ensures CodesSound(log + [event], codes')
  {
    var more := log + [event];
    forall c, code | IssuedIn(log, c, code) ensures IssuedIn(more, c, code) {
      var j :| 0 <= j < |log| && log[j] == Issued(c, code);
      assert more[j] == Issued(c, code);
    }
    forall i: nat | i < |log| && RedeemedAt(log, i) ensures RedeemedAt(more, i) {
      var j :| 0 <= j < i && log[j].Issued? && log[j].selector == log[i].cause.selector && Redeems(log[i], log[j].code);
      assert more[j] == log[j] && more[i] == log[i];
    }
    if event.Written? && event.cause.ByReset? {
      var code :| IssuedIn(log, event.cause.selector, code) && Redeems(event, code);
      var j :| 0 <= j < |log| && log[j] == Issued(event.cause.selector, code);
      assert more[j] == log[j] && more[|log|] == event;
      assert RedeemedAt(more, |log|);
    }
  }

  /** Nothing but the log and shrinking tables: the common case of a step that records one event. */
  lemma StepExtends(s: State, event: Event, n: State)
    requires Inv(s) && n.log == s.log + [event]
    requires SubMap(n.sessions, s.sessions) && SubMap(n.keys, s.keys) && SubMap(n.pending, s.pending) && SubMap(n.codes, s.codes)
    requires forall e: Email :: Lookup(n.credentials, e) ==
               if !Touches(event, e) then Lookup(s.credentials, e)
               else if event.Written? then Some(Credential(event.userId, event.version)) else None
    requires event.Written? ==> NeverWritten(s, event.version)
    requires event.Written? && event.cause.ByReset? ==>
               event.cause.selector in s.codes && event.cause.selector !in n.codes && Redeems(event, s.codes[event.cause.selector])
    requires forall t :: t in n.sessions ==> !Evicts(event, n.sessions[t].userId)
    requires forall k :: k in n.keys ==> !Evicts(event, n.keys[k].owner)
    ensures Inv(n)
  {
    Extended(s.log, event);
    AuthorityExtends(s.log, event, s.sessions, s.keys, n.sessions, n.keys);
    PendingExtends(s.log, event, s.pending, n.pending);
    CodesExtend(s.log, event, s.codes, n.codes);
  }

  /** When the credential after two points of the history is the same, nothing touched it between. */
  lemma {:induction false} SameCredentialUntouched(log: seq<Event>, email: Email, a: nat, b: nat)
    requires WritesDistinct(log) && a <= b <= |log|
    requires CredentialAfter(log[..a], email).Some?
    requires CredentialAfter(log[..a], email) == CredentialAfter(log[..b], email)
    ensures forall i :: a <= i < b ==> !Touches(log[i], email)
  {
    var j := LastTouch(log, email, b);
    var k := LastTouch(log, email, a);
  }

  /** The write that a read-back credential comes from. */
  lemma {:induction false} LastTouch(log: seq<Event>, email: Email, b: nat) returns (j: nat)
    requires b <= |log| && CredentialAfter(log[..b], email).Some?
    ensures j < b && log[j].Written? && log[j].email == email
    ensures CredentialAfter(log[..b], email) == Some(Credential(log[j].userId, log[j].version))
    ensures forall i :: j < i < b ==> !Touches(log[i], email)
    decreases b
  {
    assert b > 0 && log[..b][..b - 1] == log[..b - 1];
    if Touches(log[b - 1], email) {
      j := b - 1;
    } else {
      j := LastTouch(log, email, b - 1);
    }
  }

  // ---------- every step keeps the invariant ----------

  lemma ReplaceAuthorityKeeps(s: State, email: Email, version: Version, cause: Cause, codes: map<Selector, ResetCode>)
    requires Inv(s) && email in s.credentials && NeverWritten(s, version) && SubMap(codes, s.codes)
    requires cause.ByReset? ==>
               && cause.selector in s.codes && cause.selector !in codes
               && Redeems(Written(email, s.credentials[email].userId, version, cause), s.codes[cause.selector])
    ensures Inv(ReplaceAuthority(s.(codes := codes), email, s.credentials[email].userId, version, cause))
  {
    var n := ReplaceAuthority(s.(codes := codes), email, s.credentials[email].userId, version, cause);
    StepExtends(s, Written(email, s.credentials[email].userId, version, cause), n);
  }

  lemma MintKeeps(s: State, sessions: map<Token, Session>, token: Token, session: Session)
    requires Inv(s) && SubMap(sessions, s.sessions) && session.at == |s.log|
    requires session.origin.EmailSignIn? ==>
               && session.origin.verifiedAt <= |s.log|
               && CredentialAfter(s.log, session.origin.email) == Some(Credential(session.userId, session.origin.version))
               && (forall i :: session.origin.verifiedAt <= i < |s.log| ==> !Touches(s.log[i], session.origin.email))
    ensures Inv(s.(sessions := sessions[token := session], log := s.log + [Minted(session.userId)]))
  {
    var event := Minted(session.userId);
    StepExtends(s, event, s.(sessions := sessions, log := s.log + [event]));
    Extended(s.log, event);
    assert (s.log + [event])[..|s.log|] == s.log;
  }

  lemma SignInKeeps(s: State, step: Step)
    requires Inv(s) && step.CommitSignIn? && Enabled(s, step)
    ensures Inv(Next(s, step))
  {
    var a := s.pending[step.attempt];
    var n := CommittedSignIn(s, a, step.token, step.expiresAt);
    if n != s {
      assert s.log[..|s.log|] == s.log;
      SameCredentialUntouched(s.log, a.email, a.verifiedAt, |s.log|);
      MintKeeps(s, s.sessions - {a.token}, step.token, n.sessions[step.token]);
    }
    assert SubMap(s.pending - {step.attempt}, s.pending);
  }

  lemma ResetKeeps(s: State, step: Step)
    requires Inv(s) && step.CommitReset? && Enabled(s, step)
    ensures Inv(Next(s, step))
  {
    var a := s.pending[step.attempt];
    var row := ReadResetCode(s, a.selector, a.verifier);
    if HumanLive(s, a.userId) && row.Some? {
      ReplaceAuthorityKeeps(s, row.value.email, step.version, ByReset(a.selector, a.verifier, s.clock), s.codes - {a.selector});
    }
  }

  lemma ChangeKeeps(s: State, step: Step)
    requires Inv(s) && step.CommitChange? && Enabled(s, step)
    ensures Inv(Next(s, step))
  {
    var a := s.pending[step.attempt];
    if CommittedChange(s, a, step.version) != s {
      ReplaceAuthorityKeeps(s, a.email, step.version, ByOwner, s.codes);
    }
  }

  lemma CodesPruned(s: State, codes: map<Selector, ResetCode>, requested: set<Selector>)
    requires Inv(s) && SubMap(codes, s.codes)
    ensures Inv(s.(codes := codes, requested := requested))
  {
  }

  lemma CodeAdded(s: State, selector: Selector, code: ResetCode)
    requires Inv(s) && forall i :: 0 <= i < |s.log| && s.log[i].Issued? ==> s.log[i].selector != selector
    ensures Inv(s.(codes := s.codes[selector := code], log := s.log + [Issued(selector, code)]))
  {
    var event := Issued(selector, code);
    StepExtends(s, event, s.(log := s.log + [event]));
    assert (s.log + [event])[|s.log|] == event;
    forall i | 0 <= i < |s.log| && s.log[i].Written? && s.log[i].cause.ByReset? ensures s.log[i].cause.selector != selector {
      assert RedeemedAt(s.log, i);
    }
  }

  lemma InsertedKeeps(s: State, email: Email, userId: UserId, selector: Selector, verifier: Verifier, lifetime: Instant)
    requires Inv(s) && forall i :: 0 <= i < |s.log| && s.log[i].Issued? ==> s.log[i].selector != selector
    ensures Inv(InsertedCode(s, email, userId, selector, verifier, lifetime))
  {
    hide Inv;
    var pruned := UnexpiredCodes(s);
    CodesPruned(s, pruned, s.requested);
    var begun := s.(codes := pruned);
    assert begun == s.(codes := pruned, requested := s.requested);
    CodeAdded(begun, selector, ResetCode(email, userId, verifier, s.clock + lifetime));
  }

  lemma IssueKeeps(s: State, email: Email, selector: Selector, verifier: Verifier, fromRequest: bool, lifetime: Instant)
    requires Inv(s) && (NeverIssued(s, selector) || (fromRequest && selector in s.requested))
    ensures Inv(IssuedCode(s, email, selector, verifier, fromRequest, lifetime))
  {
    hide Inv, InsertedCode;
    var current := FindCredentialWithUser(s, email);
    if current.None? || !HumanLive(s, current.value.userId) {
    } else if fromRequest && selector in s.requested {
    } else {
      var requested := if fromRequest then s.requested + {selector} else s.requested;
      CodesPruned(s, s.codes, requested);
      var begun := s.(requested := requested);
      assert begun == s.(codes := s.codes, requested := requested);
      InsertedKeeps(begun, email, current.value.userId, selector, verifier, lifetime);
    }
  }

  lemma RegisterKeeps(s: State, step: Step)
    requires Inv(s) && step.Register? && Enabled(s, step)
    ensures Inv(Next(s, step))
  {
    if Next(s, step) != s {
      var written := s.(users := s.users[step.userId := s.users[step.userId].(linked := true)],
                        credentials := s.credentials[step.email := Credential(step.userId, step.version)],
                        log := s.log + [Written(step.email, step.userId, step.version, ByRegistration)]);
      StepExtends(s, Written(step.email, step.userId, step.version, ByRegistration), written);
      MintKeeps(written, written.sessions - {step.previous}, step.token, Session(step.userId, step.expiresAt, Elsewhere, |written.log|));
    }
  }

  lemma RemovalKeeps(s: State, step: Step)
    requires Inv(s) && (step.Unlink? || step.Terminate?) && Enabled(s, step)
    ensures Inv(Next(s, step))
  {
    if Next(s, step) != s {
      StepExtends(s, Removed(step.email), Next(s, step));
    }
  }

  lemma AddKeyKeeps(s: State, step: Step)
    requires Inv(s) && step.AddKey? && Enabled(s, step)
    ensures Inv(Next(s, step))
  {
    StepExtends(s, Minted(step.userId), s.(log := s.log + [Minted(step.userId)]));
  }

  lemma NextKeeps(s: State, step: Step)
    requires Inv(s) && Enabled(s, step)
    ensures Inv(Next(s, step))
  {
    match step
    case VerifySignIn(_, _, _) => assert s.log[..|s.log|] == s.log;
    case CommitSignIn(_, _, _) => SignInKeeps(s, step);
    case CommitReset(_, _) => ResetKeeps(s, step);
    case CommitChange(_, _) => ChangeKeeps(s, step);
    case IssueCode(email, selector, verifier, fromRequest, lifetime) => IssueKeeps(s, email, selector, verifier, fromRequest, lifetime);
    case ServerWrite(email, version) =>
      if email in s.credentials && Next(s, step) != s {
        StepExtends(s, Written(email, s.credentials[email].userId, version, ByServer), Next(s, step));
      }
    case Register(_, _, _, _, _, _) => RegisterKeeps(s, step);
    case MintElsewhere(token, userId, expiresAt) =>
      MintKeeps(s, s.sessions, token, Session(userId, expiresAt, Elsewhere, |s.log|));
    case AddKey(_, _) => AddKeyKeeps(s, step);
    case Unlink(_, _) => RemovalKeeps(s, step);
    case Terminate(_, _) => RemovalKeeps(s, step);
    case _ =>
  }

  // ---------- runs ----------

  ghost predicate Initial(s: State) {
    s.credentials == map[] && s.sessions == map[] && s.keys == map[] && s.codes == map[] && s.pending == map[] && s.log == []
  }

  ghost predicate Runs(s: State, steps: seq<Step>)
    decreases |steps|
  {
    steps == [] || (Enabled(s, steps[0]) && Runs(Next(s, steps[0]), steps[1..]))
  }

  ghost function Final(s: State, steps: seq<Step>): State
    requires Runs(s, steps)
    decreases |steps|
  {
    if steps == [] then s else Final(Next(s, steps[0]), steps[1..])
  }

  lemma {:induction false} RunKeeps(s: State, steps: seq<Step>)
    requires Inv(s) && Runs(s, steps)
    ensures Inv(Final(s, steps))
    decreases |steps|
  {
    if steps != [] {
      NextKeeps(s, steps[0]);
      RunKeeps(Next(s, steps[0]), steps[1..]);
    }
  }

  ghost predicate Reached(s: State) {
    exists init, steps :: Initial(init) && Runs(init, steps) && Final(init, steps) == s
  }

  lemma ReachedInv(s: State)
    requires Reached(s)
    ensures Inv(s)
  {
    var init, steps :| Initial(init) && Runs(init, steps) && Final(init, steps) == s;
    RunKeeps(init, steps);
  }

  /** After a committed reset or own change of a user, every live Session and access key of that
      user was committed later. */
  lemma EvictionsAreFinal(s: State, i: nat, userId: UserId)
    requires Reached(s) && i < |s.log| && Evicts(s.log[i], userId)
    ensures forall t :: t in s.sessions && s.sessions[t].userId == userId ==> i < s.sessions[t].at
    ensures forall k :: k in s.keys && s.keys[k].owner == userId ==> i < s.keys[k].at
  {
    ReachedInv(s);
  }

  /** The password an email sign-in verified was the one in force, for that user, from its
      verification until its commit: no write or removal in between can be followed by a Session. */
  lemma SignInsVerifyTheCurrentPassword(s: State, token: Token)
    requires Reached(s) && token in s.sessions && s.sessions[token].origin.EmailSignIn?
    ensures var x := s.sessions[token];
            && x.origin.verifiedAt <= x.at < |s.log|
            && CredentialAfter(s.log[..x.at], x.origin.email) == Some(Credential(x.userId, x.origin.version))
            && (forall i :: x.origin.verifiedAt <= i < x.at ==> !Touches(s.log[i], x.origin.email))
  {
    ReachedInv(s);
  }

  /** So a live email sign-in of a user verified its password after that user's last reset or own
      change of that email's password. */
  lemma NoSignInSurvivesAReset(s: State, i: nat, token: Token)
    requires Reached(s) && token in s.sessions && s.sessions[token].origin.EmailSignIn?
    requires i < |s.log| && Evicts(s.log[i], s.sessions[token].userId) && s.log[i].email == s.sessions[token].origin.email
    ensures i < s.sessions[token].origin.verifiedAt
  {
    EvictionsAreFinal(s, i, s.sessions[token].userId);
    SignInsVerifyTheCurrentPassword(s, token);
    assert Touches(s.log[i], s.log[i].email);
  }

  /** A reset selector authorizes at most one password write. */
  lemma ResetCodesAreSpentOnce(s: State, i: nat, j: nat)
    requires Reached(s) && i < |s.log| && s.log[i].Written? && s.log[i].cause.ByReset?
    requires j < |s.log| && s.log[j].Written? && s.log[j].cause.ByReset? && s.log[j].cause.selector == s.log[i].cause.selector
    ensures i == j && s.log[i].cause.selector !in s.codes
  {
    ReachedInv(s);
  }

  /** In every interleaving a reset writes the password of the identity and the email that its code was
      issued for, earlier, and only when it was presented with the verifier of that code before the code
      expired. */
  lemma ResetsPresentTheirCode(s: State, i: nat) returns (j: nat)
    requires Reached(s) && i < |s.log| && s.log[i].Written? && s.log[i].cause.ByReset?
    ensures j < i && s.log[j].Issued? && s.log[j].selector == s.log[i].cause.selector
    ensures s.log[j].code.email == s.log[i].email && s.log[j].code.userId == s.log[i].userId
    ensures s.log[j].code.verifier == s.log[i].cause.presented && s.log[i].cause.presentedAt < s.log[j].code.expiresAt
  {
    ReachedInv(s);
    assert RedeemedAt(s.log, i);
    j :| 0 <= j < i && s.log[j].Issued? && s.log[j].selector == s.log[i].cause.selector && Redeems(s.log[i], s.log[j].code);
  }

  // ---------- how many codes are outstanding ----------

  ghost predicate FewOutstanding(codes: map<Selector, ResetCode>) {
    forall email :: |OutstandingFor(codes, email)| <= MAX_OUTSTANDING
  }

  lemma FewerOutstanding(codes: map<Selector, ResetCode>, codes': map<Selector, ResetCode>)
    requires FewOutstanding(codes) && SubMap(codes', codes)
    ensures FewOutstanding(codes')
  {
    forall email ensures |OutstandingFor(codes', email)| <= MAX_OUTSTANDING {
      SubsetSize(OutstandingFor(codes', email), OutstandingFor(codes, email));
    }
  }

  lemma {:induction false} SubsetSize(a: set<Selector>, b: set<Selector>)
    requires a <= b
    ensures |a| <= |b|
    decreases |a|
  {
    if a != {} {
      var x :| x in a;
      SubsetSize(a - {x}, b - {x});
    }
  }

  lemma OneMoreOutstanding(codes: map<Selector, ResetCode>, selector: Selector, code: ResetCode)
    requires FewOutstanding(codes) && |OutstandingFor(codes, code.email)| < MAX_OUTSTANDING
    ensures FewOutstanding(codes[selector := code])
  {
    var more := codes[selector := code];
    forall email ensures |OutstandingFor(more, email)| <= MAX_OUTSTANDING {
      var before, after := OutstandingFor(codes, email), OutstandingFor(more, email);
      SubsetSize(after, if email == code.email then before + {selector} else before);
    }
  }

  /** In every reachable state at most MAX_OUTSTANDING codes of an email are stored. */
  lemma {:induction false} CodesAreFew(s: State, steps: seq<Step>)
    requires FewOutstanding(s.codes) && Runs(s, steps)
    ensures FewOutstanding(Final(s, steps).codes)
    decreases |steps|
  {
    if steps != [] {
      StepCodesFew(s, steps[0]);
      CodesAreFew(Next(s, steps[0]), steps[1..]);
    }
  }

  lemma StepCodesFew(s: State, step: Step)
    requires FewOutstanding(s.codes) && Enabled(s, step)
    ensures FewOutstanding(Next(s, step).codes)
  {
    var n := Next(s, step);
    if step.IssueCode? && !SubMap(n.codes, s.codes) {
      var pruned := UnexpiredCodes(s);
      FewerOutstanding(s.codes, pruned);
      var userId := FindCredentialWithUser(s, step.email).value.userId;
      OneMoreOutstanding(pruned, step.selector, ResetCode(step.email, userId, step.verifier, s.clock + step.lifetime));
    } else {
      FewerOutstanding(s.codes, n.codes);
    }
  }

  // ---------- removal ----------

  /** An owner's unlinking or termination takes the credential, the codes and the Access keys of the
      user away, and termination the Sessions too. */
  lemma RemovalLeavesNothing(s: State, step: Step)
    requires (step.Unlink? || step.Terminate?) && Enabled(s, step)
    requires step.userId in s.users && step.email in s.credentials && s.credentials[step.email].userId == step.userId
    ensures var n := Next(s, step);
            && step.email !in n.credentials && step.userId in n.users && !n.users[step.userId].linked
            && (forall c :: c in n.codes ==> n.codes[c].userId != step.userId) && (forall k :: k in n.keys ==> n.keys[k].owner != step.userId)
            && (step.Terminate? ==> n.users[step.userId].lifecycle == Terminated && forall t :: t in n.sessions ==> n.sessions[t].userId != step.userId)
  {
  }

  // ---------- when the other parts go through ----------

  /** A registration goes through exactly for a guest with an unexpired Session of its own and an email
      that has no credential; then the guest is linked, holds the credential and has a new Session in the
      place of the old one, and nothing else has changed. */
  lemma RegistrationIsExact(s: State, step: Step)
    requires step.Register? && Enabled(s, step)
    ensures var n := Next(s, step);
            if && step.previous in s.sessions && s.sessions[step.previous].userId == step.userId && s.clock < s.sessions[step.previous].expiresAt
               && step.userId in s.users && s.users[step.userId].human && !s.users[step.userId].linked
               && (s.users[step.userId].lifecycle == Live || s.users[step.userId].lifecycle == Disabled)
               && step.email !in s.credentials
            then && n.users == s.users[step.userId := User(true, s.users[step.userId].lifecycle, true)]
                 && n.credentials == s.credentials[step.email := Credential(step.userId, step.version)]
                 && n.sessions == (s.sessions - {step.previous})[step.token := Session(step.userId, step.expiresAt, Elsewhere, |s.log| + 1)]
                 && n.keys == s.keys && n.codes == s.codes && n.pending == s.pending
            else n == s
  {
  }

  /** The email has a credential, and this is it, of a user that is not terminated. */
  predicate Holds(s: State, email: Email, credential: Credential) {
    && email in s.credentials && s.credentials[email] == credential
    && credential.userId in s.users && s.users[credential.userId].lifecycle in {Live, Disabled}
  }

  /** What a request verifies before its transaction: a sign-in and an own change the credential, a reset
      its code. */
  lemma PreflightsAreExact(s: State, attempt: Attempt, pending: Pending)
    requires attempt !in s.pending
    ensures forall email, token :: var n := Next(s, VerifySignIn(attempt, email, token));
              attempt in n.pending && n.pending[attempt] == pending <==>
                pending.SigningIn? && pending.email == email && pending.token == token && pending.verifiedAt == |s.log|
                && Holds(s, email, Credential(pending.userId, pending.version))
    ensures forall token, userId, email :: var n := Next(s, BeginChange(attempt, token, userId, email));
              attempt in n.pending && n.pending[attempt] == pending <==>
                pending.Changing? && pending.email == email && pending.token == token && pending.userId == userId
                && Holds(s, email, Credential(userId, pending.version))
    ensures forall selector, verifier :: var n := Next(s, BeginReset(attempt, selector, verifier));
              attempt in n.pending && n.pending[attempt] == pending <==>
                pending.Resetting? && pending.selector == selector && pending.verifier == verifier
                && selector in s.codes && s.codes[selector].verifier == verifier && s.clock < s.codes[selector].expiresAt
                && s.codes[selector].userId == pending.userId && pending.userId in s.users && s.users[pending.userId] in {User(true, Live, true), User(true, Live, false)}
                && s.codes[selector].email in s.credentials && s.credentials[s.codes[selector].email].userId == pending.userId
  {
  }
}
