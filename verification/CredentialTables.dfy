/** The transactions of CredentialFence as they change the tables row by row (signInWithEmail,
    confirmPasswordReset, setOwnEmailPassword and the issuing of reset codes in
    src/auth-runtime.ts, with runAccessKeyOwnerSecurityTransition in src/access-keys-runtime.ts).
    Each transaction is proved to be the step of CredentialFence that models it, including the one
    that deletes first and is rolled back when a later check fails. */
module CredentialTables {

  import opened CredentialFence

  class AuthTables {
    var clock: Instant
    var users: map<UserId, User>
    var credentials: map<Email, Credential>
    var sessions: map<Token, Session>
    var keys: map<KeyId, AccessKey>
    var codes: map<Selector, ResetCode>
    var requested: set<Selector>
    ghost var pending: map<Attempt, Pending>

    /** The history that statements about runs refer to; no transaction decides anything by it. */
    var log: seq<Event>

    ghost function View(): State
      reads this
    {
      State(clock, users, credentials, sessions, keys, codes, pending, requested, log)
    }

    // ---------- adapter methods ----------

    method FindEmailCredentialWithUser(email: Email) returns (row: Option<Credential>)
      ensures row == FindCredentialWithUser(View(), email)
    {
      if email !in credentials { return None; }
      var credential := credentials[email];
      if credential.userId !in users || users[credential.userId].lifecycle == Terminated { return None; }
      return Some(credential);
    }

    method LockLiveHuman(userId: UserId) returns (live: bool)
      ensures live <==> HumanLive(View(), userId)
    {
      if userId !in users { return false; }
      var owner := users[userId];
      return owner.human && owner.lifecycle == Live;
    }

    method ReadPasswordResetCode(selector: Selector, verifier: Verifier) returns (row: Option<ResetCode>)
      ensures row == ReadResetCode(View(), selector, verifier)
    {
      if selector !in codes { return None; }
      var code := codes[selector];
      if code.verifier != verifier || clock >= code.expiresAt { return None; }
      var live := LockLiveHuman(code.userId);
      var credential := FindEmailCredentialWithUser(code.email);
      if !live || credential.None? || credential.value.userId != code.userId { return None; }
      return Some(code);
    }

    method DeletePasswordResetCode(selector: Selector) returns (changes: nat)
      modifies `codes
      ensures codes == old(codes) - {selector} && (changes == 1 <==> selector in old(codes))
    {
      changes := if selector in codes then 1 else 0;
      codes := codes - {selector};
    }

    method UpdateEmailCredentialPassword(email: Email, version: Version, cause: Cause)
      requires email in credentials
      modifies `credentials, `log
      ensures View() == WritePassword(old(View()), email, version, cause)
    {
      var credential := Credential(credentials[email].userId, version);
      credentials := credentials[email := credential];
      log := log + [Written(email, credential.userId, version, cause)];
    }

    method DeletePasswordResetCodesForUser(userId: UserId)
      modifies `codes
      ensures codes == WithoutCodesOf(old(View()), userId)
    {
      var rows := codes.Keys;
      while rows != {}
        invariant rows <= codes.Keys <= old(codes).Keys
        invariant forall c :: c in codes ==> codes[c] == old(codes)[c]
        invariant forall c :: c in old(codes) && c !in rows ==> (c in codes <==> old(codes)[c].userId != userId)
        decreases |rows|
      {
        var c :| c in rows;
        rows := rows - {c};
        if codes[c].userId == userId { codes := codes - {c}; }
      }
    }

    method DeleteAuthSessionsForUser(userId: UserId)
      modifies `sessions
      ensures sessions == WithoutSessionsOf(old(View()), userId)
    {
      var rows := sessions.Keys;
      while rows != {}
        invariant rows <= sessions.Keys <= old(sessions).Keys
        invariant forall t :: t in sessions ==> sessions[t] == old(sessions)[t]
        invariant forall t :: t in old(sessions) && t !in rows ==> (t in sessions <==> old(sessions)[t].userId != userId)
        decreases |rows|
      {
        var t :| t in rows;
        rows := rows - {t};
        if sessions[t].userId == userId { sessions := sessions - {t}; }
      }
    }

    method BulkRevokeAccessKeysForOwner(owner: UserId) returns (revoked: set<KeyId>)
      modifies `keys
      ensures keys == WithoutKeysOf(old(View()), owner)
      ensures revoked == old(keys).Keys - keys.Keys
    {
      revoked := {};
      var rows := keys.Keys;
      while rows != {}
        invariant rows <= keys.Keys <= old(keys).Keys && revoked == old(keys).Keys - keys.Keys
        invariant forall k :: k in keys ==> keys[k] == old(keys)[k]
        invariant forall k :: k in old(keys) && k !in rows ==> (k in keys <==> old(keys)[k].owner != owner)
        decreases |rows|
      {
        var k :| k in rows;
        rows := rows - {k};
        if keys[k].owner == owner { keys, revoked := keys - {k}, revoked + {k}; }
      }
    }

    /** rotateSessionOnAdapter: the caller's row is replaced, if it is still there. */
    method RotateSessionRow(previous: Token, token: Token, session: Session)
      modifies `sessions, `log
      ensures View() == RotateSession(old(View()), previous, token, session)
    {
      if previous in sessions {
        sessions := (sessions - {previous})[token := session];
        log := log + [Minted(session.userId)];
      }
    }

    // ---------- transactions ----------

    /** The transaction of signInWithEmail, with what was verified before it. */
    method CommitSignIn(email: Email, userId: UserId, verified: Version, verifiedAt: nat, previous: Token, token: Token, expiresAt: Instant)
      returns (ok: bool)
      modifies `sessions, `log
      ensures View() == CommittedSignIn(old(View()), SigningIn(email, userId, verified, verifiedAt, previous), token, expiresAt)
      ensures ok <==> && email in credentials && credentials[email] == Credential(userId, verified)
                      && userId in users && users[userId].lifecycle != Terminated
      ensures ok && previous in old(sessions) ==>
                token in sessions && sessions[token] == Session(userId, expiresAt, EmailSignIn(email, verified, verifiedAt), old(|log|))
    {
      var current := FindEmailCredentialWithUser(email);
      if current.None? || current.value.userId != userId { return false; }
      if email !in credentials || credentials[email].version != verified { return false; }
      RotateSessionRow(previous, token, Session(userId, expiresAt, EmailSignIn(email, verified, verifiedAt), |log|));
      return true;
    }

    /** The transaction of confirmPasswordReset; userId is the preflight's. */
    method CommitReset(userId: UserId, selector: Selector, verifier: Verifier, version: Version) returns (ok: bool)
      modifies this
      ensures View() == CommittedReset(old(View()), Resetting(selector, verifier, userId), version)
      ensures ok <==> |log| > old(|log|)
      ensures ok <==> && userId in old(users) && old(users)[userId].human && old(users)[userId].lifecycle == Live
                      && selector in old(codes) && old(codes)[selector].verifier == verifier && clock < old(codes)[selector].expiresAt
                      && var code := old(codes)[selector];
                         && code.userId in old(users) && old(users)[code.userId].human && old(users)[code.userId].lifecycle == Live
                         && code.email in old(credentials) && old(credentials)[code.email].userId == code.userId
      ensures ok ==> selector !in codes && credentials == old(credentials)[old(codes)[selector].email := Credential(old(codes)[selector].userId, version)]
      ensures !ok ==> credentials == old(credentials) && sessions == old(sessions) && keys == old(keys)
    {
      var live := LockLiveHuman(userId);
      if !live { return false; }
      var row := ReadPasswordResetCode(selector, verifier);
      if row.None? { return false; }
      var consumed := DeletePasswordResetCode(selector);
      if consumed != 1 { return false; }
      var credential := FindEmailCredentialWithUser(row.value.email);
      if credential.None? || credential.value.userId != row.value.userId { return false; }
      UpdateEmailCredentialPassword(row.value.email, version, ByReset(selector, verifier, clock));
      DeletePasswordResetCodesForUser(row.value.userId);
      DeleteAuthSessionsForUser(row.value.userId);
      var _ := BulkRevokeAccessKeysForOwner(row.value.userId);
      return true;
    }

    /** What setOwnEmailPassword checks inside its transaction, before it writes. */
    method ChangeIsAuthorized(token: Token, userId: UserId, email: Email, verified: Version) returns (authorized: bool)
      ensures authorized <==>
        && token in sessions && sessions[token].userId == userId && sessions[token].expiresAt > clock
        && userId in users && users[userId].linked && users[userId].lifecycle == Live && users[userId].human
        && email in credentials && credentials[email] == Credential(userId, verified)
    {
      if token !in sessions || sessions[token].userId !in users { return false; }
      var current := sessions[token];
      if users[current.userId].lifecycle == Terminated || current.userId != userId || !users[userId].linked || current.expiresAt <= clock {
        return false;
      }
      var owner := LockLiveHuman(userId);
      if !owner { return false; }
      var live := FindEmailCredentialWithUser(email);
      if live.None? || live.value.userId != userId { return false; }
      return credentials[email].version == verified;
    }

    /** setOwnEmailPassword in runAccessKeyOwnerSecurityTransition: the Access keys are revoked
        before anything is checked, and come back when a check fails. */
    method CommitChange(token: Token, userId: UserId, email: Email, verified: Version, version: Version) returns (ok: bool)
      modifies this
      ensures View() == CommittedChange(old(View()), Changing(token, userId, email, verified), version)
      ensures ok <==> |log| > old(|log|)
      ensures ok <==> && token in old(sessions) && old(sessions)[token].userId == userId && old(sessions)[token].expiresAt > clock
                      && userId in users && users[userId].linked && users[userId].lifecycle == Live && users[userId].human
                      && email in old(credentials) && old(credentials)[email] == Credential(userId, verified)
      ensures ok ==> credentials == old(credentials)[email := Credential(userId, version)]
    {
      var before := keys;
      var _ := BulkRevokeAccessKeysForOwner(userId);
      var authorized := ChangeIsAuthorized(token, userId, email, verified);
      if !authorized {
        keys := before;
        return false;
      }
      UpdateEmailCredentialPassword(email, version, ByOwner);
      DeletePasswordResetCodesForUser(userId);
      DeleteAuthSessionsForUser(userId);
      return true;
    }

    /** prunePasswordResetCodes. */
    method PrunePasswordResetCodes()
      modifies `codes
      ensures codes == UnexpiredCodes(old(View()))
    {
      var rows := codes.Keys;
      while rows != {}
        invariant rows <= codes.Keys <= old(codes).Keys
        invariant forall c :: c in codes ==> codes[c] == old(codes)[c]
        invariant forall c :: c in old(codes) && c !in rows ==> (c in codes <==> old(codes)[c].expiresAt > clock)
        decreases |rows|
      {
        var c :| c in rows;
        rows := rows - {c};
        if codes[c].expiresAt <= clock { codes := codes - {c}; }
      }
    }

    method CountPasswordResetCodesForEmail(email: Email) returns (count: nat)
      ensures count == |OutstandingFor(UnexpiredCodes(View()), email)|
    {
      var counted: set<Selector> := {};
      var rows := codes.Keys;
      while rows != {}
        invariant rows <= codes.Keys
        invariant counted == set c | c in codes && c !in rows && codes[c].expiresAt > clock && codes[c].email == email
        decreases |rows|
      {
        var c :| c in rows;
        rows := rows - {c};
        if codes[c].expiresAt > clock && codes[c].email == email { counted := counted + {c}; }
      }
      assert counted == OutstandingFor(UnexpiredCodes(View()), email);
      return |counted|;
    }

    /** From the pruning of expired codes on. */
    method InsertUnlessFull(email: Email, userId: UserId, selector: Selector, verifier: Verifier, lifetime: Instant) returns (issued: bool)
      modifies `codes, `log
      ensures View() == InsertedCode(old(View()), email, userId, selector, verifier, lifetime)
      ensures issued ==> selector in codes && codes[selector] == ResetCode(email, userId, verifier, clock + lifetime)
      ensures issued <==> |set c | c in old(codes) && old(codes)[c].expiresAt > clock && old(codes)[c].email == email| < MAX_OUTSTANDING
      ensures forall c :: c in old(codes) && old(codes)[c].expiresAt > clock && c != selector ==> c in codes && codes[c] == old(codes)[c]
    {
      assert OutstandingFor(UnexpiredCodes(View()), email) == set c | c in codes && codes[c].expiresAt > clock && codes[c].email == email;
      PrunePasswordResetCodes();
      assert UnexpiredCodes(View()) == codes;
      var outstanding := CountPasswordResetCodesForEmail(email);
      if outstanding >= MAX_OUTSTANDING { return false; }
      codes := codes[selector := ResetCode(email, userId, verifier, clock + lifetime)];
      log := log + [Issued(selector, ResetCode(email, userId, verifier, clock + lifetime))];
      return true;
    }

    /** issuePasswordResetCode with issuePasswordResetCodeOnAdapter. */
    method IssueCode(email: Email, selector: Selector, verifier: Verifier, fromRequest: bool, lifetime: Instant) returns (issued: bool)
      modifies `codes, `requested, `log
      ensures View() == IssuedCode(old(View()), email, selector, verifier, fromRequest, lifetime)
      ensures issued ==> selector in codes && codes[selector].email == email && codes[selector].verifier == verifier
      // A code is issued exactly for a live human's credential: for a request that has one stored, if
      // that is the one; otherwise if the request is new and the address has room.
      ensures issued <==>
        && email in credentials && var userId := credentials[email].userId;
           && userId in users && users[userId].human && users[userId].lifecycle == Live
           && if fromRequest && selector in old(codes) && old(codes)[selector].expiresAt > clock
              then old(codes)[selector].email == email && old(codes)[selector].userId == userId && old(codes)[selector].verifier == verifier
              else && (fromRequest ==> selector !in old(requested))
                   && |set c | c in old(codes) && old(codes)[c].expiresAt > clock && old(codes)[c].email == email| < MAX_OUTSTANDING
      // No outstanding code is given up.
      ensures forall c :: c in old(codes) && old(codes)[c].expiresAt > clock && c != selector ==> c in codes && codes[c] == old(codes)[c]
    {
      hide InsertedCode;
      var current := FindEmailCredentialWithUser(email);
      if current.None? { return false; }
      var live := LockLiveHuman(current.value.userId);
      if !live { return false; }
      if fromRequest {
        if selector in codes && codes[selector].expiresAt > clock {
          var existing := codes[selector];
          return existing.email == email && existing.userId == current.value.userId && existing.verifier == verifier;
        }
        if selector in requested { return false; }
        requested := requested + {selector};
      }
      issued := InsertUnlessFull(email, current.value.userId, selector, verifier, lifetime);
    }
  }
}
