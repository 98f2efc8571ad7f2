# Sporades verification

Dafny models of the parts of Sporades whose correctness is hardest to see by reading them, with
machine-checked proofs. Each module models one component; classes and methods stand for code that
updates state in place, functions and lemmas for expressions, and step relations for protocols
whose transactions and completions interleave. `dafny verify dfyconfig.toml` checks the project.

## What is modelled

- **Replacing several files at once** (`FileTransaction`, `LegacyBundles`). A map from paths to
  contents; every executor call runs its action zero or one times and then returns or throws, and a
  normal return means that it ran. Undo works from flags and probes. Each outcome label is proved as a
  claim about the whole disk. Legacy publication is proved for repeated targets too, and so is the
  restoration from a record. Failures of calls are counted, so that each operation is also proved to go
  through when no call fails.
- **Credential, key and cache protocols** (`CredentialFence`, `RegistrationKeys`, `OidcCache`,
  `OidcCooldown`, `OidcStamps`, `OidcFlight`, `OidcQueue`, `OidcJoin` and `OidcSelect`, with
  `CredentialTables`, `RegistrationKeyStore` and `OidcLoader`).
  Transactions are atomic steps that interleave arbitrarily with verification done outside them; the
  second group of modules proves that the code which updates tables and entries in place makes these steps.
  Two findings are stated exactly. Migration, rotation and retirement of keys read the clock before their
  transaction, and each is safe in every continuation if and only if that reading covers the sealed states
  not yet inserted; a reading taken at commit would cover always. The other one is about callers of the
  exported `loadMicrosoftJwks` that force a refresh and leave the observed generation to its default. In
  the order of the promise queue one such caller may join a running load, and single flight, which keeps
  entries under a running fetch in the cache, holds; a second one, or one that joins after the load has
  succeeded, may start a fetch beside another, and a run of two from an empty cache shows it.
  `selectMicrosoftJwk`, the caller in the repository, always keeps single flight.
- **Secrets and policy reloads** (`SecretFence`, `PolicyReload`). A start that finalizes its secrets was
  the last to resolve them, and nothing is rotated on the way; a policy that fails to load leaves the
  last good one active.
- **Preserved deploy files** (`PreservedFiles`, `PreservedDirectory`). Names and inodes with hard links,
  a journal, and an editor that may act between any two system calls. Seeding followed by rollback gives
  back every live name that the editor has not touched, and a seed that the editor has changed stays live.
- **Fixed-window limits** (`FixedWindow`, `CapsuleRateLimit`, `AdmissionRateLimit`, `FailureLimit`,
  `FailureAttempts`). The insertion-ordered table refines an unbounded ideal table for keys that are not
  evicted. The limit on failed Access keys is checked before a lookup and counted after it: attempts that
  overlap exceed it by one less than their number at most, and a success of a selector starts its count over.
- **Pure algorithms** (`ScopeGrant`, `AddressText`, `ClientAddress`, `ClientNetwork`, `AdmissionPath`,
  `RuleMatching`, `ServiceGraph`), each against an independent definition: weaving, section 2.2 of
  RFC 4291, RFC 5952, leading bits, section 5.2.4 of RFC 3986, agreement of all two-valued readings, and
  acyclicity. `canonicalAdmissionPathname` as a whole is not idempotent: it accepts `/a%20b` and
  refuses its own result; the exact condition is proved.
- **The `require` rewrite** (`ModuleSyntax`, `ModuleMeaning`, `RequireMeaning`, `RequireRewrite`,
  `ScopeCollection`, `RendererModule`, `TextEdits`). A core language with an interpreter: the rewritten
  module means the same, no use is left, the scope table filled in place answers as the enclosing
  declarations do, and sorting and splicing the replacements yields the rewritten module's text.
- **Live queries and readiness** (`LiveQuery`, `LiveQueryRefresh`, `ReadinessScanner`). Windows,
  publications and re-runs interleave: no invalidation is lost, and no query is run again for tables that it
  has not read. A stream is recognized in chunks with bounded memory. The comment
  on `liveQueryNeedsRefresh` says that an unidentified read always re-runs; the code does not do so for a
  read set that holds `*`, and relies on its caller to pass an unknown read set instead. The model
  follows the code, states which read sets it answers rightly, and proves the caller's rule right.

`Strings` and `Numerals` hold what several modules share.

## Assumptions

- Transactions are serializable and the clock does not go back. Randomly drawn names and ids are fresh.
- In `OidcQueue` the continuations of a promise run in the order in which they were awaited, contiguously when
  they were awaited before its end; `OidcFlight` assumes no order. In `OidcSelect` a continuation also runs
  behind everything queued before it and within its turn of the event loop, and a fetch does not succeed
  within the turn that starts it.
- Hashes, ciphertexts and digests are modelled by what they stand for, with exact equality.
- `lstat` reports that a path is missing only when it is.
- In `LegacyBundles` a failing operation has no effect and the final removal of the staging directory
  succeeds.
- In `PreservedFiles` the editor saves through the descriptor it opened last and makes no hard links; the
  first of these is shown to be needed.
- In `AdmissionPath` the decoder is a parameter that leaves text without a percent sign alone, rejects a
  percent sign that begins no escape, and keeps a leading slash.
- In `LiveQuery` the statement patterns describe what a statement writes, and in `LiveQueryRefresh` a
  query is a deterministic function of what it reads and its adapter records every statement.
- In `ModuleMeaning` the inserted declaration gives the helper the module's own `require`, and calls of
  `require` are recorded by their argument.

## Model

| member | source | states |
|---|---|---|
| FileTransaction.Transaction.ReplaceFilesAtomically | src/file-transaction.ts:47-121 | For any replacements and any fault schedule: a normal return leaves exactly the requested disk and no artifact; `complete` leaves the disk as it was before; `committed` has every target new and every other file untouched, with leftovers only for reported labels; `incomplete` keeps every original's bytes at its target or backup and has fully restored every target whose label is not reported; a repeated target is refused untouched; `BACKUP_MISSING` is never reported; for distinct targets it fails only if the executor has, and without a fault it replaces them all |
| FileTransaction.Transaction.Stage | src/file-transaction.ts:60-81 | After staging, whether it fails or not, every entry can still be undone from its flags and the disk; on success each temporary holds its new contents and `hadOriginal` is right; it fails exactly when the executor does, so targets that do not exist yet are no obstacle |
| FileTransaction.Transaction.Commit | src/file-transaction.ts:83-102 | Wherever the backup-and-replace loop stops, every original can be recovered from flags and disk; if it finishes, every target holds its replacement; it stops exactly at a fault |
| FileTransaction.Transaction.CommitEntry | src/file-transaction.ts:83-102 | One entry's backup and replacement, each of which may fail before or after its effect, keeps that entry recoverable and changes only its own paths, and it fails exactly at a fault |
| FileTransaction.Transaction.RecoverEntry | src/file-transaction.ts:143-185 | Undoing one entry, by flags and existence probes, either restores its prior contents or absence or reports its label, never with `BACKUP_MISSING`, and never loses the original; every report comes from a fault |
| FileTransaction.Transaction.Recover | src/file-transaction.ts:141-203 | After recovery every original is at its target or backup, and every unreported label is as it was with no temporary left; there are no more reports than faults |
| FileTransaction.Transaction.CleanupCommitted | src/file-transaction.ts:205-228 | Cleanup after a commit removes only artifacts, and all of those whose label it does not report; there are no more reports than faults |
| FileTransaction.Transaction.RemoveArtifact | src/file-transaction.ts:187-201 | A best-effort removal goes unreported only when the artifact is gone |
| FileTransaction.Transaction.Inspect | src/file-transaction.ts:123-139 | The existence probe answers absent only for an absent path |
| FileTransaction.Transaction.ArtifactExists | src/file-transaction.ts:230-240 | The recovery probe answers absent only for an absent path; an unreadable path counts as present |
| FileTransaction.WithReplacementsAt | src/file-transaction.ts:60-102 | The requested disk differs from the prior one exactly at the targets, each with its own new contents |
| FileTransaction.EntriesRecovered | src/file-transaction.ts:297-322 | Per-entry recovery adds up to the claim that `incomplete` makes about the disk |
| FileTransaction.AllRolledBack | src/file-transaction.ts:302-302 | When every entry is rolled back and no artifact remains, the whole disk is the one before the call |
| FileTransaction.ReplacedDisk | src/file-transaction.ts:109-121 | When every target is in place and no artifact remains, the whole disk is the requested one |
| LegacyBundles.Publication.Publish | src/bundle-pipeline.ts:347-409 | If failing operations have no effect and the final staging removal succeeds: the disk is the requested one, or exactly the prior one, or recovery is incomplete, and then each target is as before unless an index listed for it was reported, whose original is still in the staging directory; the requested disk is published exactly when no operation fails and no target is of another kind than a regular file |
| LegacyBundles.Publication.Stage | src/bundle-pipeline.ts:358-369 | Staging refuses targets that are not regular files and never touches a live file, exactly when one of them is or an operation fails |
| LegacyBundles.Publication.MoveAside | src/bundle-pipeline.ts:371-379 | Wherever the move-aside loop stops, every original is at its target or in its backup, as the `moved` flags say |
| LegacyBundles.Publication.MoveIn | src/bundle-pipeline.ts:380-384 | Wherever the move-in loop stops, every prior target can still be recovered; if it finishes, each target holds the last contents listed for it |
| LegacyBundles.Publication.Recover | src/bundle-pipeline.ts:385-396 | The reverse undo leaves each target as before or reports the index that still holds its original |
| LegacyBundles.Publication.RestoreFiles | src/bundle-pipeline.ts:298-302 | Restoring a record of prior contents and absences gives back exactly the disk that the record describes, whatever was published at the recorded targets meanwhile, unless an operation fails |
| LegacyBundles.MovedAside | src/bundle-pipeline.ts:373-375 | Moving a live file to its backup keeps the recovery invariant |
| LegacyBundles.MovedIn | src/bundle-pipeline.ts:381-383 | Moving a candidate in keeps the recovery invariant, also for a repeated target |
| LegacyBundles.MovedBack | src/bundle-pipeline.ts:387-390 | Restoring a backup keeps the invariant of the reverse undo |
| LegacyBundles.TakenAway | src/bundle-pipeline.ts:391-391 | Removing a published file that replaced nothing keeps the invariant of the reverse undo |
| LegacyBundles.AllRecovered | src/bundle-pipeline.ts:397-405 | An undo that reports nothing leaves every live file as before |
| LegacyBundles.AllAccounted | src/bundle-pipeline.ts:397-404 | An undo that reports indices accounts for every target: as before, or preserved under a reported index |
| LegacyBundles.PublishedDisk | src/bundle-pipeline.ts:380-384 | Candidates in place at every last-listed target add up to the requested disk |
| RegistrationKeys.KeysAreFound | src/auth-runtime.ts:3658-3781 | In every run of migration, seal, late insert, rotation, retirement, unseal and clock advance whose clock readings cover the unstored states, every unexpired sealed registration, stored or not and legacy ones through the alias, can be unsealed, and the active id names stored material |
| RegistrationKeys.NextKeeps | src/auth-runtime.ts:3682-3781 | Every step keeps the invariant behind key lookup, given a covering reading |
| RegistrationKeys.SafeExactlyWhenCovered | src/auth-runtime.ts:3682-3781 | Every step of the protocol, whichever key is active, is safe in every continuation if and only if the clock reading that it took before its transaction covers the sealed states not yet inserted; steps that use no reading always are. Callers cannot see those states; what they can check is the next row |
| RegistrationKeys.ReadingAtCommitCovers | src/auth-runtime.ts:3733-3752 | The sufficient condition that a caller can check: a reading taken at commit always covers, because a state lives no longer than the grace period |
| RegistrationKeys.StaleReadingLosesAKey | src/auth-runtime.ts:3733-3735 | A concrete run: a registration begun two milliseconds after the reading of a rotation that commits later loses its key before it expires |
| RegistrationKeys.LosingRun | src/auth-runtime.ts:3758-3776 | A rotation whose reading does not cover: waiting out the retention and retiring loses a key in use |
| RegistrationKeys.LosingMigration | src/auth-runtime.ts:3682-3708 | A migration whose reading does not cover, by itself or on the way of a rotation or retirement: waiting until the alias expires loses the legacy key |
| RegistrationKeys.ReconcileKeeps | src/auth-runtime.ts:3682-3708 | Reconciliation always yields an active key with material, and legacy ciphertexts stay readable through the alias |
| RegistrationKeys.RotatedKeeps | src/auth-runtime.ts:3736-3754 | Rotation retains the old key until every state sealed with it has expired |
| RegistrationKeys.RetiredKeeps | src/auth-runtime.ts:3762-3779 | Retirement deletes no key that an unexpired state needs |
| RegistrationKeys.RotationTakesOver | src/auth-runtime.ts:3733-3756 | A rotation aborts exactly when the stored key is malformed or has lost its material; otherwise the new key is active, the one before is retained for the grace period at least, and no other material or retention changes |
| RegistrationKeys.RetirementForgets | src/auth-runtime.ts:3762-3779 | Retirement keeps a retained key exactly while it is the active one, its retention lasts, or an unexpired registration is stored under it |
| RegistrationKeys.RetirementSparesOthers | src/auth-runtime.ts:3762-3779 | It deletes the material of no other key |
| RegistrationKeys.AliasNoLonger | src/auth-runtime.ts:3702-3706 | The alias of a migrated key lasts no longer than the grace period or the last stored registration that needs it |
| RegistrationKeys.RetainedNoLonger | src/auth-runtime.ts:3749-3753 | A rotated key is retained no longer than the grace period, its last stored registration, or the alias that names it |
| RegistrationKeys.KeptNoLongerThanGrace | src/auth-runtime.ts:3682-3781 | In every run from a state in which it holds, no alias and no retention reaches further ahead than the grace period |
| RegistrationKeys.SealKeeps | src/auth-runtime.ts:3783-3788 | Sealing uses the key that is active at its transaction, before the state row exists |
| RegistrationKeys.ProgressKeeps | src/auth-runtime.ts:3590-3640 | Beginning, storing and finishing a sign-in, and the passing of time, keep every needed key |
| RegistrationKeyStore.KeyStore.Reconcile | src/auth-runtime.ts:3682-3708 | The reconciliation that changes the tables row by row is the specified one; when it aborts nothing has changed |
| RegistrationKeyStore.KeyStore.Rotate | src/auth-runtime.ts:3733-3756 | The rotation that reads outstanding states and the alias row by row is the rotation step of the protocol, for any clock reading taken before it |
| RegistrationKeyStore.KeyStore.Retire | src/auth-runtime.ts:3758-3781 | Retirement with its loop over retained keys is the retirement step of the protocol |
| RegistrationKeyStore.KeyStore.RetireRows | src/auth-runtime.ts:3766-3776 | The loop deletes exactly the keys that are retirable in the tables it started from |
| RegistrationKeyStore.KeyStore.OutstandingExpiry | src/auth-runtime.ts:3658-3666 | The reduction over the stored rows of a key is its last expiry |
| RegistrationKeyStore.KeyStore.KeyToUnseal | src/auth-runtime.ts:3721-3731 | The lookup through the alias or by id is the one that the protocol's theorem is about |
| RegistrationKeyStore.KeyStore.Seal | src/auth-runtime.ts:3783-3788 | Sealing is the sealing step of the protocol |
| CredentialFence.EvictionsAreFinal | src/auth-runtime.ts:2290-2325 | In every interleaving: after a committed reset or own password change of a user, every live Session and Access key of that user was committed later |
| CredentialFence.SignInsVerifyTheCurrentPassword | src/auth-runtime.ts:3163-3197 | In every interleaving: an email sign-in's Session verified the password that was in force for its user from verification to commit |
| CredentialFence.NoSignInSurvivesAReset | src/auth-runtime.ts:3187-3196 | A live email sign-in verified its password after the user's last reset or own change of that email |
| CredentialFence.ResetCodesAreSpentOnce | src/auth-runtime.ts:2302-2312 | A reset selector authorizes at most one password write, and is gone afterwards |
| CredentialFence.ResetsPresentTheirCode | src/auth-runtime.ts:2238-2258 | In every interleaving: a reset writes the password of the identity and the email that its selector was issued for, earlier, and only when the verifier presented in its transaction is the issued one and the code has not expired by then |
| CredentialFence.CodesAreFew | src/auth-runtime.ts:2145-2152 | In every run at most five codes of an email are stored |
| CredentialFence.PreflightsAreExact | src/auth-runtime.ts:2238-2284 | What a sign-in, a reset and an own change establish before their transactions: the credential of a user that is not terminated, or a code with its verifier that has not expired and whose live human still holds the credential of its email |
| CredentialFence.RegistrationIsExact | src/auth-runtime.ts:3050-3088 | A registration goes through exactly for a guest with an unexpired Session of its own and an email without a credential, and then changes nothing but that |
| CredentialFence.NextKeeps | src/auth-runtime.ts:2271-2325 | Every step of the interleaved protocols keeps the invariant behind the fence |
| CredentialFence.SignInKeeps | src/auth-runtime.ts:3179-3197 | The in-transaction claim of the verified version is what makes a sign-in sound |
| CredentialFence.ResetKeeps | src/auth-runtime.ts:2290-2325 | Reset confirmation checks verifier, expiry and ownership of its code inside the transaction, spends it, and evicts the user's authority with the write; the invariant demands that every reset in the history presented the verifier of a code issued before, in time |
| CredentialFence.ChangeKeeps | src/auth-runtime.ts:2461-2496 | Own password change re-checks Session, ownership and verified version inside its transaction before it writes and evicts |
| CredentialFence.RemovalKeeps | src/access-keys-runtime.ts:819-848 | Unlinking and termination run in the same owner-security transition and leave no authority behind that the fence forbids |
| CredentialFence.RemovalLeavesNothing | src/access-keys-runtime.ts:819-848 | Unlinking and termination take the credential, the reset codes and the Access keys of the user away, and termination the Sessions too |
| CredentialFence.IssueKeeps | src/auth-runtime.ts:2123-2162 | Issuing a code, with reuse of a requested one and the outstanding limit, never revives a spent selector |
| CredentialFence.SameCredentialUntouched | src/auth-runtime.ts:3193-3195 | If the stored version at commit equals the one verified, nothing wrote or removed the credential in between |
| CredentialTables.AuthTables.CommitReset | src/auth-runtime.ts:2290-2325 | The reset transaction, table by table, is the reset step of the fence. It succeeds exactly when the preflight's user is a live human and the selector is stored with the presented verifier, has not expired, and belongs to a live human who holds the credential of its email; a refusal changes no password, Session or Access key |
| CredentialTables.AuthTables.CommitChange | src/auth-runtime.ts:2461-2496 | Own password change in the owner-security transition, which revokes before it checks and is rolled back on refusal, is the change step of the fence, and succeeds exactly for a live own Session of an active linked human whose stored credential is the verified one |
| CredentialTables.AuthTables.CommitSignIn | src/auth-runtime.ts:3179-3197 | The sign-in transaction is the sign-in step of the fence; it succeeds exactly while the verified credential is the stored one and its user is not terminated, and then replaces the caller's Session |
| CredentialTables.AuthTables.IssueCode | src/auth-runtime.ts:2105-2162 | Issuing a code, with pruning, counting and the memory of requested selectors, is the issuing step of the fence. It succeeds exactly for a live human's credential while fewer than five codes of the address are outstanding, or when a retried request finds its own code; no outstanding code is given up |
| CredentialTables.AuthTables.ChangeIsAuthorized | src/auth-runtime.ts:2462-2485 | A change is authorized exactly for a live own Session of an active linked human whose stored credential is the verified one |
| CredentialTables.AuthTables.CountPasswordResetCodesForEmail | src/auth-runtime.ts:2147-2150 | The count of unexpired codes of an address, also in a table that still holds expired ones |
| OidcCache.GenerationsNeverDecrease | src/auth-runtime.ts:1962-1966 | Under any order of fetch starts, failures and completions, no entry's generation decreases |
| OidcCache.NewestReplyIsServed | src/auth-runtime.ts:1955-1967 | In every run from an empty cache an entry serves the reply of the highest completed generation, stays below its next generation, and the cache never exceeds 32 entries |
| OidcCooldown.MissedKidWaits | src/auth-runtime.ts:1908-1945 | After a refresh for a key id brings a reply that does not list it, whatever happens short of a further load of the entry, of others who remember that key id anew and of more than 63 changes of the cooldowns: for ten seconds a forced call for it that has read the current generation is answered from the cache, and from then on it starts a fetch unless one is marked |
| OidcCooldown.FoundKidIsFree | src/auth-runtime.ts:1913-1916 | A refresh whose reply lists the key id ends the waiting for it |
| OidcCooldown.WaiterKeepsToIt | src/auth-runtime.ts:1931-1945 | A caller that goes on after waiting for a load keeps to the same ten seconds |
| OidcCooldown.ServedForFiveMinutes | src/auth-runtime.ts:1928-1964 | In every run a reply is served without a fetch for five minutes while its entry is in the cache; from then on a call starts a fetch unless one is marked |
| OidcCooldown.LeastRecentlyUsedGoes | src/auth-runtime.ts:1511-1523 | Eviction removes idle entries only, and none that was used later than an idle one that it leaves |
| OidcCooldown.LookupIsUse | src/auth-runtime.ts:1906-1906 | After a lookup its entry is the one used last |
| OidcCooldown.OthersAreNoUse | src/auth-runtime.ts:1906-1906 | No other step changes the order of use |
| OidcStamps.MarkedStays | src/auth-runtime.ts:1502-1524 | An entry marked as in flight is never evicted by any step |
| OidcStamps.StampedKeeps | src/auth-runtime.ts:1951-1968 | Every step keeps that an entry is marked with the fetch of it started last, and counts exactly the fetches that succeeded |
| OidcFlight.FetchedEntriesStay | src/auth-runtime.ts:1502-1524 | In every run of such callers, from an empty cache for instance: every fetch under way is the one its entry is marked with, and no entry with a fetch under way is evicted |
| OidcFlight.KnowingKeeps | src/auth-runtime.ts:1866-1981 | Under any scheduling, when a caller that joins a load passes a generation older than the load's, single flight is kept: whoever waited for a load finds the generation moved when it goes on, and starts nothing |
| OidcFlight.ReadingIsKnowing | src/auth-runtime.ts:1984-1995 | Passing the generation just read meets the condition exactly as long as the load that is joined has not succeeded |
| OidcFlight.UnforcedRunsKnow | src/auth-runtime.ts:1376-1377 | The discovery cache never forces, so its runs meet the condition |
| OidcSelect.SelectionsKeepSingleFlight | src/auth-runtime.ts:1984-2010 | In every run of `selectMicrosoftJwk`, with any number of selections interleaved with each other, with time and with the ends of fetches: every fetch under way is the one its entry is marked with, and no entry with a fetch under way is evicted; no condition on the selections is left |
| OidcSelect.PickKnows | src/auth-runtime.ts:1986-1995 | When a selection makes its second call, a load that it would join is still running, so that the generation it has read is older than the load's |
| OidcSelect.MovePaced | src/auth-runtime.ts:1984-1995 | Every first call, second call, end of a fetch, cleanup, continuation and turn keeps single flight and what the second calls rely on |
| OidcQueue.OwnStartIsAlone | src/auth-runtime.ts:1931-1950 | In the order of the promise queue, a caller that goes on after a shared fetch starts one of its own only if it had joined a running load blindly, and nothing else of the entry is under way then |
| OidcQueue.AdmittedKeeps | src/auth-runtime.ts:1866-1981 | In that order single flight is kept by every step, as long as no load that has succeeded is joined and at most one caller joins a load blindly, that is without a generation or with the one that the load brings |
| OidcQueue.AdmittedRunsKeep | src/auth-runtime.ts:1866-1981 | In every run of such calls every fetch under way is the one its entry is marked with, and no entry with a fetch under way is evicted |
| OidcJoin.JoinSafeExactlyWhenAdmitted | src/auth-runtime.ts:1931-1950 | A call that joins a load leaves single flight safe in every continuation of admitted calls if and only if the load has failed, or is running and the caller is not blind or is the first blind caller to join it. For a load that has succeeded the value must still be fresh, and nobody waiting may ask for the caller's key id |
| OidcJoin.RefusedBeside | src/auth-runtime.ts:1931-1980 | Any other call, a second blind caller or one that joins after the load's success, comes to start a fetch beside another in an orderly continuation in which no time passes |
| OidcJoin.BesideEvicts | src/auth-runtime.ts:1502-1524 | Once two fetches of an entry run beside each other, lookups of other keys evict the entry by least recent use while one of them is running; no time has to pass |
| OidcJoin.RefusedJoinEvicts | src/auth-runtime.ts:1502-1524 | So after such a call the entry can leave the cache while a fetch of it is under way |
| OidcJoin.TwoDefaultCallersEvict | src/auth-runtime.ts:1866-1872 | The run itself, from an empty cache: one load, two calls that force a refresh and leave the observed generation to its default, the load's success and cleanup, and the two go on; each starts a fetch, and the entry is evicted while the first one is running |
| OidcCache.NextKeeps | src/auth-runtime.ts:1866-1981 | Every step keeps generations, marks, cooldown bounds and the size bound |
| OidcCache.SomeFirstToGo | src/auth-runtime.ts:1514-1523 | While an idle entry exists there is a least recently used one for the eviction loop |
| OidcLoader.Cache.Call | src/auth-runtime.ts:1866-1950 | A call on entry objects updated in place, from its first line to its first await, is the calling step of the protocol; it is refused exactly when its key has no entry, and an answer from the cache is the entry's value; what the step answers is stated in time by the rows of `OidcCooldown` |
| OidcLoader.Cache.Prune | src/auth-runtime.ts:1502-1524 | The sweep and the eviction loop leave exactly the specified entries |
| OidcLoader.Cache.Candidate | src/auth-runtime.ts:1514-1522 | The candidate for eviction is the least recently used entry without a fetch under way |
| OidcLoader.Cache.Settle | src/auth-runtime.ts:1962-1970 | The end of a fetch updates the entry that it captured, in the map or not, as the protocol's step does |
| OidcLoader.Cache.Release | src/auth-runtime.ts:1975-1980 | The cleanup behind a fetch clears the mark exactly when the mark is its own |
| OidcLoader.Cache.Resume | src/auth-runtime.ts:1931-1950 | What a caller does after a shared fetch is the protocol's step, including the fetch that it may start without looking at the mark; a caller that forces a refresh keeps to the ten seconds of `OidcCooldown` |
| OidcLoader.Cache.AnswerIsNewest | src/auth-runtime.ts:1962-1971 | In a valid cache an entry's value is the newest reply that was fetched for it |
| OidcLoader.CacheEntry.RememberMissingKid | src/auth-runtime.ts:1908-1919 | The cooldowns kept are those not over, without duplicates of this key id, and at most the newest 64 |
| PreservedDirectory.Directory.RollbackAll | src/deploy-files.ts:315-344 | With an editor acting between any two steps: what the editor last saved is at its live name or under a retained private name, and no call ever put one live file in place of another. When the rollback goes through, every created seed whose file the editor has not touched has left its live name and is retained, and every other untouched live name is as it was. While the editor is idle, every live file that is not an unchanged seed stays, also one that the editor had changed before; and without faults the rollback of untouched files goes through |
| PreservedDirectory.Directory.SeedThenRollBack | src/deploy-files.ts:270-344 | Seeding followed by a rollback that goes through, by the seeds reported or by the journal, gives back every untouched live name as it was before, and retains the seeds; without faults it does go through when the files were not disturbed |
| PreservedFiles.UndoneAll | src/deploy-files.ts:315-344 | What preparation changed and what rollback undoes add up to the names before preparation, also for journaled seeds that never became live |
| PreservedDirectory.Directory.RollbackSeed | src/deploy-files.ts:318-343 | An untouched seed leaves its live name and is retained for recovery; a live name that is not the seed's, and everything under other keys, is left alone. A seed that the editor has changed stays live while the editor is idle, and a file that the move has captured instead of the unchanged seed is back under its live name unless the editor goes on or a call fails |
| PreservedDirectory.Directory.InspectSeed | src/deploy-files.ts:321-341 | The inspection through the open file: an intact untouched seed is moved aside and stays aside; while the editor is idle, a file that is not the seed, or has other contents or a second name, stays where it is |
| PreservedDirectory.Directory.ClaimSeed | src/deploy-files.ts:326-339 | The file is moved off its live name before it is inspected again, so a replacement captured by the move is never lost |
| PreservedDirectory.Directory.PutBack | src/deploy-files.ts:332-339 | A captured replacement is linked back only when the live name is free, otherwise retained; with a free name and no fault it is live again and its private name is gone |
| PreservedDirectory.Directory.AssertPreserved | src/deploy-files.ts:56-83 | The check of a live file, with recovery of a leftover second name, loses nothing the editor saved and reports an untouched seed as it is; it accepts only a file without a second name |
| PreservedDirectory.Directory.RecoverLink | src/deploy-files.ts:66-77 | Removing a leftover private link never removes the last name of anything |
| PreservedDirectory.Directory.Prepare | src/deploy-files.ts:270-310 | Seeding any number of files, with failures at any step, never overwrites a live file and journals every seed before it becomes live; an untouched seed it reports is live, intact and, on success, under that name only; every untouched name without a seed is as it was. Without faults untouched files without a second name are all seeded or left alone |
| PreservedDirectory.Directory.SeedOnce | src/deploy-files.ts:288-308 | One file's seeding, when writing, journaling before or after the line is written, linking, inspecting or removing may fail: what it journals, whether its seed is live and intact, and that nothing else has changed |
| PreservedDirectory.Directory.WriteSeed | src/deploy-files.ts:289-294 | Writing the temporary may leave a broken file behind whose removal may fail too; nothing but private names of that file has changed |
| PreservedDirectory.Directory.Record | src/deploy-files.ts:244-249 | A journal entry is appended or, when the call fails, perhaps not |
| PreservedDirectory.Directory.LinkLive | src/deploy-files.ts:300-300 | link(2) succeeds only on a free live name |
| PreservedDirectory.Directory.Claim | src/deploy-files.ts:328-328 | rename(2) moves the live file to the private name or changes nothing |
| PreservedDirectory.Directory.RemovePrivate | src/deploy-files.ts:337-337 | A private name is removed only when the editor's newest contents have another name |
| PreservedDirectory.Directory.EditorTurn | src/deploy-files.ts:326-326 | Any number of editor opens, saves, atomic replacements and deletions keep the invariant and what seeding and rollback hold |
| PreservedFiles.ValidSaves | src/deploy-files.ts:313-317 | The invariant means that the newest saved contents of every file can still be found |
| PreservedFiles.ReplacedKeeps | src/deploy-files.ts:333-338 | An atomic replacement by the editor keeps the invariant |
| PreservedFiles.DeletedKeeps | src/deploy-files.ts:333-338 | A deletion by the editor keeps the invariant |
| PreservedFiles.OlderDescriptorLoses | src/deploy-files.ts:328-338 | The assumption on the editor is needed: a run from an empty directory, through seeding, a replacement captured by rollback and its link back, in which a save through an older descriptor is lost when the retained name is removed |
| PreservedFiles.LinkedKeeps | src/deploy-files.ts:300-336 | Linking an inode of the same file to a free live name keeps the invariant |
| PreservedFiles.RemovedKeeps | src/deploy-files.ts:306-337 | Removing a private name keeps the invariant when the newest contents are reachable without it |
| FixedWindow.BoundedFixedWindow.Record | src/bounded-fixed-window.ts:20-40 | Recording gives the specified table, count and remaining time, and counts evictions with saturation |
| FixedWindow.BoundedFixedWindow.Sweep | src/bounded-fixed-window.ts:30-33 | The visit with deletion, which stops early unless windows expire, leaves the specified table |
| FixedWindow.BoundedFixedWindow.Evict | src/bounded-fixed-window.ts:34-38 | Eviction removes the least recently recorded keys down to the bound |
| FixedWindow.BoundedFixedWindow.Retain | src/bounded-fixed-window.ts:43-43 | Exactly the keys the predicate keeps remain, in order |
| FixedWindow.BoundedFixedWindow.RetryAfter | src/bounded-fixed-window.ts:15-19 | Positive exactly while the key is exhausted, and then the least whole number of seconds after which it no longer is |
| FixedWindow.EarlyExitSweepsEverything | src/bounded-fixed-window.ts:28-33 | On a table in recording order the sweep that stops at the first entry in use removes exactly what a full sweep would |
| FixedWindow.RecordedOrdered | src/bounded-fixed-window.ts:20-38 | Recording keeps recording order, distinct keys and the size bound |
| FixedWindow.EvictedExactly | src/bounded-fixed-window.ts:34-38 | A recording evicts an entry exactly when as many keys as there is room for were recorded after it |
| FixedWindow.SweptGet | src/bounded-fixed-window.ts:28-33 | The sweep keeps a key exactly when it was recorded within the idle time and, where windows expire, its own window is not over |
| FixedWindow.ReportIsExact | src/bounded-fixed-window.ts:39-39 | The reported times are the least whole milliseconds and seconds after which the window is over |
| FixedWindow.TracksItself | src/bounded-fixed-window.ts:20-39 | For a key not evicted, its own recording reports the saturated count and the window of an unbounded ideal table |
| FixedWindow.TracksBesides | src/bounded-fixed-window.ts:26-38 | Recording another key leaves a key's relation to the ideal table intact |
| FixedWindow.TracksLater | src/bounded-fixed-window.ts:30-32 | The passing of time leaves a key's relation to the ideal table intact |
| FixedWindow.MarksApart | src/bounded-fixed-window.ts:23-25 | Two uses of a key share a window with increasing counts, or the later window starts a full window later |
| FixedWindow.WindowAdmits | src/bounded-fixed-window.ts:23-25 | At most `limit` uses are admitted in one window |
| FixedWindow.IntervalAdmits | src/bounded-fixed-window.ts:23-25 | At most twice `limit` uses are admitted in any interval of one window length |
| FailureLimit.FailureLimiter.Assert | src/access-keys-runtime.ts:876-878 | An attempt is let through exactly when its key is not exhausted |
| FailureLimit.FailureLimiter.Conclude | src/access-keys-runtime.ts:880-886 | A failure is recorded and a success deletes its key |
| FailureLimit.TableTracks | src/access-keys-runtime.ts:867-886 | In every run of failures and successes the bounded table, which expires idle keys but not windows, refines the ideal one for every key that is never evicted |
| FailureLimit.RefusedIsIdeal | src/access-keys-runtime.ts:876-878 | An attempt is refused exactly when an unbounded table counts its limit of failures in a window still open |
| FailureLimit.SynchronousFailuresAreLimited | src/access-keys-runtime.ts:449-461 | For a source key, which no success clears: of the failures recorded right after their check, those of malformed and doubled credentials, at most `limit` share a window and at most `2 * limit` fall into any interval of one window length, whatever else is recorded for the key |
| FailureAttempts.OverlapBoundsFailures | src/access-keys-runtime.ts:447-483 | With the lookup between check and record, while at most c attempts with a key are in flight at a time and counted since the key was last cleared or forgotten: at most `limit + c - 1` failures share a window, hence `limit` when none overlap, and at most twice as many fall into any interval of one window length |
| FailureAttempts.RunHeld | src/access-keys-runtime.ts:447-483 | What every check and conclusion keeps: once a window has reached the limit, its count and the attempts in flight together stay below `limit + c` |
| FailureAttempts.OverlapReachesBound | src/access-keys-runtime.ts:463-480 | The bound is reached for every limit and every overlap |
| FailureAttempts.AllAtOnce | src/access-keys-runtime.ts:463-480 | However many attempts check before the first of them fails, twenty against a limit of ten for instance, all are let through and counted |
| FailureAttempts.SuccessesStartOver | src/access-keys-runtime.ts:483-483 | With a success after every `limit - 1` failures any number of failures is let through in one window, without overlap: three rounds give 27 for a limit of ten |
| CapsuleRateLimit.CapsuleRateLimiter.Consume | src/capsule-rate-limit.ts:17-24 | A key that is empty or longer than 1024 bytes in UTF-8, a limit that is not from 1 to 2^53 - 2 and a window that is not from one millisecond to a day are refused without counting; otherwise the table and decision are the specified ones |
| CapsuleRateLimit.Utf8LengthIsEncoded | src/capsule-rate-limit.ts:18-18 | The length that is compared is that of the key's UTF-8 form by section 3 of RFC 3629 |
| CapsuleRateLimit.FewKeysAreSpared | src/capsule-rate-limit.ts:13-24 | While no more keys are in use than the table has room for, none is ever evicted, which is what the rows below ask for |
| CapsuleRateLimit.TableTracks | src/capsule-rate-limit.ts:13-24 | The bounded table refines the ideal table for every key that is never evicted |
| CapsuleRateLimit.DecisionIsIdeal | src/capsule-rate-limit.ts:21-23 | Each decision and retry time is that of an unbounded table counting every use |
| CapsuleRateLimit.QuotaHolds | src/capsule-rate-limit.ts:21-23 | At most `limit` consumes succeed per window and at most `2 * limit` in any interval of one window length |
| CapsuleRateLimit.RetryAfterIsExact | src/capsule-rate-limit.ts:23-23 | `retryAfterMs` is the least whole number of milliseconds after which a new window opens |
| AdmissionRateLimit.AdmissionRateLimiter.Reconcile | src/admission-rate-limit.ts:9-21 | The same digest changes nothing; another keeps exactly the buckets of rules whose parameters are the same |
| AdmissionRateLimit.AdmissionRateLimiter.Consume | src/admission-rate-limit.ts:22-27 | Denied matches are counted too, with a saturated counter; the result is 0 or the whole seconds to wait |
| AdmissionRateLimit.IdOfKeyFor | src/admission-rate-limit.ts:16-23 | The rule id is recovered from a composed key |
| AdmissionRateLimit.BucketsBelongToActiveRules | src/admission-rate-limit.ts:9-27 | After any reloads and consumes every bucket belongs to an enabled rate-limit rule of the active generation with that rule's window, within the size bound |
| AdmissionRateLimit.ChangedRulesStartOver | src/admission-rate-limit.ts:15-19 | A changed or removed rule leaves no count behind for any address |
| AdmissionRateLimit.UnchangedRulesKeepCounting | src/admission-rate-limit.ts:15-19 | While a rule's parameters stay, its counts are those of a run without reloads |
| AdmissionRateLimit.NextKeeps | src/admission-rate-limit.ts:9-27 | Every reload and consume keeps the correspondence between buckets and active parameters |
| ScopeGrant.ScopeGrantMatches | src/auth-admission.ts:182-199 | True exactly when each `*` can stand for some, possibly empty, text so that the grant becomes the scope |
| ScopeGrant.GrantsSatisfyScopes | src/auth-admission.ts:201-203 | True exactly when every required scope is covered by some grant |
| ScopeGrant.SomeGrantMatches | src/auth-admission.ts:201-203 | True exactly when some grant covers the scope |
| ScopeGrant.PlaceInterior | src/auth-admission.ts:192-197 | The loop succeeds exactly when the remaining parts fit in order before the limit |
| ScopeGrant.FirstOccurrenceIsBest | src/auth-admission.ts:194-196 | Taking the first occurrence loses no match |
| ScopeGrant.GlobIsWoven | src/auth-admission.ts:182-199 | The recursive meaning of a grant equals weaving gaps between its literal parts |
| ScopeGrant.PlacementIsWoven | src/auth-admission.ts:183-183 | Parts placed in order are exactly parts woven with gaps |
| AddressText.SourceWordsAreMeant | src/client-address.ts:22-27 | Splitting at `::`, filling with zero groups and reading hexadecimal gives the words that section 2.2 of RFC 4291 means |
| AddressText.ExpandedKeeps | src/client-address.ts:17-21 | Writing a dotted tail as two hexadecimal groups keeps the meaning |
| AddressText.V6Lower | src/client-address.ts:16-16 | Lower-casing keeps the meaning |
| AddressText.TailIsDotted | src/client-address.ts:17-20 | In a literal with a dot, what follows the last colon is a dotted quad |
| ClientAddress.LongestZeroRun | src/client-address.ts:33-38 | The loop finds the longest run of at least two zero words, the first among equals |
| ClientAddress.FirstLongestIsUnique | src/client-address.ts:32-38 | The description of the run to compress leaves no choice |
| ClientAddress.ParseMeans | src/client-address.ts:9-42 | Parsing accepts exactly the literals of the grammar, which the length limit and the refused characters keep none of out, and gives the family, number and canonical text of what they denote, IPv4-mapped ones as IPv4 |
| ClientAddress.MappedTest | src/client-address.ts:28-28 | The shifted number is 0xffff exactly for the IPv4-mapped prefix of section 2.5.5.2 of RFC 4291 |
| ClientAddress.DottedMeans | src/client-address.ts:30-30 | A printed dotted quad is read back as its octets |
| ClientAddress.CompressedMeans | src/client-address.ts:39-41 | Printed IPv6 text, compressed or not, is read back as its eight words |
| ClientAddress.CanonicalRoundTrip | src/client-address.ts:9-44 | The canonical text parses to the same family and bits and is its own canonical text |
| ClientAddress.SameCanonicalText | src/client-address.ts:44-44 | Two literals share a canonical text exactly when they denote the same address, which is when they parse to the same family and bits |
| ClientAddress.CanonicalFollowsRfc5952 | src/client-address.ts:32-41 | Canonical IPv6 text has shortest lower-case groups and compresses exactly the run of sections 4.2.2 and 4.2.3 of RFC 5952 |
| ClientNetwork.MatchIsPrefix | src/client-address.ts:62-66 | A match is exactly: both valid, same family, and equal leading bits for the length of the prefix |
| ClientNetwork.ShorterPrefixMatchesMore | src/client-address.ts:46-66 | Shortening a valid prefix never loses a match |
| ClientNetwork.MappedNetworkAgrees | src/client-address.ts:52-55 | A network of a mapped literal with length 96+n matches exactly what the IPv4 network with length n matches |
| ClientNetwork.MappedLiteral | src/client-address.ts:28-31 | `::ffff:` before a dotted quad denotes the same IPv4 address |
| ClientNetwork.WholeAddressMatches | src/client-address.ts:50-57 | A network without a length holds exactly the literals of its own address |
| ClientNetwork.WithPrefixParses | src/client-address.ts:46-58 | Which texts with a prefix length are networks, and with which length |
| ClientNetwork.NetworksAreWritten | src/client-address.ts:46-58 | No other text is a network than a literal by itself, or with a slash and a length of at most 128 written without leading zeros |
| ClientNetwork.SamePrefix | src/client-address.ts:65-65 | Equality after the right shift is equality of the leading bits |
| AdmissionPath.ResolveSegments | src/admission-policy.ts:73-81 | The loop over the segments computes the specified stack |
| AdmissionPath.PathnameIsRfc | src/admission-policy.ts:68-83 | Every accepted rooted pathname becomes `remove_dot_segments` (section 5.2.4 of RFC 3986) of its decoded text |
| AdmissionPath.StackIsRfc | src/admission-policy.ts:73-82 | The segment stack and the RFC's two buffers agree at every stage, with trailing dots, empty segments and climbing above the root |
| AdmissionPath.PathnameIsResolved | src/admission-policy.ts:73-82 | The result has no dot segments, and a second pass of the loop leaves it unchanged |
| AdmissionPath.PathnameIsDecoded | src/admission-policy.ts:72-72 | The result holds no escape and no control character |
| AdmissionPath.AcceptedExactly | src/admission-policy.ts:68-73 | A pathname is accepted exactly when it begins with a slash, holds no backslash, question mark, hash, space or control character and no escaped slash or backslash, in either case, and decodes to text without escapes and control characters |
| AdmissionPath.SecondCall | src/admission-policy.ts:68-83 | Applying the whole function to its own result gives that result exactly when it holds no percent sign, space, backslash, question mark or hash; otherwise it throws |
| AdmissionPath.SecondCallRefusesSpace | src/admission-policy.ts:68-83 | The function as a whole is not idempotent: with any decoder that reads `/a%20b` as `/a b`, the first call gives `/a b` and the second one throws |
| AdmissionPath.OneSpaceDecodes | src/admission-policy.ts:68-83 | There is such a decoder |
| RuleMatching.MatchRule | src/admission-policy.ts:114-143 | For all fields that the headers were collected from: a rule is returned exactly when all its conditions are met by the request and every enabled rule before it fails one; it throws exactly at an enabled rule that fails none and leaves one in doubt; and none is returned exactly when every enabled rule fails a condition. What meets, fails or leaves in doubt a condition is said kind by kind from the request alone |
| RuleMatching.EvaluateRule | src/admission-policy.ts:116-138 | One rule's flags: refuted exactly when the request fails a condition, in doubt exactly when it leaves one open |
| RuleMatching.ConditionMeans | src/admission-policy.ts:116-138 | A network condition is in doubt exactly without a trusted address and true exactly when families agree and the leading bits are equal; a header value is in doubt exactly for two or more fields of the name and true exactly for one with that value; presence, query keys, methods, exact pathnames and prefixes by segments likewise |
| RuleMatching.MatchedExactlyWhenAllAgree | src/admission-policy.ts:114-143 | A rule, or none, is returned exactly when every way of resolving the indeterminate conditions makes plain first match give it |
| RuleMatching.ThrowsExactlyWhenTwoDisagree | src/admission-policy.ts:140-140 | It throws exactly when two resolutions disagree |
| RuleMatching.AnswerIsEveryAnswer | src/admission-policy.ts:114-143 | A returned answer is the first match under every resolution |
| RuleMatching.DoubtDisagrees | src/admission-policy.ts:139-141 | Taking every doubt as true and every doubt as false disagree when it throws |
| RuleMatching.CollectHeaders | src/admission-policy.ts:105-113 | Header fields are collected by name without joining or dropping duplicates |
| RuleMatching.CollectedIsValues | src/admission-policy.ts:105-113 | A name has exactly the values of its own fields in order |
| RuleMatching.PrefixIsBySegments | src/admission-policy.ts:84-86 | A prefix matches by whole segments; one that ends in a slash wants a further segment |
| ServiceGraph.ValidateContainerDependencies | src/container-services.ts:217-230 | Accepts exactly when there are at most eight container services, every entry is well formed and the graph is acyclic; acceptance gives a topological order, rejection its reason with a real cycle |
| ServiceGraph.Search.Visit | src/container-services.ts:220-228 | A visit ends with the name finished after everything it depends on, or exhibits a cycle through the names under way |
| ServiceGraph.Search.Explore | src/container-services.ts:223-227 | Marking, following both kinds of edges and finishing a name keeps the finished names in topological order |
| ServiceGraph.Search.VisitSources | src/container-services.ts:226-226 | Entries are read in order; the first malformed one stops the search |
| ServiceGraph.OrderedIsAcyclic | src/container-services.ts:217-230 | A topological order of every declared name leaves no cycle |
| ServiceGraph.CycleFound | src/container-services.ts:221-221 | Meeting a name under way closes a cycle along the current path |
| ServiceGraph.ParsedIsPrinted | src/container-services.ts:231-237 | An accepted entry is the text of its source |
| ServiceGraph.PrintedIsParsed | src/container-services.ts:231-237 | The text of a source is read back unless it is the declared service `container` with a suffix, which reads as an external container |
| ServiceGraph.EdgeMeans | src/container-services.ts:224-226 | The edges out of a service are its dependencies and the declared names in its `volumes_from`, with or without a suffix, where `container` counts without one only |
| ServiceGraph.CountIsContainers | src/container-services.ts:218-218 | What is compared with the limit is the number of container services |
| ServiceGraph.NameIsText | src/container-services.ts:235-235 | Which texts are names |
| LiveQuery.Tracker.RecordTableWrite | src/live-query-invalidation.ts:21-26 | A recording lands in the pending window and counts unless a live query is being evaluated |
| LiveQuery.Tracker.PublishDirtyTables | src/live-query-invalidation.ts:83-85 | Publication puts every table of a settled transaction into the pending window |
| LiveQuery.Tracker.TakeDirtyTables | src/live-query-invalidation.ts:88-92 | Taking hands out the pending window and starts an empty one; with the class invariant every recording lands in exactly one taken or pending window |
| LiveQuery.HistoryGrows | src/live-query-invalidation.ts:21-92 | Which window a recording belongs to is fixed when it is made |
| LiveQuery.RecordingCovers | src/live-query-invalidation.ts:66-80 | Every table a statement wrote is covered by what is recorded for it |
| LiveQuery.RecordingIsNarrow | src/live-query-invalidation.ts:66-80 | And no recording could be narrower: nothing is recorded exactly when nothing can have been written, one table exactly when no other can have been, and every table when any can |
| LiveQuery.LiveQueryNeedsRefresh | src/live-query-invalidation.ts:98-102 | True exactly for an unknown read set, a window of every table, or a shared table |
| LiveQuery.RefreshIsRightExactlyWhenIdentified | src/live-query-invalidation.ts:94-102 | The answer is right for every window if and only if the read set holds no unidentified read, or names every table there is |
| LiveQuery.HandedIsRight | src/server-runtime-source.ts:6668-6668 | With the caller's rule, which passes an unknown read set for one that holds `*`, the answer is right for every window, except that such a query also re-runs for the empty one |
| LiveQuery.UnidentifiedReadIsSkipped | src/live-query-invalidation.ts:94-102 | A read set that holds `*` is not refreshed by a window of one table, although the comment says that it always re-runs |
| LiveQueryRefresh.NoLostInvalidation | src/server-runtime-source.ts:6653-6753 | In every interleaving, once no visible write waits for publication, an idle subscription that the pending window misses has delivered what re-running its query would return |
| LiveQueryRefresh.DispatchLeavesNothingBehind | src/server-runtime-source.ts:6693-6713 | A dispatched window leaves every subscription re-running or up to date |
| LiveQueryRefresh.OtherTablesDoNotRerun | src/server-runtime-source.ts:6693-6749 | In every run in which only tables are written that a completed run has not read, its query is not run again: when its loop ends it is idle, and stays so with what it delivered |
| LiveQueryRefresh.RefreshAnnouncesWrites | src/server-runtime-source.ts:6741-6748 | What is counted while a refresh runs has been dispatched to every subscription by the time its pass ends, without another call |
| LiveQueryRefresh.EqualCountIsEmptyWindow | src/live-query-invalidation.ts:21-26 | While every recording is counted, an equal count means that the pending window is empty |
| LiveQueryRefresh.NothingLanded | src/server-runtime-source.ts:6741-6748 | A refresh during which nothing is counted ends without a dispatch |
| LiveQueryRefresh.NotSentTwice | src/server-runtime-source.ts:6743-6747 | A window that another caller has dispatched is not sent twice |
| LiveQueryRefresh.FirstRunEndsAlone | src/server-runtime-source.ts:6745-6747 | The first run of a subscription starts no dispatch |
| LiveQueryRefresh.UntrackedRerunsAll | src/server-runtime-source.ts:6696-6706 | Where tables are not tracked, every subscription runs again after a dispatch, whatever it has read: an idle one at once, and one that is running as soon as its pass ends |
| LiveQueryRefresh.NextKeeps | src/server-runtime-source.ts:6653-6753 | Every step of writes, publications, reads, completions and dispatches keeps results covered by what is still to come |
| LiveQueryRefresh.NotifiedIsSound | src/server-runtime-source.ts:6697-6712 | A window goes to a running query or is missed only by read sets it does not meet |
| LiveQueryRefresh.DecidedKeeps | src/server-runtime-source.ts:6739-6749 | The end of a run re-runs or drops its kept window only when that is safe, also when it dispatches a new window itself |
| LiveQueryRefresh.AppearKeepsCurrent | src/database-runtime.ts:2331-2424 | A write that becomes visible before its publication is held by its transaction's own set |
| LiveQueryRefresh.EvaluatesOnce | src/server-runtime-source.ts:6663-6668 | A query has at most one result on given contents |
| ReadinessScanner.Scanner.RetainStdout | src/dev-clamav-sidecar.ts:175-188 | After every chunk, readiness is proven exactly when the stream so far holds a newline-terminated line equal to the marker or the marker plus a carriage return, and at most marker length plus one characters are retained |
| ReadinessScanner.Scanner.RetainAll | src/dev-clamav-sidecar.ts:175-189 | The same for every way of cutting the stream into chunks |
| ReadinessScanner.ReadyByLines | src/dev-clamav-sidecar.ts:185-185 | A marker line at a position of the stream is a marker among its terminated lines |
| ReadinessScanner.SegmentTracks | src/dev-clamav-sidecar.ts:178-183 | A segment extends the partial line or overflows it |
| ReadinessScanner.NewlineTracks | src/dev-clamav-sidecar.ts:184-186 | A newline ends the partial line |
| RendererModule.Specialize | src/client-prerender.ts:769-855 | The helper is fresh; the text changes exactly when the wrapper's `require` is used otherwise than in calls with a literal; then sorting and splicing the replacements and the insertion gives exactly the text of the rewritten module with the helper's declaration after the directive prologue; and for modules that never write `require` the rewritten module means the same, for every amount of fuel |
| RendererModule.NoUseIsLeft | src/client-prerender.ts:800-823 | After the rewrite the wrapper's `require` is used only as the callee of calls whose first argument is a literal |
| RendererModule.LiteralCallsStay | src/client-prerender.ts:800-823 | Every call of the wrapper's `require` with a literal stays, in its order |
| RendererModule.StmtsHaveEdits | src/client-prerender.ts:800-823 | There is a replacement exactly when there is such a use |
| RendererModule.PrologueIsAllDirectives | src/client-prerender.ts:857-870 | The prologue is the longest sequence of directives that the module begins with |
| RendererModule.ModuleEdited | src/client-prerender.ts:837-854 | The replacements, and the replacements with the insertion, substitute to the rewritten module's text |
| RendererModule.StmtsContain | src/client-prerender.ts:769-770 | A name that a module mentions is in its text, so a name its text does not contain is fresh |
| RequireMeaning.RewriteKeepsMeaning | src/client-prerender.ts:693-855 | For modules that never write `require`, with the fresh helper bound to the module's `require`: same values, same modules required in the same order, same failures, for every amount of fuel |
| RequireMeaning.ExprAgrees | src/client-prerender.ts:789-823 | Evaluating a rewritten expression gives the rewritten outcome |
| RequireMeaning.StmtsAgree | src/client-prerender.ts:871-931 | Executing rewritten statements gives the rewritten outcome |
| RequireMeaning.BodyEntered | src/client-prerender.ts:912-930 | Entering a function body binds `require` exactly where the static scopes say so |
| RequireMeaning.ParamsFilled | src/client-prerender.ts:924-930 | Fallbacks of parameters see the parameters and not the body |
| RequireRewrite.ExprEdited | src/client-prerender.ts:789-823 | The replacements of an expression substitute to the rewritten expression's text, and each replaces the word `require` where no scope of its chain binds it |
| RequireRewrite.StmtsEdited | src/client-prerender.ts:818-823 | The same for statements, with the scope chains of blocks and functions |
| RequireRewrite.ChainsAgree | src/client-prerender.ts:958-963 | Looking a name up along the scope chain is being bound by an enclosing declaration |
| RequireRewrite.FreshHelper | src/client-prerender.ts:769-770 | The shortest name with added underscores that the text does not contain |
| TextEdits.SpliceAll | src/client-prerender.ts:850-853 | Splicing sorted replacements one by one from right to left equals substituting all of them at once |
| TextEdits.SortedSorts | src/client-prerender.ts:851-851 | The sort orders by start and keeps every replacement |
| TextEdits.InsertionGoesLast | src/client-prerender.ts:839-851 | The stable sort puts the insertion last even when a replacement starts at its very offset |
| SecretFence.CredentialStore.Resolve | src/container-services.ts:296-326 | Resolving never changes or drops a stored secret, gives every declared name a usable one, and marks the file with its generation; it is refused, without effect, exactly when a declared stored secret is unusable |
| SecretFence.CredentialStore.ResolveService | src/container-services.ts:302-321 | One service's secrets: stored ones are kept, repeated names share one, new ones are drawn |
| SecretFence.CredentialStore.Finalize | src/container-services.ts:330-347 | Finalizing keeps exactly the declared secrets with their values; it succeeds exactly when the file is still the generation that the start resolved and every declared secret is the one it was given |
| SecretFence.SecretIsHex | src/container-services.ts:311-311 | A usable secret is 64 lower-case hexadecimal digits |
| SecretFence.FinalizedStartWasLast | src/container-services.ts:323-347 | In every run: a start whose finalization succeeds was the last to resolve, and what is then stored is what it resolved |
| SecretFence.SecretsAreNeverRotated | src/container-services.ts:301-347 | In every run a stored secret keeps its value as long as every finalization declares it |
| PolicyReload.Loader.Load | src/admission-policy.ts:216-225 | A load makes the read policy active and reports loaded or recovery, or keeps the active one and reports a failure; only a cold failure is thrown |
| PolicyReload.Loader.Activate | src/admission-policy.ts:210-215 | Activation takes over a degraded predecessor and reports once |
| PolicyReload.LastGoodStaysActive | src/admission-policy.ts:216-225 | In every run the policy of the last load that succeeded is active, and the health is degraded exactly while the last load failed |
| PolicyReload.RecoveriesFollowFailures | src/admission-policy.ts:198-225 | In every run each failure is counted and reported, no recovery is reported before activation, and two recoveries have a failure between them |
| PolicyReload.EventsTellTheHealth | src/admission-policy.ts:198-205 | In every run the last event that was reported tells the health of an activated loader, and a loader opened active never reports a policy as loaded with the health that it reported just before |
| PolicyReload.ReloadReports | src/admission-policy.ts:216-225 | After every run: the first load that succeeds after a failure is reported as a recovery, another one as loaded and only when the health changes, and a load that fails as a failure |
| PolicyReload.ActivationReports | src/admission-policy.ts:210-215 | What activation reports: a recovery exactly from a degraded predecessor or an own failure |
| ScopeCollection.CollectReplacements | src/client-prerender.ts:693-835 | Both passes over a module: the bindings and the table filled in place, with hoisting into records made earlier, answer every lookup as the enclosing declarations do, and the replacements pushed are the specified ones |
| ScopeCollection.Collector.CollectStmts | src/client-prerender.ts:871-931 | Collecting a list of statements adds exactly its lexical names to its scope and its hoisted names to the function around it, completes every scope it opens, and records each identifier with a scope that will bind `require` exactly where a declaration does |
| ScopeCollection.Collector.BindHoisted | src/client-prerender.ts:912-920 | A var binds in the nearest function scope, except that the module's own function keeps the wrapper's names free |
| ScopeCollection.Collector.NearestFunctionScope | src/client-prerender.ts:952-956 | Walking up finds the innermost function scope |
| ScopeCollection.Collector.ScopeBindsRequire | src/client-prerender.ts:958-963 | Walking up the completed records finds a binding exactly when one of them holds it |
| ScopeCollection.Collector.VisitStmts | src/client-prerender.ts:778-823 | The second pass pushes exactly the specified replacements |
| ScopeCollection.FunctionPart | src/client-prerender.ts:887-930 | The three scopes of a function are complete after its parameters and body were visited |

## Left out

- Real input and output, processes, sockets, timers, Docker, esbuild, Vite and parse5; they appear as abstract steps or not at all.
- Cryptography, SQL text and the database adapters: named adapter methods are map operations inside atomic steps.
- Branches of `reconcileOAuthRegistrationKeysOnAdapter` and `rotateOAuthRegistrationKey` that only a lost race could reach: serializable transactions never take them.
- Steps of `CredentialFence` other than sign-in, reset, own change and issuing, and all of `LiveQueryRefresh`, as updates in place: they are functions from state to state, which do not show the order of writes inside one step.
- The access counter that the two Microsoft caches share (each model has its own, which orders its entries alike), and the collation of cache keys, which are numbers here.
- SQL `LIKE` without letter case: key ids are compared with `LIKE` wildcards but with exact letters.
- Throttling, audits and mail in the email protocols: they neither grant nor remove authority.
- `setEmailPassword` as a step that evicts Sessions: by design the trusted server call changes the password only; it is a step of the fence without eviction.
- An editor that saves through an older descriptor after opening a newer one, for which the main property fails (`OlderDescriptorLoses`), or makes hard links itself.
- Lines of the journal that are written in part, its record of temporaries and `finishPreservedFileAttempt`, which removes them.
- Ownership, modes, symbolic links and parent directories in `deploy-files.ts`; `resolveDeployFiles` and its path conflicts.
- Scope objects as references: a scope is its index in a table of records, and a node is its offset, for identifiers only.
- RendererModule.Specialize: does not model the rewriting of `module.require`, `module`, `__dirname`, `__filename` and of a written `require`, because what these names hold belongs to the module loader, which the interpreter does not have.
- Classes, loops, labels, destructuring, `with`, `eval`, imports, exports, Annex B hoisting, template literals and `#!` lines.
- Escapes in string literals of the core language: literals are printed between quotes as they are.
- Constants: the core language's `let` stands for `let` and `const`, and assignment to a constant is not rejected.
- UTF-8 decoding of a character that two chunks share: chunks are text, and such characters never occur in the marker.
- Reading and validating a policy file in `openAdmissionPolicy`, its timer and the sharing of a reload under way: a load is an outcome.
- Query decoding and the checks of method, query and header syntax before rule matching: the request is taken as checked and normalized.
- Validation of service declarations other than their graph; pinning of external mounts.
- In the credentials file: values that are not generated, the refusal of NUL and of more than 64 KB, and the file lock, which makes each update one step.
- Names inherited from `Object.prototype` as service names.
- The promise tracking of `acl-runtime.ts`, telemetry, log envelopes, webhook normalizers, mail and AI clients, content security policy and configuration validators.
