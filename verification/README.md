# KeyHub in Dafny

KeyHub keeps credentials encrypted under a master password and proxies calls to language-model providers with
the keys it stores. This project models its four stateful parts and proves what holds over whole runs of them.

**The vault and the versioned store** (`Crypto`, `Vault`, `Operations`, `Runtime`, `Store`, `PlainStore`,
`Refinement`, `Versions`, `Races`, `RWLock`, `BackupFile`, `Backup`, `Restore`). `Runtime`, `Store` and `Backup` hold the classes and
methods in the form the program has; each method is proved equal to a function of `Vault` or `Backup` on the state, and
`Operations` says field by field what those functions do.
Encryption is symbolic, octet by octet, so that `Open` accepts exactly what `Seal` made; the version octet, flag,
nonce, associated-data framing, compression and the fallback chain are laid out as the program does. The main
result is a refinement: under any sequence of operations, password changes included, the encrypted store shows
exactly what a plaintext store with versions shows (`Refinement.RunRefines`), and every value a credential ever
held is at most one rollback away (`Versions.EveryValueRestorable`). The readers/writer lock is a machine whose
steps are the statements of the threads.

**The balancer and circuit breaker** (`Balancer`, `Selection`, `Marks`, `BreakerRuns`, `Probes`, `Fairness`). The maps and the status column of the
key table are one state; picks, marks and clean-up are functions on it, realised by the methods of
`Balancer.KeyBalancer`. `Selection` says which key a pick returns, `Marks` what picks and marks do to counts, maps and
rows.

**The retry loops** (`Slots`, `Proxy`, `SyncProxy`, `Tracker`, `Budget`). What the database, the upstream and the
consumer do is a script handed to the call; the call records every permit and slot it takes or gives back and every
item it yields, and the theorems are about that record.

**Windows, back-off and the cache** (`KeyLimit`, `RateLimit`, `Cache`, `CacheOrder`,
`CacheHeld`). The classes prune and evict
as the program does; the theorems are about full, unpruned histories.

## What the proofs turned up

Where a property one would expect does not hold, the code was kept as it is and the exact condition was proved.

- `chat` gives its permit back twice when it falls back to another provider, and keeps it when an exception escapes, be
  it with a key in hand or out of the pick itself (keyhub/llm/proxy.py:258-443): `SyncProxy.SyncCall.Chat` says exactly
  when a call takes and gives in balance, and when only its totals do, because a permit given twice makes up for one
  that was kept.
- `chat_stream` keeps the permit when the consumer leaves at the report of a broken stream, and the slot of a
  fallback key whose provider is not configured (keyhub/llm/proxy.py:526-529, 719, 743): both directions in
  `Proxy.StreamCall.ChatStream`. A pick that raises does it no harm.
- A key whose status is `circuit_breaker` is healed only while the in-memory maps still know it, so not after a
  restart (keyhub/llm/balancer.py:142-168): `BreakerRuns.TrippedKeyHeals`.
- The opening of a key's breaker is respected, with no pick in its first half and one probe at most in its second, if and
  only if a probe is out or the table does not call that key active (keyhub/llm/balancer.py:185-228). After a trip that
  is: if its status was committed, or the key was not active before; what other keys do and whether their statuses are
  committed makes no difference (`Probes.OneProbeIff`, `Probes.OneProbePerOpening`). Otherwise every pick in the second
  half may return the key, however many there are (`Probes.ActiveKeyIsProbedFreely`).
- Whatever reads the store before a password change and acts on it afterwards, or reads it under the change and is
  overtaken, goes wrong (module `Races`). `unlock` derives its key from parameters read before it takes the lock
  (keyhub/runtime.py:159-173). A second password change that has verified the old password commits even when that is no
  longer the password (keyhub/runtime.py:222-248). An update, a rollback or a creation that writes after the change
  takes ciphertexts from before (keyhub/store.py:101-103, 185-201, 291-323): each of them is legible if and only if the
  key it was sealed under is still in force at the write, so that the value replaced is lost when the row was read
  before the change, even when the new value is not. An operation that has done its encrypting and commits while the
  change is at work (keyhub/runtime.py:254-291) is undone: of a row the change has selected, exactly the value it
  selected and the log entries it found survive, and of a row it has not selected, nothing (`Races.OverlappedChangeIff`).
  A reveal or an export that reads a row before the change and decrypts after it fails on an intact credential.
- The two request limiters read the clock before they take their lock (keyhub/llm/keylimit.py:86-87, 130-131,
  keyhub/ratelimit.py:131-133), so readings may be used out of order. If they are late by at most a given skew, the
  limits on requests and the bound on tokens hold over any 60 seconds less the skew, and over no longer interval:
  `KeyLimit.RpmBoundIff`, `KeyLimit.TpmBoundIff`, `RateLimit.TokenRpmBoundIff` (a limit of one request holds over 60).
- The cache misses an entry that is set and unexpired if and only if at some moment since as many other keys as fit had
  been set or hit, and not been found expired, since its last use: `CacheHeld.AnswersExactly`. An entry found expired
  makes room again, so counting the keys used since is not enough.
- A change may set an empty value, which the schema of a new credential refuses (keyhub/schemas.py:18, 33); a
  backup holding one cannot be restored: `Restore.RestoreIntoEmpty`.
- An import with overwrite removes the credential before it knows that it can create the new one
  (keyhub/backup.py:186-211): `Backup.FailedOverwriteLoses`.
- A ciphertext of the old format whose nonce starts with 0x01 is read as the new format and rejected
  (keyhub/crypto.py:147): `Crypto.RoundTrip`, `Crypto.OpensLegacy`.

Code and documentation disagree in two places, and the model follows the code. Line 26 of the repository's README.md
says the pepper is mixed in by XOR; the code runs HKDF (keyhub/crypto.py:81-96; here the key is a function of
password, parameters and pepper). Line 35 promises recovery by probing; the code gives it to tripped keys only, not to
keys with status `error` or `rate_limited` (`BreakerRuns.QueryIsEligibility`).

## Assumptions

- The AEAD and the key derivation are perfect, compression is lossless (`Crypto.Lossless`).
- The salt of a password change is new, so nothing stored was sealed under the new key (`Refinement.FreshDraws`);
  a newly drawn rotation identifier is not one the credential already has (`Versions.FreshVersion`).
- Text is its UTF-8 octets. Nonces, identifiers, salts and clock readings are arguments.
- Clock readings: `LoginRateLimiter` and `ResponseCache` read the clock inside their lock (keyhub/ratelimit.py:49-80,
  keyhub/llm/cache.py:40-60), the first a monotonic one, so `RateLimit.LetThrough` has them in order; the second a wall
  clock, and `Cache.UnexpiredIsHeld`, `Cache.AnswersLikeTimedMap` and `CacheHeld.AnswersExactly` need that it has not been
  set back behind an earlier reading (`Cache.NotSetBack`), the other results about the cache do not. `KeyRateLimiter` and
  `TokenRateLimiter` read it outside, and their bounds are stated for readings out of order by any skew
  (`KeyLimit.Skewed`, `RateLimit.Skewed`). The balancer's picks and marks are taken one after another
  (`Probes.Timed`).
- A transaction happens at once; whether its commit goes through is an argument where the program reacts to it.

## Model

| member | source | states |
|---|---|---|
| `Crypto.Open` | keyhub/crypto.py:157-163 | the AEAD opens a ciphertext if and only if it was sealed under this key, nonce and associated data, and then yields what was sealed |
| `Crypto.OpenSeal` | keyhub/crypto.py:126-137 | opening a sealed text under any key, nonce and associated data gives the plaintext when all three agree and nothing otherwise |
| `Crypto.FrameInjective` | keyhub/crypto.py:128 | the v1 associated data determines context and flag |
| `Crypto.AadInjective` | keyhub/store.py:39-40 | "id:name" determines both parts, identifiers being free of colons |
| `Crypto.AadCollides` | keyhub/store.py:39-40 | without that guard two different pairs give the same context |
| `Crypto.OpensOwnV1` | keyhub/crypto.py:112-160 | a v1 ciphertext, compressed or not, opens under exactly its own key and context and yields exactly its plaintext; otherwise the tag is rejected |
| `Crypto.OpensLegacy` | keyhub/crypto.py:133-163 | a v0 ciphertext opens, in any context, if and only if the key is its own and its nonce does not start with 0x01 |
| `Crypto.TruncatedCannotOpen` | keyhub/crypto.py:154-157 | the tail left by slicing a v0 ciphertext as v1 is never accepted |
| `Crypto.RoundTrip` | keyhub/crypto.py:112-163 | decrypt undoes encrypt for every plaintext and context, and without context exactly when the nonce permits |
| `Crypto.FallbackIsExact` | keyhub/store.py:71-80 | the three-step fallback yields the original plaintext or fails, never another; a v1 ciphertext moved to another id or name is rejected |
| `Crypto.StrangerCannotOpen` | keyhub/store.py:71-80 | a blob no octet of which was sealed under a key fails the whole fallback under that key |
| `Crypto.OneKeyOpens` | keyhub/store.py:71-80 | two keys under which a blob opens are the same key |
| `Crypto.BoundLayout` | keyhub/crypto.py:112-132 | a bound ciphertext octet by octet; its text is deflated, and flagged so, if and only if it is longer than 256 octets and shorter deflated |
| `Crypto.UnboundLayout` | keyhub/crypto.py:133-137 | an unbound ciphertext octet by octet, never deflated |
| `Crypto.ShortIsRefused` | keyhub/crypto.py:143-149 | exactly what is too short to be looked at |
| `Crypto.FlagDecides` | keyhub/crypto.py:150-160 | a bound text is inflated if and only if the low bit of its flag is set |
| `Vault.FindRotation` | keyhub/store.py:297-303 | finds a log entry with the identifier, or there is none |
| `Operations.CreateFields` | keyhub/store.py:83-126 | exactly when each error arises, and every field of the row created; nothing else changes |
| `Operations.UpdateFields` | keyhub/store.py:183-229 | exactly when each error arises; a field that the change gives is what the row then holds, one that it does not give is as before, value, log entry and time change with the value only; id, kind, LLM part, deletion and all other rows stay |
| `Operations.UpdateAmends` | keyhub/store.py:204-211 | metadata, expiry, rotation period and tags, each as given or as before |
| `Operations.RotationKeepsAttributes` | keyhub/store.py:232-237 | a rotation changes no attribute |
| `Operations.RollbackFields` | keyhub/store.py:288-335 | exactly when each error arises; value, time and log change, every attribute stays |
| `Operations.DeleteFields` | keyhub/store.py:240-248 | only the mark of deletion changes |
| `Operations.RevealOutcome` | keyhub/store.py:161-180 | exactly when a value is shown and which error is given otherwise |
| `Operations.KeyDependsOnAll` | keyhub/crypto.py:81-107 | two derived keys are equal if and only if password, parameters and pepper are |
| `Operations.UnlockFields` | keyhub/runtime.py:156-173 | the right password and no other installs the key of the stored parameters; nothing else changes |
| `Operations.ChangePasswordGuards` | keyhub/runtime.py:217-301 | exactly which guard a password change fails, in order, and what is installed when it fails none |
| `PlainStore.FindVersion` | keyhub/store.py:297-303 | the plaintext store finds the first version with the identifier, or there is none |
| `Operations.PlainUpdateFields` | keyhub/store.py:183-229 | the same of the item of the plaintext store: each field as given or as before, the old value a version of the history |
| `Refinement.CreateRefines` | keyhub/store.py:83-126 | creating a credential has the outcome and effect it has on the plaintext store, each error case included |
| `Refinement.UpdateRefines` | keyhub/store.py:183-229 | the same for updates: the value set is the one that reads back, the outgoing one goes to the history |
| `Refinement.RollbackRefines` | keyhub/store.py:288-335 | the same for rollbacks: the chosen version becomes the value, the current one a version |
| `Refinement.FindCorresponds` | keyhub/store.py:297-303 | a version is found in the encrypted log where it is found in the plaintext history |
| `Refinement.RotateCorresponds` | keyhub/store.py:194-219 | moving the current ciphertext to the log is, in plaintext, moving the value to the history |
| `Refinement.RekeyedVersion` | keyhub/runtime.py:273-284 | a history entry says under the new key what it said under the old one, illegible entries staying illegible |
| `Refinement.RekeyedItem` | keyhub/runtime.py:260-284 | re-encryption keeps what a live credential and its whole history say |
| `Refinement.ForgottenItem` | keyhub/runtime.py:257-259 | a row that is not re-encrypted becomes illegible under the new key, values and history |
| `Refinement.ChangePasswordRefines` | keyhub/runtime.py:191-306 | the password change, in every outcome, is that of the plaintext store |
| `Refinement.StepRefines` | keyhub/store.py:83-335 | every operation has on the encrypted store the outcome and effect it has on the plaintext store |
| `Refinement.RunRefines` | keyhub/store.py:83-335 | so over every run, password changes, locks and unlocks included: all outcomes and the final state agree, and an unlocked vault always holds the stored parameters' key |
| `Versions.StepKeeps` | keyhub/store.py:183-335 | no operation makes a value of a live credential unrestorable or brings a deleted one back |
| `Versions.StepKeepsUnique` | keyhub/store.py:183-335 | rotation identifiers stay unique within a credential |
| `Versions.RunKeeps` | keyhub/store.py:83-335 | over every run, what was restorable, or was ever held, is restorable at the end |
| `Versions.RestorableNow` | keyhub/store.py:161-180 | a restorable value of a live credential is what reveal shows, or what it shows after one rollback |
| `Versions.EveryValueRestorable` | keyhub/store.py:288-335 | every value a credential held at any point of a run is its value at the end or one rollback away from it |
| `Versions.ChangePasswordAllOrNothing` | keyhub/runtime.py:191-306 | success exactly when the guards hold, every live row is legible and the commit goes through; then the count is the number of live rows, meanings are kept, illegible entries and deleted rows are untouched and the new password unlocks; otherwise nothing has changed |
| `Versions.BlindChangeForgets` | keyhub/runtime.py:254-255 | with re-encryption off, a change that goes through leaves no value legible |
| `Races.UnlockMatchesIff` | keyhub/runtime.py:156-173 | the installed vault fits the store if and only if parameters and hash are still those that were read |
| `Races.StaleUnlockIsBlind` | keyhub/runtime.py:156-173 | when a password change commits in between, no live credential can be revealed |
| `Races.UndisturbedChange` | keyhub/runtime.py:222-301 | with nothing committed since it selected its rows, the split password change is the password change |
| `Races.StaleChangeIff` | keyhub/runtime.py:222-301 | with nothing committed since it selected its rows, a change that has verified its password does what one starting then would do if and only if that is still the password or the store is locked; otherwise it commits all the same, keeping every live value |
| `Races.RekeyedLateHistory` | keyhub/runtime.py:273-284 | of a row's log, exactly the entries the change found are legible under the new key |
| `Races.OverlappedChangeIff` | keyhub/runtime.py:254-301 | whatever has committed since the change selected its rows: of a row it selected exactly the value it read and the entries it found survive, of any other row nothing |
| `Races.UpdateUnderChangeIsLost` | keyhub/runtime.py:254-301 | an update that commits in between shows its value and then loses it: the row is back at its old value, and exactly what could be restored before can be restored |
| `Races.LateRevealIff` | keyhub/store.py:163-178 | a reveal that took the row before shows the value if and only if the key it decrypts under is still the one of the row |
| `Races.LateExportIff` | keyhub/backup.py:78-84 | an export goes through if and only if the key stayed the same for every live row |
| `Races.UndisturbedWrites` | keyhub/store.py:183-335 | with nothing in between, the split update and rollback are the operations |
| `Races.LegibleUnderItsKey` | keyhub/store.py:71-80 | what is legible under one key is illegible under any other |
| `Races.LateWriteShows` | keyhub/store.py:200-219 | what a row shows after ciphertexts from before are written into it: value, and history with the outgoing one added |
| `Races.LateUpdateIff` | keyhub/store.py:185-229 | the new value can be shown if and only if it was encrypted under the key in force at the write; the replaced one stays restorable if and only if the key has not changed since the row was read, unless it is the new value or an older version; nothing else is gained or lost |
| `Races.LateRollbackIff` | keyhub/store.py:290-327 | the version rolled back to can be shown if and only if the key has not changed since its entry was read, and the value it replaces stays restorable if and only if it has not changed since the row was read, the two being read one after the other; nothing else is gained or lost |
| `Races.LateCreateIff` | keyhub/store.py:101-103 | a credential can be revealed if and only if it was encrypted under the key in force when its row is committed |
| `Races.StaleUpdateIsBlind` | keyhub/store.py:185-201 | across a password change, all that is left is what the old history holds, and the new value only if it was encrypted after the change |
| `Runtime.CryptoVault.EncryptText` | keyhub/crypto.py:112-137 | encrypts under the vault's key; a zeroed vault refuses |
| `Runtime.CryptoVault.DecryptText` | keyhub/crypto.py:139-163 | decrypts under the vault's key; a zeroed vault refuses |
| `Runtime.CryptoVault.DecryptWithFallback` | keyhub/store.py:71-80 | tries bound, then unbound, then unbound again |
| `Runtime.CryptoVault.Zero` | keyhub/crypto.py:165-167 | the key is gone |
| `Runtime.KeyHub.EncryptText` | keyhub/runtime.py:117-120 | encrypts under the current vault, or fails when locked |
| `Runtime.KeyHub.DecryptText` | keyhub/runtime.py:122-125 | decrypts with the fallback under the current vault, or fails when locked |
| `Runtime.KeyHub.UnlockWith` | keyhub/runtime.py:156-173 | a new vault with the stored parameters' key for the right password, no change for a wrong one |
| `Runtime.KeyHub.LockNow` | keyhub/runtime.py:177-181 | the vault is zeroed and then dropped |
| `Runtime.KeyHub.RekeyHistory` | keyhub/runtime.py:273-284 | the loop over the log rewrites exactly the legible entries |
| `Runtime.KeyHub.RekeyRows` | keyhub/runtime.py:256-284 | the loop over live rows succeeds exactly when all are legible, and then has rewritten and counted each once |
| `Runtime.KeyHub.ChangeMasterPassword` | keyhub/runtime.py:191-306 | the whole new state, or the old one unchanged with its vault still usable; on success the old vault is zeroed and a fresh one installed |
| `Store.CreateCredential` | keyhub/store.py:83-126 | the new state and outcome, with the errors in the order the code meets them |
| `Store.UpdateCredential` | keyhub/store.py:183-229 | the new state and outcome, as an update that may rotate; each attribute as given or as before |
| `Store.RotateCredential` | keyhub/store.py:232-237 | is an update of the value alone and leaves every attribute as it was |
| `Store.RollbackCredential` | keyhub/store.py:288-335 | the new state and outcome of a rollback |
| `Store.DeleteCredential` | keyhub/store.py:240-248 | marks the row deleted |
| `Store.RevealCredential` | keyhub/store.py:161-180 | shows the value of a live row, or says why not |
| `RWLock.InitHolds` | keyhub/runtime.py:40-43 | the invariant of the lock holds at the start |
| `RWLock.StepKeepsCounts` | keyhub/runtime.py:45-70 | every step keeps the counters equal to the number of threads inside |
| `RWLock.StepKeepsExclusive` | keyhub/runtime.py:45-70 | every step keeps writers alone |
| `RWLock.StepKeepsWakeups` | keyhub/runtime.py:45-70 | every step keeps: a sleeping thread has someone inside to wait for, or someone about to wake it |
| `RWLock.ReadVaultIsClean` | keyhub/runtime.py:117-125 | a vault that a thread inside takes up has not been zeroed |
| `RWLock.StepKeepsInv` | keyhub/runtime.py:40-306 | every statement of every thread keeps the whole invariant |
| `RWLock.LockIsCorrect` | keyhub/runtime.py:40-70 | in every reachable state: at most one writer, never with a reader, counters right; and in every one, unless a thread is just about to notify all, a sleeping reader has a writer inside to wait for and a sleeping writer has someone inside |
| `RWLock.VaultStaysUsable` | keyhub/runtime.py:117-306 | the vault a thread works with stays in service and is not zeroed until its section ends, in every interleaving of encrypt, decrypt, unlock, lock and password change |
| `RWLock.CanMoveSound` | keyhub/runtime.py:40-70 | a thread that is said to be able to move has a step that changes the state |
| `RWLock.SomeoneCanMove` | keyhub/runtime.py:40-70 | no deadlock: while a thread is under way, some thread can take a step |
| `BackupFile.Be32RoundTrip` | keyhub/backup.py:122 | a 32-bit length is read back from its four octets |
| `BackupFile.BigEndian` | keyhub/backup.py:122 | the most significant octet of a length comes first |
| `BackupFile.ParseWritten` | keyhub/backup.py:116-156 | parsing the written file returns the parameters, nonce and ciphertext |
| `BackupFile.ParseVerdict` | keyhub/backup.py:144-156 | exactly which files are refused for their magic, their version or their length, and how any other falls apart |
| `BackupFile.BackupRoundTrip` | keyhub/backup.py:103-166 | reading a backup yields the payload with the right password and fails with any other |
| `BackupFile.FullBackupRoundTrip` | keyhub/backup.py:232-311 | the same for the whole-database format |
| `BackupFile.FullVerdict` | keyhub/backup.py:287-299 | exactly which whole-database backups are refused before a key is tried |
| `BackupFile.FullKeyDepends` | keyhub/backup.py:232-242 | the key takes password and salt, at the costs the format fixes |
| `Backup.ExportBackup` | keyhub/backup.py:71-101 | succeeds exactly when unlocked with every live row legible, and then holds each live credential exactly once |
| `Backup.ImportEntry` | keyhub/backup.py:172-215 | one pass of the merge loop: the new state and what it counts as |
| `Backup.ImportBackup` | keyhub/backup.py:170-229 | the loop, its counters and its first failure are those of the merge function |
| `Backup.StopsThere` | keyhub/backup.py:170-215 | after a failure nothing further is imported |
| `Backup.ImportOneEffect` | keyhub/backup.py:172-215 | one entry leaves other names alone and gives this one to the winner |
| `Backup.ImportMerges` | keyhub/backup.py:170-229 | after an import that goes through every name has the existing credential or the backup's as the flag says, also when the backup names it more than once, and other names are left alone |
| `Backup.ImportCounts` | keyhub/backup.py:170-229 | imported + skipped + overwritten is the number of entries processed |
| `Backup.ImportTallies` | keyhub/backup.py:170-229 | imported are exactly the entries that meet no live credential of their name; all others are overwritten or, without the flag, skipped |
| `Backup.CountsAs` | keyhub/backup.py:185-215 | what one entry counts as |
| `Backup.Winner` | keyhub/backup.py:170-215 | the entry a name ends up with: with overwrite its last, without it its first, and none where a live credential stays |
| `Backup.FailedOverwriteLoses` | keyhub/backup.py:186-211 | an overwrite loses the existing credential if and only if the entry is refused by the schema, lacks its provider or clashes with another label |
| `Backup.ImportOneFails` | keyhub/backup.py:194-211 | exactly why an entry is refused: by the schema, for lack of a provider, or because another row has its provider and label |
| `Restore.StepKeepsWellKept` | keyhub/store.py:105-120 | every operation keeps LLM parts complete and provider/label pairs unique |
| `Restore.RunKeepsWellKept` | keyhub/store.py:83-335 | so does every run |
| `Restore.ExportIsComplete` | keyhub/backup.py:78-101 | an export names exactly the live credentials |
| `Restore.NextEntryGoesIn` | keyhub/backup.py:194-211 | entries of one export never stop each other; only an empty value stops one |
| `Restore.RestoreIntoEmpty` | keyhub/backup.py:71-229 | restoring an export into an empty vault goes through if and only if no live credential holds the empty value, and then brings back exactly the live credentials, each with kind, value, metadata, rotation period and LLM part |
| `Restore.RestoreFromFile` | keyhub/backup.py:71-229 | the same from vault to file to vault: the file can be read with its own password only, and what is read restores everything |
| `Balancer.Filter` | keyhub/llm/balancer.py:190-212 | the rows returned are exactly those that meet the query's conditions |
| `Selection.FilterExactly` | keyhub/llm/balancer.py:190-212 | each row that meets them once, and in table order |
| `Balancer.HealAll` | keyhub/llm/balancer.py:158-166 | every tripped row that has expired is made active, no other row changes |
| `Balancer.TopPriority` | keyhub/llm/balancer.py:219 | the highest priority among the candidates |
| `Balancer.Tripped` | keyhub/llm/balancer.py:222 | exactly the candidates in circuit_breaker |
| `Balancer.LeastProvider` | keyhub/llm/balancer.py:267-271 | a provider of some candidate that no other sorts before |
| `Balancer.Best` | keyhub/llm/balancer.py:229-237 | a candidate that none is ahead of in latency, cost or calls in flight, ties going by identifier |
| `Balancer.SetStatus` | keyhub/llm/balancer.py:288-292 | exactly the key's row gets the status and cooldown |
| `Balancer.PlaceIsRemainder` | keyhub/llm/balancer.py:239-242 | the place a cursor points to is its remainder by the size of the group |
| `Selection.TopIsHighest` | keyhub/llm/balancer.py:219-220 | the group selected among is exactly the candidates of highest priority, each once and in table order |
| `Selection.SelectsHighest` | keyhub/llm/balancer.py:218-242 | the key selected is a candidate, and none has a higher priority |
| `Selection.TrippedComesFirst` | keyhub/llm/balancer.py:222-225 | the first tripped key of the group is selected, and claimed if it was not; nothing else changes |
| `Selection.StrategyDecides` | keyhub/llm/balancer.py:226-242 | with none tripped, the key of least latency, cost or load, equal ones by identifier, or the one at the cursor, which then moves on |
| `Selection.PickIsHighest` | keyhub/llm/balancer.py:244-255 | a pick returns nothing only if no key of the provider is eligible, otherwise an eligible one than which no eligible key of the provider has a higher priority |
| `Selection.FallbackIsHighest` | keyhub/llm/balancer.py:257-276 | the fallback returns nothing only if no key of another provider is eligible, otherwise an eligible one of the first such provider in sorted order, of highest priority there |
| `Balancer.KeyBalancer.CbState` | keyhub/llm/balancer.py:88-100 | the phase of a key's breaker |
| `Balancer.KeyBalancer.RecordFailure` | keyhub/llm/balancer.py:102-111 | counts a failure and opens the breaker from the threshold on |
| `Balancer.KeyBalancer.ReleaseSlot` | keyhub/llm/balancer.py:133-140 | gives one slot back, never going below zero |
| `Balancer.KeyBalancer.CleanupExpired` | keyhub/llm/balancer.py:142-168 | expired entries leave all three maps whether or not the table update goes through |
| `Balancer.KeyBalancer.QueryActiveKeys` | keyhub/llm/balancer.py:170-213 | cleans up and returns the rows of the query, in table order |
| `Balancer.KeyBalancer.SelectKey` | keyhub/llm/balancer.py:218-242 | a tripped key of the top group first, claimed; else by strategy: least latency, cost or load, a weighted draw, or round robin with the cursor moving on |
| `Balancer.KeyBalancer.PickKey` | keyhub/llm/balancer.py:244-255 | query, selection and slot together |
| `Balancer.KeyBalancer.PickCrossProvider` | keyhub/llm/balancer.py:257-276 | the same among all providers but the excluded one, from the first provider in sorted order |
| `Balancer.KeyBalancer.MarkErrorOn` | keyhub/llm/balancer.py:299-317 | counts the failure, writes the status and gives the slot back, committed or not |
| `Balancer.KeyBalancer.MarkRateLimitedOn` | keyhub/llm/balancer.py:278-297 | the same for rate limiting, with the upstream's or the default wait |
| `Balancer.KeyBalancer.MarkOkOn` | keyhub/llm/balancer.py:319-341 | clears the breaker, writes active and the new average latency and gives the slot back |
| `Marks.PickCounts` | keyhub/llm/balancer.py:128-131 | a pick takes one slot of the key it returns and of no other |
| `Marks.EndCounts` | keyhub/llm/balancer.py:133-140 | every mark, committed or not, and every plain release gives back one slot of its key, never going below zero, and of no other; nothing else changes a count |
| `Marks.QueryCounts` | keyhub/llm/balancer.py:142-213 | clean-up and queries change no count |
| `Marks.CountIsPicksLessEnds` | keyhub/llm/balancer.py:128-341 | in every run in which only picked calls end, a key's in-flight count is its picks less its ended calls |
| `Marks.EventsAreActs` | keyhub/llm/balancer.py:128-140 | the counts of the balancer are those of the slot actions by which calls are accounted for |
| `Marks.SuccessFields` | keyhub/llm/balancer.py:319-341 | a success clears the key's three maps whatever its failure count, and makes its row active with the new average latency; other keys keep theirs |
| `Marks.FailureFields` | keyhub/llm/balancer.py:102-111 | a failure counts one; from the fifth in a row on the breaker opens for 300 seconds and the row says so, before that the row gets the given status and cooldown; other keys keep theirs |
| `Marks.MarkedFailures` | keyhub/llm/balancer.py:278-317 | an error costs 30 seconds, a rate limit what the upstream asks for or a minute |
| `Marks.PickCleansUp` | keyhub/llm/balancer.py:142-168 | a pick forgets exactly the keys whose opening has run out and makes their tripped rows active if it can write |
| `BreakerRuns.ApplyKeepsMaps` | keyhub/llm/balancer.py:102-156 | every pick and mark keeps: in the open map exactly when failures reach the threshold, and probed only if open |
| `BreakerRuns.MapsAlwaysAgree` | keyhub/llm/balancer.py:102-156 | so after every run |
| `BreakerRuns.ApplyKeepsTable` | keyhub/llm/balancer.py:158-341 | while the status of a tripping key is committed, no row of an open breaker is active |
| `BreakerRuns.TableAlwaysAgrees` | keyhub/llm/balancer.py:158-341 | so over every run in which those statuses are committed |
| `BreakerRuns.EmptyBreakerAgrees` | keyhub/llm/balancer.py:72-80 | both hold of the empty breaker |
| `BreakerRuns.PickEffect` | keyhub/llm/balancer.py:170-276 | a pick, in a provider or across, changes nothing but what clean-up and the claim of a probe change, and returns a key that the query admits |
| `Probes.OpeningStep` | keyhub/llm/balancer.py:88-126 | until a call on the key ends, an opening that a probe or the table guards stays; the key is picked only in its second half, unclaimed, and is then claimed |
| `Probes.RowsStep` | keyhub/llm/balancer.py:158-341 | and no row of the key becomes active before its opening has run out |
| `Probes.ProbeOnce` | keyhub/llm/balancer.py:170-276 | over any run without the end of a call on the key, whatever the other keys do and whatever is committed: no pick in the first half, at most one before expiry |
| `Probes.LeftAlone` | keyhub/llm/proxy.py:776-786 | the other keys can all run out of budget without anything else changing |
| `Probes.ActiveRowIsProbedFreely` | keyhub/llm/balancer.py:218-228 | an active row in the second half of an opening, when it is the only one eligible, is picked and not claimed |
| `Probes.ActiveKeyIsProbedFreely` | keyhub/llm/balancer.py:185-228 | in any table, a key that is active in the second half of its opening is returned by every pick once the other keys are out of budget |
| `Probes.OneProbeIff` | keyhub/llm/balancer.py:88-276 | every run respects an opening if and only if a probe is out or no row of the key is active |
| `Probes.TripLeavesActive` | keyhub/llm/balancer.py:278-317 | no row of a key is active after its trip if and only if the trip was committed or none was active before |
| `Probes.OneProbePerOpening` | keyhub/llm/balancer.py:88-317 | after an opening at o, by an error or a rate limit, every run has no pick of the key before o+150 and at most one before o+300, if and only if the trip was committed or the key was not active before |
| `Probes.UncommittedTripIsProbedFreely` | keyhub/llm/balancer.py:218-317 | from the empty breaker on, in any table: an active key that trips without its status being committed is returned by every pick in the second half of its opening |
| `BreakerRuns.QueryIsEligibility` | keyhub/llm/balancer.py:170-213 | the query returns exactly the rows that are eligible, read off the state before it |
| `BreakerRuns.TrippedKeyHeals` | keyhub/llm/balancer.py:142-168 | a tripped key past its opening is found again if and only if the maps know it and the update goes through |
| `Fairness.TurnsGoRound` | keyhub/llm/balancer.py:238-242 | call number n selects the row n places after the cursor, round and round |
| `Fairness.EveryoneGetsOneTurn` | keyhub/llm/balancer.py:218-242 | in one round each member of the top group is selected exactly once, wherever the cursor stood |
| `Slots.InterleavedCounts` | keyhub/llm/balancer.py:128-140 | in any interleaving, a key's in-flight count is the number of slots the calls hold, and the permits out are the permits they hold |
| `Slots.AllReturned` | keyhub/llm/balancer.py:128-140 | when every call has ended balanced, all counts are back at zero |
| `Slots.SumsStep` | keyhub/llm/balancer.py:128-140 | one action of one call changes the sums over all calls by just that action |
| `Slots.LawfulNonNegative` | keyhub/llm/proxy.py:513-517 | a call that gives back only what it holds never holds less than nothing |
| `Proxy.KeptFromStarting` | keyhub/llm/proxy.py:551-613 | exactly what keeps an attempt with a key in hand from its upstream |
| `Proxy.FallbackOnce` | keyhub/llm/proxy.py:519-526 | fallback is to be had as long as it is enabled and no attempt has found its provider without a key |
| `Proxy.FirstStartIsFirst` | keyhub/llm/proxy.py:498-613 | the attempt taken to reach an upstream is the first that does, and there is none only if none does |
| `Proxy.StreamCall.ObtainKey` | keyhub/llm/proxy.py:519-549 | a key with its slot, or the permit given back, also when a pick raises; the one leak is a fallback key of an unknown provider |
| `Proxy.StreamCall.UseKey` | keyhub/llm/proxy.py:551-613 | from the budget check to the upstream: an attempt that ends here has given permit and slot back |
| `Proxy.StreamCall.PassLines` | keyhub/llm/proxy.py:613-661 | the consumer gets exactly the texts before the first error or timeout, each with its newline, and one report of it; or the part of that up to where it leaves |
| `Proxy.OutputData` | keyhub/llm/proxy.py:613-749 | all that is put out is of one upstream; its data are the texts before the first break, complete for a consumer who stays and a prefix for one who leaves |
| `Proxy.StreamCall.Handle` | keyhub/llm/proxy.py:705-749 | each handler gives the slot back; the permit too, unless the consumer leaves at the report |
| `Proxy.StreamCall.RunAttempt` | keyhub/llm/proxy.py:498-753 | an attempt is balanced but for the two leaks, another follows only if no upstream had started, and one that had puts out exactly its stream's output up to where the consumer leaves |
| `Proxy.StreamCall.ChatStream` | keyhub/llm/proxy.py:454-753 | over every path: all is given back exactly once if and only if the call does not leak, at most one permit and slot are ever held, and the consumer gets exactly the output of the one attempt that started, up to where it leaves: the texts before the first break, then one report if there was a break |
| `SyncProxy.SyncCall.UseKey` | keyhub/llm/proxy.py:296-439 | slot and permit are given back on every branch except an escaping exception |
| `SyncProxy.SyncCall.RunAttempt` | keyhub/llm/proxy.py:258-443 | what each attempt takes and gives, in order, and whether another follows |
| `SyncProxy.SyncCall.Chat` | keyhub/llm/proxy.py:258-443 | the answer is that of the first attempt that gets one; all is given back exactly once and nothing that is not held if and only if no attempt that is reached falls back or lets an exception escape; the totals alone come out even also when a fallback is followed by a pick that raises |
| `SyncProxy.ContinuesIff` | keyhub/llm/proxy.py:258-443 | another attempt is made exactly after one without a permit, or with a key whose budget is used up, whose row is gone, that is rate-limited or that gets an error for a reply |
| `SyncProxy.OneOfThree` | keyhub/llm/proxy.py:296-439 | an attempt with a key in hand answers, is inconclusive or lets an exception escape, and only one of these |
| `SyncProxy.AnswerIsFirst` | keyhub/llm/proxy.py:258-443 | the call answers with the first attempt that gets an answer, all before it having been inconclusive, and raises only if all were or one broke off |
| `SyncProxy.ChatBalance` | keyhub/llm/proxy.py:258-443 | the same for what a call adds to any history at whose end nothing is held |
| `SyncProxy.AfterFallback` | keyhub/llm/proxy.py:266-286 | after a fallback the call stays unlawful, and only a pick that raises evens out its totals |
| `SyncProxy.FallbackGivesTwice` | keyhub/llm/proxy.py:266-286 | every call whose first attempt falls back and is answered leaves one permit too many, whereas with fallback off it balances |
| `SyncProxy.RaisingPickKeepsPermit` | keyhub/llm/proxy.py:266-268 | a call whose first pick raises keeps the permit |
| `Tracker.UsageTracker.RecordUsage` | keyhub/llm/tracker.py:14-51 | log entry and increments together or not at all: one request, the prompt tokens, the completion tokens and the cost, to the key's row and no other; totals stay the sums over the log |
| `Tracker.RecordKeepsSound` | keyhub/llm/tracker.py:24-51 | recording keeps the running totals equal to the sums over the log |
| `Tracker.TotalsAreSums` | keyhub/llm/tracker.py:24-51 | a key's requests are the number of its log entries, its prompt, completion and cost the sums of these fields over them |
| `Tracker.RecordAdds` | keyhub/llm/tracker.py:41-51 | what one recording adds to each field |
| `Tracker.UsageTracker.AggregateCost` | keyhub/llm/tracker.py:118-137 | adding up the log by provider, over all or the one asked for, lists exactly the providers that have used anything, each with calls, tokens and cost summed over its entries, which are the running totals of its keys |
| `Tracker.SumLoggedIsProviderLogged` | keyhub/llm/tracker.py:118-137 | adding up by key and by log entry gives the same |
| `Tracker.ProvidersAgree` | keyhub/llm/tracker.py:24-51 | a provider's running totals are the sums over its log entries, nothing lost or counted twice |
| `Tracker.ProviderLoggedSums` | keyhub/llm/tracker.py:118-137 | a provider's calls, tokens and cost are the number and the sums of its log entries |
| `Budget.SpendingIsCovered` | keyhub/llm/proxy.py:551-555 | over every run, keys tripping, healing, probed and restated: cost plus what calls in flight may record stays below budget plus one round of calls, and the ledger stays sound |
| `Budget.NextCost` | keyhub/llm/tracker.py:24-51 | the cost of a key grows by what an ending call on it records and by nothing else |
| `Budget.CostIsLogged` | keyhub/llm/tracker.py:24-51 | the cost a key's budget is compared with is the sum over its log entries |
| `Budget.OverspendBound` | keyhub/llm/proxy.py:551-555 | budget and usage agree: with at most c calls at a time of at most m each, the cost compared is the sum over the usage log and stays below budget + c*m |
| `Budget.NeverAdmittedAgain` | keyhub/llm/proxy.py:551-555 | past the budget no call is admitted, whatever succeeds, heals, is probed or is restated |
| `Budget.PickAdmits` | keyhub/llm/proxy.py:551-555 | a pick admits exactly an eligible key that has no budget or has logged less than it; one that has used it up is found exhausted |
| `Budget.EndLeaves` | keyhub/llm/tracker.py:24-51 | what the end of a call logs, and the status it leaves |
| `Budget.SuccessReactivates` | keyhub/llm/proxy.py:776-786 | the reset of an exhausted key does happen |
| `KeyLimit.KeyRateLimiter.PruneKey` | keyhub/llm/keylimit.py:46-55 | drops exactly the leading stamps older than a minute, of this key only |
| `KeyLimit.KeyRateLimiter.Check` | keyhub/llm/keylimit.py:65-120 | the verdict, the two remainders and the claimed slot |
| `KeyLimit.KeyRateLimiter.Record` | keyhub/llm/keylimit.py:122-140 | appends the tokens of a call that used any |
| `KeyLimit.NextFaithful` | keyhub/llm/keylimit.py:46-140 | whatever the readings, what is kept is the full history but for stamps older than a minute before the latest |
| `KeyLimit.RpmBound` | keyhub/llm/keylimit.py:65-114 | with readings out of order by at most a skew, no closed interval of 60 seconds less the skew holds more admitted requests than the limit |
| `KeyLimit.RpmBoundIff` | keyhub/llm/keylimit.py:46-114 | the limit holds over intervals of a length if and only if that is at most 60 seconds less the skew |
| `KeyLimit.CheckVerdict` | keyhub/llm/keylimit.py:65-120 | with readings in order, a request is admitted if and only if the full history of the last minute leaves room for it, and is told what is left of either limit |
| `KeyLimit.RunIsOrdered` | keyhub/llm/keylimit.py:65-140 | histories are ordered in every run whose readings are |
| `KeyLimit.OvertakingAdmitted` | keyhub/llm/keylimit.py:86-114 | a run that admits one request too many in any longer interval |
| `KeyLimit.AlwaysCovered` | keyhub/llm/keylimit.py:65-140 | tokens in an interval still open plus what is in flight stay within limit + c*m |
| `KeyLimit.TpmOvershootBound` | keyhub/llm/keylimit.py:65-140 | tokens recorded in any closed interval of 60 seconds less the skew never exceed limit + c*m |
| `KeyLimit.TpmBoundIff` | keyhub/llm/keylimit.py:65-140 | the bound on tokens holds over intervals of a length if and only if that is at most 60 seconds less the skew |
| `KeyLimit.OverrunExists` | keyhub/llm/keylimit.py:86-140 | a run that records one token too many in any longer interval |
| `KeyLimit.OvershootHappens` | keyhub/llm/keylimit.py:99-103 | the overshoot is real |
| `RateLimit.LoginRateLimiter.IsLocked` | keyhub/ratelimit.py:49-67 | verdict, seconds left, and the reset after a lock that has run out, for this address only |
| `RateLimit.LoginRateLimiter.RecordFailure` | keyhub/ratelimit.py:69-80 | counts, and locks with exponential back-off from the threshold on |
| `RateLimit.LoginRateLimiter.RecordSuccess` | keyhub/ratelimit.py:82-85 | forgets the address |
| `RateLimit.LockLength` | keyhub/ratelimit.py:73-79 | every lock lasts between min(base, max) and max |
| `RateLimit.BackOffDoubles` | keyhub/ratelimit.py:73-79 | the first lock of a cycle takes the base time, each failure on top doubles it, and the maximum caps both |
| `RateLimit.LockVerdict` | keyhub/ratelimit.py:49-67 | an address is locked exactly while its lock runs, told the whole seconds left, and starts over after a lock at the threshold |
| `RateLimit.FailVerdict` | keyhub/ratelimit.py:69-80 | a failure counts one and locks exactly from the threshold on |
| `RateLimit.NextConsistent` | keyhub/ratelimit.py:49-85 | every check, failure and success keeps the invariant below |
| `RateLimit.LoginLimiterIsConsistent` | keyhub/ratelimit.py:49-85 | in every run locked_until is positive exactly when failures reach the threshold, and with c attempts at a time a lock cycle counts at most max_fails + c - 1 |
| `RateLimit.CountAfter` | keyhub/api/auth.py:86-104 | with every failure let through, the count goes up by one or starts over after a lock sat out |
| `RateLimit.Spacing` | keyhub/ratelimit.py:49-80 | a failure and the one max_fails later are a shortest lock apart |
| `RateLimit.GuessRate` | keyhub/api/auth.py:86-104 | failures within any span T are at most max_fails * (T / shortest lock + 1) |
| `RateLimit.TokenRateLimiter.Check` | keyhub/ratelimit.py:125-142 | the verdict, the remainder and the stamps kept, for this token only |
| `RateLimit.KeptIsRecent` | keyhub/ratelimit.py:125-142 | while it is too early to drop anything from a time on, what is kept and the full history agree from there on |
| `RateLimit.TokenRpmBound` | keyhub/ratelimit.py:125-142 | with readings out of order by at most a skew, no half-open interval of 60 seconds less the skew holds more admitted requests than the limit |
| `RateLimit.TokenRpmBoundIff` | keyhub/ratelimit.py:125-142 | the limit holds over intervals of a length if and only if that is at most 60 seconds less the skew, or 60 seconds when the limit is one |
| `RateLimit.TokenVerdict` | keyhub/ratelimit.py:125-142 | a request is admitted if and only if fewer than the limit have been in the minute before it, of all that ever were, and is told how many more may be |
| `RateLimit.OneAMinute` | keyhub/ratelimit.py:125-142 | with a limit of one, admitted stamps are a minute apart and in order whatever the readings |
| `RateLimit.OvertakingAdmitted` | keyhub/ratelimit.py:131-142 | a run that admits one request too many in any longer interval |
| `Cache.ResponseCache.Get` | keyhub/llm/cache.py:35-50 | a hit moves to the end, an expired entry goes, all else stays |
| `Cache.ResponseCache.Set` | keyhub/llm/cache.py:52-64 | stores at the end and evicts from the front until the size fits |
| `Cache.ResponseCache.Clear` | keyhub/llm/cache.py:66-70 | empties the store and says how much there was |
| `Cache.HoldsLatest` | keyhub/llm/cache.py:35-70 | in every run every entry is the latest set of its key since the last clear, and the size fits |
| `Cache.HitIsLatest` | keyhub/llm/cache.py:35-50 | a hit is the response of the latest set, unexpired and not cleared since |
| `Cache.SwitchedOff` | keyhub/llm/cache.py:35-58 | with no time to live nothing is answered, kept or changed |
| `Cache.UnexpiredIsHeld` | keyhub/llm/cache.py:35-70 | while no more keys are in use than fit, an unexpired entry is held |
| `Cache.AnswersLikeTimedMap` | keyhub/llm/cache.py:35-70 | then the cache answers exactly like the timed map |
| `CacheHeld.StoreStep` | keyhub/llm/cache.py:35-70 | one event: whether a key stays or comes, and what then lies behind it in the store |
| `CacheHeld.HeldIff` | keyhub/llm/cache.py:35-70 | a key is held if and only if it has been set since the last clear, no get since has read a time past its expiry, and fewer other keys than fit have at every moment since been newer; those keys lie behind it in the store |
| `CacheHeld.AnswersExactly` | keyhub/llm/cache.py:35-70 | however many keys are in use, the cache answers like the timed map for a key that has not been crowded out and misses one that has |
| `CacheOrder.StoreIsRecencyOrder` | keyhub/llm/cache.py:35-64 | in every run the order of the store is the order of last use |
| `CacheOrder.EvictsLeastRecent` | keyhub/llm/cache.py:62-64 | an eviction removes the entry least recently used |
| `CacheOrder.GetKeepsWithin` | keyhub/llm/cache.py:35-50 | a get, hit, miss or expiry, keeps a smaller cache inside a larger one |
| `CacheOrder.SetKeepsWithin` | keyhub/llm/cache.py:52-64 | so does a set with its evictions |
| `CacheOrder.AlwaysWithin` | keyhub/llm/cache.py:35-70 | in every run the smaller cache is, in order, part of the larger one |
| `CacheOrder.EnlargingNeverMisses` | keyhub/llm/cache.py:35-70 | a hit in the smaller cache is the same hit in the larger one |

## Left out

- HTTP, SSE parsing, routes, the command line, the web interface, notifications, metrics, audit and logging.
- AES-GCM, Argon2, HKDF, zlib, JSON and SQLite themselves, and the decoding of UTF-8; the backup file carries its
  parameters and payload as octets.
- Overwriting the key buffer in memory; a zeroed vault is one without a key.
- `initialize`, session epochs, the closing `bump_session_epoch` of lock and password change, notes, creation and
  update times and audit entries of credentials.
- `Refinement.StepRefines`: operations are transactions one after another. Overlaps of one operation with a password
  change are the subject of `Races`; other overlaps of two operations on one row are not modelled.
- `Versions.EveryValueRestorable`: password changes leave re-encryption on, as every caller does;
  `Versions.BlindChangeForgets` says what happens otherwise.
- `Restore.RestoreIntoEmpty`: expiry, last rotation, tags, weight and budget are not part of it because the import
  does not bring them back (keyhub/backup.py:198-209). The upper bound on the length of names is not modelled.
- `Backup.ImportBackup`: an import is not interleaved with other operations.
- Restoring the whole-database backup into the file system after it has been decrypted (keyhub/backup.py:312-360).
- `RWLock.LockIsCorrect`: spurious wake-ups and fairness of the condition variable; readers may starve a writer.
- `Balancer.KeyBalancer.SelectKey`: a weighted draw is any position of the group, its probabilities are not modelled.
- `Balancer.KeyBalancer.MarkOkOn`: the average latency is rounded down from its exact value, not from a floating-point one.
- `Probes.OneProbePerOpening`: picks are serialized and no one sets a key's status by hand; without the first,
  the ignored result of claiming a probe (keyhub/llm/balancer.py:225) lets two calls probe at once.
- `test_key` marks keys without having picked them (keyhub/api/llm.py:252-255); it is not among the calls of `Slots`.
- `Proxy.StreamCall.ChatStream`: failures of a commit or of leaving a context after a mark; back-off waits and metrics.
  That a key decrypts is a step that may fail.
- `SyncProxy.SyncCall.Chat`: the same; the cache is looked up before the first attempt, and storing the answer, which
  hashes what the lookup has hashed, does not fail.
- `Budget.OverspendBound`: the key is in the table and its budget stays what it is during the run.
- `Tracker.UsageTracker.RecordUsage`: money is in micro-dollars, so the rounding of floating-point cost is not modelled; whether
  the estimated cost is the right price is not claimed.
- `KeyLimit.RpmBound`: `release_rpm_slot` is not among the operations; nothing calls it. The limiter's own failure,
  which lets a call through, is left out.
- `Cache.HitIsLatest`: the cache key is the request itself, not its SHA-256 digest.
- Importers, rotation reminders, password strength, one-time passwords, scopes, percentiles, event broadcasting.
