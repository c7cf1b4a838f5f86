# Phantom: a verified model of its fail-closed core

This Dafny project models the parts of Phantom that must fail closed and proves what they promise
over all inputs and all runs. `dafny verify dfyconfig.toml` checks it.

- **The durable replay store of the broker.** `Ledger` is the persisted state and the body of every
  operation; `Draft` is the same bodies changing the state in place, loops included; `Storage` is the
  state file, what an un-synced rename may leave after a crash, and one lock-read-compute-replace
  transaction; `ReplayStore` is the store object with its activation and instance lock. `LedgerAnswers`
  and `StoreAnswers` say exactly when each operation, transaction and opening gives each of its answers
  and all it leaves. `LedgerInvariant` proves what every transaction keeps, `JsonSize` and `LedgerSize`
  the room that the size check reserves for recovery, with the real canonical JSON of the state, whose
  limit and members are in `LedgerText`. `Facts`, `BrokerRuns`, `BrokerContents`, `BrokerHistory`,
  `BrokerSafety` and `BrokerRecovery` prove safety and recovery over every run of any number of store
  objects on one root, with I/O failures before and after the rename, failures and kills at any
  transaction, machine crashes, drops and reopening.
- **Least authority.** `Scopes` and `Constraints` are the partial meet of constraints, `Grants` the chain
  from intent to verified grant to lease binding; `ConstraintAnswers` and `GrantAnswers` say exactly what
  is accepted. Permits of the run model carry that chain to the end.
- **Installing the binary.** `Install` is the rename protocol over five file names and its recovery, each
  operation of which may fail, report a failure after working, or never happen because the process died.
  `Attestation` is the stat-keyed cache of the npm wrapper over a file system that others change between
  any two steps; the plain hash of the npm-mcp wrapper is its specification.
- **Codecs and loops.** `Json`, `JsonReader`, `JsonRoundTrip`, `Canonical`, `ClosedDecoder` and `Frames`
  are canonical JSON (objects and strings as in sections 4 and 7 of RFC 8259; the code states that it is
  not RFC 8785) and its length-prefixed frames; `CanonicalText` is what that text looks like. `AuditFeed`
  and `AuditFollow` are the chunked line feed and its resume cursors, `CivilDate` the day arithmetic,
  `Csv` the CSV writer, `AffectedCrates` the package selection. `Order`, `Text`, `Decimal` and `Options`
  serve the rest.

A character of a Dafny string stands for one byte. Hashes and the request fingerprint are arbitrary
functions; no result assumes them injective except where it says so (`Install.SetAside`: the current and a
left-over backup binary are not two contents with one digest). A MAC accepts only its own key's output.

Where the code and what is said about it differ, the code is modelled and the difference is a result:

- "Atomically consume a grant nonce" holds for new leases. A retry that is answered with its existing
  lease leaves the nonce it came with unused (`LedgerInvariant.RetryLeavesNonceFresh`); when a nonce is
  consumed is `LedgerInvariant.NonceConsumed`.
- The attestation comment says the cache only skips work that succeeded for the identical file. The clock
  is read after the hash, so a same-tick rewrite in between defeats it unless the file had settled when
  its identity was captured (`Attestation.SafeExactlyWhenSettled`), and so does pointing the path
  elsewhere only while it is hashed (`Attestation.RepointIsUnsound`; exactly when is
  `Attestation.SettledSoundExactly`).
- `days_to_ymd` returns the calendar date only below day 1568703873082, where the year stops fitting 32
  bits (`CivilDate.YmdExact`); `unix_to_iso8601` first repeats itself somewhat later
  (`CivilDate.Iso8601Exact`).
- Canonical encoding has no nesting bound and decoding has one (`ClosedDecoder.TooDeepIsRefused`).

## Model

| member | source | states |
|---|---|---|
| `BrokerSafety.AcknowledgedOnce` | crates/phantom-broker/src/replay_store.rs:414-569 | Over every run with faults, crashes, drops and reopening: one new permit per lease and operation digest, one new lease per grant nonce and per lease id, rising epochs, no permit after a revocation or below an acknowledged epoch, one end per use |
| `BrokerSafety.AcknowledgedIsDurable` | crates/phantom-broker/src/replay_store.rs:938-959 | Whatever an `Ok` reply asserted holds of the file and of every content a later crash may leave |
| `BrokerSafety.ReachableLedger` | crates/phantom-broker/src/replay_store.rs:428-491 | In every reachable content, for every lease: remaining plus recorded uses is the maximum, busy uses stay below the concurrency limit, nonces, retry entries and leases have one size and match one to one, old leases are revoked, revoked leases have no Active use, and some reservation of the run made the lease |
| `BrokerSafety.PermitsAreNarrow` | crates/phantom-broker/src/replay_store.rs:466-541 | For every permit of every run there is a reservation of that run with the permit's lease id and generation; its terms carry that request's grant id, action, operation, arguments, policy and the workspace, manifest and environment that its intent and its subject share; the permit permits exactly what that request's own intent and its own granted constraints both permit, and nothing beyond the intent's operation: only a share calls out, only writing operations write, nothing spends |
| `BrokerHistory.FactOrigin` | crates/phantom-broker/src/replay_store.rs:414-876 | Every acknowledgement of every run goes back to one event of that run: a lease to a reservation with that nonce, lease id and generation, a permit to a call for that lease and operation inside its time window, a pending completion to a call with exactly its permit, record and disposition, an end and a revocation to a call that named them; each by an object that is active at that generation and whose own epoch is among the earlier acknowledgements |
| `BrokerHistory.PendingOrigin` | crates/phantom-broker/src/replay_store.rs:573-651 | In particular, a pending completion was asked for with exactly its record and its disposition |
| `BrokerHistory.NextTells` | crates/phantom-broker/src/replay_store.rs:414-876 | One event acknowledges nothing, or one fact that its caller asked for |
| `BrokerHistory.InactiveIsInert` | crates/phantom-broker/src/replay_store.rs:923-936 | Without an active epoch an operation changes neither the file nor what anyone was told |
| `BrokerHistory.WithoutEpochInert` | crates/phantom-broker/src/replay_store.rs:923-936 | Over every run: an object that never commits an epoch, or that is poisoned and has lost its claim, leaves file and acknowledgements alone whenever it is used |
| `BrokerHistory.ActiveReads` | crates/phantom-broker/src/replay_store.rs:407-410 | An active object answers the generation its own epoch started with, unless the lock or the read fails |
| `BrokerContents.LeaseOrigin` | crates/phantom-broker/src/replay_store.rs:466-485 | Every lease in whatever a crash may leave was made by a reservation of the run: its id, terms and generation are those of the binding that request led to |
| `BrokerContents.RequestExact` | crates/phantom-broker/src/lease.rs:54-71 | What a reservation request leads to permits exactly what its intent and its grant both permit |
| `BrokerContents.RequestCarries` | crates/phantom-broker/src/replay_store.rs:471-482 | The terms a request leads to carry its grant id, the action, operation and arguments of its intent, the workspace, manifest and environment that intent and subject share, and the subject's policy; it was verified inside both windows |
| `BrokerSafety.OneActive` | crates/phantom-broker/src/replay_store.rs:343-405 | At most one store object on a root is active; while it is, every content on disk has exactly the generation its epoch started with |
| `BrokerSafety.PoisonedForever` | crates/phantom-broker/src/replay_store.rs:345-369 | A poisoned object is poisoned at every later step of every run |
| `BrokerRuns.NextKeeps` | crates/phantom-broker/src/replay_store.rs:285-405 | Every event with every fault keeps the invariant of file, log, locks and objects |
| `BrokerRuns.RunKeeps` | crates/phantom-broker/src/replay_store.rs:285-405 | The invariant holds after every run |
| `BrokerRuns.TransactionKeeps` | crates/phantom-broker/src/replay_store.rs:938-959 | One transaction with any fault keeps file and acknowledgements in agreement, and every content it can leave is an old one or one computed from the visible one |
| `BrokerRuns.CommitKeepsFile` | crates/phantom-broker/src/replay_store.rs:370-405 | Committing an epoch: active exactly on success, with the generation that is on disk; otherwise poisoned with the lock free |
| `BrokerContents.ReachableFits` | crates/phantom-broker/src/replay_store.rs:1038-1084 | Every content a run can leave on disk passes the size check that reading repeats |
| `BrokerRecovery.RestartSucceeds` | crates/phantom-broker/src/replay_store.rs:308-405 | After any crash the store reopens with its key and starts the next epoch while generation and sequence are not used up |
| `BrokerRecovery.PendingIsFinished` | crates/phantom-broker/src/replay_store.rs:658-783 | A completion pending in whatever a crash leaves is driven to its own terminal state: reopen, start an epoch, resume, commit |
| `Facts.HoldsExtends` | crates/phantom-broker/src/replay_store.rs:414-876 | An acknowledged fact stays true in every state the ledger grows into |
| `Facts.AcknowledgedHolds` | crates/phantom-broker/src/replay_store.rs:414-876 | What a reply acknowledges is true of the state written with it |
| `Facts.AcknowledgedConsistent` | crates/phantom-broker/src/replay_store.rs:414-876 | No reply acknowledges what an established fact excludes |
| `Facts.ApplyProvenance` | crates/phantom-broker/src/replay_store.rs:466-485 | Which leases an operation adds and with which terms; only a restart moves the generation, by one |
| `LedgerInvariant.ApplyKeeps` | crates/phantom-broker/src/replay_store.rs:370-876 | Every transaction leaves the state as it was or raises the sequence by exactly one, keeps all counting and generation rules and moves every use only Active to Completing to its own end, or Active to Abandoned |
| `LedgerInvariant.TransitionExtends` | crates/phantom-broker/src/replay_store.rs:370-876 | Every transaction extends the ledger: terminal records, revocation, nonces, retry entries and lease terms are never undone |
| `LedgerInvariant.ExtendsTrans` | crates/phantom-broker/src/replay_store.rs:370-876 | So over any number of transactions a use only goes to its own end and nothing recorded is lost |
| `LedgerInvariant.PermitsOnlyCurrent` | crates/phantom-broker/src/replay_store.rs:495-569 | A permit is minted if and only if the lease is current at this generation and time, the use is new, and concurrency and sequence allow it |
| `LedgerInvariant.StatusPredicts` | crates/phantom-broker/src/replay_store.rs:252-268 | The status shown for a lease predicts how a fresh use is answered |
| `LedgerInvariant.GoodStatus` | crates/phantom-broker/src/replay_store.rs:252-268 | In a reachable state no status is inconsistent, and a lease of an older generation is revoked |
| `LedgerInvariant.CompletingSurvives` | crates/phantom-broker/src/replay_store.rs:378-391 | A pending completion survives a restart and a revocation unchanged |
| `LedgerInvariant.CompletingCanFinish` | crates/phantom-broker/src/replay_store.rs:658-783 | Resuming then committing a pending completion reaches the terminal state with the same record and disposition, exactly while the sequence is not exhausted |
| `LedgerInvariant.NonceConsumed` | crates/phantom-broker/src/replay_store.rs:428-491 | An accepted reservation leaves its nonce recorded if and only if the retry key was new or the nonce was recorded before; it makes a new lease exactly under a new retry key |
| `LedgerInvariant.RetryLeavesNonceFresh` | crates/phantom-broker/src/replay_store.rs:434-453 | Why the nonce property is about new leases: in a new store, with any two accepted bindings of different lease ids, a retry answered with its existing lease leaves the nonce it came with fresh, and that nonce then gets the second lease |
| `LedgerAnswers.RestartAnswers` | crates/phantom-broker/src/replay_store.rs:370-397 | Exactly when a restart is refused, and all it leaves: every lease revoked, every Active use abandoned with its own recovery digest, generation and sequence up by one, nothing else changed |
| `LedgerAnswers.RevokeAnswers` | crates/phantom-broker/src/replay_store.rs:848-876 | Exactly when a revocation is refused, repeated or made, and all it leaves |
| `LedgerAnswers.RecoveryDigestIs` | crates/phantom-broker/src/replay_store.rs:1146-1166 | The text whose hash is the digest of a recovery record, byte by byte |
| `LedgerAnswers.ReserveAnswers` | crates/phantom-broker/src/replay_store.rs:428-491 | Each answer of a reservation if and only if its condition holds: stale generation, repeated request, idempotency collision, replayed nonce, taken lease id, no capacity, exhausted sequence, new lease |
| `LedgerAnswers.ReserveLeaves` | crates/phantom-broker/src/replay_store.rs:455-491 | A new lease carries the binding field by field, its full use count and the store's generation; a repeated request gets the recorded lease and changes nothing |
| `LedgerAnswers.BeginUseAnswers` | crates/phantom-broker/src/replay_store.rs:505-569 | Each answer to the start of a use if and only if its condition holds |
| `LedgerAnswers.BeginUseLeaves` | crates/phantom-broker/src/replay_store.rs:525-568 | A new use is Active and costs one of the remaining ones; its permit names the lease, the generation, the lease's terms, the operation and the store; a retry is told the recorded state |
| `LedgerAnswers.BeginCompletionAnswers` | crates/phantom-broker/src/replay_store.rs:585-651 | Each answer to the start of a completion if and only if its condition holds: started, resumed, already ended, conflict and every refusal |
| `LedgerAnswers.BeginCompletionLeaves` | crates/phantom-broker/src/replay_store.rs:596-650 | A started completion leaves the use Completing with exactly the caller's record and disposition; its token has the permit's lease, generation, operation and store and the caller's record and disposition |
| `LedgerAnswers.ResumeAnswers` | crates/phantom-broker/src/replay_store.rs:669-721 | Each answer to a resumption if and only if its condition holds, with the token or the status it gives |
| `LedgerAnswers.CommitAnswers` | crates/phantom-broker/src/replay_store.rs:730-783 | Each answer to a commit if and only if its condition holds; it leaves the use ended as its token asks |
| `LedgerAnswers.StatusAnswers` | crates/phantom-broker/src/replay_store.rs:252-268 | Each of the seven statuses of a lease if and only if its condition holds |
| `LedgerSize.SizeMonotone` | crates/phantom-broker/src/replay_store.rs:1086-1102 | The serialized size is monotone in the numbers, the use states and the revocation flags of a state |
| `LedgerSize.RecoveryFits` | crates/phantom-broker/src/replay_store.rs:1072-1126 | A state that fits, with its recovery form, leaves room for every restart, revocation and commit of it |
| `LedgerSize.Headroom` | crates/phantom-broker/src/replay_store.rs:1072-1126 | `start_epoch`, `revoke` and `commit_completion` produce states that pass the size check whenever the state they start from did |
| `LedgerText.FitsWhen` | crates/phantom-broker/src/replay_store.rs:1072-1126 | A state passes the size check if and only if neither its snapshot nor the snapshot of its recovery form, spelled out, takes more than 8 MiB |
| `LedgerText.SignedMembers` | crates/phantom-broker/src/replay_store.rs:1024-1030 | The members of the written snapshot and its format number |
| `LedgerText.StateMembers` | crates/phantom-broker/src/replay_store.rs:962-971 | The members of the persisted state |
| `LedgerText.LeaseMembers` | crates/phantom-broker/src/replay_store.rs:980-995 | The members of a persisted lease |
| `LedgerText.UseMembers` | crates/phantom-broker/src/replay_store.rs:997-1011 | The members of a persisted use in each of its states |
| `LedgerText.TableMembers` | crates/phantom-broker/src/replay_store.rs:964-993 | The tables of a state: each key with what is recorded under it |
| `LedgerText.ConstraintMembers` | crates/phantom-authority/src/constraints.rs:265-272 | The members of persisted constraints |
| `LedgerText.NetworkMembers` | crates/phantom-authority/src/constraints.rs:159-167 | The members of their network part |
| `LedgerText.FirstStateFits` | crates/phantom-broker/src/replay_store.rs:285-303 | The first state of a store always passes the size check, so where there is no file and nothing fails a store is created |
| `JsonSize.ObjectGrows` | crates/phantom-authority/src/canonical.rs:35-75 | The canonical length of an object grows with its keys and with the lengths of its values |
| `Storage.TransactAtomic` | crates/phantom-broker/src/replay_store.rs:938-959 | An accepted transaction is durable and answers what was computed from the visible state; after any fault, and after a crash, the file is a whole old or a whole new state |
| `Storage.ConcludeAtomic` | crates/phantom-broker/src/replay_storage.rs:259-317 | Temporary file, rename and directory sync leave the old or the new content, and only those to a crash |
| `Storage.MandatorySucceeds` | crates/phantom-broker/src/replay_store.rs:1072-1126 | Without faults a restart, revocation or commit is refused only by its own rules, never for size |
| `StoreAnswers.LoadAnswers` | crates/phantom-broker/src/replay_store.rs:1038-1070 | Each answer to reading the file if and only if its condition on the content holds |
| `StoreAnswers.ConcludeAnswers` | crates/phantom-broker/src/replay_storage.rs:259-317 | What a computed outcome leaves on the file and answers, under each fault |
| `StoreAnswers.BlockedAnswers` | crates/phantom-broker/src/replay_store.rs:938-959 | A transaction whose lock, read or check fails: its answer, and the content untouched |
| `StoreAnswers.ComputedAnswers` | crates/phantom-broker/src/replay_store.rs:938-959 | Otherwise the outcome computed from the visible state, with its own size check, decides |
| `StoreAnswers.BootstrapAnswers` | crates/phantom-broker/src/replay_store.rs:285-303 | Each answer to creating a store if and only if its condition holds |
| `StoreAnswers.OpenAnswers` | crates/phantom-broker/src/replay_store.rs:308-328 | Each answer to opening a store if and only if its condition holds |
| `StoreAnswers.ClaimAnswers` | crates/phantom-broker/src/replay_store.rs:343-369 | Each answer to claiming the instance if and only if its condition holds, with the activation and lock it leaves |
| `BrokerHistory.EpochAnswers` | crates/phantom-broker/src/replay_store.rs:370-405 | An epoch is started exactly when its restart is written: active at the next generation with the lock kept; otherwise the lock is free and the object stays poisoned |
| `StoreAnswers.GuardAnswers` | crates/phantom-broker/src/replay_store.rs:923-936 | A guarded operation is refused untouched exactly when the object is not active |
| `ReplayStore.Disk.LockTransaction` | crates/phantom-broker/src/replay_storage.rs:163-168 | Taking the transaction lock makes the visible content durable first |
| `ReplayStore.Disk.TryLockInstance` | crates/phantom-broker/src/replay_storage.rs:170-180 | The instance lock is taken only when free |
| `ReplayStore.Disk.ReplaceFile` | crates/phantom-broker/src/replay_storage.rs:259-317 | The file replacement under each fault |
| `ReplayStore.DurableReplayStore.FromParts` | crates/phantom-broker/src/replay_store.rs:330-339 | A new object is inactive and holds no lock |
| `ReplayStore.DurableReplayStore.WithLockedStateUnchecked` | crates/phantom-broker/src/replay_store.rs:938-959 | The method performs exactly one transaction of the specification |
| `ReplayStore.DurableReplayStore.WithLockedState` | crates/phantom-broker/src/replay_store.rs:930-936 | The same behind the activation check: without an active epoch `NotActive` and the disk untouched |
| `ReplayStore.DurableReplayStore.StartEpoch` | crates/phantom-broker/src/replay_store.rs:343-405 | Claim then commit, with the activation and lock of every outcome |
| `ReplayStore.DurableReplayStore.CurrentGeneration` | crates/phantom-broker/src/replay_store.rs:407-410 | A read that needs an active epoch: without one `NotActive` and the disk untouched |
| `ReplayStore.DurableReplayStore.StoredGeneration` | crates/phantom-broker/src/replay_store.rs:919-921 | A read that does not |
| `ReplayStore.DurableReplayStore.ReserveLease` | crates/phantom-broker/src/replay_store.rs:414-491 | An invalid binding and an invalid key are each refused with their own error and the disk untouched; otherwise one guarded transaction |
| `ReplayStore.DurableReplayStore.BeginLeaseUse` | crates/phantom-broker/src/replay_store.rs:495-569 | The same for a use |
| `ReplayStore.DurableReplayStore.BeginUseCompletion` | crates/phantom-broker/src/replay_store.rs:573-651 | A foreign permit is refused without touching the disk; otherwise one guarded transaction |
| `ReplayStore.DurableReplayStore.ResumeUseCompletion` | crates/phantom-broker/src/replay_store.rs:658-721 | Resumption as one guarded transaction |
| `ReplayStore.DurableReplayStore.CommitUseCompletion` | crates/phantom-broker/src/replay_store.rs:724-783 | A foreign token is refused without touching the disk; otherwise one guarded transaction |
| `ReplayStore.DurableReplayStore.RevokeLease` | crates/phantom-broker/src/replay_store.rs:848-876 | Revocation as one guarded transaction |
| `ReplayStore.DurableReplayStore.Close` | crates/phantom-broker/src/replay_store.rs:272-279 | Dropping the object frees the instance lock it keeps |
| `ReplayStore.Bootstrap` | crates/phantom-broker/src/replay_store.rs:285-303 | Creates the file only where there is none, of either format |
| `ReplayStore.OpenExisting` | crates/phantom-broker/src/replay_store.rs:308-328 | Opens only an authenticated file and takes its identity |
| `Draft.PersistedState.RestartBody` | crates/phantom-broker/src/replay_store.rs:370-397 | The two loops that revoke every lease and abandon every Active use, against `Ledger.Restart` |
| `Draft.PersistedState.ReserveBody` | crates/phantom-broker/src/replay_store.rs:428-491 | The reservation on the mutable draft, against `Ledger.Reserve` |
| `Draft.PersistedState.BeginUseBody` | crates/phantom-broker/src/replay_store.rs:505-568 | The start of a use, with the counting loop, against `Ledger.BeginUse` |
| `Draft.PersistedState.BeginCompletionBody` | crates/phantom-broker/src/replay_store.rs:585-650 | The first completion phase, against `Ledger.BeginCompletion` |
| `Draft.PersistedState.ResumeBody` | crates/phantom-broker/src/replay_store.rs:669-720 | Resumption, against `Ledger.ResumeCompletion` |
| `Draft.PersistedState.CommitBody` | crates/phantom-broker/src/replay_store.rs:730-782 | The second completion phase, against `Ledger.CommitCompletion` |
| `Draft.PersistedState.RevokeBody` | crates/phantom-broker/src/replay_store.rs:848-876 | Revocation, against `Ledger.Revoke` |
| `Draft.CountBusy` | crates/phantom-broker/src/replay_store.rs:524-533 | Counts the Active and Completing uses |
| `Install.RecoverInterruptedInstall` | npm/bin/cli.js:884-919 | From any files, interrupted anywhere, recovery keeps the pair the directory settles on; completed, that pair is in place, or none of the five names is left exactly when there was no pair; its result says which pair that was; the candidate is untouched; without faults it completes |
| `Install.VerifiedWhen` | npm/bin/cli.js:442-460 | The integrity check passes if and only if both files are there and owned, the manifest has at most 4096 bytes and parses, and its checksum is the binary's |
| `Install.SettleWhen` | npm/bin/cli.js:884-919 | Which pair recovery settles on: the current one, else the backup, else a binary whose manifest was set aside, each only while its checksum holds |
| `Install.ReplaceCachedBinary` | npm/bin/cli.js:921-956 | A candidate is refused, and nothing touched, if and only if one of its files is missing, not owned or over 4096 bytes, or its manifest does not parse, has another checksum or names another version; undisturbed, every other one is installed; installed, the candidate is in place at the wrapper's version with its own checksum, nothing of the transaction and no older attestation left; failed or killed after any step, the directory settles on the old pair or on the candidate |
| `Install.ReplaceThenRelaunch` | npm/bin/cli.js:958-975 | A replacement that dies anywhere, then any number of recoveries that die anywhere, then one that runs: exactly the old or exactly the new pair |
| `Install.MakeRoom` | npm/bin/cli.js:929-940 | Setting the previous pair aside keeps it settled after every step |
| `Install.Promote` | npm-mcp/bin/cli.js:809-820 | Bringing the candidate in: old pair or candidate after every step |
| `Install.SetAside` | npm/bin/cli.js:932-936 | Both renames that set the pair aside keep it settled, given no digest collision with a left-over backup |
| `Install.RecoveredIsSettled` | npm-mcp/bin/cli.js:755-789 | In a recovered directory the settled pair is the one in place, and without one none of the five names exists |
| `Install.RemovingCurrentIsSafe` | npm/bin/cli.js:937-940 | The step that removes an unverified current binary is safe exactly when that binary is not an orphan whose manifest waits under the backup name, which a recovered directory never holds |
| `Attestation.Cache.BinaryDigestMatches` | npm/bin/cli.js:406-417 | The cached check answers what hashing the whole file answers, and leaves a sound record: the accepted one, the one this verification writes, or what was there |
| `Attestation.Cache.CheckVersion` | npm/bin/cli.js:545-561 | The cached version check answers what running the binary answers, and leaves a sound record: the accepted one, a renewed one, or what was there |
| `Attestation.Cache.WriteAttestation` | npm/bin/cli.js:390-404 | A record is written only for this version and a settled identity |
| `Attestation.AcceptedMatches` | npm/bin/cli.js:359-388 | Accepting a sound record implies the full hash match, and the version match it claims |
| `Attestation.AcceptsWhen` | npm/bin/cli.js:352-388 | A record is accepted if and only if it is for this digest and version, both timestamps had settled for two seconds, and the path names a file other than inode zero with exactly its inode, size and timestamps |
| `Attestation.AttestedWhen` | npm/bin/cli.js:390-417 | A full verification writes a record, and this one, if and only if the file matched, was of this version and had the same settled identity before and after it was hashed |
| `Attestation.AttestedIsAccepted` | npm/bin/cli.js:359-417 | What a verification wrote is accepted later if and only if the path still names a file of that identity, so the hash is skipped |
| `Attestation.RenewedWhen` | npm/bin/cli.js:549-561 | A version check renews a record if and only if it is accepted, the binary reported this version and its settled identity stayed the same |
| `Attestation.TracksForever` | npm/bin/cli.js:330-357 | A sound record stays sound under any rewrite, touch, reuse of the inode or rename-over |
| `Attestation.SafeExactlyWhenSettled` | npm/bin/cli.js:320-334 | Attesting is safe against every interference that leaves the path alone if and only if the ctime was two seconds old at the capture |
| `Attestation.QuietAttestationIsSound` | npm/bin/cli.js:406-417 | It is sound whenever nothing changes between the hash and the clock reading |
| `Attestation.SettledAttestationIsSound` | npm/bin/cli.js:330-334 | It is sound under any change once the ctime had settled at the capture and the path named the file when hashed |
| `Attestation.SettledSoundExactly` | npm/bin/cli.js:406-417 | Under any change, re-pointing the path included, a record written for a settled capture is sound if and only if the captured file itself matched, or its inode has gone or its ctime moved on |
| `Attestation.SameTickIsUnsound` | npm/bin/cli.js:409-415 | The interference that defeats an unsettled capture: a same-tick rewrite after the hash |
| `Attestation.RepointIsUnsound` | npm/bin/cli.js:409-415 | Pointing the path elsewhere only while it is hashed attests the wrong file |
| `Attestation.RenewedIsSound` | npm/bin/cli.js:549-561 | Renewing an accepted record is sound whatever is done to the file, while the path goes on naming it |
| `Constraints.IntersectExact` | crates/phantom-authority/src/constraints.rs:299-348 | A request is permitted by the intersection exactly when both arguments permit it |
| `Constraints.RefusalExact` | crates/phantom-authority/src/constraints.rs:299-348 | Each refusal of valid arguments has its exact cause, and then no request satisfies both |
| `Constraints.IntersectClosed` | crates/phantom-authority/src/constraints.rs:275-348 | Narrowing valid constraints gives valid constraints |
| `Constraints.IntersectCommutes` | crates/phantom-authority/src/constraints.rs:299-348 | Commutative up to which error is reported |
| `Constraints.IntersectIdempotent` | crates/phantom-authority/src/constraints.rs:299-348 | Idempotent on valid constraints |
| `Constraints.IntersectAssociates` | crates/phantom-authority/src/constraints.rs:299-348 | Associative up to which error is reported |
| `Constraints.IntersectIsGlb` | crates/phantom-authority/src/constraints.rs:299-348 | The greatest lower bound of its arguments |
| `Constraints.BelowIsNarrower` | crates/phantom-authority/src/constraints.rs:299-348 | Smaller in that order means permitting no more |
| `ConstraintAnswers.ScopeAnswers` | crates/phantom-authority/src/constraints.rs:138-155 | A scope is valid exactly when it is not empty, repeats nothing and ascends, with the error of each failure |
| `ConstraintAnswers.DeclaredOrders` | crates/phantom-authority/src/constraints.rs:10-21 | Schemes and methods are ordered as they are declared |
| `ConstraintAnswers.HostAnswers` | crates/phantom-authority/src/constraints.rs:179-205 | Which host names are accepted, by their dot-separated parts |
| `ConstraintAnswers.PathAnswers` | crates/phantom-authority/src/constraints.rs:206-222 | Which path prefixes are accepted, by their segments |
| `ConstraintAnswers.WithinAnswers` | crates/phantom-authority/src/constraints.rs:393-398 | A path is within another exactly when it is that path or continues it after a slash |
| `ConstraintAnswers.NetworkAnswers` | crates/phantom-authority/src/constraints.rs:170-226 | The first broken rule of a network is the one reported |
| `ConstraintAnswers.SpendAnswers` | crates/phantom-authority/src/constraints.rs:248-260 | The first broken rule of a spending limit is the one reported |
| `ConstraintAnswers.ValidateAnswers` | crates/phantom-authority/src/constraints.rs:275-291 | Constraints are valid if and only if no rule is broken, and otherwise the first broken rule is reported |
| `ConstraintAnswers.IntersectAnswers` | crates/phantom-authority/src/constraints.rs:299-348 | Each answer of an intersection if and only if its condition holds, in the order of the checks, and the limits of a successful one |
| `Scopes.PathScopeIntersection` | crates/phantom-authority/src/constraints.rs:368-391 | The nested loops compute the meet of the two path sets, listed in order |
| `Scopes.PathMeetExact` | crates/phantom-authority/src/constraints.rs:368-391 | A path is under the meet exactly when it is under both scopes |
| `Scopes.AncestorsComparable` | crates/phantom-authority/src/constraints.rs:393-398 | Two ancestors of one path are comparable |
| `Scopes.WithinTransitive` | crates/phantom-authority/src/constraints.rs:393-398 | Being within is transitive |
| `Scopes.WithinAntisymmetric` | crates/phantom-authority/src/constraints.rs:393-398 | Being within is antisymmetric |
| `Scopes.PathMeetAssociates` | crates/phantom-authority/src/constraints.rs:368-391 | The path meet is associative |
| `Scopes.ValidIsListing` | crates/phantom-authority/src/constraints.rs:139-154 | A valid scope is the sorted listing of its members |
| `Grants.GrantExact` | crates/phantom-authority/src/verifier.rs:67-104 | A verified grant permits exactly what the intent and the granted constraints both permit, inside its window |
| `Grants.BindingFailsOnlyFor` | crates/phantom-broker/src/lease.rs:32-71 | Leasing a verified grant fails exactly for generation zero or denied capacity, with exactly those errors |
| `Grants.IntentWithinOperation` | crates/phantom-authority/src/schema.rs:33-82 | Whatever a validated intent permits stays within its operation: only a share calls out, only writing operations write, nothing spends |
| `Grants.BindingNoWider` | crates/phantom-broker/src/lease.rs:54-71 | A lease binding permits exactly what intent and grant both permit |
| `GrantAnswers.EffectClasses` | crates/phantom-authority/src/verbs.rs:29-41 | Which effects each operation may have |
| `GrantAnswers.IntentAnswers` | crates/phantom-authority/src/schema.rs:33-82 | Each answer to validating an intent if and only if its condition holds |
| `GrantAnswers.AuthorityAnswers` | crates/phantom-authority/src/schema.rs:114-136 | Each answer to validating a subject if and only if its condition holds |
| `GrantAnswers.GrantedWhen` | crates/phantom-authority/src/verifier.rs:74-93 | A grant is verified if and only if intent and subject are valid, share workspace, manifest and environment, the constraints can be met without making a writing intent read-only, and the time is inside both windows; each refusal has its condition |
| `GrantAnswers.GrantCarries` | crates/phantom-authority/src/verifier.rs:94-104 | A verified grant carries its id and time, the action, operation and arguments of its intent, and the subject it was verified for |
| `GrantAnswers.BindingAnswers` | crates/phantom-broker/src/lease.rs:32-52 | Each answer to validating a binding if and only if its condition holds |
| `GrantAnswers.BindingCarries` | crates/phantom-broker/src/lease.rs:54-71 | A binding carries its grant field by field |
| `Text.LabelIs` | crates/phantom-authority/src/schema.rs:138-145 | A label has between one and its limit of characters, each a letter, a digit or one of the extra ones |
| `ClosedDecoder.DecodesExactly` | crates/phantom-authority/src/canonical.rs:23-33 | Decoding accepts exactly the canonical encodings of float-free values within the nesting bound |
| `ClosedDecoder.ContractRoundTrip` | crates/phantom-authority/src/canonical.rs:23-33 | A contract decodes from exactly its canonical bytes |
| `ClosedDecoder.EncodeInjective` | crates/phantom-authority/src/canonical.rs:12-75 | Two float-free values with one encoding are equal up to key order |
| `ClosedDecoder.TooDeepIsRefused` | crates/phantom-authority/src/canonical.rs:23-33 | Encoding has no nesting bound and decoding has one: a concrete value that encodes and does not decode |
| `ClosedDecoder.TowerDecodes` | crates/phantom-authority/src/canonical.rs:23-33 | Of nested arrays, exactly those of fewer than 128 levels are read back |
| `ClosedDecoder.NumbersDecode` | crates/phantom-authority/src/canonical.rs:23-33 | Exactly the integers of 64 bits, signed or unsigned, are read back |
| `ClosedDecoder.CanonicalJsonV1` | crates/phantom-authority/src/canonical.rs:12-17 | The method writes the specified canonical text or refuses a float |
| `Canonical.WriteCanonical` | crates/phantom-authority/src/canonical.rs:35-75 | The recursive writer appends exactly the canonical text, or reports a float |
| `CanonicalText.TextLessIsByteLess` | crates/phantom-authority/src/canonical.rs:61-62 | The order of keys: a proper prefix first, otherwise the smaller byte at the first difference |
| `CanonicalText.NeighbouringKeysAscend` | crates/phantom-authority/src/canonical.rs:61-70 | Any two keys written one after the other ascend in that byte order |
| `CanonicalText.ObjectText` | crates/phantom-authority/src/canonical.rs:59-72 | The text of an object: its members with ascending keys, each as key, colon and value, with commas between them, in braces |
| `CanonicalText.ArrayText` | crates/phantom-authority/src/canonical.rs:49-58 | The text of an array: its items in order with commas between them, in brackets |
| `CanonicalText.ScalarTexts` | crates/phantom-authority/src/canonical.rs:37-48 | The texts of null, the booleans, numbers and strings |
| `CanonicalText.EscapeTexts` | crates/phantom-authority/src/canonical.rs:46-48 | What is escaped in a string and how; everything else is written as it is |
| `CanonicalText.SampleText` | crates/phantom-authority/src/canonical.rs:35-75 | One whole document, byte by byte |
| `JsonRoundTrip.ValueRoundTrip` | crates/phantom-authority/src/canonical.rs:23-33 | The reader gives back every value from its canonical text, and what follows it |
| `Frames.EncodeFrame` | crates/phantom-broker/src/codec.rs:7-20 | A frame is appended whole, or, refused, nothing is; only a failing stream is left with a part of the frame, of exactly the bytes it took |
| `Frames.DecodeFrame` | crates/phantom-broker/src/codec.rs:22-50 | Reads one frame, with each truncation and length error |
| `Frames.FrameRoundTrip` | crates/phantom-broker/src/codec.rs:7-50 | Bytes decode to a message and a rest exactly when they are its frame followed by that rest |
| `Frames.StreamRoundTrip` | crates/phantom-broker/src/codec.rs:7-50 | Concatenated frames decode to the same list of messages, consuming every byte |
| `Frames.PrefixRoundTrip` | crates/phantom-broker/src/codec.rs:16-28 | The length prefix reads back |
| `Frames.PrefixBytes` | crates/phantom-broker/src/codec.rs:14-28 | The length is written and read most significant byte first |
| `Frames.EncodeAnswers` | crates/phantom-broker/src/codec.rs:7-20 | A value has a frame if and only if it has no float and its text has at most 65536 bytes |
| `Frames.DecodeAnswers` | crates/phantom-broker/src/codec.rs:22-36 | Each way a frame can be cut short or announce a wrong length, with what is left of the stream |
| `Frames.PayloadAnswers` | crates/phantom-broker/src/codec.rs:37-49 | Each way a complete payload is refused, and when it is a message |
| `AuditFeed.Emit` | crates/phantom-cli/src/audit_feed.rs:26-53 | However the input is cut into chunks, exactly the complete records of at most 64 KiB, in order |
| `AuditFeed.CompleteIsUnique` | crates/phantom-cli/src/audit_feed.rs:26-53 | There is one way to cut an input into lines and an unterminated tail, and it is the one used |
| `AuditFeed.CompleteCuts` | crates/phantom-cli/src/audit_feed.rs:26-53 | The records and a tail without a newline make up the input |
| `AuditFeed.ShortKeeps` | crates/phantom-cli/src/audit_feed.rs:36-50 | Complete records are projected in order, each exactly when it has at most 65536 bytes with its newline |
| `AuditFollow.FollowFile` | crates/phantom-cli/src/audit_feed.rs:134-213 | The poll loop computes the specified polls |
| `AuditFollow.PollFile` | crates/phantom-cli/src/audit_feed.rs:150-211 | One poll: validate the prefix, project the rest, advance the cursor |
| `AuditFollow.PollsOnce` | crates/phantom-cli/src/audit_feed.rs:134-213 | All polls of a growing file together project exactly what one reading of its last content projects |
| `AuditFollow.ResumedOnce` | crates/phantom-cli/src/audit_feed.rs:157-177 | A feed started at the beginning or at any cursor of the file, stopped after any printed entry and resumed from its cursor: every record after the start is projected exactly once |
| `AuditFollow.PrintedStands` | crates/phantom-cli/src/audit_feed.rs:190-207 | A printed cursor stands where it was printed, so resumed feeds can themselves be resumed |
| `AuditFollow.ResumesWhen` | crates/phantom-cli/src/audit_feed.rs:157-177 | A poll goes on at its cursor if and only if that names this file, lies within it, and its digest is the one of the bytes before it; otherwise it restarts at the first byte |
| `AuditFollow.RestartProjectsAll` | crates/phantom-cli/src/audit_feed.rs:157-210 | After a rotation or a rewrite the whole file is projected and the cursor moves to it |
| `AuditFollow.RotatedOnce` | crates/phantom-cli/src/audit_feed.rs:134-213 | A feed that comes to a new, growing file with the old one's cursor projects every record of the new file exactly once, however often it polls |
| `AuditFollow.EntriesAreWanted` | crates/phantom-cli/src/audit_feed.rs:182-210 | Followed and piped feeds project the same records |
| `CivilDate.CivilIsCalendar` | crates/phantom-core/src/analytics.rs:717-729 | The closed formula walks the proleptic Gregorian calendar one day at a time |
| `CivilDate.CivilEpoch` | crates/phantom-core/src/analytics.rs:715-729 | Day zero is 1970-01-01 |
| `CivilDate.CivilRoundTrip` | crates/phantom-core/src/analytics.rs:717-729 | Every day count is a valid date and the usual inverse gives it back |
| `CivilDate.DateRoundTrip` | crates/phantom-core/src/analytics.rs:717-729 | Every valid date from the epoch on is the date of its own day count |
| `CivilDate.CivilIncreases` | crates/phantom-core/src/analytics.rs:717-729 | Later days have later dates |
| `CivilDate.YmdExact` | crates/phantom-core/src/analytics.rs:728-728 | The returned date is the calendar date if and only if the day count is below 1568703873082, the first day of year 2^32 |
| `CivilDate.YmdInjective` | crates/phantom-core/src/analytics.rs:717-729 | Dates repeat themselves only from day 1568704592610 on |
| `CivilDate.Iso8601Injective` | crates/phantom-core/src/analytics.rs:702-713 | Two seconds before that day never print alike |
| `CivilDate.Iso8601Wraps` | crates/phantom-core/src/analytics.rs:728-728 | The first second of that day, within 64 bits, prints as the epoch |
| `CivilDate.Iso8601Exact` | crates/phantom-core/src/analytics.rs:702-729 | Timestamps determine their second among all seconds below a limit if and only if the limit is at most the first second of that day |
| `CivilDate.Iso8601Reads` | crates/phantom-core/src/analytics.rs:702-713 | The timestamp reads, field by field and mark by mark, as the calendar date of its day, with the year cut to 32 bits, and the time in that day |
| `Csv.RecordsToCsv` | crates/phantom-core/src/analytics.rs:656-667 | The loop writes the header and one line per record |
| `Csv.CsvRoundTrip` | crates/phantom-core/src/analytics.rs:656-680 | A reader for the quoting rules of section 2 of RFC 4180 gives back the header and exactly the records |
| `Csv.FieldRoundTrip` | crates/phantom-core/src/analytics.rs:674-680 | Every field reads back as itself, whatever it contains |
| `Csv.CsvInjective` | crates/phantom-core/src/analytics.rs:656-667 | The text determines the records |
| `Csv.RowFollowsHeader` | crates/phantom-core/src/analytics.rs:656-667 | The header text, and every value of a record in the column of its name |
| `Csv.QuotedWhen` | crates/phantom-core/src/analytics.rs:674-680 | A field is quoted if and only if it contains a comma, a quote, a line feed or a carriage return, and then grows by exactly its own quotes and two |
| `AffectedCrates.Select` | scripts/affected-crates.py:9-48 | The whole workspace exactly when some path is refused; otherwise the sorted names of exactly the least set with every path's deepest owner that is closed under reverse dependencies |
| `AffectedCrates.Worklist` | scripts/affected-crates.py:43-47 | The worklist ends on every graph, cyclic ones included, with the closure of the roots |
| `AffectedCrates.ClosureUnique` | scripts/affected-crates.py:43-47 | The closure is unique, so the order of popping does not matter |
| `AffectedCrates.ClosureDepends` | scripts/affected-crates.py:43-47 | A package is affected if and only if a chain of direct dependencies leads from it to a package that owns a changed path |
| `AffectedCrates.SelectionUnique` | scripts/affected-crates.py:9-48 | There is one right selection, so no order of visiting sets can change it |
| `AffectedCrates.ListsUnique` | scripts/affected-crates.py:48-48 | The sorted list does not depend on the order of the set |
| `AffectedCrates.RootsOf` | scripts/affected-crates.py:24-42 | Which paths are refused, and the deepest owner of each other one |
| `AffectedCrates.DeepestUnique` | scripts/affected-crates.py:35-42 | The deepest owning directory of a path is unique |
| `AffectedCrates.ReverseOf` | scripts/affected-crates.py:12-22 | The nested loops build the reverse dependency graph |
| `AffectedCrates.MembersWhen` | scripts/affected-crates.py:10-12 | Exactly the packages listed as members are considered, in their order |
| `AffectedCrates.OwnersWhen` | scripts/affected-crates.py:13-14 | A directory belongs to the last package in it, and an id has the last name given to it |
| `AffectedCrates.ReverseWhen` | scripts/affected-crates.py:15-22 | A package is listed under another if and only if one of its path dependencies is that one's directory |
| `AffectedCrates.SuspiciousWhen` | scripts/affected-crates.py:25-33 | Which path components may reach beyond one crate: the reserved names, and the four words in any case |
| `AffectedCrates.RefusedWhen` | scripts/affected-crates.py:25-41 | A path is accepted if and only if it is relative, has no suspicious component, lies below a package directory, and is a Rust file within a `src` directory |
| `AffectedCrates.DeepestWhen` | scripts/affected-crates.py:34-42 | A package directory owns a path if and only if it lies above it and below every other one that does |

## Left out

- Replay of an older authentic snapshot by someone who can write the file: the code states that it does not detect this, and no run here contains it.
- Cryptography (SHA-256, HMAC, ChaCha20-Poly1305, Argon2), the vault blob format, and the verifier of grant signatures: only their outcomes appear.
- File ownership, modes, links, Windows ancestor checks and `overlaps_directory`: they can only refuse earlier; `Install` keeps them as one `owned` mark that moves with the file.
- The process-wide mutex and its poisoning: transactions are atomic steps, and the state `ACTIVATING`, which only a concurrent call on the same object can see, is merged into the claim.
- `list_leases`, `finish_use` and `abandon_use`: a listing of the modelled state, and compositions of the two modelled completion phases.
- `BrokerRuns.NextKeeps`: requests reach `reserve` only through a verified grant, as the constructors of the source enforce; permits and tokens, which the source makes unforgeable, are arbitrary values with the right seal.
- serde itself: `ClosedDecoder` takes the two conversions between a contract and its JSON as given functions; text is a sequence of bytes and numbers are the integers serde_json keeps exactly.
- `Install.RecoverInterruptedInstall`: file reads do not fail transiently, and only this process changes the five names; the install lock and its stale take-over are not modelled.
- Power loss in the installer: finished operations persist in order, so `fsync` calls can only fail.
- `Attestation.Cache.BinaryDigestMatches`: assumes that nothing changes between hash and clock reading, or that the file had settled and the path still named it when hashed; without that the answer of a later call can differ, as the two counterexample lemmas show.
- `Attestation.Cache.CheckVersion`: assumes that the path goes on naming one inode while the version is checked; the child process and its time-out are a given function of the file's bytes.
- The device number of a file identity: one device.
- `AuditFollow.FollowFile`: models a finite sequence of polls, each of the content it reads to its end; the JSON projection of a record and the hex and JSON form of a cursor are not modelled.
- I/O errors of the feeds and, other than the end of the stream, of the frame reader: they only cut the output short or end the call.
- `CivilDate.CivilRoundTrip`: day counts of the epoch or later, as every caller has; the branch for negative day numbers is never taken there.
- `AffectedCrates.Select`: directories are already relative to the workspace root.
- Averages and scores of the analytics, which are about `f64` rounding; downloads, archives, child processes, HTTP clients, command dispatch and user interface.
