# Formal model of the Latchway Android SDK and its release tooling

A Dafny 4.11 model of the parts of Latchway whose correctness depends on interleavings, on untrusted bytes or
on crash recovery, with proofs of what those parts promise. `dafny verify dfyconfig.toml` checks all of it.

## What is modelled

* **Sessions, retirement and locks** (`SessionModel`, `SessionSafety`, `SessionTheorems`, `SessionWitnesses`,
  `SessionServing`, `SessionOutcomes`, `SessionProgress`, `SessionDeadlock`, `SessionLeaves`,
  `SessionNamespaces`). Any number of root and component coordinators share retirement records, coordination,
  identity, reset and revocation locks, and session stores. A step is one region between two lock boundaries or
  suspension points; the environment chooses answers, clock readings, failures with or without effect, and
  cancellation. Which session an operation serves, what it clears and what a refusal, a nonce or a lost key leads
  to is stated over whole runs (`SessionServing`, `SessionOutcomes`). The refresh-token, conditional-clear and
  deadlock-freedom promises do not hold for every way of wiring clients together; each is proved under the exact
  condition, with a run that breaks it otherwise. The SDK's own storage namespaces meet the condition for refresh
  tokens (`SessionNamespaces`); the mutexes below the protocol come last in the lock order (`SessionLeaves`).
* **The encrypted store** (`SessionStore`) and **keystore-bound signers** (`InstallationKeys`), each as objects
  and, for signers, as a transition system over one alias: its lock is explicit, operations read the identity and
  use the key in separate calls, and the key may be lost between any two of them.
* **Component sessions** (`ComponentChain`) from provisioning through any number of refreshes.
* **Codecs** (`Base64Url`, `EcdsaSignatureCodec`, `Utf8`, `Json`, `Dpop`): RFC 4648 sections 3.5 and 5, ITU-T X.690
  sections 8.1.3, 8.3 and 10.1, RFC 7518 section 3.4, RFC 8259 section 7, RFC 9449 section 4.2, RFC 7515
  section 7.1.
* **The raw ZIP acceptor** (`ZipFormat`, `ZipRecords`, `ZipPartition`, `RawZip`): `ZipFormat` says which byte
  strings are archives (PKWARE APPNOTE sections 4.3.7, 4.3.9, 4.3.12, 4.3.16) without mentioning how they are
  read, and the reader accepts exactly those. `PayloadManifest` covers the canonical manifest printer.
* **Release reconciliation** (`ReleaseModel`, `ReleaseReconciliation`, `ReleaseRuns`) against a service whose
  calls may fail before or after their effect or leave half-uploaded assets.
* **Bounded protocols**: Play Integrity renewal (`PlayIntegrity`), the OkHttp attempt budget (`AttemptBudget`),
  the one-use grant slot (`GrantSlot`), and the two route policies (`Routes`, with RFC 3986 section 5.2.4).

`Prelude`, `Text`, `Bytes` and `Sorting` are shared vocabulary.

Conventions: hashes and fingerprints are injective; keys, generations, tokens and identifiers that the platform
draws at random are fresh numbers; the model covers one process lifetime, because retirement is held in memory.
In the session model corrupt ciphertext counts as an empty store, a finished task counts as no task, `isCurrent`
is the environment's choice, and closing a client is cancellation. A forced refresh that finds an unforced task
in flight joins it, as the code does, so only a task that the forced refresh itself starts is sure to rotate
(`SessionOutcomes.ForcedRefreshRenews`). Strings are sequences of Unicode scalar values, so unpaired surrogates do
not occur. `hide` statements only tell the verifier which definitions a proof does not need.

Where code and documentation differ the model follows the code: a save may land after a key was retired and is
then undone by the cleanup that waits for it, so the retirement theorem speaks of the time after the clear; and
opening a signer may delete an existing software key by policy. Three findings are stated as lemmas with the
inputs that show them. A keystore or cipher call that throws while the encrypted store loads makes it wipe an
intact snapshot, even one that the conditional clear in progress does not name (`SessionStore.ForeignSafeIff`,
`SessionWitnesses.SnapshotIsWiped`). Component revocations deadlock when their coordination keys and those of
their roots form a cycle: one component on the key of its own root is a cycle, and so are two components that
are each on the key of the other's root (`SessionDeadlock.DeadlockFreeIff`). The two route policies part ways for
a base path without a final slash (`Routes.RoutesAgreeIff`); the client configuration tests the decoded path and so
lets through only such bases as end in an encoded slash (`Routes.ConfiguredBases`).

## Model

| member | source | states |
|---|---|---|
| SessionSafety.ExclusiveNext | latchway-core/src/main/kotlin/dev/latchway/core/InstallationKeyLifecycle.kt:55-85 | Every step of every operation keeps mutual exclusion: no coordination, identity-state, key-reset, revocation or component lock is ever held by two operations. |
| SessionSafety.RetireNext | latchway-core/src/main/kotlin/dev/latchway/core/SessionCoordinator.kt:257-306 | Every step keeps the retirement invariant: a store recorded as cleared of a key never holds a snapshot of that key, cleared and reset keys are retired ones, a save in progress is for a key no store was cleared of, and an operation begun after retirement stays away from every point that serves headers. |
| SessionSafety.HomeNext | latchway-core/src/main/kotlin/dev/latchway/core/SessionCoordinator.kt:465-511 | Every snapshot in a store, loaded by a task or about to be saved was granted for that very store and key. |
| SessionSafety.OrderNext | latchway-core/src/main/kotlin/dev/latchway/core/SessionCoordinator.kt:205-235 | Where clients of one store and key share their coordination key, every step keeps: the stored, the loaded and the pending generation are newer than every superseded one. |
| SessionSafety.ClearNext | latchway-core/src/main/kotlin/dev/latchway/core/SessionCoordinator.kt:513-541 | Where unbound stores belong to clients of one key, every step keeps: a clear that has read its target still finds that target when it commits. |
| SessionTheorems.RunInvariant | latchway-core/src/main/kotlin/dev/latchway/core/SessionCoordinator.kt:205-301 | All of these invariants hold at every point of every run of any number of coordinators, with every I/O step free to fail or be cancelled. |
| SessionTheorems.ClearedForGood | latchway-core/src/main/kotlin/dev/latchway/core/SessionCoordinator.kt:264-278 | Once a cleanup has cleared its store, that store never again holds a snapshot bound to the retired key, in any continuation of the run. |
| SessionTheorems.CompleteCleanup | latchway-core/src/main/kotlin/dev/latchway/core/SessionCoordinator.kt:280-299 | A coordinator that marks its cleanup complete has its store cleared for good, its key retired, and its key reset exactly once if the signer can reset. |
| SessionTheorems.ResetAtMostOnce | latchway-core/src/main/kotlin/dev/latchway/core/InstallationKeyLifecycle.kt:78-85 | Over all coordinators of an identity at most one coordinated key reset succeeds. |
| SessionTheorems.NoHeadersOnceRetired | latchway-core/src/main/kotlin/dev/latchway/core/SessionCoordinator.kt:52-67 | An operation that begins after its key was retired never reaches the point where authorization headers are returned. |
| SessionServing.CarriesItsTask | latchway-core/src/main/kotlin/dev/latchway/core/SessionCoordinator.kt:205-251 | Whatever generation an operation carries to its proof, its request or its caller is the one that the task it awaited ended with. |
| SessionServing.TaskFound | latchway-core/src/main/kotlin/dev/latchway/core/SessionCoordinator.kt:205-233 | A task presents for refresh, and ends with, only a generation that was in its own store under its own key when it loaded the store or just after its own save. |
| SessionServing.ServesOwnSession | latchway-core/src/main/kotlin/dev/latchway/core/SessionCoordinator.kt:52-67 | In every run, headers and everything sent to the gateway carry the session of the operation's own coordinator: the one its awaited task ended with, found in that coordinator's store under its key, and granted to that store and key. |
| SessionOutcomes.ServesOnlyActive | latchway-core/src/main/kotlin/dev/latchway/core/SessionCoordinator.kt:308-322 | At the step that returns headers or sends a request, neither the key is retired nor the coordinator revoked. |
| SessionOutcomes.TerminalRetires | latchway-core/src/main/kotlin/dev/latchway/core/SessionCoordinator.kt:85-102 | After an accepted revocation or a terminal refusal, of its own request or of the task it awaits, an operation does not end in any way before its key is retired. |
| SessionOutcomes.TaskStaysTerminal | latchway-core/src/main/kotlin/dev/latchway/core/SessionCoordinator.kt:237-250 | A terminal refusal of a task's own request is what every caller that awaits the task sees. |
| SessionOutcomes.KeyLossFails | latchway-core/src/main/kotlin/dev/latchway/core/SessionCoordinator.kt:493-509 | A task that finds its key gone while it saves turns to clearing exactly the grant it was saving, and fails in any case: it never ends with that session. |
| SessionOutcomes.ClearsWhatItUsed | latchway-core/src/main/kotlin/dev/latchway/core/SessionCoordinator.kt:513-541 | Every clear names what its operation used: the foreign key it found, the session it tried to refresh or to use, the grant it was saving, all of its own key in a cleanup, or what its caller named. |
| SessionOutcomes.ClearEmpties | latchway-core/src/main/kotlin/dev/latchway/core/SessionCoordinator.kt:513-541 | A clear that succeeds leaves no snapshot that it names in the store. |
| SessionOutcomes.NonceRetriedOnce | latchway-core/src/main/kotlin/dev/latchway/core/SessionCoordinator.kt:556-588 | An operation repeats its request for a nonce at most once. |
| SessionOutcomes.SharesTheTask | latchway-core/src/main/kotlin/dev/latchway/core/SessionCoordinator.kt:205-251 | As long as a coordinator's task is unfinished and has not been given up, every operation that asks for a session awaits that one task. |
| SessionOutcomes.CompleteForGood | latchway-core/src/main/kotlin/dev/latchway/core/SessionCoordinator.kt:257-301 | A coordinator whose cleanup is complete stays so: no later cleanup clears, resets or takes the mark back. |
| SessionOutcomes.ForcedRefreshRenews | latchway-core/src/main/kotlin/dev/latchway/core/SessionCoordinator.kt:192-194 | A task started by a forced refresh ends only with a generation that was granted after it started. |
| SessionTheorems.OneRefreshInFlight | latchway-core/src/main/kotlin/dev/latchway/core/InstallationKeyLifecycle.kt:104-115 | Over all root and component clients at most one refresh per coordination key is with the gateway at any time. |
| SessionTheorems.NoReplay | latchway-core/src/main/kotlin/dev/latchway/core/SessionCoordinator.kt:454-463 | Where clients of one store and key share their coordination key, no run presents a refresh token whose successor was saved. |
| SessionWitnesses.ReplayHappens | latchway-core/src/main/kotlin/dev/latchway/core/SessionCoordinator.kt:211-221 | For any two clients with one store and key but different coordination keys there is a run in which one replays a refresh token the other has superseded. |
| SessionWitnesses.ReplaySafeIff | latchway-core/src/main/kotlin/dev/latchway/core/SessionCoordinator.kt:205-255 | No run of a set of clients ever replays a superseded refresh token if and only if clients of one store and key share a coordination key. |
| SessionNamespaces.NamespaceIdentifies | latchway-okhttp/src/main/kotlin/dev/latchway/okhttp/LatchwayClient.kt:520-529 | Two valid configurations digest the same namespace text if and only if they are equal, although no separator follows the base path. |
| SessionNamespaces.NamespacesNeverReplay | latchway-okhttp/src/main/kotlin/dev/latchway/okhttp/LatchwayClient.kt:383-405 | Clients that take store and coordination key from their configuration meet the refresh-token condition, so no run of them presents a superseded refresh token. |
| SessionTheorems.ClearsTheirTarget | latchway-core/src/main/kotlin/dev/latchway/core/SessionCoordinator.kt:513-541 | Where unbound stores belong to clients of one key and no keystore or cipher call throws during a load, every load and conditional clear of every run leaves its store alone or empties it of exactly the snapshot the clear names. |
| SessionTheorems.BoundClearsAreExact | latchway-core/src/main/kotlin/dev/latchway/core/SessionState.kt:132-170 | In a store that compares and clears under one lock, however it is shared, a load or clear is exact if and only if it is not one whose keystore or cipher call throws over a snapshot it does not name. |
| SessionWitnesses.SnapshotIsLost | latchway-core/src/main/kotlin/dev/latchway/core/SessionCoordinator.kt:519-521 | For two clients of different keys on one unbound store there is a run in which a clear removes a snapshot it never named. |
| SessionWitnesses.SnapshotIsWiped | latchway-core/src/main/kotlin/dev/latchway/core/SessionState.kt:149-206 | Wherever a keystore or cipher call can throw during a load there is a run in which a clear of an earlier generation wipes the current, intact snapshot. |
| SessionWitnesses.ClearSafeIff | latchway-core/src/main/kotlin/dev/latchway/core/SessionCoordinator.kt:513-541 | Every load and conditional clear of every run is exact if and only if no unbound store is shared by clients of different keys and no keystore or cipher call throws during the load of a bound one. |
| SessionProgress.HolderIsCloser | latchway-core/src/main/kotlin/dev/latchway/core/SessionCoordinator.kt:185-301 | Whoever holds a lock that another operation queues for is unfinished and strictly closer to going on, along one lock order. |
| SessionProgress.SomeoneSteps | latchway-core/src/main/kotlin/dev/latchway/core/SessionCoordinator.kt:185-301 | From any unfinished operation a chain, each member of which awaits the next or queues for a lock that the next one holds, ends in an operation that can take a step. |
| SessionProgress.NoDeadlock | latchway-core/src/main/kotlin/dev/latchway/core/ComponentSession.kt:414-487 | When the coordination keys of components come before those of their roots in some order, no reachable state is deadlocked. |
| SessionLeaves.LayeredNext | latchway-core/src/main/kotlin/dev/latchway/core/InstallationKeyLifecycle.kt:12-23 | With the namespace and alias locks explicit, every step keeps the invariants and leaves each such lock with an operation whose region uses it. |
| SessionLeaves.NoDeadlockWithLeaves | latchway-core/src/main/kotlin/dev/latchway/core/InstallationKeyLifecycle.kt:12-23 | With those locks as the last ranks of the lock order, in every run, as long as an operation is unfinished, some operation can take a lock or go on. |
| SessionDeadlock.OrderOrCycle | latchway-core/src/main/kotlin/dev/latchway/core/ComponentSession.kt:330-338 | Any set of components can be ordered from own key to root key, or some of them lead from a coordination key back to itself. |
| SessionDeadlock.ReachJam | latchway-core/src/main/kotlin/dev/latchway/core/ComponentSession.kt:414-424 | For every cycle of component and root keys, of any length, there is a run in which the revocations of its components each hold a session lock and await a task of their root. |
| SessionDeadlock.JamIsDeadlocked | latchway-core/src/main/kotlin/dev/latchway/core/ComponentSession.kt:414-424 | That state is deadlocked: each task queues for the session lock that the next revocation holds. |
| SessionDeadlock.DeadlockFreeIff | latchway-core/src/main/kotlin/dev/latchway/core/ComponentSession.kt:414-487 | For all clients whose components have a root: no reachable state is deadlocked if and only if the coordination keys can be ordered with every component before its root, and if and only if no chain of components leads from a key back to itself. |
| SessionStore.SnapshotInverse | latchway-core/src/main/kotlin/dev/latchway/core/SessionState.kt:236-277 | A snapshot survives its document exactly when the constructors accept it; nothing else is read back. |
| SessionStore.AndroidEncryptedSessionStateStore.Save | latchway-core/src/main/kotlin/dev/latchway/core/SessionState.kt:100-128 | After a save whose commit is applied the entries decrypt and parse to exactly the snapshot; otherwise what was there stays, and success is reported exactly when nothing threw and the commit succeeded. |
| SessionStore.AndroidEncryptedSessionStateStore.LoadLocked | latchway-core/src/main/kotlin/dev/latchway/core/SessionState.kt:149-170 | A load returns exactly what is stored and leaves it alone; corrupt entries are rejected and wiped, and so are intact ones when a keystore or cipher call throws. |
| SessionStore.AndroidEncryptedSessionStateStore.Load | latchway-core/src/main/kotlin/dev/latchway/core/SessionState.kt:98 | The same for a caller from outside. |
| SessionStore.AndroidEncryptedSessionStateStore.Clear | latchway-core/src/main/kotlin/dev/latchway/core/SessionState.kt:130 | Empties the store exactly when the commit is applied, and reports success exactly when the commit does. |
| SessionStore.AndroidEncryptedSessionStateStore.ClearIfInstallation | latchway-core/src/main/kotlin/dev/latchway/core/SessionState.kt:132-135 | The exact contents and result for every snapshot and every fault: what is named or could not be read is wiped unless the commit was not applied, and everything else stays. |
| SessionStore.AndroidEncryptedSessionStateStore.ClearIfSession | latchway-core/src/main/kotlin/dev/latchway/core/SessionState.kt:137-147 | The same for one generation of an identity. |
| SessionStore.ForeignSafeIff | latchway-core/src/main/kotlin/dev/latchway/core/SessionState.kt:132-170 | An intact snapshot that a conditional clear does not name is safe from it, whatever else fails, if and only if no keystore or cipher call throws during its load. |
| SessionStore.SurvivesIff | latchway-core/src/main/kotlin/dev/latchway/core/SessionState.kt:132-206 | Over any run of loads and conditional clears a snapshot survives, and survives unchanged, if and only if no operation named it or threw over it and had its commit applied. |
| InstallationKeys.LockNext | latchway-core/src/main/kotlin/dev/latchway/core/InstallationKeyLifecycle.kt:15-23 | Every step of any number of operations keeps: exactly the operations between their lock and unlock points have the alias lock and the reset mutexes, one each. |
| InstallationKeys.ObservationHolds | latchway-core/src/main/kotlin/dev/latchway/core/InstallationKeyLifecycle.kt:128-152 | The identity an operation has read is still the entry's when it comes to act, unless the key was lost outside the process. |
| InstallationKeys.OnlyOwnKeys | latchway-core/src/main/kotlin/dev/latchway/core/InstallationKeyLifecycle.kt:122-153 | On one alias with any number of concurrent operations that read the identity in one call and use the key in a later one: each signature was made with the key the signer is bound to, each reset or destroy deleted only the key it is for, the policy deleted only the software key it saw, and no generation overwrote a signer's key. |
| InstallationKeys.NeverSignsAfterReset | latchway-core/src/main/kotlin/dev/latchway/core/InstallationKeyLifecycle.kt:128-147 | No signature of a signer follows the start of its own reset, even when that reset failed. |
| InstallationKeys.StaleForGood | latchway-core/src/main/kotlin/dev/latchway/core/InstallationKeyLifecycle.kt:137-140 | A signer that is not current once is never current again: keys created later are not its own. |
| InstallationKeys.OneResetSucceeds | latchway-core/src/main/kotlin/dev/latchway/core/InstallationKeyLifecycle.kt:78-85 | In every run at most one coordinated reset per identity succeeds, and from then on the key of that identity is gone for good. |
| InstallationKeys.OutcomeMeans | latchway-core/src/main/kotlin/dev/latchway/core/InstallationKeyLifecycle.kt:128-152 | In every interleaving, an operation that ends normally has signed with its own key, made a valid signer for the key then present and allowed, or left the alias without the key it is to remove; one that fails has a failing call, a signer that is not current, a lost key or a forbidden software key to show for it. |
| InstallationKeys.FailedResetIsRetryable | latchway-core/src/main/kotlin/dev/latchway/core/InstallationKeyLifecycle.kt:73-85 | From every point of every run, whatever has failed or is in progress, some continuation completes the coordinated reset of any signer's identity. |
| InstallationKeys.AliasBoundInstallationKey.Sign | latchway-core/src/main/kotlin/dev/latchway/core/InstallationKeyLifecycle.kt:128-135 | Signs only with the expected identity, only while it is current, and never once invalidated. |
| InstallationKeys.AliasBoundInstallationKey.IsCurrent | latchway-core/src/main/kotlin/dev/latchway/core/InstallationKeyLifecycle.kt:137-140 | True only of a valid signer whose key is there; false otherwise or when the comparison fails. |
| InstallationKeys.AliasBoundInstallationKey.Reset | latchway-core/src/main/kotlin/dev/latchway/core/InstallationKeyLifecycle.kt:142-152 | Invalidates the signer whatever happens, deletes its own key only, leaves a replacement alone, and returns normally only when the own key is gone; the comparison itself may fail. |
| InstallationKeys.KeystoreAlias.Destroy | latchway-core/src/main/kotlin/dev/latchway/core/AndroidKeystoreInstallationSigner.kt:107-122 | Deletes the entry only while it still holds the expected key, and returns normally only when that key is gone; the comparison itself may fail. |
| InstallationKeys.CreateSigner | latchway-core/src/main/kotlin/dev/latchway/core/AndroidKeystoreInstallationSigner.kt:124-180 | Binds the new signer to the key the alias then holds; an existing key is kept unless it is a software key the policy forbids. |
| ComponentChain.ChainAsProvisioned | latchway-core/src/main/kotlin/dev/latchway/core/ComponentSession.kt:489-563 | Along every chain of refreshes the family, component, definition, platform, key, features and trust stay as provisioned, and access expiry < refresh expiry <= provisioned trust expiry. |
| ComponentChain.FeaturesWereRequested | latchway-core/src/main/kotlin/dev/latchway/core/ComponentSession.kt:646-687 | A provisioning document that is accepted is in order, and every session of a chain from it has a non-empty subset of the requested features, the document's component, family, definition and trust, and ends no later than the provisioning grant. |
| ComponentChain.ComponentSessionCoordinator.Provision | latchway-core/src/main/kotlin/dev/latchway/core/ComponentSession.kt:489-535 | With its own clock reading for the grant and for each answer: on success both answers were acceptable, the key stayed current, and the store holds the second answer's own tokens, records and expiries; initial credentials outliving the delegated trust are refused, and a replaced key destroys the state. |
| ComponentChain.ComponentSessionCoordinator.CurrentSession | latchway-core/src/main/kotlin/dev/latchway/core/ComponentSession.kt:450-487 | Returns the stored session while fresh at one clock reading, else one with the acceptable answer's own access and refresh token and its lifetimes from a later reading, under the same binding; otherwise leaves, clears or retires exactly as the outcome demands: a key found replaced during the refresh or around the save retires the component, one gone before the load only destroys the state. |
| ComponentChain.ComponentSessionCoordinator.Authorize | latchway-core/src/main/kotlin/dev/latchway/core/ComponentSession.kt:368-388 | The token is the stored access token while that is fresh, and the refresh answer's access token after a renewal; only for an allowed destination and a provisioned feature, within the provisioned trust lifetime. |
| ComponentChain.ComponentSessionCoordinator.ClearSessionIfCurrent | latchway-core/src/main/kotlin/dev/latchway/core/ComponentSession.kt:400-407 | Clears exactly the generation named by its access token. |
| Base64Url.DecodeEncode | latchway-core/src/main/kotlin/dev/latchway/core/Dpop.kt:130-181 | Decoding undoes encoding, for all bytes. |
| Base64Url.EncodeDecode | latchway-core/src/main/kotlin/dev/latchway/core/Dpop.kt:161-180 | Whatever decodes is exactly the encoding of the result: one spelling per byte string. |
| Base64Url.EncodeBytes | latchway-core/src/main/kotlin/dev/latchway/core/Dpop.kt:133-159 | The grouped encoder computes the base-64 digits of the number the bytes spell in base 256. |
| Base64Url.WrappedByte | latchway-core/src/main/kotlin/dev/latchway/core/Dpop.kt:165-176 | The unmasked 32-bit accumulator yields the same byte as an unbounded one. |
| Base64Url.DecodeString | latchway-core/src/main/kotlin/dev/latchway/core/Dpop.kt:161-180 | The decoder with the wrapping accumulator accepts exactly canonical unpadded input and returns the bytes it spells. |
| EcdsaSignatureCodec.JoseToDer | latchway-core/src/main/kotlin/dev/latchway/core/Dpop.kt:275-289 | The converter produces the one DER form of the signature. |
| EcdsaSignatureCodec.DerToJose | latchway-core/src/main/kotlin/dev/latchway/core/Dpop.kt:228-273 | DER input is accepted if and only if it is the DER form of some 64-byte signature, which is what is returned; every long-form length is covered. |
| EcdsaSignatureCodec.ContentFacts | latchway-core/src/main/kotlin/dev/latchway/core/Dpop.kt:277-284 | The contents octets are minimal and unsigned and have the value of the 32 octets. |
| EcdsaSignatureCodec.DerOfInjective | latchway-core/src/main/kotlin/dev/latchway/core/Dpop.kt:275-289 | Different signatures have different DER forms. |
| Utf8.DecodeEncode | latchway-core/src/main/kotlin/dev/latchway/core/Dpop.kt:116-117 | Every text survives UTF-8 encoding and strict decoding. |
| Utf8.EncodeDecode | scripts/VerifyPlayAabSignature.java:445-455 | Whatever a strict decoder accepts is exactly the encoding of the result. |
| Json.WriteJsonString | latchway-core/src/main/kotlin/dev/latchway/core/Dpop.kt:205-225 | The escaping loop computes the escaped text character by character. |
| Json.ReadStringInverse | latchway-core/src/main/kotlin/dev/latchway/core/Dpop.kt:205-225 | A reader of JSON strings recovers every text from its escaped form, whatever follows it. |
| Json.ReadObjectInverse | latchway-core/src/main/kotlin/dev/latchway/core/Dpop.kt:103-114 | A reader of JSON objects recovers every list of members from its printed form. |
| Dpop.HtuIdentifies | latchway-core/src/main/kotlin/dev/latchway/core/Dpop.kt:183-196 | Two targets share their htu if and only if scheme, lower-cased host, effective port and path agree. |
| Dpop.HtuSpelling | latchway-core/src/main/kotlin/dev/latchway/core/Dpop.kt:183-196 | The htu is https or http, the lower-cased host, a colon and the decimal port unless it is absent or the default, and the path. |
| Dpop.HtuReads | latchway-core/src/main/kotlin/dev/latchway/core/Dpop.kt:183-196 | A reader that knows only the grammar of such URIs gets scheme, host, effective port and path back. |
| Dpop.ProofReads | latchway-core/src/main/kotlin/dev/latchway/core/Dpop.kt:116-126 | A compact serialisation splits into exactly three segments that decode to the header, the claims and the signature. |
| Dpop.Create | latchway-core/src/main/kotlin/dev/latchway/core/Dpop.kt:102-127 | A proof exists exactly when the target has a host and the signer returns 64 bytes; looked up by name in what the proof decodes to, htm, htu, iat, jti, ath and nonce are those of the request and the jwk holds the public key; the signature is over the first two segments. |
| ZipRecords.ValidateExtraFields | scripts/VerifyPlayAabSignature.java:728-752 | The cursor loop accepts exactly the empty field and the one 9-byte extended timestamp. |
| ZipRecords.ValidateFlagsAndMethod | scripts/VerifyPlayAabSignature.java:692-703 | The mask tests accept exactly the listed flag values for each compression method. |
| ZipRecords.ValidateExternalAttributes | scripts/VerifyPlayAabSignature.java:713-726 | The mask tests accept exactly plain files of a DOS host without mode or of a UNIX host without special bits. |
| ZipRecords.DecodeName | scripts/VerifyPlayAabSignature.java:435-455 | A name without the UTF-8 flag is accepted exactly when it is printable ASCII, otherwise when it is strict UTF-8. |
| ZipRecords.ValidateName | scripts/VerifyPlayAabSignature.java:415-434 | The tests accept exactly relative paths of ordinary components, free of control characters and back slashes, in normal form. |
| ZipRecords.ReadCentral | scripts/VerifyPlayAabSignature.java:527-598 | A central header is accepted if and only if the encoding of some acceptable entry stands at the position, and that entry is returned. |
| ZipRecords.CentralUnique | scripts/VerifyPlayAabSignature.java:527-598 | At most one acceptable entry stands at a position. |
| ZipRecords.ValidateLocalRecord | scripts/VerifyPlayAabSignature.java:625-690 | A local record is accepted if and only if header, name, extra field, sizes, data bound and descriptor agree with the central entry, and its end is returned. |
| ZipRecords.RecordStands | scripts/VerifyPlayAabSignature.java:625-690 | An accepted record is byte for byte the encoding of its entry, its data and its descriptor. |
| ZipPartition.RenderRegions | scripts/VerifyPlayAabSignature.java:499-518 | A file is the rendering of an archive exactly when records, directory and end record fill it without gap, overlap or remainder. |
| ZipPartition.SortIsPhysical | scripts/VerifyPlayAabSignature.java:607-617 | Sorting the directory by offset yields the records in physical order. |
| ZipPartition.PartitionUnique | scripts/VerifyPlayAabSignature.java:492-623 | No file is partitioned in two ways. |
| RawZip.ReadDirectory | scripts/VerifyPlayAabSignature.java:526-605 | The first loop succeeds with exactly the entries of a well-formed directory, names distinct up to case and total size bounded, whenever one stands there. |
| RawZip.ReadLocals | scripts/VerifyPlayAabSignature.java:607-620 | The second loop succeeds if and only if records of the sorted entries tile the file up to the directory. |
| RawZip.Read | scripts/VerifyPlayAabSignature.java:493-623 | A file is accepted if and only if some well-formed archive partitions it, and the result is that archive's directory in order with the index of its names. |
| RawZip.IndexFinds | scripts/VerifyPlayAabSignature.java:563-597 | The index by name finds every entry. |
| PayloadManifest.CompareUnsigned | scripts/VerifyPlayAabSignature.java:361-368 | The loop computes the sign of the first unsigned difference or of the lengths. |
| PayloadManifest.CompareFlips | scripts/VerifyPlayAabSignature.java:361-368 | Swapping the arguments flips the sign, and only equal names compare as equal. |
| PayloadManifest.CompareTransitive | scripts/VerifyPlayAabSignature.java:361-368 | The comparison is transitive, as sorting requires. |
| PayloadManifest.LineInjective | scripts/VerifyPlayAabSignature.java:337-348 | A printed line determines every printed field. |
| PayloadManifest.LineShows | scripts/VerifyPlayAabSignature.java:337-348 | Read column by column a line gives the entry's name, raw name, digest, size, version, flags, method, time, date, attributes and extra field, in the order of the header. |
| PayloadManifest.ComparePrecedes | scripts/VerifyPlayAabSignature.java:361-368 | The comparison that sorts is lexicographic order of unsigned bytes. |
| PayloadManifest.ManifestLists | scripts/VerifyPlayAabSignature.java:316-355 | The canonical text is such a manifest for every payload, whatever its order. |
| PayloadManifest.HexText | scripts/VerifyPlayAabSignature.java:407-413 | The loop prints two lower-case hexadecimal digits per byte. |
| PayloadManifest.RawNamesDistinct | scripts/VerifyPlayAabSignature.java:435-455 | Within an accepted archive the raw name identifies the entry, although flags decide how it is decoded. |
| PayloadManifest.CanonicalPayloadManifest | scripts/VerifyPlayAabSignature.java:316-355 | The result is a header, the entry count and one line per entry in unsigned order of the raw names, whose columns spell the entry's facts under their names in the header; the bound checked after each line rejects exactly manifests that are too long as a whole. |
| PayloadManifest.AcceptedPayload | scripts/VerifyPlayAabSignature.java:157-188 | Whatever entries of the directory of an accepted archive are chosen, each once and in any order, with the hexadecimal digests of any contents, make up such a payload. |
| PayloadManifest.SameTextIffSameRecords | scripts/VerifyPlayAabSignature.java:316-368 | Two payloads of accepted archives print the same manifest if and only if their entries match one to one with equal name, raw name, digest, size, version, flags, method, time, date, origin, attributes and extra field. |
| ReleaseReconciliation.InspectAssets | scripts/reconcile-github-release.py:231-249 | Accepts exactly non-empty lists of bounded regular files with safe, distinct names, and returns them sorted by name, each once. |
| ReleaseReconciliation.ValidateRelease | scripts/reconcile-github-release.py:252-289 | Accepts exactly releases with the intended metadata and distinct, expected, uploaded assets, and indexes them by name. |
| ReleaseReconciliation.VerifyRemoteAsset | scripts/reconcile-github-release.py:292-306 | Accepts a remote asset only if its downloaded bytes are the local ones, and does accept those when no call fails. |
| ReleaseReconciliation.ValidateTagBinding | scripts/reconcile-github-release.py:420-435 | Accepts exactly the intended tag, commit, message and, if given, tag object. |
| ReleaseReconciliation.UploadMissing | scripts/reconcile-github-release.py:356-362 | Uploads only what is missing; wherever it is cut short, assets were only appended, each local and byte-identical once uploaded. |
| ReleaseReconciliation.Reconcile | scripts/reconcile-github-release.py:309-417 | However the attempt ends it is safe; success means every byte is in place and, if asked for, published and immutable; without failing calls it succeeds if and only if the guards hold and the release is resumable. |
| ReleaseRuns.NothingReplaced | scripts/reconcile-github-release.py:309-417 | Over any number of crashed or completed attempts no listed asset is replaced or removed, and a published release stays as it is. |
| ReleaseRuns.PublishedExactly | scripts/reconcile-github-release.py:380-417 | If a release has become public, one attempt published exactly its complete local set, byte for byte, immutable. |
| ReleaseRuns.MismatchStopsEverything | scripts/reconcile-github-release.py:350-362 | While a present asset differs from the local one of its name, every attempt leaves the release untouched. |
| ReleaseRuns.CrashIsResumable | scripts/reconcile-github-release.py:309-417 | A crash anywhere leaves a release from which an undisturbed attempt succeeds, exactly when no half-uploaded asset was left. |
| ReleaseRuns.SuccessIsStable | scripts/reconcile-github-release.py:335-417 | Whatever a further attempt, crashed or not, does with the draft or published release that a success left behind, it changes nothing. |
| ReleaseRuns.Rerun | scripts/reconcile-github-release.py:335-417 | A second undisturbed run after success, draft-only or not, succeeds, uploads nothing and changes nothing. |
| PlayIntegrity.Provider.RunWithRetry | latchway-play-integrity/src/main/kotlin/dev/latchway/playintegrity/PlayIntegrityAttestationProvider.kt:121-158 | At most m calls with the capped doubling delays in between; retries only after transient failures, and the result is what the last call says. |
| PlayIntegrity.Provider.ResolveInvalidProvider | latchway-play-integrity/src/main/kotlin/dev/latchway/playintegrity/PlayIntegrityAttestationProvider.kt:199-229 | Under the mutex: a missing provider is prepared, a newer generation is reported as stale, a second renewal is refused, and otherwise exactly the observed generation is invalidated and replaced, unless the request is cancelled before the invalidation or the preparation fails. |
| PlayIntegrity.InvalidatedAtMostOnce | latchway-play-integrity/src/main/kotlin/dev/latchway/playintegrity/PlayIntegrityAttestationProvider.kt:192-229 | Over all requests, interleaved in any way, no provider generation is invalidated twice. |
| PlayIntegrity.Provider.RequestToken | latchway-play-integrity/src/main/kotlin/dev/latchway/playintegrity/PlayIntegrityAttestationProvider.kt:160-190 | However other requests interleave, the first resolution is about the generation read at the start and each later one about the generation reported before it, none stale twice in a row without another region between; the loop ends after at most m(m + 2) gateway requests and one invalidation of its own, and gives up only for a stated reason. |
| PlayIntegrity.ObservedIncreases | latchway-play-integrity/src/main/kotlin/dev/latchway/playintegrity/PlayIntegrityAttestationProvider.kt:160-190 | The generations that the resolutions of a request are about strictly increase, so no stale generation is reported twice. |
| AttemptBudget.Budget.Claim | latchway-okhttp/src/main/kotlin/dev/latchway/okhttp/LatchwayClient.kt:732-735 | A budget is claimed exactly once. |
| AttemptBudget.ClaimNetworkAttempt | latchway-okhttp/src/main/kotlin/dev/latchway/okhttp/LatchwayClient.kt:747-758 | Passes only with a budget nobody has claimed. |
| AttemptBudget.ResponseCount | latchway-okhttp/src/main/kotlin/dev/latchway/okhttp/LatchwayClient.kt:722-730 | The loop counts a response and its prior responses. |
| AttemptBudget.RenewsExactlyValidated | latchway-okhttp/src/main/kotlin/dev/latchway/okhttp/LatchwayClient.kt:761-807 | The authenticator renews exactly on first, replayable responses with a fully cross-checked nonce or expiry problem, and clears exactly on such an end of the session. |
| AttemptBudget.AuthenticationDecision | latchway-okhttp/src/main/kotlin/dev/latchway/okhttp/LatchwayClient.kt:944-961 | Renews exactly on renewable responses, with the announced nonce for a nonce problem and by a refresh for an expiry, clears exactly on a validated end of the session, and ignores everything else. |
| AttemptBudget.AtMostTwoRequests | latchway-okhttp/src/main/kotlin/dev/latchway/okhttp/LatchwayOkHttpHooks.kt:60-175 | Under any sequence of connection retries, redirects, repetitions and 401 follow-ups at most two requests of a pass reach the gateway, the second only after a validated nonce or expiry problem and with the announced nonce or none; every mint and dispatch has its own proof, and nothing with credentials goes elsewhere. |
| AttemptBudget.SecondRequest | latchway-okhttp/src/main/kotlin/dev/latchway/okhttp/LatchwayOkHttpHooks.kt:102-121 | Every such problem can lead to a second request, so the bound is met. |
| GrantSlot.TerminalAbsorbs | sample-conformance/src/main/kotlin/dev/latchway/sample/conformance/OneTimeIdentityGrant.kt:206-268 | In every interleaving of offers, takes and clears the terminal state is never left. |
| GrantSlot.ReturnedIsTerminal | sample-conformance/src/main/kotlin/dev/latchway/sample/conformance/OneTimeIdentityGrant.kt:206-268 | From the return of a clear, of a take or of a failed offer on the slot is terminal. |
| GrantSlot.GrantLeaves | sample-conformance/src/main/kotlin/dev/latchway/sample/conformance/OneTimeIdentityGrant.kt:245-264 | A staged grant leaves the slot for good: to a taker that read it, which gets it exactly if the coordinates are its own and the deadline has not passed, or unseen when a clear, a failed offer or an unsuccessful take returns. |
| GrantSlot.OneGrantEver | sample-conformance/src/main/kotlin/dev/latchway/sample/conformance/OneTimeIdentityGrant.kt:222-264 | At most one take ever returns a grant; its bytes hash to its coordinates, which are the taker's. |
| GrantSlot.GrantSlotState.Offer | sample-conformance/src/main/kotlin/dev/latchway/sample/conformance/OneTimeIdentityGrant.kt:222-243 | Stages exactly acceptable bytes in an empty slot, ends the slot otherwise, and wipes the buffer either way. |
| GrantSlot.GrantSlotState.Take | sample-conformance/src/main/kotlin/dev/latchway/sample/conformance/OneTimeIdentityGrant.kt:245-264 | Ends the slot and hands a pending grant only to the taker with its coordinates. |
| GrantSlot.OneUseIdentityTokenProvider.IdentityToken | sample-conformance/src/main/kotlin/dev/latchway/sample/conformance/OneTimeIdentityGrant.kt:277-288 | The token is handed out once. |
| GrantSlot.DeliverOnce | sample-conformance/src/main/kotlin/dev/latchway/sample/conformance/OneTimeIdentityGrant.kt:194-204 | An acceptable offer is delivered to its taker once; a second take and a second token request get nothing. |
| GrantSlot.AsciiRoundTrip | sample-conformance/src/main/kotlin/dev/latchway/sample/conformance/OneTimeIdentityGrant.kt:230-231 | The comparison with the re-encoded text accepts exactly US-ASCII. |
| Routes.RoutesAgree | latchway-okhttp/src/main/kotlin/dev/latchway/okhttp/LatchwayClient.kt:574-601 | With a base path ending in a slash the OkHttp policy and the component policy agree on every target, feature and upper-case method. |
| Routes.RoutesAgreeIff | latchway-core/src/main/kotlin/dev/latchway/core/ComponentSession.kt:920-948 | They agree on all upper-case methods if and only if the base path ends in a slash. |
| Routes.AllowedRoutes | latchway-okhttp/src/main/kotlin/dev/latchway/okhttp/LatchwayClient.kt:574-601 | With such a base path the OkHttp policy lets through exactly the four POST routes and, for its five methods and without a query, the proxy path of the feature with a bounded opaque rest. |
| Routes.ConfiguredBases | latchway-core/src/main/kotlin/dev/latchway/core/LatchwayApi.kt:454-465 | The configuration, which tests the decoded path, accepts exactly base paths that end in a slash or an encoded slash, among them one on which the policies differ. |
| Routes.DecodeSplits | latchway-okhttp/src/main/kotlin/dev/latchway/okhttp/LatchwayClient.kt:593-601 | One percent-decoding of an accepted rest keeps its segments apart and decodes each on its own. |
| Routes.NothingRemoved | latchway-okhttp/src/main/kotlin/dev/latchway/okhttp/LatchwayClient.kt:593-601 | Dot-segment removal changes no path without dot segments. |
| Routes.OpaqueIsStable | latchway-okhttp/src/main/kotlin/dev/latchway/okhttp/LatchwayClient.kt:593-601 | An accepted opaque path keeps its segments under one percent-decoding, none becomes empty or a dot segment, no back slash appears, and dot-segment removal leaves it alone before and after decoding. |

## Left out

- AES-GCM, ECDSA, SHA-256, JAR signatures, Android Keystore and SharedPreferences internals: parameters that undo themselves, injective functions, or objects with failing calls.
- Network transport, OkHttp internals and coroutine scheduling: nondeterministic environments around the steps.
- Fairness: nothing says that a waiting operation is eventually scheduled, only that some operation can step.
- Unicode normalisation and case folding of ZIP names: uninterpreted functions of the acceptor's rules.
- `JarFile`, inflation and the classification of signature entries: the model ends at the accepted raw directory and starts again at payload entries with their digests.
- `org.json` parsing of server answers, field-by-field checks of quota and diagnostics, and RFC 3339 calendar arithmetic: component parsing starts from parsed records with epoch seconds.
- ComponentChain.ParseInitial: omits that the two initial tokens are handed on, because only their lifetimes are compared later.
- Component provisioning checks identifiers by regular expression; the model compares identifiers but does not restrict their alphabet.
- Dpop.Create: takes request validation (method, URI scheme, nonce length) as done, because the round trip holds for every request.
- InstallationKeys: the diagnostics of a key and the device tests that decide whether StrongBox is tried, which no operation depends on later.
- SessionProgress.NoDeadlock: speaks of the protocol's own locks only, and `SessionLeaves.NoDeadlockWithLeaves` adds the mutexes below; an outer component lock is modelled for revocation; provisioning and opening a component take their session lock alone and are not processes of their own.
- ReleaseReconciliation.Reconcile: the tag reference and the immutability setting do not change during an attempt, because no outside writer is assumed; error messages and command-line parsing are not modelled.
- Routes.RoutesAgree: is about one parsed target for both policies; `HttpUrl` removes dot segments while parsing and `URI.rawPath` keeps them, so raw texts with dot segments may reach the two policies as different targets.
- The tag-binding proof file that links two invocations of the release script: a flat comparison of fields.
- AttemptBudget: request and response bodies, headers other than the credentials, and redirects to other origins beyond the refusal to carry credentials there.
- Activities, samples, the Firebase adapter and content providers, which pass values between Android and the client, and the other release validators, which compare fields of build and workflow files.
