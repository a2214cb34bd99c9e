# Verification of gcx

A Dafny model of the parts of gcx whose correctness depends on more than one
function: the WebAssembly data-segment stripper of the sandbox, the write
protocol over the config file and the OS keychain, the rotating refresh-token
protocol, the life of a sandbox runtime and its response bodies, the end of a
browser login, and the algebra of layered and migrated configs.

`dafny verify dfyconfig.toml` checks the whole project.

How the model follows the program:

- Code that changes things step by step is imperative here as well: a class
  with the program's fields where the program has an object, a `while` or `for`
  loop where it has one. Each such method is proved against a function of its
  input or of the old state, and the lemmas are about those functions.
- What runs concurrently (goroutines, processes, host and guest) is a state
  machine with one step per mutex-held stretch or external call. The steps are
  the same functions the class methods are proved against, and the main results
  hold after every finite run of every interleaving.
- Everything that can fail, fails whenever it likes: store calls, renames,
  directory syncs, locks, networks, clocks and cancellations are arbitrary
  choices of a method or arbitrary events of a run. "Unless a call fails" below
  means: unless a call does other than it is asked; four generations in a row
  that are already taken count as a failed call.

| file | what it models |
|---|---|
| Leb128, WasmReader | LEB128 integers and the byte reader |
| WasmData, WasmModule | data sections, segments and `put` calls; sections and `stripModule` |
| WasmMeaning | instantiation (WebAssembly Core Specification 2.0, section 4.5.4) before and after stripping |
| WasmEncoding | modules spelled byte for byte: what segments, sections and immediates read as, and what stripping makes of them |
| MemoryImage | the image file, its size, and the two kinds of guest memory |
| CredentialNames | the strings that stand for credentials |
| KeychainStore, KeychainTransaction | the two stores with a history of snapshots; the write transaction |
| ConfigWrite, ConfigCommit, ConfigLoad | reconciliation; `writeConfig`; inventory, resolution and writing back |
| CredentialGuards | secrets after overrides, and entries of other files in a write |
| RefreshTransport, RefreshFlights, RefreshSystem | the transport; the goroutines of a process; many processes, the lock, the stored tokens and the issuer |
| SandboxLifecycle, BodyStream, GuestHttp | Run and Close; response bodies; headers and exchange ids |
| OAuthCallback | callbacks and pasted URLs racing for one code |
| SortedStrings, EntryNames, CloudEntries | canonical lists; generated names; copy-on-write of cloud entries |
| LayeredLocks, LayerMerge | lock sets; the merge of layers |
| LegacyMigration | the legacy conversion, its self-check and `Resolve` |

A definition that a method is proved against, and that several results rest on,
has a lemma of its own that says what it is without using it: what a module spelled
byte for byte reads as (`WasmEncoding`), which field is refused, superseded or
written (`ConfigWrite.RefusedExactly`, `ConfigWrite.SupersededExactly`,
`ConfigCommit.ReferencesAreOwn`), how a flight can end (`RefreshRegions.CleanFlight`),
which verdict an input gets (`OAuthCallback.VerdictsExplained`), which layer a value
comes from (`LayerMerge.CurrentFromHighest` and its neighbours), and what a legacy
record says (`LegacyMigration.SecretOfConnection` and its neighbours).

A state machine that never moves keeps every invariant, so each has lemmas that it
goes on: a body can be delivered to its end (`BodyStream.CanComplete`), every Close
can finish (`SandboxLifecycle.CloseCanFinish`), a waiter comes back
(`RefreshFlights.WaiterReturns`), the lock is given back and a refresh completes
(`RefreshSystem.LockIsFreed`, `RefreshSystem.RefreshCompletes`), a login can succeed
(`OAuthCallback.CanStillLogIn`), and some process can always take its next lock
(`LayeredLocks.NoDeadlock`).

Some claims in the program's comments turned out not to hold in every case. For
each there is a lemma that shows the case, and one that says exactly when the
claim holds:

- `pendingRefresh` must be retried "before the token can be exposed to any
  caller" (transport.go:97-99). A call that found a usable token reads it after
  another flight has replaced it with an unpersisted one
  (`RefreshFlights.ExposesUnpersisted`). What is read needs no persisting unless
  a generation is pending; then it is that generation's token, which is the old,
  persisted one only when the response brought none (`RefreshFlights.ExposedToken`).
- "The paste route won the race, and the login is complete" (flow.go:489). The
  claim is taken, but the login complete only when the pasted code's exchange has
  succeeded, and still open while it runs (`OAuthCallback.CompletedPage`, for every
  run). When it failed the callback is told so all the same, nothing is sent, and
  the terminal waits (`OAuthCallback.ReachesStuck`, `OAuthCallback.StuckLasts`)
  until its context ends, the server fails or a cancelled page is pasted
  (`OAuthCallback.StuckCanEnd`). A waiting terminal can still log in exactly when
  the claim is neither wasted nor about to be (`OAuthCallback.CanStillLogIn`).
- "Resolution failures compare different" (cloud_login.go:184). They compare as
  empty (`CloudEntries.UnresolvedCanCompareSame`,
  `CloudEntries.UnresolvedComparesEmpty`).
- "Already-resolved fields hold plaintext and are skipped" (keychain.go:1016).
  Not when the stored secret itself reads as a reference: then a second
  resolution takes it for the document's reference (`ConfigLoad.ResolvedTwice`).
  `ConfigLoad.LoadedConfig.ResolveOwner` states the exact condition.
- A value bound to another destination "must not be presented to the new
  destination" (keychain.go:1036-1038). Each key is dealt with once. An override
  that changes one copy of a credential, as those of the program do, leaves none
  behind (`CredentialGuards.OneChangedCopyIsSafe`); it takes one that changes two
  for the second to stay as it is (`CredentialGuards.SecondCopyStaysExposed`).
  `CredentialGuards.ExposedExactly` says of every copy whether it does.
- "The callback server won the race. Its result is already on its way"
  (callback.go:242-243). A paste is told that the exchange is claimed also after an
  earlier paste's exchange has failed, and then nothing is on its way
  (`OAuthCallback.SecondPasteIsTold`). A message is on its way exactly when the
  callback server took the claim or something else has failed
  (`OAuthCallback.ClaimedPaste`).
- A legacy reference parses back exactly for context names other than "", "v2"
  and those that begin with "v2:" (`CredentialNames.LegacyRoundTrip`).
- -1 from `body_read` marks the end of the body, except on a cancelled exchange,
  where it can follow a truncated one (`BodyStream.CancelledBodyLooksComplete`).
- The legacy conversion checks a second choice of entry name no further
  (`LegacyMigration.ThirdContextOverwrites`), and a context with the empty name
  loses its stack entry (`LegacyMigration.UnnamedLosesStack`). The views are kept
  exactly otherwise (`LegacyMigration.ConversionKeepsViews`); the first case can be
  told from the legacy config (`LegacyMigration.WillCollide`), and the self-check
  refuses the second.

## Model

| member | source | states |
|---|---|---|
| Leb128.ULebRoundTrip | experimental/sandbox/image_linux.go:305-351 | reading inverts writing for every 64-bit value before any trailing bytes, and takes exactly the bytes written |
| Leb128.SLebRoundTrip | experimental/sandbox/image_linux.go:319-334 | the signed reading inverts writing modulo 2^32 for every 32-bit integer |
| Leb128.Examples | experimental/sandbox/image_linux.go:305-334 | the values of known encodings, overlong ones included |
| Leb128.CanonicalIsShortest | experimental/sandbox/image_linux.go:344-351 | no encoding of a value is shorter than the one written |
| Leb128.ReencodeNotLonger | experimental/sandbox/image_linux.go:305-351 | re-encoding what was read takes no more bytes than were read, overlong encodings included |
| Leb128.AppendULEB | experimental/sandbox/image_linux.go:336-342 | the loop appends the canonical encoding and nothing else |
| Leb128.ULebLen | experimental/sandbox/image_linux.go:344-351 | the loop counts the bytes of the canonical encoding |
| Leb128.OrOfDisjointIsSum | experimental/sandbox/image_linux.go:310 | or of groups that share no bit is their sum, which is how the loops are written here |
| WasmReading.WasmReader.Byte | experimental/sandbox/image_linux.go:285-292 | the next byte, or a sticky error at the end |
| WasmReading.WasmReader.Bytes | experimental/sandbox/image_linux.go:294-302 | the next n bytes, or an error when fewer are left |
| WasmReading.WasmReader.ULeb | experimental/sandbox/image_linux.go:305-317 | the unsigned value modulo 2^64 of an encoding of up to ten bytes, consumed exactly; otherwise an error |
| WasmReading.WasmReader.I32 | experimental/sandbox/image_linux.go:320-334 | the signed value modulo 2^32 of every encoding of up to five bytes, consumed exactly |
| WasmData.ReadSegment | experimental/sandbox/image_linux.go:229-268 | a segment of any of the three kinds, as parsed, or the rejection |
| WasmData.StripSegment | experimental/sandbox/image_linux.go:229-268 | an active segment is put and emptied, a passive one kept; out-of-bounds segments are refused |
| WasmData.StripData | experimental/sandbox/image_linux.go:222-273 | accepts exactly the acceptable sections, puts the active segments in order, keeps all or none |
| WasmData.ImageFile.PutSegment | experimental/sandbox/image_linux.go:50-62 | the file after a write at an offset, holes as zeros, and the end of the data |
| WasmModule.ReadMemory | experimental/sandbox/image_linux.go:168-184 | the minimum pages of a single memory, or the rejection |
| WasmModule.StripOneSection | experimental/sandbox/image_linux.go:167-195 | one section with what earlier ones have said about memory and indices |
| WasmModule.EncodeModule | experimental/sandbox/image_linux.go:203-216 | the output is header and sections, and as long as the size computed beforehand |
| WasmModule.StripModule | experimental/sandbox/image_linux.go:149-217 | accepts exactly what the specification accepts, with that output and those put calls in that order |
| WasmMeaning.StrippedDataReads | experimental/sandbox/image_linux.go:222-273 | the emitted data section parses to the segments with the active ones emptied |
| WasmMeaning.SectionsRead | experimental/sandbox/image_linux.go:203-216 | emitted sections parse to the same list |
| WasmMeaning.StripIsStable | experimental/sandbox/image_linux.go:157-216 | same ids, same bodies but for data; stripping again puts nothing and returns the module unchanged |
| WasmMeaning.PutsRunSegments | experimental/sandbox/image_linux.go:229-268 | the put calls do to memory what the active segments did |
| WasmMeaning.StripPreservesInstance | experimental/sandbox/image_linux.go:149-273 | for sections in standard order: puts over zeros and then the stripped module give the original's failure or memory, and, where an index can matter, its data instances |
| WasmEncoding.ImmediateIs | experimental/sandbox/image_linux.go:319-334 | every spelling of an immediate reads as its signed value modulo 2^32 |
| WasmEncoding.ActiveReads | experimental/sandbox/image_linux.go:229-268 | a segment with flags 0, or 2 and memory 0, is placed at its immediate with its data, and takes its own bytes; every spelling of the numbers |
| WasmEncoding.PassiveReads | experimental/sandbox/image_linux.go:229-268 | a segment with flags 1 is passive with its data |
| WasmEncoding.OnlyThese | experimental/sandbox/image_linux.go:229-268 | nothing else is read as a segment |
| WasmEncoding.DataReads | experimental/sandbox/image_linux.go:222-273 | a data section lists its segments in order |
| WasmEncoding.MemoryReads | experimental/sandbox/image_linux.go:168-184 | the pages of a memory section, with exactly what is refused |
| WasmEncoding.SpelledModuleStrips | experimental/sandbox/image_linux.go:149-273 | of a module spelled byte for byte: accepted exactly when it has memory and every placed item fits; the image shows at each address the last item over it or zero; the stripped module is spelled out |
| WasmEncoding.NoDataStrips | experimental/sandbox/image_linux.go:157-217 | a module without data comes back as it was, one without memory is refused |
| WasmEncoding.NotWasm | experimental/sandbox/image_linux.go:150-152 | what does not begin like a module is refused |
| MemoryImage.RoundUpIsLeast | experimental/sandbox/image_linux.go:63-64 | the size is the least page multiple that covers the data |
| MemoryImage.PutsInside | experimental/sandbox/image_linux.go:229-268 | every put lies inside the initial memory |
| MemoryImage.ImageFits | experimental/sandbox/image_linux.go:50-82 | with a page size that divides 64 KiB the image never exceeds the initial memory |
| MemoryImage.ResizeIsZerosWritten | experimental/sandbox/image_linux.go:63-72 | truncating the written file to its size is the puts over zeros |
| MemoryImage.BuildImage | experimental/sandbox/image_linux.go:50-82 | the image is the start of the initial memory, of least size; there is none exactly when a step fails, stripping refuses or there is no data |
| MemoryImage.FirstGrowthIsOriginal | experimental/sandbox/image_linux.go:97-112 | the first growth shows exactly the original's initial memory |
| MemoryImage.GrownTwice | experimental/sandbox/alloc_linux.go:75-99 | growing in two steps shows what growing at once does |
| MemoryImage.MappedMemory.Reallocate | experimental/sandbox/alloc_linux.go:75-80 | nothing beyond the reservation; otherwise the size asked for, larger or smaller, over the same bytes |
| MemoryImage.HeapMemory.Reallocate | experimental/sandbox/alloc_linux.go:94-99 | the size asked for, larger or smaller, over the same bytes, whether or not the buffer is replaced |
| MemoryImage.SameBytes | experimental/sandbox/alloc_linux.go:73-101 | after every allowed sequence of new sizes and guest writes both memories show the same bytes |
| MemoryImage.WritesAreKept | experimental/sandbox/alloc_linux.go:73-101 | every byte keeps its last store, or the image, or zero, through smaller sizes as well |
| CredentialNames.BoundRoundTrip | internal/credentials/credentials.go:204-255 | a bound reference parses to its digest and generation exactly when the generation is valid |
| CredentialNames.OnlyBoundParses | internal/credentials/credentials.go:246-255 | what parses is exactly the prefix, a valid digest, a colon and 1 to 128 characters without a colon |
| CredentialNames.ReferenceIsExact | internal/credentials/credentials.go:221-227 | a reference opens an account for exactly the binding it was made for, when that is complete and the generation valid |
| CredentialNames.AccountsDistinct | internal/credentials/credentials.go:204-210 | accounts of different bindings or generations differ |
| CredentialNames.LegacyRoundTrip | internal/credentials/credentials.go:306-331 | the exact context names whose references parse back |
| CredentialNames.OnlyLegacyParses | internal/credentials/credentials.go:312-331 | nothing else parses as a reference of the old format |
| CredentialNames.FormatsDisjoint | internal/credentials/credentials.go:241-269 | no string is a reference of both formats |
| CredentialNames.PreimageInjective | internal/credentials/credentials.go:271-283 | NUL-free bindings are digested from different texts |
| CredentialNames.NulMovesTheBoundary | internal/credentials/credentials.go:271-283 | with a NUL two bindings share their text |
| KeychainStore.OwnRefOpens | internal/credentials/credentials.go:212-227 | a field's reference is its own exactly when it opens an account for the entry around it, and the account is the one it was made with |
| KeychainStore.NamesApart | internal/credentials/credentials.go:204-210 | accounts are as distinct as their names |
| KeychainTransaction.Transaction.StageBoundSet | internal/config/keychain.go:1349-1418 | a fresh account holds the value, or the records and the store are as they were but for an account whose own delete failed, which stays on record; without a failing call it is staged |
| KeychainTransaction.Transaction.DiscardLast | internal/config/keychain.go:1425-1439 | the record is dropped exactly when the account is known to be gone, and what did not read back is then gone |
| KeychainTransaction.Transaction.DeferDelete | internal/config/keychain.go:1441-1447 | the account is to be deleted, and no account twice |
| KeychainTransaction.Transaction.Rollback | internal/config/keychain.go:1449-1464 | removes the staged accounts and touches no other |
| KeychainTransaction.Transaction.RollbackStaging | internal/config/keychain.go:1449-1464 | the store is as it was, except for accounts whose last call failed or that a failing Set has created |
| KeychainTransaction.Transaction.PreflightDeletes | internal/config/keychain.go:1466-1489 | every value to be deleted is known before anything is |
| KeychainTransaction.Transaction.Commit | internal/config/keychain.go:1492-1515 | all superseded accounts gone, or a delete failed and each account deleted so far has been tried to be put back: all are back, or another call failed and no other account is lost; the calls in their order |
| KeychainTransaction.Transaction.RestoreFrom | internal/config/keychain.go:1516-1547 | one call for the failed account and then for each earlier one in reverse, those that existed; complete unless one of them fails, and then all are back |
| KeychainStore.CleanedUpSameStore | internal/config/keychain.go:1420-1464 | when no account's last delete failed, no failing Set took effect and nothing is left garbled, agreement of the store with what it should hold is equality |
| KeychainStore.AgreeTrans | internal/config/keychain.go:1349-1547 | agreement of the store with what it should hold composes over stretches of a write |
| ConfigWrite.Reconcile | internal/config/keychain.go:1556-1673 | refuses before touching the store exactly when a field must be refused; otherwise settles every field unless a call fails, and then undoes the staging |
| ConfigWrite.RefusedExactly | internal/config/keychain.go:1556-1592 | a field is refused exactly when it has content or a history and no complete binding, still holds what was resolved for another destination, or holds another entry's reference |
| ConfigWrite.SupersededExactly | internal/config/keychain.go:1596-1672 | an account is superseded exactly when its field's entry is gone, or the field was emptied or given a secret that has another account now |
| ConfigWrite.SettleSlot | internal/config/keychain.go:1608-1672 | what one field becomes, staged or kept, and what it supersedes |
| ConfigWrite.AnyRefused | internal/config/keychain.go:1556-1592 | a refusal is found exactly when there is one |
| ConfigWrite.DeferOrphans | internal/config/keychain.go:1596-1606 | exactly the live accounts of deleted entries are superseded |
| ConfigWrite.SupersededUnreferenced | internal/config/keychain.go:1556-1673 | the document to be written never refers to an account to be deleted, nor is one just staged deleted |
| ConfigCommit.ValidateSnapshot | internal/config/loader.go:1009-1065 | accepts exactly a file that is the one loaded and still holds the references the states came from, unless reading it fails |
| ConfigCommit.LoadedFromExactly | internal/config/loader.go:1009-1065 | what it means that a file is still the one loaded |
| ConfigCommit.AcceptableExactly | internal/config/loader.go:781-905 | what a write demands of its config and of the file |
| ConfigCommit.WrittenExactly | internal/config/keychain.go:1608-1672 | what a written document holds of a touched and of an untouched field |
| ConfigCommit.ReferencesAreOwn | internal/config/keychain.go:1556-1672 | in a written document every reference is bound to the entry that holds it, but for one that loading found missing or foreign |
| ConfigCommit.HasSecrets | internal/config/keychain.go:1150-1180 | there is something to reconcile exactly when a state, a mutation or a value exists |
| ConfigCommit.Prepare | internal/config/loader.go:781-905 | up to the rename nothing earlier is lost, and a failure leaves the store as it was; an acceptable write gets there unless a call fails |
| ConfigCommit.RestoreContents | internal/config/loader.go:925-973 | the old document is back and durable and the staged accounts gone, or a step failed and everything is kept |
| ConfigCommit.CleanUp | internal/config/loader.go:925-944 | each way the clean-up can end, with every snapshot on the way safe; after one failed delete the old state is put back unless a second call fails |
| ConfigCommit.WriteConfig | internal/config/loader.go:781-944 | at every moment, for whichever document a crash leaves, references that resolved or were staged have their accounts; the store and file after each outcome, with every reference the entry's own when the states come from loading; the old store after a failure that could be cleaned up, exactly the new one after a commit unless a failing Set took effect; an acceptable write commits unless a call fails, and one failed delete ends with everything put back |
| ConfigCommit.CommittedStore | internal/config/loader.go:925-944 | a committed write leaves the earlier accounts plus the staged ones minus exactly the superseded ones |
| ConfigLoad.LoadedConfig.Inventory | internal/config/keychain.go:567-601 | own references become unresolved, foreign ones are set aside, nothing is looked up |
| ConfigLoad.LoadedConfig.ResolveOwner | internal/config/keychain.go:927-997 | what each answer makes of a field; the document's reference is lost exactly when an earlier answer read as another reference |
| ConfigLoad.ResolveField | internal/config/keychain.go:927-997 | one field, for every answer of the store |
| ConfigLoad.ResolvedTraces | internal/config/keychain.go:927-997 | a resolved field still knows its reference, with the exact exception |
| ConfigLoad.TracesFromLoad | internal/config/keychain.go:567-601 | after loading and resolving, every live reference is its field's own, as writing takes for granted |
| ConfigLoad.ResolvedTwice | internal/config/keychain.go:1013-1033 | a document that loses its reference when it is resolved twice |
| ConfigLoad.WriteBackIsVerbatim | internal/config/keychain.go:1608-1672 | writing back an unchanged config puts every reference back, deletes nothing and stages only for secrets in the clear |
| ConfigLoad.WriteBackRefusal | internal/config/keychain.go:1556-1592 | exactly when such a write is refused |
| ConfigLoad.WritableExactly | internal/config/keychain.go:1556-1592 | no field is refused exactly when every field with content has its binding and no secret looked up reads as another field's reference |
| ConfigLoad.NoSecretInTheClear | internal/config/keychain.go:1646-1672 | unless the store reports that it is disabled no secret is in the written document |
| ConfigLoad.LoadAndWriteBack | internal/config/loader.go:781-944 | load, resolve any fields, write: references verbatim, store as before plus what was staged, every snapshot safe; unless a call fails it commits exactly when the document is writable |
| CredentialGuards.EnforceRuntimeBindings | internal/config/keychain.go:1036-1097 | the first visit that has to treat a key decides about its copy, every other copy is left alone |
| CredentialGuards.ExposedExactly | internal/config/keychain.go:1036-1097 | a secret is left to a destination it is not bound to exactly when another copy was treated first or the environment set it |
| CredentialGuards.FirstCopyIsSafe | internal/config/keychain.go:1036-1097 | a credential no other copy of which is treated is never left so, unless the environment set it |
| CredentialGuards.OneChangedCopyIsSafe | internal/config/keychain.go:1036-1097 | an override that changes one copy leaves no copy exposed, unless the environment set the secret |
| CredentialGuards.SoleVisit | internal/config/keychain.go:1054-1097 | what one visit does to a credential, for every copy, environment and origin |
| CredentialGuards.ClearedRightly | internal/config/keychain.go:1036-1097 | nothing else is cleared |
| CredentialGuards.SecondCopyStaysExposed | internal/config/keychain.go:1054-1066 | an override that changes two copies leaves the second as it is |
| CredentialGuards.PrepareSource | internal/config/keychain.go:1183-1237 | refuses, changing nothing, exactly when an entry whose source is neither empty nor the target carries a credential; otherwise every entry belongs to the target, and exactly which mutations there are then |
| CredentialGuards.MoveOne | internal/config/keychain.go:1226-1237 | exactly the moving entry's mutations are re-keyed |
| RefreshRegions.StepKeeps | internal/auth/transport.go:237-376 | every step of a flight keeps what holds at its point, and a block once set |
| RefreshRegions.RetryNeverSends | internal/auth/transport.go:261-267 | a flight that starts with a pending generation sends nothing |
| RefreshRegions.ObsoleteIsReloaded | internal/auth/transport.go:442-456 | when another generation has won, the obsolete token is not served again and the next call reloads |
| RefreshRegions.ConsumedIsGone | internal/auth/transport.go:311-326 | after a response without a replacement nothing is served or presented again |
| RefreshRegions.MalformedIsKeptThenBlocks | internal/auth/transport.go:328-376 | a malformed response's replacement is persisted against the presented generation, and then the process blocks |
| RefreshRegions.EnterExactly | internal/auth/transport.go:182-225 | when a call is served at once, fails at once, joins a flight or leads one |
| RefreshRegions.CleanFlight | internal/auth/transport.go:237-376 | the three ways, step by step, in which a flight closes without an error, and the fields it leaves |
| RefreshRegions.RetrySucceeds | internal/auth/transport.go:261-267 | the first of them does: a well-formed pending generation is persisted |
| RefreshRegions.AdoptSucceeds | internal/auth/transport.go:153-180 | the second: usable stored tokens other than those in memory are adopted |
| RefreshRegions.RefreshSucceeds | internal/auth/transport.go:269-376 | the third, when nothing usable is stored and there is a refresh token to present |
| RefreshRegions.PresentsNewest | internal/auth/transport.go:269-305 | what is presented is the stored refresh token when there is one, else the one in memory |
| RefreshRegions.FailuresExactly | internal/auth/transport.go:237-456 | the error of each failure, and what it changes |
| RefreshRegions.FinishNeedsUsable | internal/auth/transport.go:153-180 | a flight ends without a network refresh only right after the store has answered with a usable access token |
| RefreshRegions.RefreshTransport.LeadFlight | internal/auth/transport.go:220-235 | a flight from opening to closing is a run of the step function; without an error nothing is pending or blocked |
| RefreshRegions.RefreshTransport.RefreshAndPersist | internal/auth/transport.go:237-376 | for all answers from outside the code takes the steps of the step function, in order |
| RefreshRegions.RefreshTransport.AdoptStored | internal/auth/transport.go:159-180 | the stored tokens replace different ones, and count as fresh only when usable |
| RefreshRegions.RefreshTransport.PersistPending | internal/auth/transport.go:428-468 | what each result of the callback does to the pending generation |
| RefreshFlights.NextKeepsInv | internal/auth/transport.go:182-235 | every step of every goroutine keeps the invariants of a process |
| RefreshFlights.SingleFlight | internal/auth/transport.go:207-235 | in every interleaving at most one flight is open, and it has its one leader |
| RefreshFlights.CallExactly | internal/auth/transport.go:182-225 | what a call does at once, and to the fields |
| RefreshFlights.LeaderCanClose | internal/auth/transport.go:220-235 | whatever fails around it, the leader of a flight can close it |
| RefreshFlights.WaiterReturns | internal/auth/transport.go:207-218 | from every reachable state a waiter can come back with its flight's outcome without a step of its own before, or give up |
| RefreshFlights.CleanCloseIsClean | internal/auth/transport.go:225-235 | a flight closing without an error leaves no pending generation and no block |
| RefreshFlights.WaiterOutcome | internal/auth/transport.go:207-218 | each waiter gets the outcome of the flight it joined, or its own cancellation |
| RefreshFlights.PendingNeedsNoNetwork | internal/auth/transport.go:261-267 | nothing is presented while a generation is pending |
| RefreshFlights.BlockIsFinal | internal/auth/transport.go:378-386 | a block is never cleared, presents nothing and serves no call |
| RefreshFlights.ExposedToken | internal/auth/transport.go:111-131 | what a caller reads needs no persisting unless a generation is pending; then it is that one |
| RefreshFlights.ExposesUnpersisted | internal/auth/transport.go:111-131 | a run in which an unpersisted token is read |
| RefreshSystem.NextSystemKeeps | internal/config/rest.go:156-271 | every step of the whole system keeps its invariants, and only a fault strands the stored token |
| RefreshSystem.OneFlightUnderLock | internal/config/rest.go:156-173 | at most one flight of all processes is under the lock |
| RefreshSystem.PresentsTheStored | internal/auth/transport.go:269-305 | what is presented is the stored generation, rotated already just when it was stranded |
| RefreshSystem.NeverPresentsRotated | internal/auth/transport.go:237-376 | in every run without a fault no rotated token is presented |
| RefreshSystem.CompareAndSwap | internal/config/rest.go:208-271 | whatever fails, a refresh replaces only the generation it presented, by the issuer's answer to it |
| RefreshSystem.SaveExactly | internal/config/rest.go:208-271 | what the callback does to the stored tokens and answers, for every stored generation and failure |
| RefreshSystem.RetriedSaveIsConfirmed | internal/config/rest.go:224-231 | a save that failed after taking effect is confirmed when it is tried again |
| RefreshSystem.FatesExactly | internal/auth/transport.go:269-326 | what a presented token meets, and what the issuer accepts afterwards |
| RefreshSystem.OutsideExactly | internal/config/rest.go:156-196 | when the lock is given, what a flight under it reads, and what a login changes |
| RefreshSystem.CrashExactly | internal/auth/transport.go:306-326 | what a process that ends leaves behind, also with a token on its way |
| RefreshSystem.LockIsFreed | internal/config/rest.go:156-173 | from every reachable state the lock can be given back, with the stored tokens as they were |
| RefreshSystem.RefreshCompletes | internal/auth/transport.go:237-376 | from every reachable state with a free lock and a stored token not stranded, a further process can refresh and store the issuer's answer |
| RefreshSystem.FailedSaveStrands | internal/auth/transport.go:428-456 | a save that fails without effect strands a rotated token |
| RefreshSystem.StrandedIsPresented | internal/auth/transport.go:269-305 | while stranded, a further process presents the rotated token |
| SandboxLifecycle.Runtime.BeginClose | experimental/sandbox/sandbox.go:244-249 | every registered run is stopped and no other |
| SandboxLifecycle.NextKeeps | experimental/sandbox/sandbox.go:243-264 | every step of a run or a Close keeps the invariants; after Close the registered runs only become fewer |
| SandboxLifecycle.ReleasedOnceAndAlone | experimental/sandbox/sandbox.go:243-275 | release begins at most once, with no run in flight; a Close that does not give up leaves the runtime released |
| SandboxLifecycle.CloseStopsRuns | experimental/sandbox/sandbox.go:243-249 | every run registered before Close is cancelled and none starts after it |
| SandboxLifecycle.FreedBeforeCountedOut | experimental/sandbox/sandbox.go:385-424 | memory is freed before the run is counted out, and never after release |
| SandboxLifecycle.RunCanEnd | experimental/sandbox/sandbox.go:321-424 | a run in progress can always go on to its end, with nothing else changed |
| SandboxLifecycle.CloseCanFinish | experimental/sandbox/sandbox.go:243-264 | from every reachable state every Close, also one that gave up before, can end with the runs gone and the runtime released |
| SandboxLifecycle.GivingUp | experimental/sandbox/sandbox.go:255-259 | only a Close that waits gives up |
| SandboxLifecycle.CopyWrite | experimental/sandbox/sandbox.go:470-485 | exactly the counted prefix is written, all of it unless an error is returned |
| BodyStream.Exchange.Read | experimental/sandbox/http.go:277-302 | one read as a function of slot, unread rest, end and error |
| BodyStream.NextKeeps | experimental/sandbox/http.go:277-332 | every step of pump and guest loses and reorders nothing |
| BodyStream.DeliveredInOrder | experimental/sandbox/http.go:277-332 | delivered, unread and queued bytes are a prefix of the body; when -1 and -2 are returned |
| BodyStream.CanComplete | experimental/sandbox/http.go:277-332 | from every point of an exchange neither cancelled nor failing, pump and guest can go on until the whole body is delivered and its end reported |
| BodyStream.FailureIsReported | experimental/sandbox/http.go:306-332 | what was read before a failure or a panic can be delivered, and then the failure is reported |
| BodyStream.CancelledBodyLooksComplete | experimental/sandbox/http.go:306-332 | a cancelled body can end in -1 after a proper prefix |
| GuestHttp.PairsRoundTrip | experimental/sandbox/http.go:488-511 | splitting and pairing inverts encoding for NUL-free pairs |
| GuestHttp.SplitJoins | experimental/sandbox/http.go:504-511 | any text is cut at exactly its NULs |
| GuestHttp.PairUpExactly | experimental/sandbox/http.go:506-509 | the parts two by two, an odd one left out, whatever they are |
| GuestHttp.AddAllUnder | experimental/sandbox/http.go:504-511 | every value ends up under the canonical form of its name, in order |
| GuestHttp.EncodeHeaders | experimental/sandbox/http.go:488-502 | the encoding of the sendable pairs in some order of the names |
| GuestHttp.DecodeHeaders | experimental/sandbox/http.go:504-511 | the pairs added in order, a part without a partner dropped |
| GuestHttp.HeadersRoundTrip | experimental/sandbox/http.go:487-511 | encoded and decoded, a header is as it was without the values that hold a NUL |
| GuestHttp.NothingDropped | experimental/sandbox/http.go:488-502 | every value of a name survives exactly when neither holds a NUL |
| GuestHttp.Session.RequestNew | experimental/sandbox/http.go:168-187 | no exchange in use is replaced until the 32-bit counter has wrapped |
| GuestHttp.Session.Drop | experimental/sandbox/http.go:266-274 | exactly that exchange is dropped; an unknown id traps |
| OAuthCallback.ExchangeGuard.Claim | internal/auth/callback.go:69-74 | granted to the first |
| OAuthCallback.NextKeeps | internal/auth/callback.go:182-308 | every step of a request or of the terminal keeps the invariants; a wasted claim stays wasted |
| OAuthCallback.ExchangedOnce | internal/auth/callback.go:263-288 | at most one exchange and at most one message in every interleaving |
| OAuthCallback.SuccessArrives | internal/auth/flow.go:446-463 | a login that succeeded is not lost: a waiting terminal can take it |
| OAuthCallback.EndIsReported | internal/auth/flow.go:446-508 | a page that says success or failure goes with exactly one message, and the login takes no further request |
| OAuthCallback.OnlyCheckedInputsClaim | internal/auth/callback.go:263-279 | what takes the claim has the right state, was neither cancelled nor denied, and carries a code and a trusted endpoint |
| OAuthCallback.CheckedInputClaims | internal/auth/callback.go:263-279 | a callback with all five goes on to the claim and takes it when it is free |
| OAuthCallback.CheckedPasteClaims | internal/auth/callback.go:263-279 | so does a pasted URL |
| OAuthCallback.VerdictsExplained | internal/auth/callback.go:76-100 | in every run the verdict on an input names the first check it fails, and no check rejects an input that passes all five |
| OAuthCallback.AnswerExactly | internal/auth/flow.go:486-508 | the page for each verdict, whether it ends the login, and the messages sent |
| OAuthCallback.TurnedAway | internal/auth/flow.go:518-542 | which requests are ignored, queued or told that the login is over |
| OAuthCallback.WastedClaimNeverLogsIn | internal/auth/callback.go:263-288 | after a failed exchange no continuation logs in |
| OAuthCallback.CompletedPage | internal/auth/flow.go:486-510 | in every run, when a callback is told that the login completed: it has exactly when the claim was won, and its exchange is under way exactly while the claim is undecided |
| OAuthCallback.ReachesStuck | internal/auth/flow.go:486-510 | a run to a waiting terminal nobody will answer |
| OAuthCallback.StuckLasts | internal/auth/callback.go:182-250 | short of a cancelled page, a failing server or the end of the context it stays so |
| OAuthCallback.StuckCanEnd | internal/auth/callback.go:182-250 | the ways such a terminal does return |
| OAuthCallback.ClaimedPaste | internal/auth/callback.go:241-244 | when a paste is told that the exchange is claimed, a message is on its way exactly if the callback server took the claim or something else has failed |
| OAuthCallback.SecondPasteIsTold | internal/auth/callback.go:241-244 | a run in which a paste is told so and nothing is on its way |
| OAuthCallback.CanStillLogIn | internal/auth/callback.go:263-288 | from every state of every run a waiting terminal can log in exactly when the claim is not wasted nor about to be |
| SortedStrings.CanonicalForm | internal/config/cloud_login.go:199-206 | equal canonical lists exactly for equal scope sets; canonical lists are fixed points |
| EntryNames.NamesDistinct | internal/config/cloud_login.go:148-162 | the generated names are pairwise distinct |
| EntryNames.TriedCount | internal/config/cloud_login.go:148-162 | after i tries i different names have been seen |
| CloudEntries.MergeLeavesOneCredential | internal/config/cloud_login.go:20-44 | one credential is left, the incoming one, with its expiry and scopes and nothing of the other method's; an endpoint is the incoming one or stays |
| CloudEntries.SameExactly | internal/config/cloud_login.go:182-197 | two entries compare the same exactly when the readable credentials, the expiry and the endpoints are equal and the scopes are the same set |
| CloudEntries.CloudConfig.BoundSays | internal/config/cloud_login.go:66-85 | what an entry holds to which a login is bound |
| CloudEntries.CloudConfig.KeptSays | internal/config/cloud_login.go:45-50 | what the other contexts still see |
| CloudEntries.UnresolvedComparesEmpty | internal/config/cloud_login.go:182-197 | exactly when an unresolved token or OAuth token compares the same |
| CloudEntries.UnresolvedCanCompareSame | internal/config/cloud_login.go:182-197 | an entry for which it does |
| CloudEntries.CloudConfig.AvailableIsolatedName | internal/config/cloud_login.go:148-162 | terminates, with the first name that is neither reserved nor taken by another entry |
| CloudEntries.CloudConfig.AvailableName | internal/config/cloud_login.go:218-231 | a free name, or one that holds the desired entry |
| CloudEntries.CloudConfig.RefCount | internal/config/cloud_login.go:208-216 | the number of contexts that refer to the entry |
| CloudEntries.CloudConfig.EnsureUnbound | internal/config/cloud_login.go:87-113 | bound to the desired tuple, others unaffected, a reserved name only when it already holds it, an entry of another file neither merged nor overwritten |
| CloudEntries.CloudConfig.EnsureBound | internal/config/cloud_login.go:115-146 | in place only for an entry that no other context or layer refers to, else a copy that leaves the entry untouched |
| CloudEntries.CloudConfig.EnsureCloudEntryWithSafety | internal/config/cloud_login.go:66-85 | the returned name is bound to the desired tuple, every other context sees what it saw, and what is shared, reserved or another file's is left alone |
| LayeredLocks.LockTable.LockLayeredSources | internal/config/layered_lock.go:58-115 | exactly the sorted, duplicate-free locks of the sources; none after a failure; none under a caller's lock |
| LayeredLocks.LockTable.AcquireAll | internal/config/layered_lock.go:84-115 | all of the locks, or the table as it was |
| LayeredLocks.LockTable.LockForWrite | internal/config/options.go:206-217 | a write goes ahead only while its own source is locked, and always under a lock held for it |
| LayeredLocks.NoWaitCycle | internal/config/layered_lock.go:84-115 | locks are held exclusively, in sorted prefixes, and no chain of waits closes |
| LayeredLocks.TurnsExactly | internal/config/layered_lock.go:58-115 | when a process can take, fail, finish and give back, and what that does |
| LayeredLocks.NoDeadlock | internal/config/layered_lock.go:84-115 | some process can always go on |
| LayeredLocks.FailureReleases | internal/config/layered_lock.go:88-106 | in every run, after a failure a process only gives its locks back, one for each of its steps, and can always take the next one |
| LayeredLocks.ReleasesAll | internal/config/layered_lock.go:84-88 | those steps leave it without a lock |
| LayerMerge.MergeConfigs | internal/config/merge.go:10-94 | the steps compute the merge, credential bookkeeping included |
| LayerMerge.MergeAssociative | internal/config/merge.go:10-144 | merging does not depend on the grouping of layers |
| LayerMerge.FoldSplits | internal/config/loader.go:1253-1340 | any part of the layers may be folded first |
| LayerMerge.EntryFromHighest | internal/config/merge.go:27-50 | each stack and cloud entry is whole, from the highest layer that defines it |
| LayerMerge.EntryOfNames | internal/config/keychain.go:1710-1750 | which entry an owner key names |
| LayerMerge.CurrentFromHighest | internal/config/merge.go:18-21 | the current context of folded layers is that of the highest layer with one |
| LayerMerge.PolicyFromHighest | internal/config/merge.go:54-58 | so is the credential policy |
| LayerMerge.ResourcesFromHighest | internal/config/merge.go:44-52 | the resource settings are there when a layer has them, their list from the highest layer with one |
| LayerMerge.StackFromHighest | internal/config/merge.go:110-122 | a context exists when a layer has it; its stack is from the highest layer that gives one |
| LayerMerge.CloudFromHighest | internal/config/merge.go:123-125 | so is its Cloud entry |
| LayerMerge.DatasourceFromHighest | internal/config/merge.go:127-133 | and each of its datasources |
| LayerMerge.LogFromAny | internal/config/merge.go:96-100 | diagnostics are there when a layer has them, the log is on when a layer turns it on |
| LayerMerge.DiagnosticsFromHighest | internal/config/merge.go:101-106 | each diagnostics string is from the highest layer that fills it |
| LayerMerge.FoldOfScalars | internal/config/merge.go:11-16 | the version is the greatest, deferral is that of any layer, the source is kept when all agree |
| LayerMerge.RuntimeOfBlock | internal/config/keychain.go:1710-1750 | states, mutations and origins of a key survive exactly from the layers above the last one with another entry in its place |
| LayerMerge.RuntimeOfWinner | internal/config/keychain.go:1710-1750 | of different documents exactly the winning layer's survive |
| LegacyMigration.MergeDatasources | internal/config/migrate.go:484-502 | every kind resolves as in the legacy format |
| LegacyMigration.EnsureCloudEntry | internal/config/migrate.go:441-479 | one entry per credential and destination; the second choice of a name is taken unchecked |
| LegacyMigration.CollidesExactly | internal/config/migrate.go:441-479 | two entries share a name exactly when some context finds both choices taken by earlier, different ones |
| LegacyMigration.WillCollide | internal/config/migrate.go:441-479 | whether some context finds both choices taken is computed from the legacy config |
| LegacyMigration.OrderIsUnique | internal/config/migrate.go:302-350 | the contexts of a legacy config have one order, so prediction and conversion agree on it |
| LegacyMigration.ThirdContextOverwrites | internal/config/migrate.go:441-479 | of three contexts the third overwrites the entry of the second |
| LegacyMigration.ConvertLegacyConfig | internal/config/migrate.go:302-350 | stacks, contexts and entries of every legacy context |
| LegacyMigration.ConversionKeepsViews | internal/config/migrate.go:302-350 | all views are kept exactly when no context finds both choices of a name taken and no unnamed context loses a stack |
| LegacyMigration.NothingStored | internal/config/migrate.go:309-314 | without stored secrets connection, providers and Cloud token are those of the legacy record |
| LegacyMigration.SecretOfConnection | internal/config/migrate.go:370-375 | one more stored secret changes its own context's connection in its own field |
| LegacyMigration.SecretOfProvider | internal/config/migrate.go:376-380 | and no provider value but the synthetic monitoring token |
| LegacyMigration.SecretOfCloud | internal/config/migrate.go:445 | and the Cloud token, but no endpoint |
| LegacyMigration.EndpointsOf | internal/config/migrate.go:442-459 | when there is a Cloud entry, and its endpoints: explicit, from each other, from the server, or the public one |
| LegacyMigration.DatasourceOf | internal/config/migrate.go:484-502 | the datasource of each kind: the map, or the flat field of that kind |
| LegacyMigration.StacksExactly | internal/config/migrate.go:355-362 | which contexts get a stack entry, and under which name |
| LegacyMigration.SameViewSays | internal/config/migrate.go:302-350 | what a kept view consists of, entry by entry |
| LegacyMigration.UnnamedLosesStack | internal/config/migrate.go:302-350 | a context named "" with a slug loses its stack entry, and the self-check refuses the conversion |
| LegacyMigration.VerifyLegacyMigration | internal/config/migrate.go:509-571 | accepts exactly when every checked view agrees |
| LegacyMigration.CheckedExactly | internal/config/migrate.go:509-610 | when the self-check lets a context pass, in terms of the entries |
| LegacyMigration.SameViewPasses | internal/config/migrate.go:509-610 | equal views pass the self-check |
| LegacyMigration.LostIsNoticed | internal/config/migrate.go:509-571 | the self-check refuses a conversion that loses a stack |
| LegacyMigration.Migrate | internal/config/migrate.go:302-350 | converting and checking together |
| LegacyMigration.UnionDryRun | internal/config/types.go:299-318 | both lists, the global one first, each name once |

## Left out

- Offset expressions of active data segments other than `i32.const`: the program refuses them, and so does the model; which other constant expressions exist is not modelled.
- The binding digest is taken to be injective and its encoding to hold no colon; SHA-256, base64 and random generation are not modelled.
- A rename that fails is taken to have no effect on the file; a store call that fails may or may not have had one.
- Error texts, error kinds beyond those a branch depends on, warnings, prompts, telemetry and log lines.
- Temporary files, permissions, links, memory maps and seals: each is a step that may fail.
- The refusal in reconcileKeychain for a fallback that is not due to a disabled store: the only fallback there is comes from a disabled store.
- materializeCloudCredentialDestinations and the destinations of bindings: a binding's destination is a value of the model.
- CredentialGuards.EnforceRuntimeBindings: the reasons recorded with a rejected field, and the check of external TLS credential files that comes first, are not modelled; an origin without a valid binding is no origin.
- A write is taken to be alone on its file between the check of the snapshot and the rename, as the write lock provides.
- Expiry times: near expiry, expired and malformed are arbitrary booleans of a step.
- RefreshSystem.NeverPresentsRotated: the issuer accepts a replaced token never again; an issuer that also revokes its successors is not modelled.
- The reload that finds no stored token: the callbacks of rest.go report an error instead.
- The pump goroutine is a sequence of steps rather than a loop, because the guest reads between any two of them.
- wazero, HTTP transports, egress policy (`match`, `canonicalHost`, `classify`), `Authorize` and panics in the embedder's code other than as a failed body.
- The manual paste flow without a callback server, which may exchange up to three pasted codes.
- The order in which canonicalOAuthScopes sorts is Go's order on bytes; here it is the order on characters.
- cloudEntryName, GCOMRootFromServerURL, StackSlugFromServerURL and URL normalisation are parameters of the conversion; the environment's stack slug is not set while it runs.
- Source revisions and the keychain policy of a merged config are left out.
- Maps that a merged or converted config shares with its input: configs are values here.
- Merging legacy layers before conversion (migrate_preflight.go) and the layered equivalence proof that runs there.
- internal/agent, internal/cloud, internal/datasources, internal/assistant, internal/agentlog, cmd/gcx, editor.go, envparse.go: registries, clients and plumbing.
