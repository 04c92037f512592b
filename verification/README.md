# AppForge: models and proofs

AppForge generates applications for its users and bills them in credits. This project models the parts
of its server and client whose correctness is a matter of protocol, state or encoding, and proves what
those parts are there to guarantee. One module models one source file:

- `AuthedSse`: the reader of event streams, which splits text that arrives in pieces.
- `ChangeContract`: the canonical serialiser behind the contract hash.
- `ArtifactPaths`, `ArtifactIntegrity`: validation, hashing, versioning and re-verification of generated files.
- `SnapshotStore`: working artifacts and build snapshots in the database.
- `CreditLedger`: balances and ledger rows, under concurrent transactions and per-user locks.
- `BillingEventLease`: the claim, heartbeat, takeover and finalize protocol over one database row.
- `AgentCoordination`: file ownership, task unlocking, handoff checks and resume repair.
- `SchemaMigrations`: the locked, checksummed migration runner.
- `LlmFailover`: the provider loop, whose list grows while it is walked.
- `WorkspaceTree`: the builder that turns a flat file map into nested objects.
- `BuildLogView`: the bounded, coalescing log window.

`Wrappers`, `JsText`, `JsObject`, `Utf8` and `Hashing` hold what they need from the platform: options and
results, the string operations of JavaScript, the inherited names every plain object has, the byte form of
texts, and hash functions.

Three conventions run through the modules. A hash is an arbitrary function from text to text: whatever a
digest is to bind is stated as "equal, or the function has a collision". Code that loops or updates state
is a method or a class, proved equal to a specification function; the theorems are then about that
function, and beside it each operation's effect is stated outright, field by field. Concurrency is a state
machine: a list of actions, any of which may come at any time and changes nothing when it is not possible,
so a theorem about all lists is one about all interleavings.

Where the code turned out not to do what its documentation or its design suggests, the code is kept, an
input that fails is given, and the condition under which the promise holds is proved in both directions:

- Printed events whose data lines end in a carriage return: `AuthedSse.CarriageReturnLost`, `AuthedSse.StreamRoundTrip`.
- Key comparisons with ties: `ChangeContract.TiedKeysPrintInOrder`, `ChangeContract.OrderInsensitiveIffConnected`.
- Validating twice: `ArtifactPaths.SafePathTwiceFails` and `ArtifactPaths.SafePathAgainInput` for a path,
  `ArtifactIntegrity.ValidTwiceFails` and `ArtifactIntegrity.ValidatedAgain` for a map of files.
- File versions above the artifact version: `SnapshotStore.AppendBreaksBound`, `SnapshotStore.AppendBoundExactly`,
  `SnapshotStore.RunBoundExactly`.
- Completed tasks above a dependency that a resume resets: `AgentCoordination.DependentsStayCompleted`,
  `AgentCoordination.ClosedAfterResume`.
- Plans with a cycle, of which the validator rejects only self-dependencies: `AgentCoordination.CycleStalls`,
  `AgentCoordination.CompletableIffAcyclic`.
- Grants less than 25 days apart: `CreditLedger.TierSwitchBreaksSpacing` and `CreditLedger.CloseIffSwitched` for
  changes of tier, `CreditLedger.LateRefillBreaksSpacing`, `CreditLedger.ApartIffPrompt` and
  `CreditLedger.OnlySwitchesIffPrompt` for calls that wait long for the lock.
- Paths that are both a file and a directory: `WorkspaceTree.FileAndDirectory`, `WorkspaceTree.RoundTrip`.

Names every object inherits, such as `constructor`, are refused as duplicate artifact paths and as conflicting
file owners, because the code looks them up in plain objects.

## Model

| member | source | states |
|---|---|---|
| `AuthedSse.ParseSseFrame` | src/lib/authedSse.ts:22-35 | the loop over the lines finds the last `event:` name and all `data:` values in order, or nothing without data |
| `AuthedSse.ParsedFrameFields` | src/lib/authedSse.ts:22-35 | for any text: the name is the trimmed value of the last `event:` line or `message`, the data are the values of all `data:` lines in order, joined by line feeds, and there is no event exactly when there is no such line |
| `AuthedSse.SplitIsLeftmost` | src/lib/authedSse.ts:54 | for any text: the split is the one list of pieces that lie between the empty lines found from left to right, an empty line being two line ends of either kind |
| `AuthedSse.SplitIncremental` | src/lib/authedSse.ts:53-55 | splitting a text and then the leftover with more text gives the split of the whole, also when the cut falls inside a blank line's `\r\n\r\n` |
| `AuthedSse.ReadSseBody` | src/lib/authedSse.ts:37-66 | for every chunking, and for an abort at any iteration, the delivered events are those of the text read so far, split at once |
| `AuthedSse.DeliveredEvents` | src/lib/authedSse.ts:56-60 | for any text: the events are those of the complete frames in order, without the pings; a frame that is passed over has no data or is a ping |
| `AuthedSse.DeliveredGrows` | src/lib/authedSse.ts:50-61 | reading on never retracts or reorders delivered events |
| `AuthedSse.SplitPrintedFrame` | src/lib/authedSse.ts:54 | a printed frame splits off as one piece, whatever follows, but for a carriage return in front of its bare line feeds |
| `AuthedSse.ParsePrinted` | src/lib/authedSse.ts:22-35 | the fields of an event, printed line by line in either style, parse back to its name and its data lines in order |
| `AuthedSse.PrintedArrives` | src/lib/authedSse.ts:37-66 | each printed event with a faithful name and flush data lines arrives in its place, complete but for carriage returns at the ends of its data lines: all of them before a bare line feed, and the last line's in either style |
| `AuthedSse.CarriageReturnLost` | src/lib/authedSse.ts:26 | the data `x\r` of an event printed with bare line feeds arrives as `x` |
| `AuthedSse.DeliveredFaithful` | src/lib/authedSse.ts:56-60 | every delivered event, from any text at all, is one that printing preserves: never a ping, name trimmed, data without leading spaces |
| `AuthedSse.StreamRoundTrip` | src/lib/authedSse.ts:37-66 | events printed as frames with either line ending, cut at arbitrary points and read back arrive as exactly that list if and only if each of them is faithful and no data line ends in a carriage return, other than in front of another line of a CRLF frame |
| `ChangeContract.StableParses` | src/lib/changeContract.ts:37-46 | printed values can be read in one way only, with any text behind them |
| `ChangeContract.ReadsBack` | src/lib/changeContract.ts:37-46 | a reader after RFC 8259, for text without white space between its tokens, gets the value back from its printed form, with the text behind it untouched: the same at every depth, each object with its members in increasing key order when no two keys tie |
| `ChangeContract.ShortestEscape` | src/lib/changeContract.ts:37-46 | no shorter text inside a string is read as the same character |
| `ChangeContract.CanonicalForm` | src/lib/changeContract.ts:37-46 | with a strict total key order, two values print alike if and only if they are equal up to member order at every depth |
| `ChangeContract.HashBindsContract` | src/lib/changeContract.ts:48-50 | equal contract hashes mean equal contracts, for any key comparison, unless the hash collides |
| `ChangeContract.TiedKeysPrintInOrder` | src/lib/changeContract.ts:40-43 | two members whose keys the comparison ties are printed one after the other as they were inserted, so equal objects print differently |
| `ChangeContract.OrderInsensitiveIffConnected` | src/lib/changeContract.ts:40-43 | printing ignores member order for all values exactly when no two keys tie |
| `ArtifactPaths.SafePathExactly` | src/lib/artifactIntegrity.ts:58-83 | a path is accepted, and comes out without a leading `./`, exactly when it is relative, free of NUL and backslash, no source file and made of named segments, or consists of dots alone as `.` and `././` do |
| `ArtifactPaths.SafePathIsNormal` | src/lib/artifactIntegrity.ts:58-83 | an accepted path comes out normalized, relative, and free of NUL and backslash |
| `ArtifactPaths.SafePathAgain` | src/lib/artifactIntegrity.ts:58-83 | an accepted path is accepted again, unchanged, exactly when it is neither `./` nor a drive path |
| `ArtifactPaths.SafePathAgainInput` | src/lib/artifactIntegrity.ts:58-83 | validating a path twice changes nothing exactly when the input is neither `././` nor `./` before a drive path |
| `ArtifactPaths.SafePathTwiceFails` | src/lib/artifactIntegrity.ts:58-83 | `././` and `./C:/x` are accepted, and what they are normalized to is refused |
| `Utf8.DecodeEncoded` | src/lib/artifactIntegrity.ts:85-87 | decoding the UTF-8 form of a text restores it |
| `Utf8.EncodeDecoded` | src/lib/artifactIntegrity.ts:85-87 | bytes that can be decoded are the UTF-8 form of what they decode to |
| `Utf8.PrefixFree` | src/lib/artifactIntegrity.ts:85-87 | no character's bytes begin with those of another |
| `Utf8.ByteLengthIs` | src/lib/artifactIntegrity.ts:85-87 | the byte length of a text is the number of bytes of its UTF-8 form |
| `ArtifactIntegrity.ValidateArtifactFiles` | src/lib/artifactIntegrity.ts:97-135 | succeeds exactly for maps of 1 to 1000 files, at most 1 MiB each and 10 MiB in all counted in UTF-8 bytes, whose paths are safe, distinct after normalization and not inherited names; returns the same contents under normalized paths |
| `ArtifactIntegrity.AcceptedExactly` | src/lib/artifactIntegrity.ts:97-135 | the same limits on the list of entries, the total being the number of bytes of all contents encoded one after the other |
| `ArtifactIntegrity.SortKeys` | src/lib/artifactIntegrity.ts:155-156 | lists the keys in the one strictly increasing order |
| `ArtifactIntegrity.LoopMeansDescribes` | src/lib/artifactIntegrity.ts:224-253 | walking sorted rows beside sorted paths passes exactly when the rows, in any stored order, describe the files one to one |
| `ArtifactIntegrity.CheckRows` | src/lib/artifactIntegrity.ts:236-253 | the index loop accepts exactly when every row matches its path, hash, size and has a valid version |
| `ArtifactIntegrity.AssertArtifactIntegrity` | src/lib/artifactIntegrity.ts:198-278 | succeeds if and only if the record verifies: identity, state, rows, sizes and digest, and returns the record unchanged |
| `ArtifactIntegrity.BuildIntegrity` | src/lib/artifactIntegrity.ts:137-196 | succeeds exactly for a positive project and version and accepted files; the record then has the fields `BuiltRecord` gives it |
| `ArtifactIntegrity.BuiltRecord` | src/lib/artifactIntegrity.ts:152-194 | every field of a built record: one row per file in increasing path order with its hash, its number of UTF-8 bytes and the version that follows the previous record's, their number, the bytes of all files together, and the hash of the row text |
| `ArtifactIntegrity.VerifiedRecordUnique` | src/lib/artifactIntegrity.ts:224-276 | only one record verifies for given files, file versions and identity, but for the order of its rows |
| `ArtifactIntegrity.FileShaBindsPath` | src/lib/artifactIntegrity.ts:89-95 | a file hash binds the path and the content, unless the hash collides |
| `ArtifactIntegrity.DecimalReads` | src/lib/artifactIntegrity.ts:174-183 | the numbers in the row text are decimal, and read back as what they were |
| `ArtifactIntegrity.BuildThenVerify` | src/lib/artifactIntegrity.ts:137-278 | what is built for a file map passes the check on that map, fully versioned and sorted |
| `ArtifactIntegrity.StoredOrderIrrelevant` | src/lib/artifactIntegrity.ts:226-228 | permuting the stored rows does not change the outcome of the check |
| `ArtifactIntegrity.RowsParse` | src/lib/artifactIntegrity.ts:174-183 | the NUL-delimited text of clean rows determines the rows |
| `ArtifactIntegrity.TamperDetected` | src/lib/artifactIntegrity.ts:236-253 | no record verifies against two different artifacts unless the hash collides |
| `ArtifactIntegrity.DigestBindsArtifact` | src/lib/artifactIntegrity.ts:224-276 | fully versioned records that verify and share their digest describe the same paths, contents, sizes and versions, unless the hash collides |
| `ArtifactIntegrity.VersionStep` | src/lib/artifactIntegrity.ts:152-172 | a path kept from the previous record keeps its version when its hash stays and gains one when it changes; a new path starts at 1; versions stay within the artifact version |
| `ArtifactIntegrity.BoundExactly` | src/lib/artifactIntegrity.ts:152-172 | the version bound holds of a built record exactly when the previous record leaves room: an unchanged file within the bound, a changed one below it |
| `ArtifactIntegrity.ValidatedAgain` | src/lib/artifactIntegrity.ts:97-135 | validating the result of a validation returns it unchanged exactly when no given path is `././` or `./` before a drive path, and fails otherwise |
| `ArtifactIntegrity.ValidTwiceFails` | src/lib/artifactIntegrity.ts:97-135 | one-file maps with such paths are accepted, and their results are not |
| `SnapshotStore.StepValid` | src/db.ts:617-1843 | every operation keeps the store valid: rows verify, versions are unique, at most one snapshot is current per project, working records verify |
| `SnapshotStore.RunValid` | src/db.ts:1244-1843 | the store is valid after any operations from an empty one |
| `SnapshotStore.RunKeepsRows` | src/db.ts:1616-1690 | no sequence of operations changes a stored snapshot except its current flag, or removes one |
| `SnapshotStore.CurrentIsReadable` | src/db.ts:1516-1567 | in a valid store the current artifact is always readable and is exactly the stored row |
| `SnapshotStore.CreatedArtifactIsReturned` | src/db.ts:1516-1567 | whatever happened since, rollbacks included, a snapshot that is current yields the files validated at its creation |
| `SnapshotStore.AppendedArtifactIsReturned` | src/db.ts:1692-1843 | the same for a revision made by an append: whenever it is current, it yields the files that were current then with the appended file in its place |
| `SnapshotStore.RollbackSucceedsIffThere` | src/db.ts:1616-1690 | a rollback finds its snapshot fit exactly when the project has it |
| `SnapshotStore.RollbackMakesCurrent` | src/db.ts:1616-1690 | after a rollback the named snapshot is the current one |
| `SnapshotStore.AppendIsNewest` | src/db.ts:1692-1843 | an appended revision is current, holds the merged files, and has a version above all others of the project |
| `SnapshotStore.OperationsAreLocal` | src/db.ts:1244-1843 | an operation on one project leaves the rows and the record of every other project as they are |
| `SnapshotStore.StepOwned` | src/db.ts:1277-1288 | only the owner of a project adds snapshots to it, and no operation changes a project's owner |
| `SnapshotStore.RunOwned` | src/db.ts:1244-1843 | after any operations every snapshot belongs to the owner of its project |
| `SnapshotStore.UpdateExactly` | src/db.ts:617-654 | an update records exactly the normalized files under the next working version, with a record that continues the previous working record, or changes nothing; it succeeds exactly for a known project and acceptable files |
| `SnapshotStore.CreateExactly` | src/db.ts:1244-1436 | a snapshot request adds exactly one row under the next id, with the requested fields and a record that continues the working record, current or not, and hands the manifest to the project when it activates; or it changes nothing, exactly when it is not admissible |
| `SnapshotStore.AppendExactly` | src/db.ts:1692-1843 | an append adds exactly the next revision of the current snapshot with the one file in its place, makes it the only current one and records its files as the working ones; or it changes nothing, exactly when it is not possible |
| `SnapshotStore.MarkExactly` | src/db.ts:1616-1690 | a rollback changes the current flags of the one project and its manifest and nothing else, or nothing at all, exactly when the project does not have the snapshot |
| `SnapshotStore.RowVersions` | src/db.ts:1378-1384 | after any operations: the record of a row an operation adds continues the working record of its project, or the current snapshot for an append, path by path: the version is kept with the hash, is one more when it changed, and is 1 for a new path |
| `SnapshotStore.WorkingVersions` | src/db.ts:617-1843 | every operation leaves the working record of a project as it is or continues it by the same rule |
| `SnapshotStore.FileVersionChain` | src/db.ts:617-1843 | along any operations from an empty store, while a path stays in the working record of a project its version grows by exactly the number of times its hash changes |
| `SnapshotStore.FileVersionBound` | src/db.ts:617-654 | along any updates every file version lies between 1 and the working version |
| `SnapshotStore.AppendBoundExactly` | src/db.ts:1806-1832 | an append keeps that bound whenever the project had a working record; otherwise exactly when every version in the current snapshot is at most the next working version, and below it for a file the append changes, unless the hash collides |
| `SnapshotStore.RunBoundExactly` | src/db.ts:617-1843 | along any operations from an empty store a project's file versions stay within its working version in every state exactly when each append without a working record finds that room, unless the hash collides |
| `SnapshotStore.AppendBreaksBound` | src/db.ts:1806-1832 | the run that creates a project, activates one snapshot and appends a change of its file breaks the bound, unless the hash collides |
| `SnapshotStore.SnapshotTable.UpdateProjectFiles` | src/db.ts:617-654 | the statements bring about the step of the specification, or nothing when they throw |
| `SnapshotStore.SnapshotTable.CreateBuildSnapshot` | src/db.ts:1244-1322 | carries out the step of `CreateExactly` without activating, and returns the id of the row it added, or none when it added none |
| `SnapshotStore.SnapshotTable.CreateAndActivateBuildSnapshot` | src/db.ts:1324-1436 | insert, clearing and setting of the flag and the project update add up to the one step of `CreateExactly`; the returned id and record are those of the stored row |
| `SnapshotStore.SnapshotTable.GetCurrentArtifact` | src/db.ts:1516-1567 | returns the verified current artifact, or reports that there is none or that it is broken |
| `SnapshotStore.SnapshotTable.MarkSnapshotAsCurrent` | src/db.ts:1616-1690 | for any table: switches the flag exactly when the stored snapshot is there and passes its checks, and changes nothing otherwise |
| `SnapshotStore.SnapshotTable.AppendArtifactToCurrentSnapshot` | src/db.ts:1692-1843 | a revision and the working record are committed together, or a late failure puts everything back |
| `CreditLedger.BalanceAfterMonthlyGrant` | src/lib/creditRollover.ts:6-20 | succeeds exactly for non-negative arguments with a safe sum, and never loses existing credits |
| `CreditLedger.EvaluateBalances` | src/db.ts:119-1138 | every operation that writes changes the balance by exactly the amount of its ledger row, dated by its transaction's start |
| `CreditLedger.ExecuteConserves` | src/db.ts:119-1138 | serial execution keeps every balance equal to the sum of the user's ledger rows and every reference unique |
| `CreditLedger.UninterruptedIsSerial` | src/db.ts:980-1138 | begin, lock, look-up, read and commit without interruption do what the serial operation does |
| `CreditLedger.StepInv` | src/db.ts:780-1138 | each step of any transaction, abort or unlocked write keeps conservation, unique references, up-to-date pending writes and exclusive locks |
| `CreditLedger.CreditConservation` | src/db.ts:119-182 | in every state of every interleaving a balance is the sum of its ledger amounts and not negative |
| `CreditLedger.BalanceIsRequested` | src/db.ts:119-1138 | in every state of every interleaving a user's balance is the sum of what the user's committed requests ask for by their arguments alone: a deduction takes its whole amount unless the account paid nothing when it was read, a credit adds its amount, a plan grant or refill the credits of its tier |
| `CreditLedger.AtMostOnceCrediting` | src/db.ts:980-1021 | a Stripe reference has at most one row among all users, and credits that row's amount once |
| `CreditLedger.RetryChangesNothing` | src/db.ts:980-1071 | once a reference was credited, using it again, for anyone and by either function, changes nothing |
| `CreditLedger.CloseIffSwitched` | src/db.ts:829-1138 | in every run from fresh accounts with no call taking more than two and a half days from its clock reading to its look at the account, through any operations, tiers and interleavings, a grant row comes less than 25 days after an earlier one if and only if a plan grant wrote it that found the account on another tier, or grants the free one, and began less than 25 days after the latest grant it read |
| `CreditLedger.GrantsAreSpaced` | src/db.ts:872-1130 | while the cached tier stays at one tier that is not free, and with the same bound on delays, new grant rows come 25 days or more after every earlier one, whichever function wrote them, unless a grant that read another tier was already waiting to be committed |
| `CreditLedger.GrantRateBound` | src/db.ts:872-1130 | under the same conditions at most W / 25 rounded down, plus one, of the grants recorded since then fall into any period of W days |
| `CreditLedger.GrantRateBesidesSwitches` | src/db.ts:829-1138 | through any changes of tier the same bound holds of all grants but those that found the account on another tier |
| `CreditLedger.LateRefillBreaksSpacing` | src/db.ts:867-894 | for every larger delay there is a run from fresh accounts, on one tier throughout, that records two grants less than 25 days apart |
| `CreditLedger.ApartIffPrompt` | src/db.ts:829-1130 | for each bound on delays: all runs within it keep grants of one tier 25 days apart if and only if the bound is at most two and a half days |
| `CreditLedger.OnlySwitchesIffPrompt` | src/db.ts:829-1138 | through any changes of tier: all runs within a bound on delays leave less than 25 days only in front of grants that found another tier, if and only if the bound is at most two and a half days |
| `CreditLedger.TierSwitchBreaksSpacing` | src/db.ts:1047-1138 | a run from fresh accounts without any delay grants two plans in full, one day apart |
| `CreditLedger.RecentGrantIffTierChanges` | src/db.ts:1078-1130 | what one plan grant does within 25 days of the latest one, alone, with a fresh reference and an admissible balance: it is recorded exactly when it moves the account to another tier |
| `CreditLedger.CreditTables.EnsureUserCredits` | src/db.ts:780-827 | creates an empty account or makes an owner unlimited, touches no balance, no ledger row and no other account |
| `CreditLedger.CreditTables.Save` | src/db/ensureSchema.ts:46-69 | account row and ledger row are written together, or neither when the column range, the balance check or the unique reference forbids it |
| `CreditLedger.CreditTables.ApplyGodCodeGrantTo` | src/db.ts:119-182 | executes the serial operation; what it adds to the balance and the one ledger row it writes are stated outright; reports the resulting balance, or an unlimited account of an owner |
| `CreditLedger.CreditTables.Refill` | src/db.ts:829-896 | executes the serial operation; refills exactly a due subscription within the limits, by the credits of its tier with one ledger row, and changes nothing otherwise |
| `CreditLedger.CreditTables.Deduct` | src/db.ts:911-963 | executes the serial operation; returns a balance exactly when the amount is positive and the account pays nothing or can pay it; then the balance falls by exactly the amount and one usage row records that, both by 0 for an account that pays nothing; otherwise nothing changes |
| `CreditLedger.CreditTables.Add` | src/db.ts:965-1026 | executes the serial operation; the balance rises by exactly the amount with one row of it, or nothing changes; a skipped call found its reference |
| `CreditLedger.CreditTables.GrantPlan` | src/db.ts:1047-1138 | executes the serial operation; skips exactly a user without an account, a used reference, and a tier that the account already has and was granted within 25 days; otherwise it moves the tier and adds the credits of the tier with one row |
| `BillingEventLease.BillingEvent.Claim` | src/lib/billingScaffoldTemplates.ts:285-317 | takes the row exactly when there is none, it failed, or its lease ran out |
| `BillingEventLease.BillingEvent.RenewLease` | src/lib/billingScaffoldTemplates.ts:319-327 | renews only a row this call still holds |
| `BillingEventLease.BillingEvent.End` | src/lib/billingScaffoldTemplates.ts:338-374 | writes the final status only to a row this call still holds, and reports whether it did |
| `BillingEventLease.BillingEvent.ProcessBillingEventOnce` | src/lib/billingScaffoldTemplates.ts:277-378 | one call, with any row left behind by others meanwhile: duplicate exactly when not claimable, completed exactly when its handler succeeded and it still held the row |
| `BillingEventLease.StepInv` | src/lib/billingScaffoldTemplates.ts:285-374 | every step keeps the protocol's invariant |
| `BillingEventLease.OwnerIffProcessing` | src/lib/billingScaffoldTemplates.ts:710-721 | a claim owner is stored exactly while the status is processing |
| `BillingEventLease.ProcessedIsAbsorbing` | src/lib/billingScaffoldTemplates.ts:285-374 | a processed row never changes again |
| `BillingEventLease.AtMostOneCompletes` | src/lib/billingScaffoldTemplates.ts:338-353 | at most one call reports a new completion, only after its own handler returned, and a processed row always had a handler that returned |
| `BillingEventLease.CallAlone` | src/lib/billingScaffoldTemplates.ts:277-378 | a call that finds the event claimable and is not interrupted ends it: processed when its handler returns, failed when it throws |
| `BillingEventLease.LostForGood` | src/lib/billingScaffoldTemplates.ts:319-374 | a call whose claim was taken over never holds the row again and none of its statements changes it |
| `BillingEventLease.MutualExclusion` | src/lib/billingScaffoldTemplates.ts:285-335 | in every interleaving, while all calls inside their handler have renewed within the lease, no two are inside |
| `BillingEventLease.HeartbeatKeepsClaim` | src/lib/billingScaffoldTemplates.ts:319-335 | a call that renews before each lease ends keeps its claim, whatever all others do, and the row carries the time of its last renewal |
| `BillingEventLease.TakeoverOnlyWhenOverdue` | src/lib/billingScaffoldTemplates.ts:305-313 | another call can claim a processing row only when its owner is overdue |
| `BillingEventLease.ClaimsExactly` | src/lib/billingScaffoldTemplates.ts:285-317 | a new call that waits for some time can claim exactly when there is no row, the row failed, or the lease of its last renewal is over by then |
| `BillingEventLease.OverlapWithoutHeartbeats` | src/lib/billingScaffoldTemplates.ts:305-313 | without heartbeats two handlers do run at once |
| `BillingEventLease.ClaimableAgainIffNotProcessed` | src/lib/billingScaffoldTemplates.ts:285-317 | from any state a call that has not started can still claim the event, at once or after waiting, exactly when the event is not processed |
| `AgentCoordination.CreateAgentCoordinationRecord` | src/lib/agentCoordination.ts:159-208 | succeeds exactly when no file has two owners or an inherited name, and records the owners and every field of each task's first state; otherwise the error names the first clash in the order of the plan |
| `AgentCoordination.ValidateTaskHandoff` | src/lib/agentCoordination.ts:210-251 | accepts exactly when the task is planned, its dependencies are complete, its requirements known, its files owned and its agent agreed; otherwise the error names what the first failing check found first |
| `AgentCoordination.AssertTaskOutputOwnership` | src/lib/agentCoordination.ts:253-277 | accepts exactly a non-empty output of files the task lists and owns; otherwise the error names the kind of fault and a file that has it |
| `AgentCoordination.OutputsDisjoint` | src/lib/agentCoordination.ts:267-276 | accepted outputs of different tasks share no file |
| `AgentCoordination.MergeInAnyOrder` | src/lib/agentCoordination.ts:253-277 | accepted outputs of different tasks merge to the same files in any order: all of theirs, with their contents, and no others |
| `AgentCoordination.UpdateTaskCoordinationState` | src/lib/agentCoordination.ts:296-316 | fails for an unknown task; otherwise exactly the named fields of that one task change, its id cannot, no other task or file owner is touched, and a record keyed by task ids stays so |
| `AgentCoordination.UnlockReadyTasks` | src/lib/agentCoordination.ts:318-342 | the loop makes exactly the blocked tasks pending whose dependencies are all completed, and changes nothing else |
| `AgentCoordination.SchedulerProgress` | src/lib/agentCoordination.ts:318-342 | with an acyclic plan a task is pending exactly while fewer than n completions were made, and n completions complete all |
| `AgentCoordination.ScheduleStates` | src/lib/agentCoordination.ts:159-342 | every field of every task after any schedule: as planned, with its outputs when completed, else pending exactly when all its dependencies are completed |
| `AgentCoordination.Topological` | src/lib/agentCoordination.ts:223-229 | a task is completed only after each of its dependencies |
| `AgentCoordination.NotTwice` | src/lib/agentCoordination.ts:318-342 | no task is completed twice |
| `AgentCoordination.HandoffOfPending` | src/lib/agentCoordination.ts:210-251 | the handoff of a pending task never fails for its dependencies or files |
| `AgentCoordination.FullSchedule` | src/lib/agentCoordination.ts:159-342 | any schedule of an acyclic plan extends to one that completes every task |
| `AgentCoordination.CycleStalls` | src/lib/agentCoordination.ts:318-342 | a plan of two tasks that wait for each other, neither depending on itself, has no schedule that completes it |
| `AgentCoordination.CompletableIffAcyclic` | src/lib/agentCoordination.ts:159-342 | a plan can be carried out to the end exactly when its dependencies have no cycle |
| `AgentCoordination.ReconcileCoordinationResume` | src/lib/agentCoordination.ts:408-442 | the loop resets each completed task that needs it and then unlocks; what becomes of each task is that of `ResumeExactly` |
| `AgentCoordination.ResumeExactly` | src/lib/agentCoordination.ts:408-442 | task by task what a resume leaves: the status, the outputs, and the error with the missing files in order, for a repair, for no outputs, for missing outputs and for none missing; all other fields are kept |
| `AgentCoordination.JoinedByComma` | src/lib/agentCoordination.ts:435 | the list of missing files in the error: each name as it is, with a comma and a space between two |
| `AgentCoordination.ResumeRepairs` | src/lib/agentCoordination.ts:408-442 | after a resume exactly the tasks with all outputs present, and no repair asked for, are completed, nothing stays blocked that is ready, and all else is kept |
| `AgentCoordination.ResumeTwice` | src/lib/agentCoordination.ts:408-442 | a second resume changes no task state |
| `AgentCoordination.ClosedAfterResume` | src/lib/agentCoordination.ts:408-442 | after a resume every dependency of a completed task is completed if and only if a repair was asked for, or before it no completed task with all outputs present depended on one that is not |
| `AgentCoordination.DependentsStayCompleted` | src/lib/agentCoordination.ts:415-439 | an input for which a completed task ends up above a dependency that was reset |
| `SchemaMigrations.Database.ApplyAppForgeSchemaMigrations` | src/db/ensureSchema.ts:892-944 | the loop does what the specification says, and the schema stays the recorded migrations carried out in order |
| `SchemaMigrations.LoopApplies` | src/db/ensureSchema.ts:907-934 | whatever was recorded before, nothing is recorded twice, and a loop that ends well finds its whole list recorded with matching checksums |
| `SchemaMigrations.LoopStops` | src/db/ensureSchema.ts:907-930 | a loop that stops did everything before, and met a recorded row with another checksum, a failing statement or a conflict |
| `SchemaMigrations.StepInv` | src/db/ensureSchema.ts:892-944 | every step of any server, crashes and lost locks included, keeps the invariant and only adds to the record |
| `SchemaMigrations.CommittedOnce` | src/db/ensureSchema.ts:923-930 | for any lists, no version is committed twice, the schema is the committed migrations in order, and success means the whole list is recorded |
| `SchemaMigrations.CrashSafe` | src/db/ensureSchema.ts:892-944 | with lists that only grow at the end, the record is a prefix, the schema that prefix carried out, and no server sees a changed checksum |
| `SchemaMigrations.RestartCompletes` | src/db/ensureSchema.ts:907-934 | however far crashed servers came, one that runs to its end completes its list |
| `SchemaMigrations.UninterruptedIsLoop` | src/db/ensureSchema.ts:892-944 | from any state with the lock free, a server of the concurrent machine that nobody interrupts ends with the record and the outcome of the loop and gives the lock back |
| `SchemaMigrations.AloneItSucceeds` | src/db/ensureSchema.ts:892-944 | after any run with crashes and restarts, once the lock is free such a server succeeds: the record becomes the longer of the old one and its list, and the schema that record carried out |
| `SchemaMigrations.LockPreventsConflicts` | src/db/ensureSchema.ts:902-904 | while connections keep their lock, two servers never work at once and none meets a conflict |
| `LlmFailover.OrderProviders` | src/_core/llm.ts:435-454 | returns the rotated list with the first preferred match moved to the front |
| `LlmFailover.OrderIsPermutation` | src/_core/llm.ts:435-454 | ordering loses and repeats no provider, and a preferred provider comes first |
| `LlmFailover.OrderAt` | src/_core/llm.ts:435-454 | the k-th provider is the one k places after the start, wrapped around |
| `LlmFailover.PreferredAt` | src/_core/llm.ts:435-454 | the first provider of the preferred id comes first and all others keep their order |
| `LlmFailover.Deciding` | src/_core/llm.ts:357-433 | the deciding attempt is the first that is not retried, or the fifth |
| `LlmFailover.FetchWithBackoff` | src/_core/llm.ts:357-433 | returns the reply of the deciding attempt, readable or not, after at most five requests |
| `LlmFailover.InvokeLLM` | src/_core/llm.ts:521-734 | the loop over the spliced list ends, and equals the specification of the walk |
| `LlmFailover.FailoverBounds` | src/_core/llm.ts:525-729 | for any answers at most n + 2 entries are visited with at most five requests each, all of which are counted, inserted fallbacks differ, and the providers keep their order |
| `LlmFailover.FailoverEnding` | src/_core/llm.ts:658-729 | all visits before the last were passed on, and the last one was answered in full, was aborted, was refused for good, or had no entry after it; a good status with a body that cannot be read or parsed is passed on without a retry |
| `LlmFailover.FallbackRules` | src/_core/llm.ts:631-656 | every inserted entry comes right after a gemini entry that was overloaded and runs a free model no entry before it ran, also when the caller named a model |
| `LlmFailover.FallbackIsTried` | src/_core/llm.ts:631-666 | whenever a gemini entry is overloaded and the call may fall back, the first free model that no entry so far ran and no other gemini entry lists is inserted behind it and visited next; nothing is inserted exactly when there is none |
| `LlmFailover.BindingModelKeepsList` | src/_core/llm.ts:631-638 | with a binding model and no leave to fall back the list never grows |
| `WorkspaceTree.Tree.Place` | src/hooks/useWebContainerSandbox.ts:24-33 | walking the pointer and inserting changes the files and directories as specified: nothing below a file, otherwise the file replaces all at and below its path and the directories on the way to it are there |
| `WorkspaceTree.BuildTree` | src/hooks/useWebContainerSandbox.ts:7-38 | succeeds exactly for accepted paths; the tree holds each file unless another entry sits above it, no other files, and exactly the directories that lead to an entry and have none at or above them |
| `WorkspaceTree.FileAndDirectory` | src/hooks/useWebContainerSandbox.ts:24-33 | of the files `a` and `a/b`, both accepted, the tree holds the first alone |
| `WorkspaceTree.RoundTrip` | src/hooks/useWebContainerSandbox.ts:7-38 | the tree holds exactly the original map if and only if no path is a proper segment-prefix of another |
| `WorkspaceTree.OrderIrrelevant` | src/hooks/useWebContainerSandbox.ts:12 | the order of the entries makes no difference, conflicts included |
| `BuildLogView.AppendedRow` | src/lib/buildLogView.ts:22-44 | one event adds a row or replaces the last one, and the latest 200 stay: the row is the event itself, or a chunk with the last 4096 characters of the text streamed so far |
| `BuildLogView.WindowRefinesLog` | src/lib/buildLogView.ts:22-44 | the visible list is the last 200 rows of the log coalesced without limits, streamed text cut to its last 4096 characters |
| `BuildLogView.CoalescingKeepsAll` | src/lib/buildLogView.ts:26-41 | without limits coalescing keeps all streamed text and all other events in order, and no two neighbouring rows stream for one agent |
| `BuildLogView.RowsAreRuns` | src/lib/buildLogView.ts:26-41 | without limits there is one row for each longest run of chunks of one agent, with their texts joined, and one for each other event, in order |

## Left out

- `SchemaMigrations.LockPreventsConflicts`: assumes that the hash never yields an empty text, as SHA-256 in hexadecimal never does.
- SQL text, Drizzle, Postgres internals, fetch, timers, Stripe and Supabase: only the atomic step, the lock, the constraint, the clock reading or the reply they provide is modelled; all rows are dated by one clock.
- SHA-256, `localeCompare` and the decoding of arriving bytes, byte order marks and unpaired surrogates: hashes and key comparisons are parameters, text arrives decoded.
- `undefined`, functions and numbers that JSON turns into `null` in `stable`; numbers enter as the text they print to.
- Snapshots without an integrity record and integrity records of an older format inside the store: the store model holds records written by the current code; creation times, labels, audit scores and preview caches are dropped.
- Snapshots whose requirement manifest is null: every snapshot the modelled code writes has one, so neither the fallback of an append to the project's manifest (src/db.ts:1773-1775) nor the validation of the manifest in `getCurrentArtifact` (src/db.ts:1563-1565) is part of the store model.
- Gaps in serial ids after an aborted snapshot transaction.
- The functions of `src/services/stripePlanCredits.ts` and the refund reconciliation, which also write the ledger; unpausing projects after a grant; the monthly allowance column, which only mirrors the tier; null values in the account's date columns.
- Deleting users, and with them their accounts and ledger rows.
- The heartbeat's timer: renewals may come at any time, or not at all. The error text of a failed billing event.
- Coordination events, provider usage and resource decisions in a coordination record; plan validation beyond unique ids and known dependencies; task ids that name inherited properties of objects. Schema parsing trims texts and refuses empty ones, so names are taken as trimmed and not empty.
- `reconcileCoordinationResume` takes a repair reason and stores it as the last error; the event log around a resume is not modelled.
- The waiting times of `computeBackoffDelay`, the wait limits of the retry policy (its verdict on an answer is a parameter), request payloads and usage recording in the provider loop.
- The detached object `workspaceTree` walks on below a file is an ordinary object with inherited names; since it is never part of the tree the model makes it an empty one.
- `buildLogDetails` and `buildLogSummary`, and characters outside the Basic Multilingual Plane in text limits, which JavaScript counts as two.
- React components, routes, translations, templates, prompt texts and the regular-expression scanners.
