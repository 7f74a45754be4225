# Holonomy core: model and proofs

Dafny models of the Rust core of Holonomy, a governed data access layer for Parquet files, and proofs of
what its pipelines promise. `dafny verify dfyconfig.toml` checks the project.

**The governed read.** A scan takes a caller's expression (`FilterTree`), the row filters of the reader's role
(`FilterSyntax`, `ReadPath`) and the statistics of a file (`Pruning`) to decide which row groups to read, filters
the batches one predicate at a time (`Comparisons`, `RowFilters`), drops hidden columns, masks what the policy hides
(`Governance`) and pads what the file lacks. The simple specification is `FileScan.ScanResult`: select rows of the
whole file, then mask or pad each requested column. `Tables` and `FileRows` carry the algebra: stacking,
projecting and filtering commute. `FileScan` proves that the batched, pruned loop delivers that result and that
the selection lies between policy and request; `EagerRead` proves that `read` returns the same column;
`Prefetch` proves that the concurrent prefetch pipeline refines the sequential scan; `WholeScan` puts them
together, and `RowSecurity` follows single rows through every run, also of scans that fail or are abandoned.

**What is disclosed.** `Disclosure` says, without reference to the pipeline's own functions, which columns a reader
may be shown and what each cell becomes, and proves it of every delivered cell and of the files that the writer
stored. In the same way `FilterTree.Means` gives expressions a meaning of their own, `Comparisons.ValueOf` says what
cells and literals stand for, and `PolicyLayers.Decision` says which level decides.

**The upload.** `MultipartUpload` is the select loop of `upload_stream` as a transition system over the loop, its
tasks, the producer and the storage service; `UploadRuns` proves safety, a single outcome, progress and
termination over all runs; `UploadSession` is the same loop as a class whose methods are proved to be the
protocol's steps. `StreamedWrite` is the chunking sink in front of it, and the end-to-end byte fidelity.

**Policy.** `StableSort`, `Manifest` and `PolicyLayers` model the composition of policy layers and which columns
the writer encrypts; `WriteReadAgreement` proves when the writer's and the reader's rules agree.

**Bounded shared state.** `Audit` and `AuditRuns` (the overflow-dropping queue and its broadcaster), `KeyCache`
(the expiring key cache in front of the key service) and `Validator` (exhaustive batch validation) with
`Contract`.

Some promises do not hold of the code on all inputs. For each of them there is a lemma with the exact condition
and one that shows inputs on which it fails:

- a literal is cut to the width of a column: `Comparisons.EvaluationIsExact`, `LargeLiteralIsCut`;
- statistics of unsigned numbers, decimals, dates and times are compared with the wrong thing, and matching rows
  are not read: `Pruning.PruningIsSoundIff`, `FileRows.FilePruningIsSoundIff`, `UnsignedRowsAreNotRead`;
- the filters of the first file are used for all files: `ReadPath.LaterFiltersAreEnforcedIff`,
  `RowSecurity.LaterFileIsNotFiltered`;
- a reader without an active role is not filtered: `ReadPath.EscapesFiltersIff`, `TwoRolesEscape`;
- an unknown mask leaves data in the clear: `Governance.OnlyPlaintextRevealsIff`, `UnknownMaskReveals`;
- the writer's and the reader's tag rules differ: `WriteReadAgreement.TagRulesAgreeIff`, `UpperCaseTagDisagrees`;
- filters are misread, skipped or make the parser panic: `FilterSyntax.ParseUndoesRender` and
  `GreaterOnEqualsIsMisread`, `SkippedIff`, `PanicsIff` and `LoneQuotePanics`;
- a missing column cannot always be padded: `FileScan.PaddingFitsIff`, `RequiredColumnCannotBePadded`;
- `read` answers for a missing column before it filters: `EagerRead.MissingColumnAgreesIff`, `NullRowDisagrees`;
- an object can be stored although its abort is requested: `UploadRuns.BothOutcomesIff`,
  `LostReplyHasBothOutcomes`;
- cache keys have no separator and leave out the key service's context: `KeyCache.CoherentIff`, `UsersCanCollide`,
  `ContextsCollide`.

Conventions. Cells are nullable values, comparison is three-valued, a filter keeps the rows where it is true. A
file is flat and its statistics bound its non-null values (`Pruning.ValidFile`). The way the Parquet reader cuts
rows into batches is a parameter: the theorems hold for every cut. Lower-casing, the salted digest, the calendar
parser, the regular expression engine, signature checking, base64 and the key service are parameters; nothing is
assumed of them unless a lemma says so. `Done`, `Run` and `After` describe whole runs of a state machine under a
schedule of events; schedules are arbitrary.

A comment in `merge` says that row filters are concatenated so that all of them apply; filter strings without an
operator are nevertheless skipped, and selective filters are chosen on the columns of the first file. Both are
modelled as the code has them.

## Model

| member | source | states |
|---|---|---|
| `MultipartUpload.InitialInv` | holonomy-core/src/crypto/pme_encrypt.rs:377-384 | the eight permits, no part and no outcome at the start satisfy the protocol invariant |
| `MultipartUpload.StepKeepsStream` | holonomy-core/src/crypto/pme_encrypt.rs:386-425 | received never passes sent, the channel holds at most ten items, and part numbers count the received data items |
| `MultipartUpload.StepKeepsPermits` | holonomy-core/src/crypto/pme_encrypt.rs:378-416 | permits are conserved: free + held by the loop + running parts = 8 after every step |
| `MultipartUpload.MoveKeepsPlaces` | holonomy-core/src/crypto/pme_encrypt.rs:401-437 | a started part is running, ended or completed, in one place only, and is completed once under its own number |
| `MultipartUpload.MoveKeepsBodies` | holonomy-core/src/crypto/pme_encrypt.rs:393-413 | the body of part k, wherever it is, is the k-th received chunk |
| `MultipartUpload.StepLosesNothing` | holonomy-core/src/crypto/pme_encrypt.rs:426-478 | while no part has failed, no started part is lost |
| `MultipartUpload.StepKeepsInv` | holonomy-core/src/crypto/pme_encrypt.rs:386-509 | every step of loop, tasks, producer and service, in any order, keeps the whole invariant |
| `MultipartUpload.SortedPartsAreAll` | holonomy-core/src/crypto/pme_encrypt.rs:489-493 | when no task is left, the sorted completed parts are numbered exactly 1..n |
| `MultipartUpload.DrainedRequest` | holonomy-core/src/crypto/pme_encrypt.rs:489-506 | the bodies of the requested parts are the received chunks in order |
| `UploadRuns.CompletionIsFaithful` | holonomy-core/src/crypto/pme_encrypt.rs:377-509 | in every run: if completion is requested, success was received, no part failed, the parts are 1..n, and the object is the concatenation of the n chunks before the success signal |
| `UploadRuns.EightPartsAtATime` | holonomy-core/src/crypto/pme_encrypt.rs:377-416 | in every run eight permits are free, held by the loop or with a running part, and at most ten items are in the channel |
| `UploadRuns.EightPartsCanRun` | holonomy-core/src/crypto/pme_encrypt.rs:377-416 | and the bound is reached: eight parts can be running at once |
| `UploadRuns.ProducerWaits` | holonomy-core/src/manager/write_orchestrator.rs:254 | back-pressure: a producer whose items nobody takes sends exactly ten |
| `UploadRuns.NoSuccessNoObject` | holonomy-core/src/crypto/pme_encrypt.rs:421-423 | a producer that never signals success never gets an object, and the upload is aborted |
| `UploadRuns.ExactlyOneOutcome` | holonomy-core/src/crypto/pme_encrypt.rs:175-194 | a returned upload is completed and not aborted or aborted and not completed; stored iff not aborted, exactly unless the reply to the complete request gets lost |
| `UploadRuns.BothOutcomesIff` | holonomy-core/src/crypto/pme_encrypt.rs:499-508 | in every run, an object is stored and its abort requested iff a complete request made after the success signal loses its reply |
| `UploadRuns.LostReplyHasBothOutcomes` | holonomy-core/src/crypto/pme_encrypt.rs:499-508 | the exception is reachable: with a lost reply to the complete request the object exists and an abort is requested |
| `UploadRuns.NeverStuck` | holonomy-core/src/crypto/pme_encrypt.rs:386-479 | deadlock freedom: unless the loop waits on an open empty channel, some step of the upload itself is enabled |
| `UploadRuns.StepDecreasesMeasure` | holonomy-core/src/crypto/pme_encrypt.rs:386-479 | every step decreases a measure over unread items, running parts, unjoined parts and the missing permit |
| `UploadRuns.UploadTerminates` | holonomy-core/src/crypto/pme_encrypt.rs:386-479 | an upload of m items makes at most 5m + 4 steps |
| `UploadRuns.FaultlessRunStores` | holonomy-core/src/crypto/pme_encrypt.rs:386-510 | n chunks and a success signal, without faults: every run that can go no further has stored the chunks and asked for no abort |
| `UploadSession.Session.ReceiveOne` | holonomy-core/src/crypto/pme_encrypt.rs:391-425 | the receive arm on the mutable session is the protocol step, including closed channel and success |
| `UploadSession.Session.JoinOne` | holonomy-core/src/crypto/pme_encrypt.rs:426-447 | the join arm is the protocol step; a failed or panicked part ends the upload |
| `UploadSession.Session.EndOne` | holonomy-core/src/crypto/pme_encrypt.rs:401-413 | a task that ends releases its permit and, if uploaded, leaves its body with the service |
| `UploadSession.Session.Complete` | holonomy-core/src/crypto/pme_encrypt.rs:481-509 | the tail is the protocol step: no success no completion, otherwise the sorted parts are requested |
| `UploadSession.Session.DropGuard` | holonomy-core/src/crypto/pme_encrypt.rs:175-194 | dropping the guard asks for an abort exactly when the upload is not marked completed |
| `UploadSession.UploadStream` | holonomy-core/src/crypto/pme_encrypt.rs:350-510 | under every schedule, success means that the object is exactly what was sent before the success signal, and never an abort |
| `StreamedWrite.HandedIsWritten` | holonomy-core/src/manager/write_orchestrator.rs:30-60 | for any write and flush calls, the chunks before the success signal concatenate to the bytes written |
| `StreamedWrite.CutFullSpells` | holonomy-core/src/manager/write_orchestrator.rs:31-42 | cutting loses no byte, every chunk cut has exactly the chunk size and the rest is shorter than a chunk |
| `StreamedWrite.OnlyLastPartIsShort` | holonomy-core/src/manager/write_orchestrator.rs:255 | without explicit flushes every part has the chunk size except possibly the last, which is not empty |
| `StreamedWrite.ChannelWriter.Write` | holonomy-core/src/manager/write_orchestrator.rs:31-42 | buffer, failure flag and delivered items after a write, for a receiver that may leave at any time |
| `StreamedWrite.ChannelWriter.Flush` | holonomy-core/src/manager/write_orchestrator.rs:44-53 | flush hands over the rest unless a send has failed before |
| `StreamedWrite.WriteTask` | holonomy-core/src/manager/write_orchestrator.rs:261-282 | a receiver that leaves after any number of items has got a prefix of the full sequence; the task fails because of the serializer, then without a success signal, or because the receiver left |
| `StreamedWrite.FailedSerializerStoresNothing` | holonomy-core/src/manager/write_orchestrator.rs:269-281 | a serializer that fails of its own accord never leads to a stored object, and the upload is aborted |
| `StreamedWrite.SuccessMeansEverything` | holonomy-core/src/manager/write_orchestrator.rs:278-281 | the success signal arrives iff everything before it did, and then the chunks are all bytes written |
| `StreamedWrite.StoredIsWritten` | holonomy-core/src/manager/write_orchestrator.rs:252-309 | end to end: any calls, any schedule of the upload: a stored object is the bytes written |
| `StableSort.SortSorts` | holonomy-core/src/manager/policy_manager.rs:101 | sorting orders the keys |
| `StableSort.SortIsStable` | holonomy-core/src/manager/policy_manager.rs:101 | stability: elements of one key keep their order and none is added or lost |
| `StableSort.SortedByGroups` | holonomy-core/src/manager/policy_manager.rs:101 | a sorted sequence is determined by its groups, so there is only one stable result |
| `Manifest.MergePrincipalMaps` | holonomy-core/src/policy/manifest.rs:56-88 | merging principals in any iteration order of the incoming map gives the same map |
| `Manifest.MergeOne` | holonomy-core/src/policy/manifest.rs:58-87 | filters are concatenated, masks overridden, the smaller cap kept, in any iteration order of the mask maps |
| `Manifest.PushNew` | holonomy-core/src/policy/manifest.rs:93-102 | the contains-then-push loop is the order-preserving union |
| `Manifest.Merge` | holonomy-core/src/policy/manifest.rs:55-120 | the in-place merge of manifests, for every iteration order, is one function of the two manifests |
| `Manifest.MergeAssociative` | holonomy-core/src/policy/manifest.rs:55-120 | merge is associative exactly, order of filters and required names included |
| `Manifest.AddNewAssociative` | holonomy-core/src/policy/manifest.rs:93-102 | the de-duplicating union is associative as a sequence |
| `Manifest.MergeUnitesObligations` | holonomy-core/src/policy/manifest.rs:90-106 | a tag or column is required after a merge iff one of the two manifests requires it |
| `PolicyLayers.VerifySignatures` | holonomy-core/src/manager/policy_manager.rs:52-90 | succeeds iff every layer verifies and parses, with their levels, in order; otherwise the first layer that fails is the error |
| `PolicyLayers.MergeLayers` | holonomy-core/src/manager/policy_manager.rs:92-121 | succeeds iff every layer verifies and parses; the result is the fold of the local layers, then those of the domain, then the global ones, each level in the order given |
| `PolicyLayers.CompositionDependsOnLevels` | holonomy-core/src/manager/policy_manager.rs:99-118 | only the relative order of layers within one level matters |
| `PolicyLayers.DistinctLevelsInAnyOrder` | holonomy-core/src/manager/policy_manager.rs:99-118 | with distinct levels every permutation of the layers gives the same policy |
| `PolicyLayers.FiltersConcatenate` | holonomy-core/src/policy/manifest.rs:60-66 | a principal's row filters are those of all layers, in level order |
| `PolicyLayers.LastMaskWins` | holonomy-core/src/policy/manifest.rs:68-71 | the mask of a column is the one of the last layer that defines it |
| `PolicyLayers.MaskComesFromLayer` | holonomy-core/src/policy/manifest.rs:68-71 | a composed mask always comes from a layer that is the last to define it |
| `PolicyLayers.LastTagMaskWins` | holonomy-core/src/policy/manifest.rs:73-76 | the mask of a tag is the one of the last layer that defines it |
| `PolicyLayers.TagMaskComesFromLayer` | holonomy-core/src/policy/manifest.rs:73-76 | a composed tag mask always comes from a layer that is the last to define it |
| `PolicyLayers.LevelsInOrder` | holonomy-core/src/policy/manifest.rs:9-14 | the stable sort puts local layers before domain layers before global ones, whatever the order in which they are given |
| `PolicyLayers.GlobalColumnMaskWins` | holonomy-core/src/manager/policy_manager.rs:99-118 | the composed mask of a column is the last global layer's that has one, else the last domain layer's, else the last local one's |
| `PolicyLayers.GlobalTagMaskWins` | holonomy-core/src/policy/manifest.rs:73-76 | the mask of a tag is decided in the same order of the levels |
| `PolicyLayers.GlobalBindingWins` | holonomy-core/src/policy/manifest.rs:108-117 | and so is the role that a purpose is bound to |
| `PolicyLayers.FiltersLevelByLevel` | holonomy-core/src/manager/policy_manager.rs:99-118 | the composed row filters are those of the local, the domain and the global layers, in that order |
| `PolicyLayers.LowestVersionStays` | holonomy-core/src/policy/manifest.rs:55-120 | the composed manifest keeps the version of its lowest layer |
| `PolicyLayers.LocalCannotLift` | holonomy-core/src/manager/policy_manager.rs:99-101 | for instance a local PLAINTEXT does not lift a global REDACT, in whichever order the layers are given |
| `PolicyLayers.SmallestCapWins` | holonomy-core/src/policy/manifest.rs:78-87 | the cap is the minimum over the layers that set one, and set iff one does |
| `PolicyLayers.ObligationsUnite` | holonomy-core/src/policy/manifest.rs:90-106 | required tags and columns are exactly those of some layer |
| `PolicyLayers.ResolveColumnsToEncrypt` | holonomy-core/src/manager/policy_manager.rs:124-165 | the loop collects, in contract order, the columns with a required lower-cased tag or a required name inside theirs |
| `PolicyLayers.SensitiveNamesExactly` | holonomy-core/src/manager/policy_manager.rs:137-162 | a name is collected iff a column of that name is sensitive |
| `PolicyLayers.CompositionKeepsEncryption` | holonomy-core/src/manager/policy_manager.rs:124-165 | what one layer alone would encrypt is encrypted under every composition that contains it |
| `Governance.ActiveRoleExactly` | holonomy-core/src/manager/governance_manager.rs:48-102 | a role becomes active iff it is bound or assumed without conflict and held, or else the reader's only principal in the policy |
| `Governance.CollectMasks` | holonomy-core/src/manager/governance_manager.rs:159-177 | the matched masks are one set whatever the iteration order of the map |
| `Governance.OnlyPlaintextRevealsIff` | holonomy-core/src/manager/governance_manager.rs:179-193 | only PLAINTEXT shows the data iff a documented mask is among the matched ones: an unknown mask alone falls through in the clear |
| `Governance.UnknownMaskReveals` | holonomy-core/src/manager/governance_manager.rs:183-193 | for instance a mask called NULL leaves an encrypted column readable |
| `Governance.DeniedIff` | holonomy-core/src/manager/governance_manager.rs:195-207 | access to an encrypted column is denied iff UNLISTED is the only documented mask and the mode is strict |
| `Governance.HashedIff` | holonomy-core/src/manager/governance_manager.rs:183-184 | text is shown as its hexadecimal digest iff HASH is matched and PLAINTEXT is not |
| `Governance.RedactedIff` | holonomy-core/src/manager/governance_manager.rs:185-207 | text is shown as stars iff REDACT, or UNLISTED under graceful masking, is matched and neither PLAINTEXT nor HASH is |
| `Governance.InClearIff` | holonomy-core/src/manager/governance_manager.rs:179-193 | text is shown as it is iff PLAINTEXT is matched or none of the other documented masks is |
| `Governance.EncryptedReadIsAuthorized` | holonomy-core/src/manager/governance_manager.rs:148-155 | reading an encrypted column implies an active role that is the reader's and the policy's |
| `Governance.ClearOnlyByPlaintext` | holonomy-core/src/manager/governance_manager.rs:179-213 | with documented masks an encrypted column is in the clear iff PLAINTEXT is among the matches |
| `Governance.HexInto` | holonomy-core/src/governance/simd_ops.rs:326-340 | the buffer holds the 64 hexadecimal characters of the digest |
| `Governance.HexIsReadBack` | holonomy-core/src/governance/simd_ops.rs:333-337 | two digits a byte, the higher one first, from 0 to 9 and a to f: the digest is read back |
| `Governance.HexInjective` | holonomy-core/src/governance/simd_ops.rs:333-337 | different digests have different hexadecimal forms |
| `Governance.MaskColumn` | holonomy-core/src/manager/governance_manager.rs:209-284 | the builder loop is a fixed function of each cell: same length, nulls stay null, other types are nulled |
| `Governance.HashedTextKeepsEquality` | holonomy-core/src/manager/governance_manager.rs:239-253 | hashing keeps equality and inequality of text when the digest is injective |
| `Governance.MaskedColumnIsHidden` | holonomy-core/src/manager/governance_manager.rs:209-282 | apart from PLAINTEXT a reader learns nothing of a column but its nulls and, when hashed, the digests of its texts |
| `WriteReadAgreement.WriteTagEntries` | holonomy-core/src/manager/write_orchestrator.rs:232-244 | the metadata entries written for a contract |
| `WriteReadAgreement.ReadTagsFor` | holonomy-core/src/manager/read_orchestrator.rs:327-338 | the tags that the reader decodes for a column: the last entry wins |
| `WriteReadAgreement.TagsComeBackIff` | holonomy-core/src/manager/write_orchestrator.rs:233-244 | join and split round trip iff no tag has a comma or outer whitespace |
| `WriteReadAgreement.TagsArrive` | holonomy-core/src/manager/scan_orchestrator.rs:1030-1066 | with distinct column names, clean tags arrive at the reader unchanged |
| `WriteReadAgreement.NamePartIsSubstring` | holonomy-core/src/manager/governance_manager.rs:122-128 | a padded-name match implies the writer's substring match |
| `WriteReadAgreement.TagRulesAgreeIff` | holonomy-core/src/manager/governance_manager.rs:122-135 | for every policy: what the reader insists on for clean tags the writer encrypts iff the required tags are closed under lower-casing or the required names cover every name |
| `WriteReadAgreement.EveryNameRequiredIff` | holonomy-core/src/manager/policy_manager.rs:150-157 | required names cover every name iff one of them is empty in lower case |
| `WriteReadAgreement.UpperCaseTagDisagrees` | holonomy-core/src/manager/policy_manager.rs:140-148 | for instance required tag PII: the writer leaves the column in plaintext, the reader then reports a data leak |
| `WriteReadAgreement.WrittenColumnsNeverLeak` | holonomy-core/src/manager/governance_manager.rs:122-142 | a column written by this writer under a policy never triggers DataLeakPrevented under it, for clean tags and a policy for which the rules agree |
| `FilterSyntax.ParseByWinner` | holonomy-core/src/ingestion/s3_client.rs:444-478 | the operator that wins is the first of ==, !=, =, >, < that occurs anywhere |
| `FilterSyntax.ParseUndoesRender` | holonomy-core/src/ingestion/s3_client.rs:444-478 | a filter written with ==, =, !=, > or < is parsed with that relation, column and value iff its text avoids the operators tried earlier; numbers always come back |
| `FilterSyntax.GreaterOnEqualsIsMisread` | holonomy-core/src/ingestion/s3_client.rs:444-478 | for instance t>'a=b' does not come back |
| `FilterSyntax.SkippedIff` | holonomy-core/src/ingestion/s3_client.rs:444-478 | a filter is skipped iff it has none of the characters =, > and < |
| `FilterSyntax.PanicsIff` | holonomy-core/src/ingestion/s3_client.rs:449-450 | the parser panics iff a single quote is all that stands behind the winning operator |
| `FilterSyntax.LoneQuotePanics` | holonomy-core/src/ingestion/s3_client.rs:449-450 | for instance on a=' |
| `FilterTree.FlattenWeakens` | holonomy-py/python/holonomy/__init__.py:81-144 | with a meaning of its own for and, equal, not_equal, greater, less and their symbols on the values of a row: of a row that satisfies the whole expression every flattened predicate is true, whatever dropped nodes mean; without dropped nodes the converse holds |
| `FilterTree.FlattenSucceedsIff` | holonomy-py/python/holonomy/__init__.py:81-144 | flattening fails iff a conjunction or comparison lacks an argument, or a column is compared with a boolean or an integer beyond 64 bits |
| `FilterTree.GreaterIsPushed` | holonomy-py/python/holonomy/__init__.py:96-140 | for instance greater(age, 30) is pushed down as age > 30 |
| `Text.BytesLessIff` | holonomy-core/src/governance/simd_ops.rs:103-134 | bytes are ordered by the first place where they differ, or by the one that ends there |
| `Text.Utf8Order` | holonomy-core/src/governance/simd_ops.rs:103-134 | comparing the bytes of UTF-8 is comparing the characters at the first place where two texts differ |
| `Text.EncodedIsDecoded` | holonomy-core/src/ingestion/s3_client.rs:581 | a character is read back from its UTF-8 bytes, whatever follows |
| `Comparisons.TextComparison` | holonomy-core/src/governance/simd_ops.rs:103-134 | greater and less on text are the order of the characters, and exactly one of less, equal and greater holds |
| `Comparisons.HoldsIsComparison` | holonomy-core/src/governance/simd_ops.rs:45-153 | the exact comparison in units, scales and bytes is a comparison of what cell and literal stand for: amounts, days, milliseconds, text |
| `Comparisons.EvaluationIsExact` | holonomy-core/src/governance/simd_ops.rs:45-153 | evaluation equals the exact meaning on every cell of a column iff the literal survives the casts to 32 and 64 bits and the cut to whole seconds, with the harmless exceptions |
| `Comparisons.ExactTimeIff` | holonomy-core/src/governance/simd_ops.rs:301-316 | a time literal in the unit of a timestamp column compares like the time itself iff its product fits 64 bits, or its fraction of a second does not turn the comparison |
| `Comparisons.LargeLiteralIsCut` | holonomy-core/src/governance/simd_ops.rs:60-64 | for instance a 32-bit column is compared with 5 where the filter says 2^32 + 5 |
| `RowFilters.ApplyRowFilter` | holonomy-core/src/manager/scan_orchestrator.rs:1138-1342 | one predicate is applied iff its column exists and can be compared, and keeps exactly the rows where it is true; otherwise the error tells which of the two failed |
| `RowFilters.KeptByValue` | holonomy-core/src/governance/simd_ops.rs:45-153 | with an exact literal a filter keeps exactly the rows whose cell has a value that is equal to, different from, above or below the literal's value, as the operator says |
| `RowFilters.RegionsBehindM` | holonomy-core/src/governance/simd_ops.rs:103-109 | for instance region > M keeps Z and drops A and null |
| `RowFilters.FiltersFuse` | holonomy-core/src/governance/simd_ops.rs:38-43 | filtering what a mask leaves by the filtered second mask is filtering once by both |
| `RowFilters.PassesFuse` | holonomy-core/src/manager/scan_orchestrator.rs:1138-1206 | a second filter pass on the shrunk batch fuses with the first, for all columns at once |
| `RowFilters.ApplyRowFilters` | holonomy-core/src/manager/scan_orchestrator.rs:1134-1342 | the loop succeeds iff every predicate applies, and equals one filter by the conjunction over all rows; otherwise the first predicate that does not apply is the error |
| `RowFilters.FilterOrderIrrelevant` | holonomy-core/src/manager/read_orchestrator.rs:262-294 | the order and repetition of predicates do not matter |
| `Pruning.PrunedCellFails` | holonomy-core/src/ingestion/s3_client.rs:490-590 | for all column types, statistics that rule a comparable predicate out are true of no cell that satisfies it |
| `Pruning.PruningIsSoundIff` | holonomy-core/src/ingestion/s3_client.rs:490-590 | for every predicate and column type, true statistics never rule a match out iff the literal is comparable: not for = and > within the range of unsigned columns, not for decimals with a fraction, not for text equality on dates and times |
| `Pruning.PrunesAllThatCannotMatch` | holonomy-core/src/ingestion/s3_client.rs:490-590 | for whole numbers and equality of text, a group with both bounds is kept iff the bounds leave room for a cell that satisfies the predicate |
| `Pruning.UnsignedGroupIsDropped` | holonomy-core/src/ingestion/s3_client.rs:532-544 | for instance a group of 7 and 3000000000 in an unsigned column is dropped for u > 5 |
| `Pruning.DecimalGroupIsDropped` | holonomy-core/src/ingestion/s3_client.rs:558-570 | for instance prices from 50.00 to 80.00 are dropped for price < 100 |
| `Pruning.GroupPruningIsSoundIff` | holonomy-core/src/ingestion/s3_client.rs:684-703 | over all row groups of a schema, a predicate loses no satisfying row iff it is comparable |
| `Pruning.GetPrunedRowGroups` | holonomy-core/src/ingestion/s3_client.rs:667-712 | the nested loops keep, in order, the groups that no predicate rules out; none if the column is missing |
| `Pruning.RuledOutRowsFail` | holonomy-core/src/ingestion/s3_client.rs:684-703 | no row of a group satisfies a predicate that rules the group out |
| `Tables.FilterStack` | holonomy-core/src/manager/scan_orchestrator.rs:1120-1206 | filtering batch by batch is filtering all rows, however they are cut |
| `Tables.ProjectLookup` | holonomy-core/src/manager/scan_orchestrator.rs:930-966 | a projection shows the columns that it keeps |
| `Tables.ProjectPassing` | holonomy-core/src/manager/scan_orchestrator.rs:938-954 | a projection with the columns of the filters does not change which rows pass |
| `FileRows.ReadIsMasked` | holonomy-core/src/manager/scan_orchestrator.rs:886-922 | what the pruned groups leave is a mask of the rows of the whole file |
| `FileRows.BatchesSelect` | holonomy-core/src/manager/scan_orchestrator.rs:886-1342 | pruning, cutting and filtering batch by batch select rows of the whole file |
| `FileRows.SatisfyingRowsAreRead` | holonomy-core/src/ingestion/s3_client.rs:667-712 | pruning is invisible: a row that satisfies all predicates is never in a pruned group |
| `FileRows.FilePruningIsSoundIff` | holonomy-core/src/ingestion/s3_client.rs:667-712 | over all files of a schema, pruning by a predicate drops no satisfying row iff it is comparable |
| `FileRows.UnsignedRowsAreNotRead` | holonomy-core/src/ingestion/s3_client.rs:532-544 | for instance both rows of an unsigned column satisfy u > 5 and neither is read |
| `FileRows.SelectedRowsSatisfyPolicy` | holonomy-core/src/governance/simd_ops.rs:45-153 | a selected row satisfies every policy filter by its exact meaning |
| `FileRows.PolicyPruningIsInvisible` | holonomy-core/src/manager/read_orchestrator.rs:242-294 | pruning by the policy's filters and filtering what was read is one filter by all of them over all rows |
| `FileRows.WantedRowsAreRead` | holonomy-core/src/ingestion/s3_client.rs:667-712 | a row that satisfies the policy and the whole expression of the caller is read |
| `ReadPath.CollectGlobal` | holonomy-core/src/manager/scan_orchestrator.rs:408-440 | global filters are collected iff none panics in the parser and all their columns exist |
| `ReadPath.CollectSelective` | holonomy-core/src/manager/scan_orchestrator.rs:444-466 | selective filters on missing columns are dropped |
| `ReadPath.CollectPolicyFilters` | holonomy-core/src/manager/scan_orchestrator.rs:382-468 | the filters of the active role; without one in the policy there are none |
| `ReadPath.EnforcedFilters` | holonomy-core/src/manager/scan_orchestrator.rs:408-466 | enforced are exactly the global filters that parse and the selective ones on existing columns |
| `ReadPath.LaterFiltersAreEnforcedIff` | holonomy-core/src/manager/scan_orchestrator.rs:340-468 | a later file gets all of its own filters iff the first file has the column of each of its selective filters, or the filter is also a global one |
| `ReadPath.EscapesFiltersIff` | holonomy-core/src/manager/scan_orchestrator.rs:390-406 | a reader escapes every row filter iff no role of the policy becomes active or the active one has no filter that parses |
| `ReadPath.TwoRolesEscape` | holonomy-core/src/manager/governance_manager.rs:85-101 | for instance with two principals in the policy and none bound or assumed: no row filter, and plaintext columns in the clear |
| `ReadPath.PlanScan` | holonomy-core/src/manager/scan_orchestrator.rs:382-612 | planning succeeds iff no filter of the role panics and its global filters have their columns in the first file; the plan covers every requested and every filter column |
| `ReadPath.DropHidden` | holonomy-core/src/manager/scan_orchestrator.rs:1354-1424 | the loop over fields keeps the requested columns in file order |
| `ReadPath.ShowColumns` | holonomy-core/src/manager/scan_orchestrator.rs:1450-1586 | succeeds iff the reader may see every present column, else fails with the first refusal; masks present ones, pads missing ones |
| `ReadPath.ProcessBatch` | holonomy-core/src/manager/scan_orchestrator.rs:1120-1638 | a batch is delivered iff everything goes well, and then it is the rendering of its passing rows; hidden columns leave no trace; otherwise the error is that of filters, visibility, access or schema, in this order |
| `FileScan.OpenFile` | holonomy-core/src/manager/scan_orchestrator.rs:886-922 | the groups read: unpruned ones if some projected column exists, else none |
| `FileScan.ScanFile` | holonomy-core/src/manager/scan_orchestrator.rs:1120-1656 | batches up to the first error; without one they stack up to the simple specification of the file |
| `FileScan.DeliveredIsResult` | holonomy-core/src/manager/scan_orchestrator.rs:1120-1638 | rendering commutes with stacking: the cut into batches is invisible |
| `FileScan.ScanIsSandwiched` | holonomy-core/src/manager/scan_orchestrator.rs:472-476 | the sandwich, for every file, column type and row: shown rows satisfy all policy filters, and rows that satisfy them and the whole expression are shown |
| `FileScan.NothingProjectedNothingShown` | holonomy-core/src/manager/scan_orchestrator.rs:906-922 | the exact limit of the sandwich: without any projected column in the file no row is shown |
| `FileScan.PaddingNeedsContract` | holonomy-core/src/manager/scan_orchestrator.rs:1540-1584 | without a contract, a column of the first file that a later one lacks fails on every batch |
| `FileScan.PaddingFitsIff` | holonomy-core/src/manager/scan_orchestrator.rs:1540-1638 | nulls can stand for a missing column iff its contract field may be null or no row is left, or, without one, the first file lacks it too |
| `FileScan.RequiredColumnCannotBePadded` | holonomy-core/src/linter/validator.rs:124-132 | a required contract column that a file lacks fails on every batch with a row left |
| `FileScan.BatchSucceedsIff` | holonomy-core/src/manager/scan_orchestrator.rs:1134-1638 | a batch is delivered iff all filters apply, something requested is visible, present columns may be read and fit, and missing ones can be padded |
| `EagerRead.CollectCells` | holonomy-core/src/manager/read_orchestrator.rs:255-305 | the loop collects the column of what is left of each batch, or fails iff a filter does not apply |
| `EagerRead.ReadColumn` | holonomy-core/src/manager/read_orchestrator.rs:212-351 | when read succeeds, what it returns, and with which error it fails, including the unfiltered nulls for a column only the contract has |
| `EagerRead.EagerIsLazy` | holonomy-core/src/manager/read_orchestrator.rs:240-351 | for a column of the file and no filters of the caller, read returns exactly the column that the scan delivers |
| `EagerRead.MissingColumnAgreesIff` | holonomy-core/src/manager/read_orchestrator.rs:212-218 | for a column that files with given fields lack, read and scan agree on all of them iff the policy has no filter and the projection has a column of the file |
| `EagerRead.NullRowDisagrees` | holonomy-core/src/manager/read_orchestrator.rs:212-218 | for instance with the filter v == 1 and a null v, read gives a null where the scan gives nothing |
| `Prefetch.StepKeepsInv` | holonomy-core/src/manager/scan_orchestrator.rs:716-1674 | every step of forwarder, main task and consumer keeps delivered + queued + still to come equal to the sequential scan |
| `Prefetch.PipelineRefinesSequentialScan` | holonomy-core/src/manager/scan_orchestrator.rs:716-1674 | under every interleaving what is delivered is a prefix of the sequential scan, and all of it at the end if the consumer stays |
| `Prefetch.UninterruptedScanDeliversAll` | holonomy-core/src/manager/scan_orchestrator.rs:716-1674 | if the consumer never goes away, a run in which nothing more can happen has delivered the whole sequential scan |
| `Prefetch.BoundedLookahead` | holonomy-core/src/manager/scan_orchestrator.rs:1086-1110 | openings run at most five targets ahead, at most ten items are queued |
| `Prefetch.NeverStuck` | holonomy-core/src/manager/scan_orchestrator.rs:1098-1674 | no deadlock: the pipeline can move, or it waits for a present consumer with a full queue |
| `Prefetch.StepDecreases` | holonomy-core/src/manager/scan_orchestrator.rs:1098-1674 | every step of every party decreases one measure |
| `Prefetch.ScanTerminates` | holonomy-core/src/manager/scan_orchestrator.rs:1098-1674 | a scan of n targets and m items ends after at most 6n + 2m + 3 steps |
| `WholeScan.ScanDeliversSpecification` | holonomy-core/src/manager/scan_orchestrator.rs:716-1674 | end to end: a scan that ends without an error delivered, target by target, the selected rows masked and padded, for every interleaving and every cut |
| `RowSecurity.DeliveredRowPasses` | holonomy-core/src/manager/scan_orchestrator.rs:1120-1638 | every row of a delivered batch is the rendering of a row of its file that passes all filters of the plan |
| `RowSecurity.EveryDeliveredRowPasses` | holonomy-core/src/manager/scan_orchestrator.rs:716-1674 | the same in every run, also of scans that fail or are abandoned |
| `RowSecurity.RowsSatisfyOwnFilters` | holonomy-core/src/manager/scan_orchestrator.rs:382-476 | row security over many files: if the first file covers the others, every delivered row satisfies every filter that the role has for the row's own file |
| `RowSecurity.LaterFileIsNotFiltered` | holonomy-core/src/manager/scan_orchestrator.rs:444-466 | if not, a row can escape: the first file has v, a later one v and r, the filter is r == 1, and a row with r = 2 is delivered |
| `Disclosure.TaggedIffRead` | holonomy-core/src/manager/scan_orchestrator.rs:1030-1066 | the tags used for a column are the trimmed pieces between the commas of the last metadata entry holonomy.tags.<column> |
| `Disclosure.BatchIsPermitted` | holonomy-core/src/manager/scan_orchestrator.rs:1450-1512 | a batch is delivered iff its filters apply, something requested is visible, every present requested column may be shown (in plaintext without an obligation by name part or tag, encrypted to an active role unless unlisted in strict mode), and the columns fit the schema |
| `Disclosure.PlaintextIsPermitted` | holonomy-core/src/manager/governance_manager.rs:115-146 | a column delivered from plaintext has no required tag in its last metadata entry and no required name as a part of its own |
| `Disclosure.DeliveredCells` | holonomy-core/src/manager/scan_orchestrator.rs:1482-1512 | delivered cells are those of the file where the column is in plaintext, and otherwise what the active role's masks by name part and by tag make of them |
| `Disclosure.ReadIsPermitted` | holonomy-core/src/manager/read_orchestrator.rs:317-351 | a column of the file is read iff its filters apply, a row is left and it may be shown |
| `Disclosure.ReadCells` | holonomy-core/src/manager/read_orchestrator.rs:340-351 | and its cells are governed by the same masks |
| `Disclosure.OnlyMaskDecides` | holonomy-core/src/manager/governance_manager.rs:157-177 | if one mask is all that names and tags give, every cell is that mask's cell |
| `Disclosure.EveryDeliveredCellIsGoverned` | holonomy-core/src/manager/scan_orchestrator.rs:716-1674 | end to end, in every run, failing and abandoned ones too: each delivered cell belongs to a row of a file that passes all filters and is null or the cell as it may be shown |
| `Disclosure.MasksOfContract` | holonomy-core/src/manager/write_orchestrator.rs:232-244 | in a file of this writer the masks of a column are those given by its name and by the tags of the contract |
| `Disclosure.WrittenPlaintextIsShown` | holonomy-core/src/manager/governance_manager.rs:137-146 | a reader under the writer's policy may be shown every column that the writer left in plaintext, if the rules agree and its tags are clean |
| `Disclosure.WrittenFilesNeverLeak` | holonomy-core/src/manager/scan_orchestrator.rs:1482-1512 | a scan of such a file is never refused because of a leak |
| `Disclosure.SensitiveTextIsHidden` | holonomy-core/src/manager/policy_manager.rs:137-162 | of a column that the policy asks the writer to encrypt, a role without PLAINTEXT is delivered nothing but nulls, stars and digests |
| `Disclosure.TaggedPlaintextIsWithheld` | holonomy-core/src/manager/governance_manager.rs:137-142 | for instance plaintext tagged PII is not delivered under a policy that requires PII |
| `Audit.AuditRingBuffer.Push` | holonomy-core/src/audit/ring_buffer.rs:38-50 | after a push the queue holds the newest events up to its capacity, the new one last |
| `Audit.AuditRingBuffer.Pop` | holonomy-core/src/audit/ring_buffer.rs:63-65 | the oldest event leaves first |
| `Audit.QueueHoldsNewest` | holonomy-core/src/audit/ring_buffer.rs:36-50 | any number of pushes without a reader leaves exactly the newest events in order |
| `Audit.FillBatch` | holonomy-core/src/audit/broadcaster.rs:55-61 | batch and queue together are the old queue; the batch takes as many as fit, at least one even for batch size zero |
| `Audit.Post` | holonomy-core/src/audit/broadcaster.rs:119-151 | sent iff one of the first max_retries + 1 attempts succeeds, stopping at the first; pauses sum to 100 (2^k - 1) ms |
| `AuditRuns.StepKeepsInv` | holonomy-core/src/audit/broadcaster.rs:54-151 | every step of any number of producers and the broadcaster keeps places, order and bounds |
| `AuditRuns.EveryEventIsSomewhereOnce` | holonomy-core/src/audit/ring_buffer.rs:38-50 | conservation: a pushed event is evicted, queued, in the batch or in one logged batch, exactly once |
| `AuditRuns.BoundedAndOrdered` | holonomy-core/src/audit/broadcaster.rs:54-61 | the queue never exceeds its capacity, each producer's surviving events keep their order, and its evicted ones are older than its queued ones |
| `AuditRuns.AttemptsAreBounded` | holonomy-core/src/audit/broadcaster.rs:122-151 | a batch is attempted at most max_retries + 1 times and given up only unserialized or after the last attempt |
| `AuditRuns.LogTellsWhatHappened` | holonomy-core/src/audit/broadcaster.rs:71-151 | as many batches are logged as sent as posts were accepted, as many as unattempted as could not be serialized, and every post is an attempt of one batch |
| `AuditRuns.PushIsRun` | holonomy-core/src/audit/ring_buffer.rs:38-50 | the push loop is a run of the state machine with the same queue and the same evicted event |
| `AuditRuns.FillIsRun` | holonomy-core/src/audit/broadcaster.rs:54-61 | and so is the filling loop, with the same batch |
| `AuditRuns.FillingTakesAll` | holonomy-core/src/audit/broadcaster.rs:54-61 | left alone, filling never seals a batch that is neither full nor all that was queued |
| `AuditRuns.PostIsRun` | holonomy-core/src/audit/broadcaster.rs:119-151 | and the retry loop, with the same outcome and number of attempts |
| `KeyCache.DekCache.Get` | holonomy-core/src/crypto/dek_cache.rs:57-76 | an unexpired key or a miss; the lazy removal is invisible from then on |
| `KeyCache.DekCache.Insert` | holonomy-core/src/crypto/dek_cache.rs:48-53 | a key is stored with its expiry |
| `KeyCache.DekCache.Sweep` | holonomy-core/src/crypto/dek_cache.rs:86-89 | sweeping is invisible from then on |
| `KeyCache.RemovalOnlyMisses` | holonomy-core/src/crypto/dek_cache.rs:69-73 | a removal that races with a renewal only causes a miss |
| `KeyCache.KeysExpire` | holonomy-core/src/crypto/dek_cache.rs:48-67 | in every interleaving, no key is live once its time to live has passed since the last insertion |
| `KeyCache.CryptoManager.UnwrapKey` | holonomy-core/src/manager/crypto_manager.rs:99-130 | result and cache after unwrapping: hit, undecodable, refused and stored; on a miss the key service is asked with the decoded key and the context of the request |
| `KeyCache.UnwrapIsSteps` | holonomy-core/src/manager/crypto_manager.rs:112-128 | an undisturbed call is a look-up, and on a miss a removal and an insertion |
| `KeyCache.CoherentIff` | holonomy-core/src/manager/crypto_manager.rs:99-130 | every interleaving of the atomic steps of calls, sweeps and stray removals returns the key service's answers iff requests with one cache token have one answer |
| `KeyCache.OneUserIsConsistent` | holonomy-core/src/manager/crypto_manager.rs:105-110 | for one user and a key service that only looks at the ciphertext the condition holds |
| `KeyCache.UsersCanCollide` | holonomy-core/src/manager/crypto_manager.rs:105-110 | without a separator two users can share a token, and then it does not hold |
| `KeyCache.ContextsCollide` | holonomy-core/src/manager/crypto_manager.rs:105-128 | two requests of one user that differ in the key service's context share a token, so a key released for one context answers the other |
| `Validator.FromContract` | holonomy-core/src/linter/validator.rs:104-122 | succeeds iff every pattern compiles; builds the two maps |
| `Validator.ExpectedIff` | holonomy-core/src/linter/validator.rs:62-101 | a type name, in any case, asks for exactly the type of that name |
| `Validator.RangedTypes` | holonomy-core/src/linter/validator.rs:240-255 | a range can be checked exactly on the types of the ten number names |
| `Validator.InRangeIff` | holonomy-core/src/linter/validator.rs:222-238 | ranges include their ends; not-a-number is in every range |
| `Validator.LargeTextNeverConforms` | holonomy-core/src/linter/validator.rs:62-101 | no contract can ask for large text, so such a column never conforms |
| `Validator.MapsAt` | holonomy-core/src/linter/validator.rs:107-116 | with distinct names the maps give every column its own pattern and values |
| `Validator.CheckColumn` | holonomy-core/src/linter/validator.rs:164-255 | the errors of a present column are exactly its violations with their rows |
| `Validator.CheckExtra` | holonomy-core/src/linter/validator.rs:145-150 | undocumented columns, in any iteration order of the set |
| `Validator.Validate` | holonomy-core/src/linter/validator.rs:134-258 | the report is exactly the set of violations, and empty iff the batch conforms |
| `Validator.ConformsWithoutViolations` | holonomy-core/src/linter/validator.rs:134-258 | a batch conforms iff it has no violation |

## Left out

- KMS, S3, HTTP and OIDC adapters, request signing, JWT handling and the command line: input and output. The key service is a function, storage requests are steps that succeed or fail.
- Parquet and Arrow internals, encryption, digests, regular expressions, JSON and TOML: parameters or not part of the model.
- Column types without numbers or text (booleans, binary, dictionaries, nested types): filters say nothing about them. Not-a-number and infinite values of float columns are not compared either. The calendar behind date and time literals is a parameter, and a product of milliseconds that leaves 64 bits wraps around as in a release build.
- `get_pruned_column_byte_ranges` and `upload_file`: variants of the pruning loop and of the upload that would repeat the same properties.
- `create_multipart_upload` failing before the loop starts: nothing has happened then. Checksums and entity tags of parts play no role.
- Sidecar key files and cache warming: the writer stores an object where the reader expects an array, so there is no round trip to prove; warming only adds entries of the same kind.
- `WriteDekCache`, license checks, configuration resolution, schema drift, contract generation, formatters, footer fetching and listing: field-by-field or single-loop code.
- Sampling: only the merge of caps is modelled; enforcement is not on the orchestrated read path.
- Wall-clock time: expiry takes the current time as a parameter; pauses between retries are summed, the overflow of a very long pause is not modelled.
- Order of the errors in a validation report, and how often one is repeated: the report is modelled as a set with row numbers.
- Validator.Validate: states exactness for contracts with distinct column names only, because with repeated names the last pattern and value list of a name would replace the earlier ones.
- Text of error messages: errors are told apart by kind.
- FileScan.ScanIsSandwiched: requires exact literals and comparable statistics for the predicates and a projected column that the file has, because these are exactly the conditions under which the code keeps the promise (`Comparisons.EvaluationIsExact`, `Pruning.PruningIsSoundIff`, `FileScan.NothingProjectedNothingShown`).
- AuditRuns.EveryEventIsSomewhereOnce: events are told apart by producer and number; their content, and events of a process that ends before the broadcaster gets to them, are not modelled.
- KeyCache.CoherentIff: the key service answers the same request always the same; a service whose answers change over time is not modelled.
- Prefetch.PipelineRefinesSequentialScan: processing one batch is one step; the audit event pushed before the tasks start is not part of it.
