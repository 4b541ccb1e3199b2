# Almond: a verified model

Almond is a Blossom blob server. These Dafny modules model the parts of it that keep state without a
database behind them, and prove what its handlers rely on:

* **Resumable uploads** (`Tiling`, `ChunkSessions`, `Reconstruction`, `UploadProtocol`, `UploadTheorems`,
  `UploadServer`). The session registry is a class; the `PATCH /upload` handler is both a step protocol
  over all interleavings and a method that runs with other requests interleaved at every await. The central
  fact is that adding up chunk lengths decides whether the chunks tile the upload.
* **The configuration editor's dotenv code** (`DotenvScanner`, `DotenvLineGrammar`, `DotenvValue`,
  `DotenvGrammar`, `DotenvParser`, `DotenvLines`, `DotenvStanding`, `DotenvQuoting`, `DotenvDocument`,
  `DotenvExport`). Two state machines read a document, each proved to follow a grammar, and a printer writes
  it; export followed by import is characterised for every document, finished or not.
* **Blob storage** (`MutationLocks`, `BlobStorage`, `BlobStorageTheorems`, `BlobOutcomes`, `GuardedStorage`,
  `BlobStore`, `Retention`). Publication, removal and quarantine over index, files and temporary files under per-hash
  guards, and the retention sweep. `BlobStorage` knows guards as a table; `MutationLocks` is the map of weak
  references to fair mutexes; `GuardedStorage` runs the two together and proves that they agree.
* **Coalesced downloads** (`TailFollower`, `DownloadTail`, `Negotiation`, `DownloadGuards`). One writer,
  any number of followers, leader election, and map entries retired by pointer identity.
* **The blob index** (`BlobIndex`, `BlobPages`, `BlobCatalogue`, `FilterCache`). Map, total, order and
  generation agree; pages enumerate the catalogue; a cached filter is never stale.
* **Names and ranges** (`Decimal`, `BlobName`, `RangeHeader`). The blob-name and object-key grammar and the
  `Range` header parser.

`Prelude`, `Sorting` and `FileModel` hold shared vocabulary: 64-bit arithmetic, concatenation, stable sorting
by key, and the metadata of a blob. `dafny verify dfyconfig.toml` checks everything.

How the pieces are modelled:

* A stateful object of the source is a class. Each of its methods is tied to a function that gives the new
  state, and the lemmas are about those functions; what a method promises its callers is also stated in terms
  of the fields themselves. Concurrency is a state machine with one event per
  await-to-await segment; theorems about "every run" quantify over all sequences of events.
* Classes that run a handler (`UploadServer.Server`, `BlobStore.Storage`, `DownloadTail.Download`,
  `FilterCache.FilterService`) have an `Await` method whose contract lets any number of events of other
  tasks happen; callers learn nothing more from it. In the first three each segment is logged as one event,
  so the method and the state machine cannot drift apart.
* SHA-256 is a function parameter; file-system outcomes, clocks, payments, random names and short reads are
  parameters or nondeterministic choices. Strings are sequences of characters.

Where the code and its own documentation or purpose disagree, the model follows the code, and a lemma says
when they agree, or exhibits the disagreement: the eviction age (`ActivityDoesNotRenew`), chunk files
forgotten on an early return (`LeaksExactlyOnTempDirFailure`), values that cannot be quoted
(`QuotingRoundTrip`), new assignments lost in a quote left open (`ReimportExactly`), form entries that are
not recovered (`FormSurvivesRoundTrip`), a bounded follower that ends before the hash is known
(`CleanEndsVerifiedExactly`), the transient overflow of the index total (`EveryRunIsValid` of
`BlobIndex`), the filter cache key (`RepeatedRequests`), slashes in object keys (`ObjectKeyRoundTrip`),
and `Range` headers (`ConformsExactly`): the code grants some that RFC 9110 does not consider valid,
refuses a final range of an empty representation, and ignores numbers of 2^64 or more. The comment at
src/services/file_storage.rs:206-208 says that the index has no entry for the hash at that point; in fact
an upload may be replacing a cached copy, which lives under the other root, and `TargetIsFree` in
`BlobStorage` uses that instead.

## Model

| member | source | states |
|---|---|---|
| Tiling.SumDecidesTiling | src/services/chunk_sessions.rs:158-183 | pairwise disjoint non-empty chunks inside the upload never sum to more than its length, and sum to exactly it if and only if, in offset order, they tile it without gap or overlap; this is why completion may be decided by adding lengths |
| Tiling.CompleteCoversEveryByteOnce | src/services/chunk_sessions.rs:174-181 | every byte position of a completed upload lies in exactly one received chunk |
| Tiling.ArrivalOrderIrrelevant | src/handlers/upload.rs:493-494 | the offset order of disjoint chunks is the same for every order of arrival |
| ChunkSessions.ChunkSessions.Reserve | src/services/chunk_sessions.rs:91-119 | an active key is always granted another ticket; a new key is granted if and only if fewer keys than the global limit, and fewer of its owner than the owner limit, are active; it meets the global limit first; a refusal changes nothing, a grant adds exactly one ticket |
| ChunkSessions.ReserveIsExact | src/services/chunk_sessions.rs:91-119 | each answer of `reserve` holds exactly under its own count of active keys, for every registry and limits |
| ChunkSessions.CountsAddUp | src/services/chunk_sessions.rs:99-115 | the two counts that `reserve` adds up (stored keys, and reserved keys without a session) are the number of active keys, globally and per owner |
| ChunkSessions.ChunkSessions.ConsumeReservation | src/services/chunk_sessions.rs:217-227 | one ticket of the key is consumed if there is one |
| ChunkSessions.ChunkSessions.Release | src/services/chunk_sessions.rs:122-125 | a failed request gives its ticket back and changes nothing else |
| ChunkSessions.ChunkSessions.Append | src/services/chunk_sessions.rs:132-183 | the new registry state and answer of `commit`: no ticket or other parameters than the stored session is a mismatch, a fresh session never is one; an accepted chunk goes to the end of its session, a new session is created from the request's parameters and the current time |
| ChunkSessions.ChunkSessions.Restore | src/services/chunk_sessions.rs:190-197 | a rejected upload is put back only when its key is neither stored nor reserved |
| ChunkSessions.ChunkSessions.EvictOlderThan | src/services/chunk_sessions.rs:202-215 | a session leaves if and only if nobody holds a ticket of its key and it was created at least `age` ago; those that stay and all tickets are unchanged; each evicted session is returned once with its chunks |
| ChunkSessions.EvictionIsExact | src/services/chunk_sessions.rs:202-215 | a key with a ticket is unchanged by eviction, whatever its age; any other session goes exactly when `age` has passed since its creation |
| ChunkSessions.ActivityDoesNotRenew | src/services/chunk_sessions.rs:199-215 | the age runs from the session's creation although the comment says "idle": a session that has just received a chunk survives if and only if it was created less than `age` ago |
| ChunkSessions.OverlapIsIntersection | src/services/chunk_sessions.rs:159-162 | the saturating comparison holds if and only if the two ranges share a byte position |
| ChunkSessions.CommitRefusals | src/services/chunk_sessions.rs:132-172 | an admitted chunk with a ticket is refused if and only if it disagrees with the stored parameters or repeats a stored byte, never for a missing reservation or an overflowing total; a refusal stores nothing |
| ChunkSessions.CommitAccepts | src/services/chunk_sessions.rs:165-182 | an accepted chunk is appended; the answer is `Complete` if and only if the chunks now tile the upload, and then the session is gone; otherwise they fall short of it |
| ChunkSessions.RegistryStaysPacked | src/services/chunk_sessions.rs:132-183 | no commit ever stores a session that overlaps, overruns or already covers its upload |
| Reconstruction.ChunkFile.Read | src/handlers/upload.rs:531-534 | a read returns between one byte and the limit, or nothing at end of file, and advances by what it returned |
| Reconstruction.CheckCoverage | src/handlers/upload.rs:495-512 | the coverage loop reports the first gap, overlap, overflow or shortfall in offset order |
| Reconstruction.CoverageIsTiling | src/handlers/upload.rs:495-512 | the coverage loop accepts exactly the tilings of the declared length |
| Reconstruction.CoverageErrorMeans | src/handlers/upload.rs:495-512 | each coverage error has its own cause: the first chunk that does not start where the chunks before it end, the first end that no 64-bit integer holds, or chunks in place that do not end at the declared length |
| Reconstruction.CopyChunks | src/handlers/upload.rs:524-557 | for any short reads the nested copy loops write exactly the concatenation of the chunk files, or report the first file that cannot be opened or disagrees with its declared length; the size overflow branch is dead |
| Reconstruction.ConcatenatedMeans | src/handlers/upload.rs:524-557 | the copy succeeds if and only if every chunk file is there with its declared length; otherwise the first one that is not decides the error: missing, shorter or longer |
| Reconstruction.Reconstruct | src/handlers/upload.rs:484-564 | the whole of reconstruction equals the specified assembly: coverage, copy, digest |
| Reconstruction.CompletedReconstructs | src/handlers/upload.rs:493-564 | a completed upload whose files are intact yields a body of the declared length holding each chunk at its own offset; only a digest mismatch can fail |
| Reconstruction.ReconstructionIgnoresArrivalOrder | src/handlers/upload.rs:493-564 | two arrival orders of the same chunks reconstruct to the same result |
| UploadProtocol.AdmissionIsExact | src/handlers/upload.rs:290-313 | a chunk is admitted if and only if it is non-empty, within both size limits, and ends within its upload by the true, unwrapped sum; each refusal holds exactly under its own condition, the first that applies |
| UploadProtocol.AdmittedFits | src/handlers/upload.rs:290-313 | an admitted chunk is non-empty, does not overflow and ends within the upload |
| UploadProtocol.CommitKeeps | src/handlers/upload.rs:400-422 | the commit step of any request keeps the whole protocol invariant, in all four outcomes |
| UploadProtocol.TryRestoreKeeps | src/handlers/upload.rs:436-442 | rolling back a rejected payment keeps the invariant whether or not the session could be restored |
| UploadProtocol.AssembleKeeps | src/handlers/upload.rs:484-514 | starting reconstruction keeps the invariant on its failing branches as well |
| UploadProtocol.EvictKeeps | src/utils.rs:536-559 | evicting sessions and taking over their files for deletion keeps the invariant |
| UploadTheorems.EveryRun | src/handlers/upload.rs:340-443 | every interleaving of requests and evictions satisfies the invariant: files attributed to one holder each, sessions packed and short, tickets balanced, capacity respected |
| UploadTheorems.TicketsAndCapacity | src/services/chunk_sessions.rs:84-125 | in every run `pending` counts the outstanding tickets, a commit with a ticket always finds its reservation, and active keys exceed either limit by at most the number of successful restores |
| UploadTheorems.CompletedUploadsTile | src/handlers/upload.rs:421-469 | in every run stored sessions fall short of their length and an upload being paid for or rebuilt tiles it exactly, so the two late 204 answers and the coverage errors are unreachable |
| UploadTheorems.ChunkFilesAreConserved | src/handlers/upload.rs:370-443 | in every run a chunk file on disk has exactly one holder and a path not on disk has none: nothing is deleted while listed, nothing is listed after deletion |
| UploadTheorems.QuiescentDiskMatchesSessions | src/handlers/upload.rs:400-443 | once all requests have ended, the chunk files on disk are exactly those listed by stored sessions, whole and listed once, plus the leaked ones |
| UploadTheorems.LeaksExactlyOnTempDirFailure | src/handlers/upload.rs:507-514 | chunk files leak in a run if and only if some reconstruction failed to create the temp directory, the one reachable early return that skips the clean-up; the other, for a length overflow, is never taken |
| UploadTheorems.OthersLeaveMineAlone | src/handlers/upload.rs:397-399 | no step of another request changes a request's state or the contents of the files it holds |
| UploadTheorems.PaidUploadsReassemble | src/handlers/upload.rs:470-584 | whatever runs meanwhile, a paid upload reassembles to its chunks in place and can fail only on its digest |
| UploadServer.Server.StreamBody | src/handlers/upload.rs:363-390 | under interference at every await, the body is accepted if and only if it arrives without error and has exactly the declared length, and then the chunk file holds exactly the body |
| UploadServer.Server.CommitBody | src/handlers/upload.rs:400-422 | the commit is an event of the run, refused if and only if the session it meets at that moment shares a byte with the chunk or was started with other parameters; a completed upload contains the chunk |
| UploadServer.Server.Settle | src/handlers/upload.rs:421-480 | the charge and the temp directory decide the refusals; after a refused charge some event of the run is this upload's rollback; otherwise some event is its reconstruction, and its answer is a 200 with the chunk files put in place if they have the digest, and a digest mismatch if not; a 200 carries this request's bytes at its offset; the late 204 is never given |
| UploadServer.Server.RollBack | src/handlers/upload.rs:436-443 | after a rejected payment the session is put back with every chunk but the last if and only if its key is neither stored nor reserved at that moment; either way the request holds no file and no ticket afterwards |
| UploadServer.Server.Rebuild | src/handlers/upload.rs:484-584 | reconstruction under interference: a body of the declared length with every chunk file in place is answered if and only if its digest is the expected one, a digest mismatch otherwise, unless the temp directory failed |
| UploadServer.Server.PatchUpload | src/handlers/upload.rs:258-480 | whatever the environment does and however others interleave, the handler ends without ticket or file in its name, and its answer is determined: inadmissible exactly by the header checks; session limit exactly when the key is not active and the count of active keys, or of its owner's, has reached its limit, and then nothing changes; storage failure and rejected body exactly when they occur; otherwise by what the registry said to this request's commit event (204 for an incomplete upload, a conflict exactly when the session met there shares a byte or has another type or length), and for a completed upload by the charge (with the rollback), the temp directory and the digest of the chunk files at its reconstruction event; 204 only with the declared chunk in the declared session under the bytes of the body, 200 only with a body of the declared length and digest that holds the request's bytes at the declared offset |
| DotenvScanner.EvalEndState | src/config-editor.html:589-634 | the scan loop ends in the state reached by folding the transition table over the text, with the position where a comment starts |
| DotenvScanner.FindLogicalEnd | src/config-editor.html:660-700 | the inner loop of the splitter finds how far the logical line reaches and where its value ends |
| DotenvScanner.LogicalEndLocal | src/config-editor.html:660-700 | a terminated logical line is found in the same place whatever text follows it |
| DotenvLineGrammar.LogicalEndMeetsGrammar | src/config-editor.html:589-708 | for every text, where the logical line and its value end is what a grammar of quoted, escaped and plain glyphs says, independent of the scanner states: at the first newline outside quotes, even behind a backslash; at a hash sign after an odd run of blanks; or not at all, in an open quote, behind a last backslash or after such a run |
| DotenvParser.ParseValue | src/config-editor.html:801-871 | the value loop answers what a grammar of values says of the text (`ValueMeetsGrammar`), and computes the run of the quoting state machine |
| DotenvGrammar.ValueMeetsGrammar | src/config-editor.html:801-871 | for every text, the value, the reference flag or the error is the meaning of its spelling in a grammar that does not mention the machine: single quotes are verbatim; in double quotes and bare, a backslash takes exactly the six listed characters; a dollar sign makes a reference and swallows its name, its braces, or the sign that ends it; after a bare blank only blanks or a remark may follow; open quotes and braces, unknown escapes and anything else after the blank are the errors |
| DotenvGrammar.PlainTextIsItself | src/config-editor.html:854-862 | a text without quotes, backslashes, dollar signs and blanks is its own value, without a reference |
| DotenvParser.ParseAssignment | src/config-editor.html:740-796 | the assignment parser answers what the shape of the line means (`AssignmentMeetsGrammar`) |
| DotenvParser.AssignmentMeetsGrammar | src/config-editor.html:740-796 | for every line, the answer is the meaning of its shape: optional `export` with blanks, name, equals sign, and a value that is absent, a remark, or read by the value grammar, kept as written if it holds a reference; without a name, a name after `export`, or an equals sign, the error of the first part missing |
| DotenvLines.SplitLogicalLines | src/config-editor.html:649-734 | the splitting loop yields the entries of the specified logical lines, each starting where the previous one ends |
| DotenvLines.FirstLineIsDescribed | src/config-editor.html:649-734 | every text starts with a remark line, a blank line, an assignment or an unsupported line, told apart by the line, value and assignment grammars alone |
| DotenvLines.LinesPartition | src/config-editor.html:642-648 | the logical lines of any text, concatenated, are the text again |
| DotenvLines.EntriesTile | src/config-editor.html:642-648 | each entry slices its own line out of the source and starts where the previous one ended |
| DotenvLines.SplitIsLocal | src/config-editor.html:649-734 | what follows a closed document is split on its own: split(a + b) is split(a) followed by split(b) |
| DotenvLines.ClosedConcat | src/config-editor.html:649-734 | closed documents concatenate to closed documents |
| DotenvQuoting.EscapeWeakIsEscaped | src/config-editor.html:1337-1341 | the four successive replacements equal one pass that escapes each character once |
| DotenvQuoting.QuotingForm | src/config-editor.html:1333-1343 | a value is printed bare if all its characters are harmless, in single quotes if it has none itself, and otherwise in double quotes with exactly backslash, double quote, dollar sign and newline escaped |
| DotenvQuoting.ValueRoundTrip | src/config-editor.html:1333-1343 | the value parser reads every quoted value back literally, without a reference |
| DotenvQuoting.QuotingRoundTrip | src/config-editor.html:1333-1352 | for every name, `export` flag and value, the printed assignment is one logical line; it reads back as that assignment if and only if the value is quotable (not sent to single quotes with an odd trailing run of backslashes), and is unterminated otherwise |
| DotenvDocument.BuildDocument | src/config-editor.html:881-890 | the document holds the entries of its source and, for every key, the positions of its assignments in order |
| DotenvDocument.FirstOccurrenceIsEffective | src/config-editor.html:892-896 | the first recorded position of a key is its first assignment; a key is recorded if and only if it is assigned |
| DotenvDocument.ConfigEditor.LoadFromDocument | src/config-editor.html:965-985 | after an import every field of the schema is on with its first assigned value, or off and empty |
| DotenvDocument.ConfigEditor.ApplyImport | src/config-editor.html:965-985 | import replaces the document and reloads all fields from it: each is on with value and reference flag of the first line that assigns its key, or off and empty if none does |
| DotenvDocument.ConfigEditor.ExportEntries | src/config-editor.html:1363-1377 | the first export loop copies each entry verbatim except the effective assignments of edited keys |
| DotenvDocument.ConfigEditor.BuildExport | src/config-editor.html:1354-1392 | the export loops compute the specified text: rewritten body, separator, marked block of new assignments |
| DotenvDocument.SeparatorLeavesOneEmptyLine | src/config-editor.html:1384-1384 | the block of new assignments is set apart by exactly one empty line, unless nothing precedes it |
| DotenvStanding.SplitJoinSound | src/config-editor.html:642-648 | splitting undoes joining on the lines of any document: all but the last stand on their own |
| DotenvStanding.FinishStands | src/config-editor.html:669-708 | a newline turns any unfinished last line that does not end inside a quote into a finished line |
| DotenvExport.UneditedExportIsIdentity | src/config-editor.html:2038-2045 | importing any text at all and exporting it unedited gives back that text |
| DotenvExport.ReimportYieldsIntended | src/config-editor.html:1354-1392 | for every document and quotable edits, unless new assignments follow a quote left open, the exported text splits into exactly the original lines with only the effective assignments of edited keys replaced or dropped, followed, if keys are new, by the last line finished and the new block |
| DotenvExport.ReimportExactly | src/config-editor.html:1354-1392 | for every document and quotable edits, re-import yields the intended lines if and only if no key is new or the last line does not end inside a quote |
| DotenvExport.NewKeysSwallowed | src/config-editor.html:1379-1388 | new assignments after a quote left open become part of its line, which goes on past the opening remark of the block |
| DotenvExport.ReimportedValues | src/config-editor.html:1354-1392 | for every document without a quote left open before new assignments: after export and re-import every edited key has its new value and its old `export` prefix, a key switched off falls back to its second assignment if there is one, every other key, known or not, keeps its value, and an unterminated last line that the new block finishes takes effect before that block |
| DotenvExport.FormSurvivesRoundTrip | src/config-editor.html:1354-1392 | under the same condition, import, edit, export, import gives back the same form if and only if no key switched off is assigned twice, no field changed between reference and literal while keeping its text, and no unterminated last line that becomes an assignment says otherwise |
| DotenvExport.FormCanBeLost | src/config-editor.html:1355-1361 | two documents on which the form is not recovered: a second assignment comes back to life, and a reference replaced by a literal of the same text stays a reference |
| MutationLocks.BlobMutationLocks.Retain | src/models.rs:225-225 | pruning drops exactly the entries whose mutex nobody uses any more |
| MutationLocks.BlobMutationLocks.Attach | src/models.rs:222-231 | the critical section of `lock`: entries nobody uses go, then the mutex of the hash is shared if somebody uses it, and a new one installed otherwise |
| MutationLocks.EveryRunIsCoherent | src/models.rs:217-234 | in every interleaving all users of a hash share the mutex its entry points to, no two hashes share one, and a mutex is locked exactly while one task holds it |
| MutationLocks.AtMostOneHolder | src/models.rs:211-234 | at most one task holds the guard of a hash, although entries are dropped and re-created |
| MutationLocks.GrantedExactlyInTurn | src/models.rs:211-234 | a waiter is granted the guard if and only if nobody holds its own hash and nobody began to wait for it earlier, so unrelated blobs never block each other |
| MutationLocks.FirstComeFirstServed | src/models.rs:217-234 | however long a task waits, only those who held the hash or waited for it when it began to wait can be served before it, although entries are dropped and re-created meanwhile |
| MutationLocks.RefinesHolderTable | src/models.rs:217-234 | the lock map behaves as a plain table of holders: granting adds one, in turn, leaving removes it, nothing else changes it |
| BlobStorage.EntriesApart | src/services/file_storage.rs:52-69 | entries of different hashes or different origins never share a file |
| BlobStorage.QuarantineRefusesExactlyBanned | src/services/file_storage.rs:100-136 | the quarantine directory matches a hash if and only if that hash was quarantined |
| BlobStorage.RenameKeeps | src/services/file_storage.rs:201-224 | moving the temporary file into place keeps the storage invariant, also when the rename fails |
| BlobStorage.IndexPublishes | src/services/file_storage.rs:244-273 | after the rename the index always accepts the new entry, replacing at most a cached copy |
| BlobStorage.SupersedeKeeps | src/services/file_storage.rs:256-266 | unlinking a displaced copy keeps the invariant: it is never the file of a current entry |
| BlobStorage.DisposeKeeps | src/services/file_storage.rs:423-427 | unlinking or quarantining the file under removal keeps the invariant, also when it fails |
| BlobStorage.UnindexKeeps | src/services/file_storage.rs:433-440 | dropping the entry and releasing the guard keeps the invariant |
| BlobStorageTheorems.EveryRunIsSound | src/services/file_storage.rs:157-283 | from any sound state every interleaving of publications and removals keeps the storage invariant |
| BlobStorageTheorems.IndexedBlobsAreOnDisk | src/services/file_storage.rs:153-156 | in every run an indexed hash that no task is working on has its file at the path its metadata determines, with its size, and hashing to it |
| BlobStorageTheorems.RetainedIsUnreachable | src/services/file_storage.rs:273-281 | the `Retained` branch of `publish_metadata` is never taken |
| BlobStorageTheorems.EntriesChangeOnlySo | src/services/file_storage.rs:168-177 | an upload's entry changes only by a removal; a cached copy's entry also by an upload that replaces it |
| BlobStorageTheorems.NoTemporaryFileSurvives | src/services/file_storage.rs:554-567 | every temporary file belongs to a publication still in progress; when none is, there is none |
| BlobStorageTheorems.QuarantineIsPermanent | src/services/file_storage.rs:86-136 | once a quarantined hash has left the index, no continuation of the run, including publications already waiting for its guard, makes it indexed again |
| BlobStorageTheorems.CheckRefusesExactlyBanned | src/services/file_storage.rs:100-136 | a publication is refused by the quarantine check if and only if its own hash is banned |
| BlobStorageTheorems.OutcomesAreTruthful | src/services/file_storage.rs:157-283 | `Stored` describes the entry the index holds, backed by its file, and says whether this call created it; `Removed(true)` means the entry is gone; a failure leaves the index unchanged |
| BlobOutcomes.StoredAnswersAreExplained | src/services/file_storage.rs:168-230 | in every run a stored answer has its reason: it names an incumbent if and only if, at the event where the publication looked, its hash was indexed and the publication was a cache fill or the entry an upload; otherwise it names an entry with the publication's own size, type, extension, expiration, origin, path and time; an upload is never answered with a cached copy |
| BlobOutcomes.GuardedEntryStays | src/services/file_storage.rs:161-164 | while a task holds the guard of a hash, no step of another task changes the entry of that hash |
| BlobOutcomes.OnlyExpectedFilesGo | src/services/file_storage.rs:412-427 | in every run a removal unlinks or moves only the file of the entry of its own hash, and only if that entry agrees with the expected one, if any was named, in location, creation time and origin |
| BlobOutcomes.OnlyQuarantineBans | src/services/file_storage.rs:423-424 | a hash becomes banned only by a quarantine of that hash |
| BlobStorageTheorems.NoStepAbandonsFile | src/services/file_storage.rs:157-441 | no step leaves behind a completed file that neither the index nor a running task answers for |
| BlobStorageTheorems.QuiescentDiskIsTheIndex | src/services/file_storage.rs:157-441 | when nothing is in progress the completed files on disk are exactly the files of the index |
| GuardedStorage.Components | src/services/file_storage.rs:157-164 | every joint run of storage and the lock map is a run of each, so all theorems about either hold of the two together |
| GuardedStorage.GuardsAreTheHolders | src/models.rs:211-234 | in every joint run the guard table of the storage model is exactly the table of holders of the lock map, and whoever waits for a mutex is a queued publication or removal of its hash |
| GuardedStorage.GrantAdmits | src/services/file_storage.rs:164-164 | a queued publication or removal proceeds if and only if nobody holds its hash or waited for it earlier, and then no other guard of the hash exists |
| GuardedStorage.UnlockedBlobsAreOnDisk | src/services/file_storage.rs:153-156 | in every joint run an indexed hash whose mutex nobody holds has its file on disk, with its size and digest |
| BlobStore.Storage.PublishMetadata | src/services/file_storage.rs:244-273 | the new entry becomes visible first, then the displaced copy goes; the answer is the current, backed entry, which is the publication's own |
| BlobStore.Storage.PublishBlob | src/services/file_storage.rs:157-230 | under interference at every await, publication returns an entry the index holds, backed by a file of that hash, unless the hash is banned or the file system fails; `created` is false if and only if an incumbent took precedence at the moment it was looked for; a created entry has every field of the publication, its target path and the current time; the answer to an upload has origin upload |
| BlobStore.Storage.RemoveIndexedBlob | src/services/file_storage.rs:397-441 | under interference, the entry met when the index is read decides: if there is none, or it differs from the expected one in location, creation time or origin, the answer is `Removed(false)` and nothing at all has changed; otherwise its file is unlinked, or moved for a quarantine, and the entry goes, unless the disposal fails, which leaves both; after a quarantine the hash is banned |
| Retention.ExpiresAtEarliestClaim | src/utils.rs:364-406 | a blob expires at the earliest of its retention claims; an upload exactly at its announced `Sunset`, and cached copies announce none |
| Retention.ReasonIsTheFirstClaim | src/utils.rs:364-398 | the reason named is that of the claim that comes first; the client's own expiration wins a tie, and an age past the last representable instant ends there |
| Retention.EvictionOrderIsSorted | src/utils.rs:339-353 | the eviction order is a permutation with all cached copies before all uploads, oldest first in each |
| Retention.Snapshot | src/services/blob_index.rs:182-189 | the snapshot lists every entry once |
| Retention.ShortestSufficientPrefix | src/utils.rs:322-333 | when deletions succeed, the victims are the shortest prefix of the eviction order after which both limits hold |
| Retention.ExpireEntries | src/utils.rs:310-315 | the expiry loop removes exactly the expired entries whose deletion succeeds |
| Retention.EvictForCapacity | src/utils.rs:317-333 | the capacity loop keeps running totals equal to the true ones and stops at the first candidate for which the limits hold |
| Retention.EnforceStorageLimits | src/utils.rs:308-337 | after the sweep no entry is past its deadline unless its deletion failed; when the capacity deletions succeed both non-zero limits hold, and no shorter prefix of the eviction order would have sufficed; which deletions succeed may differ between the two phases |
| Retention.VictimsGoInOrder | src/utils.rs:339-353 | a capacity victim never survives behind a cached copy, nor behind an older blob of its own kind |
| TailFollower.EveryRunIsSound | src/services/tail.rs:31-76 | the invariant of writer and followers in every interleaving |
| TailFollower.FollowersSeeThePrefix | src/services/tail.rs:31-47 | at every moment a follower has emitted exactly the file from its start to its position, within what was announced |
| TailFollower.BoundedEndIsExact | src/services/tail.rs:49-51 | a follower of a granted range `s-e` that ends cleanly has delivered exactly those `e - s + 1` bytes |
| DownloadTail.GrantedRangeIsDelivered | src/handlers/upstream.rs:687-729 | whatever `Range` header is granted, the tailing stream that ends cleanly has delivered exactly the announced Content-Length and the bytes of that range |
| TailFollower.UnboundedEndIsVerified | src/services/tail.rs:62-69 | a follower without a bound ends cleanly only in phase Complete, with the whole body of the declared length and requested hash |
| TailFollower.NoLostWakeup | src/services/tail.rs:53-60 | a follower parked while there is something to read or the outcome is known always has a wake-up pending |
| TailFollower.FollowerEnds | src/services/tail.rs:31-76 | once the outcome is known, a follower ends within one round more than the bytes still ahead of it |
| TailFollower.TerminalIsFinal | src/handlers/upstream.rs:1135-1166 | terminal phases never change, and what was announced stays readable |
| TailFollower.BoundedEndPrecedesVerification | src/handlers/upstream.rs:651-684 | a bound is reached before the verdict: for every body within the limit that fails its declared length or hash, and every range inside it, there is a run in which a follower ends cleanly with exactly those bytes and the download fails afterwards |
| TailFollower.CleanEndsVerifiedExactly | src/services/tail.rs:49-69 | for all terms, starts and bounds: every clean end of such a follower, in every run, is that of a complete download of the declared length and requested hash if and only if it has no bound, or one that no download on these terms reaches |
| TailFollower.CleanEndRulesOutFailureExactly | src/services/tail.rs:49-69 | for all terms, starts and bounds, whatever bodies the terms accept: a clean end rules out that the download fails, in all runs, under exactly the same condition |
| DownloadTail.Download.AppendPart | src/handlers/upstream.rs:1073-1101 | a part is written, flushed and only then announced, or the download fails |
| DownloadTail.Download.RunDownload | src/handlers/upstream.rs:1046-1166 | the download completes if and only if the stream and every single write succeed, the limit holds, length and hash agree and storage accepts; the file is then the concatenation of the parts |
| DownloadTail.Download.Tail | src/services/tail.rs:23-78 | the stream, observed for any number of turns under interference, is the follower of the state machine: it takes a step in every turn until it ends, and has produced what that follower has, the file from its start on; a clean end means the bound was reached, or the download is complete and verified; it breaks off only for a failed read, a failed download, or a complete one shorter than the bound |
| Negotiation.Negotiations.ClaimUpstreamNegotiation | src/services/download.rs:34-55 | the claim under the map's lock: follow the listed negotiation unless it failed, otherwise replace it and lead |
| Negotiation.Negotiations.RemoveNegotiation | src/services/download.rs:90-98 | the entry goes only if it still is this very negotiation |
| Negotiation.Negotiations.Finish | src/services/download.rs:66-70 | afterwards the negotiation's phase is the one given, no other negotiation has changed, and exactly its own entry, if still listed, is gone |
| Negotiation.Negotiations.Drop | src/services/download.rs:73-87 | afterwards the negotiation has failed, no other one and no entry has changed, and the removal is left to a spawned task |
| Negotiation.EveryRunIsSound | src/services/download.rs:34-98 | the invariant of negotiations, guards and map entries in every interleaving, including guards dropped in the middle of `finish` |
| Negotiation.OnePendingPerKey | src/services/download.rs:34-98 | at most one negotiation per key is pending; it is the listed one and its leader's guard is alive |
| Negotiation.ClaimElectsOne | src/services/download.rs:34-55 | a claim makes its caller leader if and only if no live negotiation is listed, and then no other one for the key is pending |
| Negotiation.NeverPendingAgain | src/services/download.rs:66-87 | a phase never returns to pending |
| Negotiation.OutcomeHasItsCause | src/services/download.rs:66-87 | in every run a negotiation is ready only if its own leader, holding its guard, sent that outcome; it has failed only if that leader sent failure or let go of the guard |
| Negotiation.RemovalsTakeTheirOwn | src/services/download.rs:90-98 | a late removal takes its own entry or nothing |
| Negotiation.QuietMapIsEmpty | src/services/download.rs:34-98 | with no guard alive and no removal outstanding the map is empty |
| DownloadGuards.Downloads.PrepareDownloadState | src/services/download.rs:124-151 | a new running handle is listed for the key, with a guard |
| DownloadGuards.Downloads.Drop | src/services/download.rs:185-207 | afterwards the guard's own download has failed if it was running and is unchanged otherwise; every other handle and the map are unchanged |
| DownloadGuards.NoRunningWithoutGuard | src/services/download.rs:158-207 | a download whose guard is gone is not running |
| DownloadGuards.TerminalPhasesStay | src/services/download.rs:176-198 | terminal phases never change |
| DownloadGuards.OutcomeHasItsCause | src/services/download.rs:176-207 | in every run a download is complete only if its own task, holding its guard, announced completion; it has failed only if that task announced failure or let go of the guard |
| DownloadGuards.RemovalsTakeTheirOwn | src/services/download.rs:209-218 | a removal takes its own handle or nothing, so a newer download of the same key stays listed |
| DownloadGuards.QuietMapIsEmpty | src/services/download.rs:158-218 | with no guard alive and no removal outstanding no handle is listed |
| BlobIndex.InsertKeepsValid | src/services/blob_index.rs:41-53 | insertion keeps total, order and map in agreement if and only if the old total and the new size together fit in 64 bits |
| BlobIndex.RemoveKeepsValid | src/services/blob_index.rs:55-64 | removal keeps total, order and map in agreement |
| BlobIndex.OrderIsDetermined | src/services/blob_index.rs:34-36 | the order of a consistent catalogue is determined by its map |
| BlobIndex.EveryRunIsValid | src/services/blob_index.rs:66-80 | at every moment of a run the total is the sum of the sizes and the order exactly the map's pairs, sorted, if and only if no sum of sizes that the run computes on the way passes 64 bits |
| BlobIndex.EqualGenerationsEqualCatalogues | src/services/blob_index.rs:76-78 | equal generations at two moments of a run mean equal catalogues, for the first 2^64 mutations |
| BlobIndex.TransientOverflowLosesTotal | src/services/blob_index.rs:42-45 | where additions wrap, replacing any blob while old and new size together pass 64 bits leaves a total of zero, although the true sum fits |
| BlobCatalogue.Catalogue.Insert | src/services/blob_index.rs:41-53 | the new catalogue, the entry it replaced, and consistency when the sums fit |
| BlobCatalogue.Catalogue.Remove | src/services/blob_index.rs:55-64 | the new catalogue and the entry removed; consistency is kept |
| BlobCatalogue.Catalogue.Publish | src/services/blob_index.rs:130-143 | a cache fill never replaces an entry; anything else is inserted and the displaced entry returned |
| BlobCatalogue.Catalogue.RemoveIfLocationMatches | src/services/blob_index.rs:151-165 | the entry goes only if its location is still the expected one |
| BlobCatalogue.Catalogue.Replace | src/services/blob_index.rs:93-110 | the rebuilt total and order are those of the new contents |
| BlobCatalogue.Catalogue.Stats | src/services/blob_index.rs:167-174 | the constant-time aggregates are the true count, the true sum and the generation |
| BlobCatalogue.Catalogue.Page | src/services/blob_index.rs:192-232 | the page holds entries of the window after the cursor (or from the top when the cursor is not in the window), newer before older and, at equal times, greater hash before smaller, and leaves one out only when it is full and the entry comes after its last |
| BlobCatalogue.ScanPage | src/services/blob_index.rs:208-231 | the skipping scan of the order computes the specified page |
| BlobCatalogue.Catalogue.HashKeys | src/services/blob_index.rs:235-244 | the list of 64-character prefixes of the well-formed keys, one per key in unspecified order, and the generation of the same state |
| BlobPages.SelectionIsTheCatalogue | src/services/blob_index.rs:213-230 | the selection holds exactly the matching entries, each once, newest first and then by descending hash |
| BlobPages.PageIsDescribed | src/services/blob_index.rs:192-232 | for every window, author, cursor and limit the specified page is of that kind, by plain comparisons of creation times and hashes |
| BlobPages.NextPageContinues | src/services/blob_index.rs:200-214 | resuming after the last key of a page continues exactly where it stopped |
| BlobPages.PagesEnumerateCatalogue | src/services/blob_index.rs:191-232 | following the pages terminates and yields the whole selection in order, without repeats |
| BlobPages.StaleCursorRestarts | src/services/blob_index.rs:200-214 | a cursor outside the result restarts from the top, and limit 0 returns everything |
| FilterCache.HitIsCurrent | src/handlers/filter.rs:233-238 | a cached filter whose generation is the current one was rendered from the current catalogue |
| FilterCache.FilterService.GetFilter | src/handlers/filter.rs:215-255 | a rate that is not offered is refused; a failure means that the keys of a state between request and response could not be rendered; a served filter was rendered from such a state, at the requested rate (or, where the rate is irrelevant, at the default one), and the cache holds it for that state |
| FilterCache.RepeatedRequests | src/handlers/filter.rs:227-255 | the exact number of renderings over any number of equal requests with no mutation in between: at most one for bloom filters or the default rate, one per request otherwise (unless the cache already holds the default), because the entry is stored under the requested rate but looked up under the normalized one |
| Decimal.PrintUndoesValue | src/services/blob_name.rs:70-73 | printing a parsed number restores it exactly when it has no superfluous leading zero |
| BlobName.ParseMeetsGrammar | src/services/blob_name.rs:74-117 | the parser accepts exactly the spellings of `<hash>[_<digits>][.<extension>]`, with the parts they spell |
| BlobName.NameRoundTrip | src/services/blob_name.rs:61-117 | parsing a built name returns its parts, whatever the extension holds |
| BlobName.NameInjective | src/services/blob_name.rs:61-69 | two blobs share a name only if hash, expiration and extension agree |
| BlobName.PrintUndoesParse | src/services/blob_name.rs:61-117 | rebuilding a parsed name restores it if and only if its expiration digits are canonical |
| BlobName.QuarantineMatchesOwnHash | src/services/file_storage.rs:132-136 | every name of a blob matches its own hash and no other |
| BlobName.ParseObjectKeyMeetsGrammar | src/services/native_storage.rs:435-446 | the key parser accepts exactly a name without a slash behind its first two characters, each followed by a slash |
| BlobName.ObjectKeyRoundTrip | src/services/native_storage.rs:420-446 | an object key parses back to its blob if and only if the extension has no slash |
| BlobName.ObjectKeyInjective | src/services/native_storage.rs:420-428 | distinct blobs have distinct object keys |
| BlobName.HashPrefixSelectsOwnKeys | src/services/native_storage.rs:430-433 | a key starts with a hash's prefix if and only if it belongs to that hash |
| RangeHeader.SpelledRangeIsClipped | src/utils.rs:472-533 | a single range in any of the three forms of section 14.1.2 of RFC 9110, with numbers below 2^64, is answered with exactly the bytes it selects, clipped to the representation, and refused exactly when it selects none |
| RangeHeader.UnspelledRangeIsIgnored | src/utils.rs:481-520 | anything else is ignored, except on an empty representation and for a first number past the end, which are refused whatever follows |
| RangeHeader.ReprintIsFixedPoint | src/utils.rs:481-533 | re-printing a granted range and asking again grants the same bytes |
| RangeHeader.ConformsExactly | src/utils.rs:472-533 | for every header and representation: the code gives a valid range the answer of section 14.1.2 of RFC 9110, and grants nothing that is no valid range, if and only if it is not understood in spite of a plus sign or a blank, is no final range of an empty representation, and has no deciding number of 2^64 or more; the last is only an ignored header, which section 14.2 permits |
| RangeHeader.LaxIsNotStrict | src/utils.rs:481-520 | a header whose two sides the code understands is strictly written if and only if it has neither a plus sign nor a blank |
| RangeHeader.LenientHeaders | src/utils.rs:499-530 | each of these does occur: a plus sign and inner blanks are granted, a final range of an empty representation is refused, and a last position of 2^64 is not clipped |

## Left out

- S3 as a live backend (`put`, `find`, `delete_matching`, index synchronisation, recovery): foreign calls with partial failures; `publish_existing_metadata` goes with it, since it can displace an entry with the same location.
- `queue_superseded_deletion` and `reconcile_superseded_blobs`: deleting a displaced copy is assumed to succeed, so the retry queue stays empty.
- `cleanup_orphaned_chunk_files`, the start-up scan and `migrate_legacy_blobs`: directory I/O outside the runs modelled.
- Async cancellation, timeouts and client disconnects inside the upload, storage and download writers; dropped guards are modelled for the lock map, negotiations and download handles.
- Header presence, content type, authorization and the early quarantine check of `PATCH /upload`: they fail before anything is reserved.
- UploadServer.Server.PatchUpload: assumes that a chunk path built from a fresh UUID was never used before, which the name alone cannot guarantee.
- UploadServer.Server.StreamBody: stands for `stream_to_temp_file` with each part written whole or refused; any read or write error is the flag `bodyOk`, and what a partial write leaves is deleted with the file either way.
- UploadServer.Server.CopyOut: the copy of all chunk files is one segment, although the code awaits at every read; `OthersLeaveMineAlone` shows that no event of another task touches those files in between.
- UploadServer.Server.Rebuild: ends where the verified body is handed to storage; publication is the subject of `BlobStore`, and a failure to create or sync the reconstruction file is not distinguished.
- A rejected payment for an upload of a single chunk restores a session without chunks; the model keeps this, and `RegistryStaysPacked` allows it.
- BlobStore.Storage.PublishBlob: runs from the moment the guard is granted; the wait before it is the subject of `GuardedStorage`. That holders eventually finish, and so every waiter is served, is not proved. The caller has hashed and counted the bytes, and the extension has no slash, as extensions derived from media types and route names have none.
- BlobStorage.RenameKeeps: renames and unlinks are atomic, as on one file system; creating the parent directories and looking at the target count as one step.
- MutationLocks.FirstComeFirstServed: that a mutex serves its queue in order is tokio's documented behaviour, not derived here; cancelled waiters leave the queue in `MutationLocks`, but `GuardedStorage` has no cancelled publications.
- Retention.EnforceStorageLimits: runs without interference between its steps; which deletions succeed is a parameter of each phase, and the removal itself is the subject of `BlobStorage`.
- TailFollower.EveryRunIsSound: the file is only appended to while followers read it, so the move to its final path, which keeps open readers valid, is not visible in the model.
- DownloadTail.Download.Tail: is observed for a given number of loop turns, because a download may never end; `FollowerEnds` bounds the turns after the outcome.
- `remove_from_ongoing_downloads` (src/services/download.rs:220-225): it removes by key and not by identity; nothing calls it, and `RemovalsTakeTheirOwn` of `DownloadGuards` relies on that.
- `coalescible_range_start`, the seek-ahead limit and the choice between tailing and proxying: which follower is served how, not what it is given.
- BlobIndex.TransientOverflowLosesTotal: concerns builds without overflow checks, such as the release profile, and sizes that no upload limit in use admits; with overflow checks the addition stops the task instead.
- BlobIndex.EqualGenerationsEqualCatalogues: the generation wraps after 2^64 mutations, so runs up to that length.
- FilterCache.FilterService.GetFilter: that a hit saves a rendering is the subject of `RepeatedRequests`, for requests that nobody disturbs; building and encoding a filter is an opaque function of keys, rate and clock; ETag and conditional responses are left out. The rates are the three literals the handler admits.
- DotenvExport.NewKeysSwallowed: says that the first new assignment does not start a line; how the swallowed text is then parsed is not followed further, since a `#` after a blank in a new value can end the open line early.
- DotenvExport.ReimportYieldsIntended: edits that leave a `${VAR}` reference in a field are excluded, because their text is printed as typed and need not parse.
- DotenvDocument.BuildDocument: `keyOccurrences` is a map; in the editor it is a plain object, on which keys such as `constructor` collide with inherited properties. Import diagnostics and rendering are left out.
- DotenvScanner.EvalEndState: characters are code points; the editor scans UTF-16 units, which makes no difference to characters outside the basic plane because none of them is special.
- RangeHeader.ConformsExactly: lists of ranges and the unit in another letter case are ignored by the code, as section 14.2 of RFC 9110 permits, and count as no valid range here.
- Easy members: prices, MIME tables, server lists, configuration parsing, metrics, CORS, static pages.
