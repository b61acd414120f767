# Verification of the ce-storage model

A Dafny model of the stateful core of ce-storage, an S3-like object store over content-addressed blobs,
with proofs of what its layers promise, separately and together. `dafny verify dfyconfig.toml` checks it.

- **Index and listing** — `BucketModel` says what every operation of `src/index.rs` means on values,
  `BucketIndex` is the class that updates `buckets` in place and the loops of the listing walk and the
  sweeps, `Listing` is the specification of a page (filter, roll up, take the first items), `Paging` follows
  continuation tokens, `Mutations` and `History` are the write verbs, preconditions and version histories, and
  `StoreVerbs` performs each verb by the index methods it calls.
- **Manifests and reads** — `Manifests` (chunking, content ids, the blob store), `RangeReads` (range headers
  and covering chunks), `ObjectReads` (whole and ranged reads against the blob store).
- **Multipart** — `Multipart` (assembly), `Uploading` (the mutable upload table, storing a part),
  `UploadCommand` (the upload command, from a file's bytes to the bound object).
- **The commit protocol** — `Journal` is the sequential store: a log of commits to the index file and the
  upload table, and its replay. `Protocol` is the machine of interleaved file-system steps: exclusive create
  of the lock file, reload, blob stores, mutation in memory, temporary file opened and written, rename,
  release, error returns, crashes, reclaim. `Safety` is its inductive invariant, `Guarantees` what follows
  for every reachable state, `Failures` what an error leaves behind, `Scenarios` runs that do happen: progress of
  every kind of call, and errors after the fact. `Progress` says why nobody waits for good, `StaleLocks` what
  reclaiming locks by age does to all this, `Limits` what the checks before a commit keep out over every run, and
  `Exhibit` is one run in which every kind of call succeeds.
- **Leaves** — `Seal` (sealed records), `PartListXml` (the part-list scanner), `ExampleCodec` (a codec that meets
  every assumption), and the vocabulary in `Basics`, `Search`, `ByteOrder`, `Text`, `Division`.

Keys and names are byte sequences, because Rust orders strings bytewise. `u64` and `u32` are ranges of `int`;
overflow, saturation and truncation are written out. Clocks, random upload ids and salts are parameters.

## Assumptions

- Content ids are injective on blobs, and a printed manifest parses back (`Codec.Lawful`). Chunking splits a
  body into pieces of the chunk size with a last one that may be short; an empty body has no chunks.
- An object is stored either as chunks under a manifest, with any chunk size, or as one blob that does not
  itself parse as a manifest (`Protocol.Admissible`).
- These assumptions about content ids, manifests and part chunks can all be met at once:
  `ExampleCodec.ExampleMeetsAssumptions` gives a codec that does.
- Upload ids are fresh when they are drawn, and no content id has the form `delete-marker-N`.
- In `Protocol` a lock file is reclaimed only when the process that created it has crashed, in one step. In the
  code the age check and the removal are two calls (`src/lock.rs:64-66`) and the age is wall-clock time.
  `StaleLocks` models both calls and proves the assumption exact: see below.
- Blobs are never removed while the store is in use, and a file rename is atomic.

## Where code, documentation and standards differ

- A suffix range of an empty object is satisfiable by section 14.1.2 of RFC 9110; `parse_range` refuses it.
  Together with numbers of 2^64 and above, that is the whole difference on single ranges
  (`RangeReads.ParseExact`, `RangeReads.SuffixOfEmptyObject`).
- The lock does not always exclude. Its age check takes a slow holder for a crashed one
  (`StaleLocks.SlowHolderOvertaken`), and even a right judgement can be out of date at the removal
  (`StaleLocks.TwoReclaimsRace`, run from the start in `StaleLocks.RaceCanBeRun`); an acknowledged update can then
  be lost (`StaleLocks.StolenLockLosesUpdate`, and from the start `StaleLocks.BucketIsLost`). Whoever is past its
  acquire owns the lock file, throughout a run, exactly when every removal of a stale lock file found none, or that
  of a crashed creator (`StaleLocks.ExclusionExactly`, `StaleLocks.RemovalIsSafeExactly`); then every guarantee holds
  (`StaleLocks.CleanRunsAreReachable`).
- An idle store's in-memory index is not always that of some prefix of the commits: when saving it fails, the
  unsaved verb stays in memory until the next reload (`Scenarios.MemoryNeedNotBePrefix`). That is the only way
  (`Failures.UnsavedAfterStep`). A call that returns an error after its reload leaves the committed index in
  memory, unless the step that failed was saving the index; then exactly if its verb changes nothing
  (`Failures.MemoryAfterError`). After a success it is exact (`Guarantees.MemoryIsCurrent`).
- Deleting the marker a delete added always shows the same object again, but it restores the history only
  if no older marker of the key was made in the same second, since markers of one second share an id
  (`History.UndoDelete`; `History.SameSecondMarkers` is such a key).
- The part-list scanner gives a printed list back exactly when no ETag contains `</ETag>` or `</Part>` or has
  a quote at either end; other `<` and surrounding white space are harmless (`PartListXml.PartListRoundTrip`).
- The comment on `upload_part` says a part's ETag is the content id of its bytes; the code returns that of the
  part's manifest, and the two agree only on bytes that are their own printed manifest
  (`Multipart.EtagIsContentId`). The comment on `put_part` promises a check for whole multiples of the chunk size; the
  code only refuses empty parts there, and checks multiples on completion. The model follows the code.
- A completion may return an error although its object is bound, exactly when the step that failed came after
  the rename of its first save (`Failures.CompletionAfterError`; `Scenarios.BoundButFailed` is such a run). The
  record is then still there, and a retry binds the same object (`Journal.SameListSameObject`).
- `assembled_size` adds without checks, and wraps around in a release build; the assembly checks its sum. For a
  list that is accepted the two agree (`Uploading.AssembledSizeIsTotal`).

## Model

| member | source | states |
|---|---|---|
| BucketIndex.Index.MakeBucket | src/index.rs:326-342 | creates an empty unversioned bucket, or fails for a bad or taken name and changes nothing |
| BucketIndex.Index.RemoveBucket | src/index.rs:345-356 | removes the bucket, refusing a non-empty one unless forced, and no other |
| BucketIndex.Index.SetVersioning | src/index.rs:359-366 | changes the flag of that bucket only |
| BucketIndex.Index.SetLifecycle | src/index.rs:379-387 | replaces the rules of that bucket only, after validating them |
| BucketIndex.Index.Put | src/index.rs:433-452 | the in-place push or clear-and-push gives the new index of the value model, and every failing check leaves the index alone |
| BucketIndex.Index.Delete | src/index.rs:502-527 | marker, removal or nothing, by versioning and visibility; all other entries unchanged |
| BucketIndex.Index.DeleteVersion | src/index.rs:531-543 | the in-place filter keeps exactly the versions with other ids, and drops a key left empty |
| BucketIndex.Index.Copy | src/index.rs:547-558 | commits the copy of the visible source or fails without effect |
| BucketIndex.Index.ExpiredKeys | src/index.rs:401-423 | the loop returns the sorted set of keys whose first matching rule has expired |
| BucketIndex.Index.SweepExpired | src/store.rs:383-394 | reports the expired keys and leaves the bucket as deleting each of them does |
| BucketIndex.Index.SweepAll | src/store.rs:399-420 | reports per bucket what expired, where anything did, and sweeps every bucket |
| BucketIndex.Index.List | src/index.rs:567-656 | the seek-and-walk loop returns the page of the specification: the first max(1, max_keys) items of the rolled-up candidates, truncated exactly when an item is left, with the token before the cut |
| StoreVerbs.PutObject | src/store.rs:428-482 | the put as the store performs it on the index, key, metadata, bucket and preconditions checked in order, has the outcome of the value model, error included |
| StoreVerbs.DeleteObjects | src/store.rs:667-681 | the bulk delete changes the index as the value model says, and does nothing to a missing bucket |
| StoreVerbs.Perform | src/store.rs:325-693 | every verb, by way of the methods it calls, commits or fails as the value model says |
| BucketModel.FirstMatchExactly | src/index.rs:416 | the rule at position i decides a key exactly when it matches and no earlier one does, and none decides only if none matches |
| BucketModel.RuleExpiresExactly | src/index.rs:199-201 | a rule of zero seconds never expires; another expires once that long has passed, or at the largest time there is |
| BucketModel.ExpiredKeysExactly | src/index.rs:401-423 | a key is reported exactly when its current version is live and the first rule that matches it, by position, has run out |
| BucketModel.BucketNamePattern | src/index.rs:676-695 | the valid bucket names are exactly those of a regular pattern: 3 to 63 of a-z, 0-9, dash and dot, with neither of the last two at an end |
| BucketModel.KeyLimits | src/index.rs:700-711 | which keys are refused |
| BucketModel.MetadataLimits | src/index.rs:714-734 | which user metadata is refused |
| BucketModel.LifecycleLimits | src/index.rs:205-222 | which rule lists are refused: too many rules, or a prefix that no key could have |
| Listing.SeekExact | src/index.rs:588-599 | starting at the seek bound skips no listed key and lets no key at or below the token through |
| Listing.PrefixLeft | src/index.rs:599-603 | the early break on leaving the prefix range loses nothing |
| Listing.FolderRepeatsLast | src/index.rs:622-627 | a repeated common prefix is always the last one emitted, so the contains fallback is dead code |
| Listing.RollupItems | src/index.rs:618-645 | the rollup lists each key's item, nothing else, and nothing twice |
| Listing.ItemContiguous | src/index.rs:618-627 | keys that share a common prefix are contiguous in key order |
| Listing.FolderMembers | src/index.rs:618-621 | a key rolls up to a folder exactly when it extends that folder's path |
| Listing.ItemExactly | src/index.rs:618-621 | a key rolls up at the first occurrence of the delimiter behind the prefix, and stands for itself exactly when there is none |
| Paging.NextPage | src/index.rs:588-655 | listing from a page's token finds exactly the items the page left over, from strictly fewer keys |
| Paging.UnboundedPage | src/index.rs:599-655 | a page large enough shows every item and is not truncated |
| Paging.RollupStructure | src/index.rs:618-636 | keys and common prefixes come strictly increasing, and no common prefix extends another |
| Paging.PageStructure | src/index.rs:618-636 | on every single page too, keys and common prefixes come strictly increasing, and no common prefix extends another |
| Paging.ListTarget | src/main.rs:366-391 | the paging loop ends and prints exactly one unbounded listing: all folders and keys, in order, none twice |
| ByteOrder.ZeroByteIsSuccessor | src/index.rs:589-595 | nothing lies strictly between a string and itself with a zero byte appended |
| ByteOrder.PrefixContiguous | src/index.rs:599-603 | the strings with a given prefix are contiguous in byte order |
| ByteOrder.LessByValue | src/index.rs:238-240 | the order is by the value of the first byte that differs, a string coming before its extensions |
| Mutations.DeleteKeysAt | src/store.rs:667-681 | a bulk delete acts on each named key as one delete, whatever the order and repetitions, and on no other |
| Mutations.SweepExact | src/store.rs:383-394 | after a sweep the visible keys are the old ones minus the expired ones; other keys and settings unchanged; versioned buckets keep every version |
| Mutations.SweepBucketExact | src/store.rs:383-394 | afterwards nothing in the bucket is expired at that time, and other buckets are untouched |
| Mutations.SweepAllExact | src/store.rs:399-420 | afterwards nothing in any bucket is expired at that time |
| Mutations.NothingExpired | src/index.rs:401-423 | expired_keys of a swept bucket is empty, saturating arithmetic included |
| Mutations.ExpiryMonotone | src/index.rs:199-201 | without writes, an expired key stays expired at every later time |
| Mutations.DeleteHides | src/index.rs:502-527 | a deleted key is hidden, and on a versioned bucket none of its versions is lost |
| Mutations.PutSucceedsExactly | src/store.rs:147-174 | when a put succeeds, header by header: If-None-Match star means no visible object, another value no visible object with that ETag; If-Match star means some visible object, another value one with that ETag; quotes at the ends do not count |
| History.WithoutExact | src/index.rs:531-543 | deleting a version id removes exactly the versions that carry it |
| History.WithoutConcat | src/index.rs:531-543 | and keeps the others in order |
| History.VersionsKept | src/index.rs:433-558 | no verb brings in a version other than the one it puts, a copy of one it found, or a marker |
| History.GoodKept | src/index.rs:81-100 | every verb keeps version id, ETag and content id in step |
| History.OtherKeysUntouched | src/store.rs:325-693 | every verb leaves the histories of keys it does not touch exactly as they were |
| History.StepAppends | src/index.rs:433-527 | while a bucket stays versioned every verb only appends to a key's history |
| History.RunAppends | src/index.rs:433-527 | the same over whole runs |
| History.Retrievable | src/index.rs:467-474 | head_version serves a content id exactly when some version carries it, and serves that id |
| History.HeadVersionExactly | src/index.rs:467-474 | for every index, bucket, key and id: which version, or which error, a lookup by id answers; of several versions with the id the newest counts |
| History.HeadExactly | src/index.rs:456-463 | head serves exactly the metadata of a last version that is no marker, and which error it returns otherwise |
| History.VersionsSurvive | src/index.rs:433-543 | a content id put on a key stays retrievable over every run that neither suspends versioning, removes the bucket nor deletes that version |
| History.PutIsCurrent | src/index.rs:433-464 | a put object is what head and head_version then serve |
| History.LiveMetasNewestFirst | src/index.rs:488-497 | listing versions is newest first, leaves exactly the markers out, and has one entry for each other version |
| History.ListedAreRetrievable | src/index.rs:488-497 | the listed versions are exactly those head_version serves by id |
| History.CopySharesContent | src/index.rs:547-558 | when a copy succeeds, that it shares the content id, and that the source stays |
| History.UndoDelete | src/index.rs:502-543 | deleting hides; deleting the marker shows the same object; the history is restored exactly when no older marker has the same second |
| History.SameSecondMarkers | src/index.rs:511-517 | a key whose history undoing a delete does not restore |
| History.HidersAre | src/index.rs:345-543 | the only verbs that can hide a visible key |
| History.WriteOnce | src/store.rs:147-174 | between two successful If-None-Match: * puts of one key, some verb hid it |
| Manifests.JoinChunks | src/range.rs:136-141 | the chunks of a body join to the body |
| Manifests.ChunksConcat | src/multipart.rs:230-277 | chunking commutes with concatenation after a whole number of chunks |
| Manifests.ChunkCount | src/range.rs:136-141 | there are as many chunks as the size divided by the chunk size, rounded up |
| Manifests.ManifestPinsBytes | src/store.rs:857-876 | the content id of a manifest pins the bytes |
| RangeReads.ParseRange | src/range.rs:41-86 | any accepted header gives start <= end < total size |
| RangeReads.ParseRangeExactly | src/range.rs:41-86 | any header text whatever is accepted exactly when it splits as the code says, without commas, at its first dash, into halves that bound a window |
| RangeReads.ParseRefuses | src/range.rs:42-48 | which texts are refused for their unit, and which for naming several ranges |
| RangeReads.ParseExact | src/range.rs:41-86 | acceptance of a single byte range is validity, satisfiability, 64-bit numbers and a non-empty object, and the positions are those designated; which refusal the others get |
| RangeReads.SuffixOfEmptyObject | src/range.rs:53-68 | the input on which the code and the standard differ |
| RangeReads.ParsePrinted | src/range.rs:41-86 | printing a window and parsing it gives it back |
| RangeReads.CoveringExact | src/range.rs:91-129 | on a well-formed manifest covering never errors, and slicing the joined covering chunks is slicing the object |
| RangeReads.CoveringExactly | src/range.rs:91-115 | on any manifest, well formed or not: when covering succeeds, where its window starts, and with which error it fails |
| RangeReads.FetchedChunksIntersect | src/range.rs:91-115 | the chunks fetched are exactly those that intersect the window |
| ObjectReads.GetObjectRange | src/store.rs:583-630 | the fetch, verify, concatenate and slice path returns the ranged read of the specification, error cases included |
| ObjectReads.FetchCovering | src/store.rs:598-610 | the fetch loop succeeds exactly when every chunk is there and verifies, and concatenates them in order |
| ObjectReads.FullReadExact | src/store.rs:555-570 | a whole read of a stored object is its bytes |
| ObjectReads.CorruptChunkFailsRead | src/store.rs:599-610 | a whole read by manifest fails exactly when some chunk is missing or fails its content check |
| ObjectReads.CorruptChunkFailsRange | src/store.rs:599-610 | a ranged read fails if a chunk it needs is missing or fails its content check |
| ObjectReads.RangedReadExact | src/store.rs:583-630 | every accepted range of every stored object returns the full object's bytes from start to end inclusive, whether or not the manifest fetch gets through |
| Multipart.AssembleManifest | src/multipart.rs:230-277 | the loop accepts exactly the ascending, correctly cited lists whose earlier parts are whole and whose total fits, and returns the splice |
| Multipart.AssembledIsSinglePut | src/multipart.rs:230-277 | the assembled manifest is the one chunking the concatenation gives, with its size and rounded-up chunk count |
| Multipart.BackedAcceptable | src/multipart.rs:230-277 | which lists over whole parts are accepted, in terms of the parts' bytes |
| Multipart.EtagPinsPart | src/store.rs:870-884 | two parts have one ETag exactly when they have the same bytes |
| Multipart.EtagIsContentId | src/store.rs:831-832 | when the ETag of a part is the content id of its bytes, as the comment has it |
| Multipart.ReplacedPartRejected | src/multipart.rs:245-254 | citing the ETag of a part since replaced by other bytes fails |
| Uploading.MultipartState.Create | src/multipart.rs:160-169 | inserts the record within the cap, or changes nothing |
| Uploading.MultipartState.PutPart | src/multipart.rs:183-199 | records or replaces the part in place, or changes nothing |
| Uploading.MultipartState.ListParts | src/multipart.rs:202-204 | exactly the recorded parts, each once, part numbers strictly increasing; an unknown upload is an error |
| Uploading.MultipartState.Remove | src/multipart.rs:207-209 | drops that record only and returns it |
| Uploading.AssembledSizeIsTotal | src/multipart.rs:89-91 | completing with every part gives an object of assembled_size, wrap-around included, and when that list is acceptable |
| Uploading.SumOfSizes | src/multipart.rs:89-91 | adding the sizes part by part, wrapping around each time, gives the wrapped total |
| Uploading.BlobsNeeded | src/store.rs:857-876 | the blobs stored for a part are exactly those that its manifest and its ETag name |
| Uploading.StoreBlobs | src/store.rs:859-869 | the loop leaves every given blob stored, and none lost |
| Uploading.StorePart | src/store.rs:857-883 | the part recorded is the one whose ETag pins the bytes; all its blobs are stored and none is lost |
| UploadCommand.UploadPieces | src/main.rs:683-690 | the loop gets through exactly when there are at most MAX_PARTS pieces, none over the maximum object size; then each is recorded under its number and stored |
| UploadCommand.CompleteUpload | src/store.rs:912-960 | succeeds exactly when the list is acceptable, the assembled total is within the maximum object size and the index takes the put; then the manifest is stored, the index updated and the record gone, and on failure table and index are untouched |
| UploadCommand.PutEmpty | src/main.rs:691-695 | an empty file becomes a stored, bound empty object |
| UploadCommand.UploadFile | src/main.rs:678-703 | for every file, part size and maximum object size: exactly when the command succeeds, and that the bound object then has the content id of a single put and reads back as the file, whole and by range |
| UploadCommand.RoundedPartSize | src/main.rs:681-682 | the rounded size is a positive multiple of the chunk size, at most the requested one unless that is below a chunk |
| Journal.IndexIsFold | src/store.rs:312-320 | replaying the log gives the fold of the committed verbs, each successful on the index it found |
| Journal.PartFromLog | src/multipart.rs:183-199 | every part in the table was put by a commit that no later one replaced |
| Journal.TableBounds | src/multipart.rs:160-199 | after every log: numbers within 1 to MAX_PARTS, no empty part, no more uploads than the cap |
| Journal.CompletionContents | src/multipart.rs:230-277 | an acceptable list assembles the concatenation of the bytes last uploaded as its parts |
| Journal.CompletionPins | src/store.rs:912-960 | a committed completion binds exactly the bytes whose uploads returned the cited ETags, and no other bytes could have; the bound metadata carries the time of the completion and the content type and user metadata of the upload |
| Journal.SameListSameObject | src/store.rs:912-960 | completing again with the same list binds the same object, whatever was uploaded in between |
| Journal.VersionsResolve | src/store.rs:834-960 | if every commit had its blobs stored, every live version resolves to bytes of its recorded size |
| Journal.CompletionStored | src/store.rs:932-949 | an assembled object needs only its manifest stored: its chunks already are |
| Journal.RecordLeaves | src/store.rs:950-969 | a record leaves by an abort, or directly after the commit that bound its object |
| Safety.AcquireKeeps | src/lock.rs:42-52 | taking the lock by exclusive create keeps the invariant |
| Safety.ReclaimKeeps | src/lock.rs:64-68 | reclaiming a crashed creator's lock keeps the invariant; StaleLocks has the removals of the code |
| Safety.ReadKeeps | src/store.rs:312-316 | reloading under the lock keeps the invariant: the holder works on the committed state |
| Safety.CheckKeeps | src/store.rs:796-828 | the multipart verbs' checks keep the invariant |
| Safety.StoreKeeps | src/store.rs:858-876 | storing a blob keeps the invariant |
| Safety.MutateKeeps | src/store.rs:325-480 | applying a verb in memory keeps the invariant |
| Safety.MutateCompletionKeeps | src/store.rs:941-954 | so does binding a completion, with everything it names stored |
| Safety.WriteTempKeeps | src/index.rs:312-319 | a half-written temporary file never becomes visible |
| Safety.RenameKeeps | src/index.rs:320-321 | the rename commits exactly one event, and both files stay the replay of the log |
| Safety.FailKeeps | src/store.rs:318-320 | an error at any step keeps the invariant |
| Safety.ReleaseKeeps | src/lock.rs:86-90 | dropping the guard removes the process's own lock file |
| Safety.CrashKeeps | src/lock.rs:22-24 | so does a crash at any point |
| Guarantees.StepKeeps | src/store.rs:312-969 | every step of every process keeps the invariant |
| Guarantees.MutualExclusion | src/lock.rs:35-90 | in the commit protocol, whose reclaims find crashed creators, at most one process is past its acquire, and the lock file is its own; ExclusionExactly says when the code's runs are such |
| Guarantees.IndexIsOneHistory | src/index.rs:304-322 | in every reachable state the index file is one complete index, the fold of successful verbs, and the upload table is complete too |
| Guarantees.HistoryGrows | src/store.rs:312-320 | commits and acknowledgements are never undone along any run |
| Guarantees.NoLostUpdates | src/store.rs:312-320 | each success has its own commit in the log the files replay, and successes are ordered as their commits are |
| Guarantees.MemoryIsHistory | src/store.rs:312-320 | each in-memory index is that of a prefix of the commits, or that and one unsaved verb, and equals the prefix's exactly if the verb changed nothing |
| Guarantees.MemoryIsCurrent | src/store.rs:312-320 | when a verb that loads the index returns success, memory is the committed index |
| Failures.MemoryAfterError | src/store.rs:312-480 | for every call and every step that makes it return an error: memory is untouched before its reload, the committed index after, and after a lost save the committed index exactly if the verb changes nothing |
| Failures.UnsavedAfterStep | src/store.rs:312-320 | a memory outside a save holds an unsaved verb exactly when it did before and was not reloaded, or the step lost its save |
| Failures.CompletionAfterError | src/store.rs:941-960 | a completion that returns an error has bound its object exactly when it failed after the rename of its first save; the record is then still in the table, and otherwise nothing was committed |
| Guarantees.EveryVersionReads | src/store.rs:517-630 | in every reachable state every live version named by the index file or by any process's memory, stale or unsaved, reads back, whole and by every range, at its recorded size |
| Guarantees.PutReadsBack | src/store.rs:428-482 | what a put that returned success stored reads back from then on |
| Guarantees.CompletionReadsBack | src/store.rs:912-960 | a completion that returned success bound an object that reads as the concatenation of the cited parts |
| Guarantees.PutSurvives | src/store.rs:428-482 | a successful put on a versioned bucket stays retrievable with its bytes, across processes, until a verb removes it |
| Guarantees.UploadLeaves | src/store.rs:950-969 | with crashes anywhere, a record leaves the table only by an abort or right after its object is bound |
| Guarantees.WriteOnceAcrossProcesses | src/store.rs:446-481 | between two acknowledged If-None-Match: * puts of a key, in any processes, a committed verb hid it |
| Guarantees.IfMatchAcrossProcesses | src/store.rs:446-481 | an acknowledged If-Match put committed directly over the ETag it names |
| Scenarios.CallCanCommit | src/store.rs:325-969 | progress: with the lock free, every admissible call that the files and the maximum object size allow (verb, put, creation, part, completion, abort) can be carried through to its acknowledgement, with exactly its commits, its blobs stored and no other process touched |
| Scenarios.NothingToSaveExactly | src/store.rs:390-414 | the verbs that save nothing are exactly the sweeps that would leave the index as it is |
| Scenarios.AllowsExactly | src/store.rs:325-969 | what the files allow is what a commit answering the call could do to them, the sweeps without effect excepted |
| Progress.ReachableCanCommit | src/store.rs:325-969 | from every reachable state with the lock free, a run carries through each call that the committed files and the size limit allow |
| Progress.LockCanBeFreed | src/lock.rs:7-9 | no deadlock: from every reachable state some run frees the lock and leaves log, files and the waiting process as they were, whether its holder lives or has crashed |
| Progress.WaitingIsNeverStuck | src/lock.rs:7-9 | so from every reachable state a run first frees the lock and then carries through the waiting process's call, if the committed files and its size limit allow it |
| Progress.ChangeCommits | src/store.rs:325-420 | from every reachable state with the lock free, every verb that succeeds on the committed index and changes it can be carried to its acknowledged commit |
| Progress.WaitingChangeCommits | src/store.rs:325-420 | so can that of a waiting process, whoever holds the lock |
| Progress.PutCommits | src/store.rs:428-482 | so can every put within the size limit whose key, metadata, bucket and preconditions are in order; then head serves it and it reads back |
| Progress.CreateCommits | src/store.rs:785-828 | so can the creation of an upload with a valid key and valid metadata while its bucket exists and the table has room |
| Progress.PartCommits | src/store.rs:834-885 | so can every non-empty part within the size limit, with a legal number, of a known upload |
| Progress.CompletionCommits | src/store.rs:912-969 | so can every completion with an acceptable list and a total within the limit while the bucket exists; the record is then gone |
| Progress.HolderGoesOn | src/store.rs:312-969 | in every reachable state the next step of the process that is past its acquire is possible |
| Limits.NothingOverLimit | src/store.rs:426-441 | over every run of processes that share a maximum object size, no version in the committed index and no part in the committed table exceeds it |
| Limits.RecordsValid | src/store.rs:796-799 | every record in the committed table of every reachable state has a key and user metadata that the index takes |
| Limits.StoringPutPasses | src/store.rs:443-482 | a put that has come to store its blobs passes its checks on the committed index, so a refused put stores nothing |
| Exhibit.EveryKindSucceeds | src/store.rs:325-969 | a reachable state whose acknowledgements hold every kind of call, conditional puts included |
| Scenarios.FailedSaveShows | src/store.rs:318-329 | a failed first save commits nothing and leaves an index verb applied in memory |
| Scenarios.MemoryNeedNotBePrefix | src/store.rs:318-329 | a reachable idle process whose index no prefix of the commits produces |
| Scenarios.BoundButFailed | src/store.rs:950-960 | from every state that allows a completion, a run in which it binds its object, returns an error and leaves its record |
| StaleLocks.ExclusionExactly | src/lock.rs:64-68 | over every run of the two-call protocol: whoever is past the acquire owns the lock file, in every state, exactly when every removal found no lock or that of a crashed creator |
| StaleLocks.RemovalIsSafeExactly | src/lock.rs:64-68 | a removal keeps at most one holder in every continuation without further unclean removals exactly when it is clean itself |
| StaleLocks.CleanRunsAreReachable | src/lock.rs:64-68 | a run whose removals are clean reaches only states of the commit protocol, so every guarantee holds |
| StaleLocks.ReachableIsClean | src/lock.rs:64-68 | and the commit protocol's states are exactly those such runs reach |
| StaleLocks.SlowHolderOvertaken | src/lock.rs:107-117 | a live holder's lock that is old enough is removed and taken, and there are two holders |
| StaleLocks.TwoReclaimsRace | src/lock.rs:64-68 | of two processes that have both judged a crashed creator's lock, both get past their acquire |
| StaleLocks.RaceCanBeRun | src/lock.rs:64-68 | from an empty directory, a run into that race |
| StaleLocks.StolenLockLosesUpdate | src/lock.rs:64-68 | a run in which a holder saves slowly, its lock is removed, another call commits and is acknowledged, and the index file then holds the holder's verb alone |
| StaleLocks.BucketIsLost | src/lock.rs:64-68 | such a run from an empty directory: two buckets are made and acknowledged, one is lost, and the index file is not the fold of the commits |
| Seal.HmacSha256 | src/seal.rs:51-76 | the padded loops compute the HMAC of section 2 of RFC 2104, for every key length |
| Seal.DeriveKeys | src/seal.rs:79-92 | the two subkeys are the labelled HMACs of the extracted key |
| Seal.ApplyKeystream | src/seal.rs:95-108 | the in-place loop XORs byte i of the range with byte i mod 32 of hash block i div 32, counter wrap-around included, and nothing else |
| Seal.LeByteAt | src/seal.rs:101 | byte i of a counter block is digit i of the counter to the base 256, least significant first |
| Seal.BlockInputsDiffer | src/seal.rs:97-103 | different counters below 2^64 give different hash inputs |
| Seal.MaskedTwice | src/seal.rs:95-108 | applying the keystream is its own inverse |
| Seal.CtEq | src/seal.rs:111-120 | the OR-accumulator is equality |
| Seal.SealRecord | src/seal.rs:168-181 | the growing buffer ends as the record of the specification |
| Seal.UnsealRecord | src/seal.rs:186-206 | accepts exactly the records that sealing produces under this key, and returns what was sealed |
| Seal.SealRoundTrip | src/seal.rs:168-206 | unsealing a sealed record returns the plaintext |
| Seal.UnsealRoundTrip | src/seal.rs:168-206 | sealing what an accepted record holds, with its salt, gives the identical bytes |
| Seal.SealedObjectReads | src/store.rs:760-776 | a stored sealed object reads back as its plaintext |
| PartListXml.ParseCompleteParts | src/gateway.rs:631-648 | the scan ends on every text, reads its blocks in order, and returns only ETags that survive printing |
| PartListXml.PartListRoundTrip | src/gateway.rs:631-657 | printing and scanning a list gives it back exactly when every ETag survives |
| PartListXml.EntryRead | src/gateway.rs:651-657 | both fields of a printed part are extracted |
| PartListXml.ExtractExactly | src/gateway.rs:651-657 | for any text: what stands between the first opening tag and the first closing tag behind it, and nothing exactly when there are no such tags |
| PartListXml.EntryExactly | src/gateway.rs:641-645 | for any block: which number and ETag it yields, white space and quotes stripped, and that any other block yields none |
| PartListXml.AllSurvive | src/gateway.rs:631-648 | no text makes the scanner return an ETag that would not survive |

## Left out

- MemoryIsHistory: does not say that an idle process's index is always that of a prefix of the commits, because
  that is false after a failed save; MemoryNeedNotBePrefix is the input, and MemoryAfterError the exact condition.
- ReclaimKeeps: assumes a crashed creator and one atomic reclaim, because without them it is false of the code;
  ExclusionExactly is the exact condition under which the code's two calls meet it.
- MutualExclusion: holds of the code's runs exactly under the condition of ExclusionExactly; SlowHolderOvertaken and
  RaceCanBeRun are runs outside it.
- AssembledSizeIsTotal: in a debug build the unchecked sum panics beyond 2^64 instead of wrapping around.
- AssembleManifest: its several error messages are one error.
- The blob client, node HTTP, DHT and asynchrony: a growing map from content ids to bytes stands for them; garbage
  collection of blobs is not modelled.
- JSON serialisation, schema versions and legacy migration: saving and loading store and return the value.
- The acquire loop's timeout and back-off: a waiting process may acquire, reclaim or give up at any time.
- Fairness: nothing says a waiting process gets the lock, only that a verb can be carried through.
- `check_read`, `caps.rs` and gateway authorisation: single decisions without state.
- `src/replicated/*`, gateway handlers and XML output, and the command line apart from its two loops.
- The strength of sealing, and random salts and upload ids.
