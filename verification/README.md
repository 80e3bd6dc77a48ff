# Verified model of the chunked-v2 storage engine

This project models, in Dafny 4.11, how Hippius Hub turns a large file into content-addressed
packs, a pointer blob and a manifest, how several writers commit manifests, and how the bytes
come back. The Python half (planning, manifests, commits) and the Rust half (transfer, scatter,
verification) are modelled together, because their guarantees only hold together. Check it with
`dafny verify dfyconfig.toml`.

## How it is built

| part | modules |
|---|---|
| shared vocabulary | `Basics`, `Text`, `Constants`, `Retry`, `LocalFile` |
| planning packs | `Packing`, `PackingProperties`, `PackStore` |
| the pointer blob, character by character | `Json`, `PointerBlob` |
| manifests and merging | `Manifest`, `ManifestFiles`, `Versions` |
| uploading and whole histories | `Upload`, `StoredFiles`, `DedupIndex`, `History`, `UploadFile`, `UploadFolder` |
| uploading again | `Reupload`, `ReuploadHeals`, `Rerun`, `RerunExample` |
| concurrent commits | `Commit`, `ConcurrentHistory` |
| reading back | `PullPacks`, `PullProperties`, `PackFetch`, `FileDigest`, `ReadBack` |
| parallel writing and the incremental hasher | `IncrementalHash`, `ParallelWrite`, `HasherSoundness`, `HasherCompleteness`, `AssembledFile`, `FullRuns`, `DistinctExtents` |
| the fetch code as runs of that machine | `Attempts`, `PackRuns`, `RangeRuns` |
| Range downloads | `RangePlan`, `RangeDownload`, `RangeRebuild` |
| resumable uploads | `PatchSession` |
| smaller state machines | `ChunkStream`, `PackGate` |

Code that works by changing things in place is a class or a method with loops, proved against a
function of its inputs; what the code promises is then proved about that function. Concurrency is
a state machine over its steps, and every result about it is for all runs. The network, the disk,
the clock and the other writers are nondeterministic: they may do anything that the comments of
the modules allow.

A digest is the text `sha256:` followed by the content in hexadecimal. It has the shape of the
real digest where shape matters (no characters that JSON escapes) and is injective by proof
(`Text.Sha256Injective`), so "no collisions" needs no assumption.

The lemmas named `…Table` give, on literal values and apart from any body, what the functions answer
that classify replies, errors, settings and layers; the larger results are stated with those
functions.

The results meet in `ReadBack.EveryFileReadsBack`: after any history of one writer at a time,
every title reads back as the bytes last uploaded under it, for every interleaving of the tasks
that fetch it. `ConcurrentHistory.NoLostContent` says the same for any number of writers under the
guarded commit protocol, in the order in which the registry accepted them.

## Where the code and its comments differ

The model follows the code.

* `src/incremental_hash.rs:79-80` says that the hasher never gives a different verdict from a full
  re-read. Its buffer is keyed by start offset alone, so a second extent at the same start replaces
  the first: `ReplacedExtentAccepted` gives messages after which it vouches for the first two bytes
  of a three-byte file. `SameVerdictAsReread` gives the exact condition, that every extent is in
  bounds, which is what plan validation checks before any byte is fetched. Sharing a start is the
  only way past the hasher's own check: when no out-of-bounds piece shares its start with another,
  a verdict alone rules out-of-bounds pieces out (`VerdictRulesOutOutliers`).
* `src/incremental_hash.rs:92-93` states `watermark <= total_size` as an invariant of the hasher.
  It holds for in-bounds plans (`WatermarkInBounds`), but nothing in the hasher enforces it
  (`WatermarkPassesEnd`). For pieces with distinct starts it holds in every run exactly when the
  place where the watermark ends up, which no order of signals can change, is within the file
  (`WatermarkStaysIff`); an out-of-bounds piece after a gap does not move it.
* `src/uploader/blob.rs:43-45` lists four sleeps and about three seconds. The loops make four
  attempts and sleep three times, for less than 1.4 s, so the 1600 ms cap is never used
  (`BackoffBudget`, `BudgetIsTight`).
* `hippius_hub/file_upload.py:514-518` says that the manifest PUT retries the same statuses as the
  Rust code. It retries fewer (`RetryableStatusNarrower`).
* `hippius_hub/file_upload.py:528-531` says that a rerun puts the identical manifest. Its creation
  date differs, and so may its layers: the rerun builds its index from the manifest that the first
  run put, in which the file has moved to the end, so a chunk that another file holds in another
  pack is now taken from there. `RerunSameLayers` gives the exact condition, and `RerunMoves` an
  input on which the layers change. The files are the same always.
* `src/chunked_downloader/plan.rs:42-46` says that a value without `/` is no range. Only what
  stands before the first `/` counts, in any header (`OnlyBeforeSlash`), so it is accepted
  (`MissingSlashAccepted`).
* `hippius_hub/_oci.py:216-217` leaves checking the pointer blob against its digest to the
  downloader, which does not do it; a wrong pointer that parses and whose plan passes validation is
  caught by the whole-file digest alone (`WrongPointerCaught`).
* `hippius_hub/file_upload.py:384` says that `feed` emits a strict prefix of the packs. It emits all
  of them exactly when the last pack is full (`EmittedArePrefix`, with `AllPacksEmitted` as input).
* `src/uploader/blob.rs:169`, `:312` and `:363` speak of a refusal of the first chunk. The guard at
  `:389` is that the offset is 0, which a session can be at with bytes committed; and the fall-back
  PUT goes to the same session (`:522`), where its body follows them. `FallBackAppends` gives answers
  after which the registry stores one byte too many unless it checks the digest. `FallBackIsSafe`
  gives the exact condition that could be checked before the PUT: the refusal answered the session's
  very first PATCH, and refusals commit nothing.
* `hippius_hub/file_upload.py:984-991` speaks of healing a lost pack. A lost pointer blob is never
  healed: it stops the index of every large upload, however often it is run again (`LostIndex`). And
  a healed upload repairs only its own file: the others are whole again exactly when everything they
  list is there (`ManifestHeals`).
* `src/chunked_downloader/plan.rs:33-40` gives no bound for `chunk_bounds`. In the release build its
  sums wrap at 64 bits, and it is right exactly when the chunks together do not reach past 2^64
  (`TilingExact`).
* `hippius_hub/file_upload.py:775-781` promises that surviving groups stay intact. An untitled layer
  at the head of the new ones would join the last survivor; `MergePartition` gives the exact
  condition.

## Model

| member | source | states |
|---|---|---|
| Packing.PackAccumulator.Feed | hippius_hub/_packing.py:93-129 | one step of the planner over all its fields: reuse, repeat, size clash, new chunk, pack closed when full |
| Packing.PackAccumulator.Finish | hippius_hub/_packing.py:138-151 | flushes the open pack once and is idempotent |
| Packing.PlanPacks | hippius_hub/_packing.py:154-169 | feeding every chunk and finishing gives the plan function, and a non-positive pack size is refused |
| PackingProperties.PlanIsFaithful | hippius_hub/_packing.py:62-151 | a plan exists exactly when no new digest has two sizes; it has one entry a chunk in order, each locating that chunk by prefix sum, and packs exactly the first occurrences, cut greedily |
| PackingProperties.GreedyCutUnique | hippius_hub/_packing.py:120-136 | greedy cutting determines the packs, so the streaming and the batch planner cannot differ |
| PackingProperties.FirstNewOnce | hippius_hub/_packing.py:100-122 | the transferred chunks have distinct digests, exactly those that occur and that no prior pack holds |
| PackingProperties.TransferredBytes | hippius_hub/_packing.py:24-36 | the bytes uploaded are the total size of the distinct new chunks |
| PackingProperties.PackSizeBounds | hippius_hub/_packing.py:120-136 | every pack but the last reaches the pack size and none passes it by a whole chunk |
| StoredFiles.ResolvedPacksFit | hippius_hub/constants.py:131-145 | for any pack size the settings resolve to, every pack built passes the reader's ceiling |
| PackStore.ResolvePointerChunks | hippius_hub/_packing.py:172-195 | fills uploaded digests into the plan, or reports a count mismatch |
| PackStore.UploadDescribes | hippius_hub/_packing.py:172-195 | plan, upload, resolve: every reference can be read back as its own chunk's bytes |
| Json.ParsePrinted | hippius_hub/_packing.py:198-218 | the JSON parser undoes the compact sorted printer (sections 2 to 7 of RFC 8259) on escape-free documents |
| PointerBlob.ParsePrintedPointer | hippius_hub/_oci.py:213-240 | parsing the bytes of a printed pointer gives its chunk list back |
| PointerBlob.PointerInjective | hippius_hub/_packing.py:198-218 | equal pointer blobs have equal chunk lists |
| PointerBlob.EmptyPointer | hippius_hub/_oci.py:238-239 | a pointer without chunks is refused |
| PointerBlob.PointerText | hippius_hub/_packing.py:198-218 | the printed pointer, key by key in sorted order, with commas between its chunks |
| PointerBlob.OtherVersion | hippius_hub/_oci.py:213-240 | a document of another version, or without a chunk list, is refused |
| Manifest.PartitionGroups | hippius_hub/file_upload.py:749-765 | the partition loop computes the partition function |
| Manifest.PartitionSplits | hippius_hub/file_upload.py:749-765 | partitioning loses no layer and cuts only at titles |
| Manifest.PartitionUnique | hippius_hub/file_upload.py:749-765 | it is the only way to cut a layer list at its titles |
| Manifest.MergeLayers | hippius_hub/file_upload.py:768-790 | the merge loop computes the merge function |
| Manifest.MergePartition | hippius_hub/file_upload.py:775-781 | surviving groups stay whole and in order before the new ones, exactly when the new layers do not begin with an untitled layer that would join a survivor |
| ManifestFiles.GroupFiles | hippius_hub/_oci.py:243-275 | the file list, or the first malformed pointer layer |
| ManifestFiles.ResolveFileGroup | hippius_hub/file_download.py:251-272 | the first file of that name, unless it is plain without a digest |
| ManifestFiles.LookupTable | hippius_hub/file_download.py:251-272 | a lookup fails exactly when no file has the name, or the first that has it is plain without a digest; otherwise it gives that first file |
| ManifestFiles.FilesOfMerge | hippius_hub/file_upload.py:768-790 | the file list commutes with a merge: old files not replaced or deleted, then the new ones |
| ManifestFiles.MergeIsMapUpdate | hippius_hub/file_upload.py:768-790 | for any layers: a lookup after a commit gives the new file, nothing if deleted, else the old file |
| ManifestFiles.MergeDistinct | hippius_hub/_oci.py:243-275 | titles are distinct after a commit exactly when those of the survivors and those of the new layers are, so they stay distinct across commits |
| Upload.UploadChunked | hippius_hub/file_upload.py:328-441 | streaming with packs uploaded as they complete gives the layers and the blobs that the batch plan describes; a failed upload loses no blob |
| PackStore.StoredInAnyOrder | hippius_hub/file_upload.py:378-391 | uploading the same packs in any order, repeated or not, leaves the same store |
| Upload.EmittedArePrefix | hippius_hub/file_upload.py:383-391 | packs emitted while feeding are a prefix of the final list; one is missing exactly when the last pack is short, and then it is that one |
| Upload.AllPacksEmitted | hippius_hub/file_upload.py:383-391 | a chunk that fills a pack by itself is emitted at once, so nothing is left for the end |
| Upload.CleanTitleKeeps | hippius_hub/file_upload.py:420-420 | every character of a title but the backslash is kept, and a clean title is its own clean title |
| Upload.ListPacks | hippius_hub/file_upload.py:426-440 | one layer a referenced pack in order of first appearance, or the first pack of unknown size |
| PullPacks.PackOrderGrows | hippius_hub/file_upload.py:426-440 | more chunks add packs only at the end, so packs are listed in order of first appearance |
| Upload.PointerOfFile | hippius_hub/file_upload.py:407-409 | the pointer blob of a file gives that file's digest and size |
| StoredFiles.UploadStores | hippius_hub/file_upload.py:328-441 | an upload never names a pack of unknown size, and its group can be read back as the uploaded bytes |
| StoredFiles.GroupStoresGrows | hippius_hub/file_upload.py:342-344 | storing more blobs breaks no stored file |
| DedupIndex.BuildDedupIndex | hippius_hub/file_upload.py:259-307 | the index and the sizes, first entry wins, excluded packs skipped, and every failure of fetching or parsing |
| DedupIndex.StoredIndexReady | hippius_hub/file_upload.py:263-277 | from stored files the index always builds, and every entry names an allowed pack range that holds its chunk's bytes |
| DedupIndex.IndexComplete | hippius_hub/file_upload.py:302-306 | every chunk of every prior pointer is indexed unless its pack is excluded |
| DedupIndex.EveryFileIndexed | hippius_hub/file_upload.py:259-307 | whenever the index builds, every chunk of every chunked file of the manifest is in it unless its pack is excluded |
| DedupIndex.FirstEntryWins | hippius_hub/file_upload.py:302-306 | a chunk that several packs hold is taken from the first that may be reused |
| Versions.MergeStores | hippius_hub/file_upload.py:775-781 | a commit keeps stored the files it leaves alone and those it brings |
| Versions.LookupStored | hippius_hub/file_download.py:251-272 | a lookup in a stored manifest finds exactly the group of that title |
| History.CommitKeepsSound | hippius_hub/file_upload.py:1066-1110 | a commit on a sound repository succeeds and keeps every manifest sound, however old its index and its base |
| History.CollectKeepsSound | hippius_hub/file_upload.py:341-344 | dropping blobs that the current manifest does not list breaks none of its files |
| History.HistoryIsSound | hippius_hub/file_upload.py:283-307 | over every history, each manifest in play stands for exactly its files |
| History.CommitNeverFails | hippius_hub/file_upload.py:426-436 | on no history can a commit meet an unreadable pointer or a pack of unknown size |
| History.CommitBrings | hippius_hub/file_upload.py:445-481 | under each uploaded title the new manifest lists one blob, or a pointer and packs cut exactly where the splitter cut, as the file was handed over |
| History.HeadIsLastUploads | hippius_hub/file_upload.py:768-790 | with one writer at a time the current manifest stands for the last uploads |
| UploadFile.UploadOp | hippius_hub/file_upload.py:1066-1110 | the operation as it runs, reading, indexing, streaming, merging: it fails exactly when one request to the registry failed, no blob is lost however it ends, it leaves the registry and the manifest of one commit event, and the file is listed as a pointer and packs cut where the splitter cut when it is large enough and chunked writes are on, and else as one blob |
| UploadFolder.FolderOp | hippius_hub/file_upload.py:1195-1261 | a folder upload is one commit event that takes its index from the read before the uploads and its base from the read after them, whatever was committed between; every file is listed the way its size demands; it fails exactly when one request failed, and no blob is lost however it ends |
| ReadBack.EveryFileReadsBack | hippius_hub/file_download.py:618-669 | after any such history every title reads back as the bytes last uploaded: the pull of a chunked file, whose packs are all there as declared, and for every chunk size that tiles it the Range download of a plain one, can end, and every ended run has rebuilt and verified them; an empty file is answered at once; no other title is found |
| ReadBack.ReferenceClosure | hippius_hub/file_upload.py:426-441 | in every reachable manifest every layer gives the true size of a blob that is there, and a chunked file's own group lists exactly the packs its pointer names, and the true number of chunks |
| ReadBack.WrongPointerCaught | hippius_hub/_oci.py:213-240 | whatever bytes were served for a pointer, if they parse and the plan passes validation, the pull verifies exactly when the file is the expected content |
| Reupload.CommitWithBlobReupload | hippius_hub/file_upload.py:979-1010 | at most one attempt more than the retries, each of them as above; only missing blobs are retried, what is excluded is what was named, and a commit leaves the last attempt's manifest in place |
| Reupload.RunCommit | hippius_hub/file_upload.py:1066-1110 | one attempt, for any file: what it reached its manifest with had been uploaded first and is in the registry; every pack it lists was uploaded in it or is a prior pack not excluded, and nothing that it could reuse was uploaded again; every PUT carries the merge into what it read, guarded by its digest; it commits on a 2xx only and reports a missing blob only when the last of all retries was a 400 that named one; and when everything gone since the prior files were stored is excluded, only a failed request stops it, and the new group reads back |
| Reupload.ExcludedGrows | hippius_hub/file_upload.py:986-990 | the excluded set only grows and covers every digest named before |
| Reupload.NamedLossHeals | hippius_hub/file_upload.py:984-991 | an attempt whose prior manifest kept its pointers, and before which every blob now gone was named, gets as far as its manifest unless a request fails, and its group reads back |
| Reupload.NamedLossManifest | hippius_hub/file_upload.py:984-991 | and the manifest that it puts stores every file exactly when everything the other files list is there |
| ReuploadHeals.LostIndex | hippius_hub/file_upload.py:271-275 | after blobs were lost the index builds exactly when no listed pointer is among them; and if all of them are excluded, every entry can still be followed |
| ReuploadHeals.UploadHeals | hippius_hub/file_upload.py:984-991 | then uploading again succeeds, and the new group reads back |
| ReuploadHeals.ManifestHeals | hippius_hub/file_upload.py:984-991 | the new manifest then stores every file exactly when everything the other files list is there, as it is when they list nothing that was lost |
| Rerun.RerunSameLayers | hippius_hub/file_upload.py:524-531 | a rerun leaves the same files always, and the same layers exactly for a plain file or when the index of the new manifest has each chunk where the first pointer has it |
| RerunExample.RerunMoves | hippius_hub/file_upload.py:302-306 | two files of a folder share a chunk in different packs: uploading the first one twice takes it from one pack and then from the other |
| Commit.PutManifest | hippius_hub/file_upload.py:629-692 | retries exactly the transient replies within the budget, never a 412, and the result is that of the last reply; a missing blob is reported only after all retries, the last answered 400 with an unknown blob; every PUT it sends is the same |
| Commit.RetryableStatusNarrower | hippius_hub/file_upload.py:561-564 | which statuses it retries, compared with the transfer code |
| Commit.NoLostUpdate | hippius_hub/file_upload.py:599-692 | when every read carried a digest, in every interleaving the current manifest is the accepted changes applied one after the other |
| Commit.CommittedFileSurvives | hippius_hub/file_upload.py:930-951 | a committed file stays, unchanged, until an accepted commit replaces or deletes its title |
| Commit.UnguardedPutLoses | hippius_hub/file_upload.py:490-500 | any pending PUT without `If-Match` can make another writer's published file vanish, so the guard is needed |
| Commit.FirstCommitsRace | hippius_hub/file_upload.py:490-491 | two first commits both succeed and one file is lost |
| Commit.LostResponseConflicts | hippius_hub/file_upload.py:524-529 | an accepted PUT whose response is lost ends as a conflict |
| Commit.CommitTwice | hippius_hub/file_upload.py:768-790 | merging one and the same change twice changes no layer |
| ConcurrentHistory.NoLostContent | hippius_hub/file_upload.py:1066-1110 | for every interleaving of uploads, with indexes from any manifest ever current, and guarded commits, with retries and lost responses: the current manifest stores what the accepted commits brought, in order of acceptance, every title reads back so, and no upload fails |
| ConcurrentHistory.Projects | hippius_hub/file_upload.py:599-692 | every such run is, for the protocol, a guarded run, so what is proved of those holds of it |
| PullPacks.PlanPull | hippius_hub/file_download.py:633-656 | grouping by pack in first-appearance order with running file offsets, or the first pack that is not listed |
| PullPacks.ValidatePackPlan | src/chunk_fetcher/assemble.rs:324-352 | accepts exactly the plans within the ceiling, without overflow and inside the file |
| PullProperties.PullPlanExists | hippius_hub/file_download.py:645-655 | a plan exists exactly when every named pack is listed |
| PullProperties.PullPlanTiles | hippius_hub/file_download.py:633-656 | the plan of a described file tiles the file with the file's own bytes |
| PullProperties.PullPlanAcceptable | src/chunk_fetcher/assemble.rs:324-352 | such a plan passes validation |
| PackFetch.ReadPackBody | src/chunk_fetcher/assemble.rs:388-420 | over-send is refused wherever it shows, else the body or the error that cut it off |
| PackFetch.FetchPack | src/chunk_fetcher/assemble.rs:425-483 | nothing is written unless the body has exactly the declared size |
| PackFetch.HonestFetch | src/chunk_fetcher/assemble.rs:425-483 | a fetch of the very pack that the targets were cut from can fail only on the local disk or by a panic |
| PackFetch.ScatterTask | src/chunk_fetcher/assemble.rs:475-483 | the blocking task ends as the scatter does, or it panics at any point: that is not retryable, and what was written by then is a start of what it writes |
| PackFetch.VerifyAndScatter | src/chunk_fetcher/scatter.rs:58-105 | every target before the first bad one is written in order, and nothing after it |
| PackFetch.ScatterWritesOnlyTheFile | src/chunk_fetcher/scatter.rs:50-57 | whatever bytes a server sent, only the file's own bytes reach the disk |
| PackFetch.FetchPackWithRetry | src/chunk_fetcher/assemble.rs:357-382 | at most four attempts and 1.4 s of sleep; a permanent error is never retried and a retryable one never given up early; success means every target is in place; failed attempts wrote only the file's bytes |
| IncrementalHash.HashIncrementally | src/incremental_hash.rs:81-128 | the receive loop computes the hash function, for any sizes of read |
| IncrementalHash.AdvanceKeepsStale | src/incremental_hash.rs:101-103 | an extent that starts below the watermark stays in the buffer for good |
| IncrementalHash.ReplacedExtentAccepted | src/incremental_hash.rs:98-100 | a repeated start makes the hasher vouch for part of a longer file |
| ParallelWrite.NeverStuck | src/chunk_fetcher/assemble.rs:253-282 | while a task or the hasher is at work some step that gets on is possible: a piece placed, a signal sent or taken, a read, or the end |
| ParallelWrite.GettingOnEnds | src/chunk_fetcher/assemble.rs:253-282 | every such step leaves less to do, by a measure that cannot fall forever |
| HasherSoundness.VerdictIsDigestOfFile | src/incremental_hash.rs:115-127 | for every plan and interleaving, a verdict is the digest of the first `total_size` bytes of the final file |
| HasherSoundness.SameVerdictAsReread | src/incremental_hash.rs:74-80 | the verdict equals that of a full re-read exactly when the plan is in bounds |
| DistinctExtents.VerdictRulesOutOutliers | src/incremental_hash.rs:115-127 | unless an out-of-bounds piece shares its start with another, a verdict means that no piece is out of bounds, the file is `total_size` long and the verdict is its digest |
| HasherSoundness.FinalLength | src/chunk_fetcher/assemble.rs:315-323 | the file ends up `total_size` long exactly when the plan is in bounds |
| HasherSoundness.WatermarkInBounds | src/incremental_hash.rs:92-93 | the watermark stays within the file when the plan does |
| HasherSoundness.WatermarkPassesEnd | src/incremental_hash.rs:92-93 | one extent from offset 0 that is too long moves it past the end |
| DistinctExtents.OrderDoesNotMoveMark | src/incremental_hash.rs:101-103 | for pieces with distinct starts the watermark ends up at one place whatever the order of the signals, and is never past it |
| DistinctExtents.WatermarkStaysIff | src/incremental_hash.rs:92-93 | so it stays within the file in every run exactly when that place is |
| HasherCompleteness.TilingIsHashed | src/incremental_hash.rs:97-127 | on an exact tiling the hasher gives up only if a read fails, for every order of signals |
| FullRuns.RunCanEnd | src/chunk_fetcher/assemble.rs:199-312 | from any reachable state of any plan the run can be completed without a failed read or attempt |
| FullRuns.SomeRunCompletes | src/chunk_fetcher/assemble.rs:199-312 | so every plan has a run in which all tasks finish, the hasher ends and no read fails |
| HasherCompleteness.RunVerifies | src/chunk_fetcher/assemble.rs:199-312 | every finished run of a tiling has rebuilt the file and holds its digest |
| AssembledFile.RunAssembles | src/chunk_fetcher/assemble.rs:215-303 | every complete run of a disjoint in-bounds plan, failed attempts included, leaves every slice in place |
| AssembledFile.OrderIndependent | src/chunk_fetcher/assemble.rs:215-303 | two complete runs leave the same file |
| Attempts.PackAttemptIsRun | src/chunk_fetcher/scatter.rs:58-105 | a pack attempt that nothing interrupts, whatever bytes came and however it ended, is a run of its task in the state machine |
| PackRuns.TurnIsAct | src/chunk_fetcher/scatter.rs:68-102 | one turn of the scatter loop, in whatever state the other tasks have left the file, is one act of its task |
| PackRuns.ExecutionIsRun | src/chunk_fetcher/assemble.rs:215-303 | however those turns of all tasks and all attempts fall between one another, whatever packs were sent, the execution is a run of the machine, so the results about all runs are about the fetch code |
| PackRuns.FetchedIsFile | hippius_hub/file_download.py:618-669 | however the fetch code ran over the pull plan of a described file, at its end the file is there and verified |
| Attempts.ChunkAttemptIsStep | src/chunked_downloader/download.rs:495-612 | a Range attempt that nothing interrupts, against any server, is one step of its task |
| RangeRuns.FlushIsAct | src/chunked_downloader/download.rs:535-579 | one flush, whole or cut short, in whatever state the other tasks have left the file, is one act of its task |
| RangeRuns.ExecutionIsRun | src/chunked_downloader/download.rs:360-421 | however the flushes of all tasks and all attempts fall between one another, the execution is a run of the machine for the bodies accepted in the end |
| RangeRuns.DownloadedIsBlob | src/chunked_downloader/download.rs:116-208 | whatever bodies of the right length were accepted, verification passes at the end exactly when the file is the blob; and it is if they were its slices |
| Attempts.PulledIsTask | hippius_hub/file_download.py:643-656 | the tasks of a pull plan are the tasks of that state machine |
| FileDigest.VerifyFileDigest | src/chunk_fetcher/scatter.rs:24-48 | incremental digest or full re-read, a re-read that fails, a panic, or a mismatch |
| FileDigest.ResolveVerifiedDigest | src/chunked_downloader/verify.rs:34-66 | the digest and the route it came by, a re-read that fails, or a panic |
| FileDigest.VerifiedIsTrue | src/chunk_fetcher/scatter.rs:15-23 | for every in-bounds plan, verification passes exactly when the file on disk has the expected digest, whichever route is taken, unless a needed re-read fails |
| FileDigest.PullReadsBack | hippius_hub/file_download.py:618-669 | every interleaving of the pack tasks leaves the file and verifies it |
| RangePlan.TilingExact | src/chunked_downloader/plan.rs:14-40 | the chunk bounds are right exactly when the chunks do not reach past 2^64 |
| RangePlan.SumFitsSuffices | src/chunked_downloader/plan.rs:14-40 | which holds when length and chunk size add up within 64 bits |
| RangePlan.NumChunksCovers | src/chunked_downloader/plan.rs:14-31 | the least number of chunks that covers the file |
| RangePlan.RangeMustMatch | src/chunked_downloader/plan.rs:60-75 | a rendered `Content-Range` (section 14.4 of RFC 9110) is accepted exactly for its own bounds |
| RangePlan.OnlyBeforeSlash | src/chunked_downloader/plan.rs:47-51 | in any header only what stands before the first slash counts |
| RangePlan.MissingSlashAccepted | src/chunked_downloader/plan.rs:47-51 | so any header is accepted exactly when it is without its total, and a range without one is accepted |
| RangeDownload.HonestResponse | src/chunked_downloader/download.rs:495-612 | a 206 for the range asked for, with exactly its bytes, is accepted and offers them all |
| RangeDownload.TryDownloadChunk | src/chunked_downloader/download.rs:495-612 | for any response, the outcome, and that a first part of the owed bytes is all that was written |
| RangeDownload.AttemptConfined | src/chunked_downloader/download.rs:543-579 | no attempt changes a byte outside its range, and success means that the body was exactly the range |
| RangeDownload.DownloadChunkWithRetry | src/chunked_downloader/download.rs:442-485 | at most four attempts and 1.4 s of sleep; a permanent error is never retried and a retryable one never given up early; confined to the range, filled by one accepted response on success |
| RangeDownload.RunChunkFanout | src/chunked_downloader/download.rs:360-421 | every index spawned once, at most 32 live, and on success every extent signalled exactly once |
| RangeRebuild.ChunksTile | src/chunked_downloader/plan.rs:33-40 | the chunks tile the blob with its own bytes |
| RangeRebuild.RangeDownloadEnds | src/chunked_downloader/download.rs:360-421 | such a download can end without a failed read |
| RangeRebuild.RangeDownloadVerifies | src/chunked_downloader/download.rs:116-208 | a verified download needs no second read unless the hasher fails to read, and only then can a failing re-read matter |
| RangeRebuild.CheckPlan | src/chunked_downloader/download.rs:130-152 | an empty blob is answered at once and a zero chunk size refused |
| PatchSession.CommittedExact | src/uploader/blob.rs:181-193 | the committed count is exact, except that one byte reads as none |
| PatchSession.NeverOverReports | src/uploader/blob.rs:174-180 | and never more than the registry holds |
| PatchSession.LandKeepsPrefix | src/uploader/blob.rs:313-430 | any part of a chunk landing at any time keeps the committed bytes a prefix of the file |
| PatchSession.LostTurn | src/uploader/blob.rs:313-430 | after a PATCH whose answer was lost the loop goes on from what the registry says it has, if that is more; with a fresh session if this one is gone; else by trying again, up to three times in a row |
| PatchSession.ChunkedPatchUpload | src/uploader/blob.rs:313-430 | the loop ends; `Done` means the session holds the file; at most four PATCHes a byte; every non-final PATCH is at least the registry's minimum; what it does is the client function of the answers, which are possible ones |
| PatchSession.FallBackIsSafe | src/uploader/blob.rs:389-391 | the answers that lead to the fall-back rule out a non-empty session exactly when the refusal answered the first PATCH and refusals commit nothing |
| PatchSession.FallBackAppends | src/uploader/blob.rs:520-529 | possible answers after which the PUT is appended to one committed byte |
| PatchSession.CloseChunkedUpload | src/uploader/blob.rs:445-478 | at most four attempts; success stores the file; a 404, which says that the session expired, comes back as a restart and never as itself; a permanent error is not retried |
| PatchSession.UploadBlob | src/uploader/blob.rs:46-74 | at most four sessions of at most four PATCHes a byte, and one whose close was answered 404 is followed by another unless it was the fourth; success stores the file after what the session held at a fall-back; that is the file exactly when it held nothing, as it did if there was no fall-back, if the digest is checked, or if the first PATCH was refused and refusals commit nothing |
| Retry.ForceRetryableSpec | src/uploader/blob.rs:195-210 | forcing makes every error retryable and never wraps a restart in a restart |
| Retry.BackoffBelowCap | src/retry.rs:44-55 | below `2^attempt * 100 ms` for every attempt and clock value, without overflow |
| Retry.BackoffBudget | src/uploader/blob.rs:52-72 | the three sleeps of a loop add up to less than 1.4 s |
| ChunkStream.ChunkStreamCore.NextMsg | src/uploader/stream.rs:98-133 | one step of the stream's state machine |
| ChunkStream.TraceIsFaithful | src/uploader/stream.rs:91-147 | for every sequence of calls the batches are a prefix of those produced, the end means all of them, and a digest comes only from a producer that said it was done |
| ChunkStream.GoodProducerDelivered | src/uploader/stream.rs:98-133 | a producer that sends its batches and says it is done is delivered in full, and then finishes |
| ChunkStream.BadEndings | src/uploader/stream.rs:98-133 | an error, a panic, or no last message ends in an error, whatever was sent before; a slow producer is waited for |
| ChunkStream.FailureSticks | src/uploader/stream.rs:96-97 | after a failure no call succeeds |
| ChunkStream.EndIsTerminal | src/uploader/stream.rs:99-105 | once the end or the digest was given, no later call, an abort included, changes the state |
| PackGate.GateIsSafeAndLive | src/chunk_fetcher/assemble.rs:209-242 | both caps hold in every run and some task can always get on |
| PackGate.RunConserves | src/chunk_fetcher/client.rs:168-171 | permits are conserved and every run ends |

## Left out

- SHA-256 and FastCDC: a digest wraps its content, and the chunk boundaries are any tiling of the file with non-empty chunks of at most 16 MiB.
- HTTP clients, TLS, pools, timeouts, progress bars, tokens and their refresh on 401: only the outcomes of requests are modelled; tasks aborted on an error path are not.
- JSON escapes, white space, fractions and text outside ASCII in pointer blobs: the parser here refuses them. Numbers given as strings, which the Python `int()` would accept, and negative sizes are refused as well.
- The annotations and size limit of a manifest beyond its layers, delete patterns (a commit deletes any set of titles), and the check of plain uploads for blobs already present.
- Garbage collection at work during an upload: `History.Collect` runs between commits, when no writer holds an older manifest.
- Titles that differ only in `\` and `/` within one folder upload: the commit events require cleaned titles to be distinct, which the source does not check; and an empty title, which would be no title at all.
- A registry that serves other bytes than it stored: pointer fetches return the stored blob, and only pack and Range bodies (`PackFetch`, `RangeDownload`) may be anything. File lengths fit 64 bits.
- Manifests written by other tools: histories start from an empty revision.
- URLs: session and redirect addresses are not modelled, except that a bad `Location` ends an upload.
- src/uploader/pack.rs, src/uploader/cdc.rs and src/uploader/watchdog.rs are not part of this model: a pack upload stores the concatenated ranges.
- Upload.UploadChunked: packs go up one after the other; in the source they go up in parallel, which leaves the same store (`StoredInAnyOrder`).
- UploadFile.UploadOp: ends at the merged layers; the PUT that follows is `Commit.PutManifest`, and `ConcurrentHistory` puts the two together.
- UploadFolder.FolderOp: likewise ends at the merged layers, and its files go up one after the other.
- ConcurrentHistory.NoLostContent: the upload of a commit is one step, besides single blobs that any writer may store at any time, and nothing is collected.
- RangePlan.RangeMustMatch: speaks of rendered headers; of other headers only `OnlyBeforeSlash` is stated.
- RangeDownload.DownloadChunkWithRetry: confinement and delivery are stated for ranges whose start is no later than their end, inside the file, as the chunk bounds are whenever `TilingExact` says they are right.
- Reupload.RunCommit: the registry loses blobs before an attempt; one that goes missing between the uploads and the PUT counts as lost before the next attempt. The digests that a refusal names are any set.
- Reupload.CommitWithBlobReupload: is about one file; a folder upload that is run again is not modelled.
- The command line, the console API, caches, cards and diagnostics.
