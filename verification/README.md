# Ferry, modelled and proved

Ferry copies a Geth datadir to object storage and back. A datadir is split into up to
four tar parts, each part is streamed through zstd into a multipart upload, a manifest is
written last, and a download extracts every part into a scratch directory that replaces
the real one only at the end. This project models that machinery and proves what it is for:
bytes are neither lost nor reordered, a visible snapshot is a complete one, a failed
download leaves the old datadir alone, and what comes back is what was sent.

`dafny verify dfyconfig.toml` checks everything.

## How it is organised

- **Multipart upload.** `Multipart` is a transition system for one S3 writer: copying a
  chunk, rotating the buffer, waiting for a slot, a worker succeeding or failing, `Close`
  and `Abort` are separate steps, so its theorems hold for every interleaving.
  `MultipartWriters` is the class with the writer's own fields; its `Valid()` says that the
  fields are a state some run reaches, and every method extends that run.
  `SharedBuffers` puts any number of writers on one backend whose buffers are identities
  in a shared memory and a shared pool, and shows that each writer still behaves as
  `Multipart` says. `WriterContract` is the promise a backend's writer makes; the S3 class
  and `AtomicFiles` (the file backend) both keep it.
- **Snapshots.** `WorkerPool` is the pool that uploads and downloads share, `Dispatchers`
  the class that runs it. `UploadProtocol` and `DownloadProtocol` embed the pool in whole
  runs with failures, crashes and cancellation between any two steps, and `DownloadRuns`
  builds the runs that show which interleavings, losses and gaps occur and `DownloadSafety`
  says what a run may touch, all on one disk that holds the scratch directory, the
  destination beside it and everything else. `PartUploads` and
  `PartDownloads` are the bodies of one worker; `Manifests`, `AtomicTargets` and
  `Verification` are the manifest check, the promotion of the scratch directory, and
  `ferry verify`.
- **Datadirs.** `FileTrees`, `SnapshotPlan` and `Walks` cover the walk, the part plan and
  the three walks that must agree; `Paths` covers path cleaning, `Disks` a file system on
  which calls follow links, and `Extraction` `safeExtract` on it. `PlainExtraction` is the
  simple form that works on the tree alone, and `Containment` shows when the real one does
  exactly that; `Schedules` describes an interleaving; `RoundTrip` puts them together and
  `EndToEnd` connects an upload run to a download run, and `Buckets` puts both on one
  bucket with full S3 keys.
- **RLP and names.** `Rlp` is the encoder of Appendix B of the Ethereum Yellow Paper,
  `HeaderReader` the hand-written reader over 64-bit signed offsets. `Names` and
  `Addressing` cover snapshot names and object keys.

Worker goroutines are steps of the transition systems, which allow any order. In the class
methods they make progress at the points where the program itself synchronises (the error
check, the semaphore, the wait group). Remote calls, reads and system calls that may fail
are nondeterministic.

## Where the code falls short of its comments or documentation

- `docs/design.md:340-343` promises that a failed run leaves the original datadir
  untouched. Commit removes the old tree before it renames the new one, so a run that
  fails inside Commit can lose it. `DestinationIsSafeIff` says when: where a destination
  exists, is empty or forced, and the manifest is well-formed.
  `IntactDownloadCanLoseTheOriginal` shows it with every part intact.
- `docs/design.md:344-346` and `pkg/snapshot/extract.go:12-17` promise that entries which
  would escape are rejected. The check is lexical and refuses absolute link targets only;
  an entry that runs through an extracted relative link is written where the link leads
  (`LinkedEntryChangesTheDestination`). `EntryStaysIff` is the condition for an entry,
  `OutsideIsSafeIff` for the runs of a source. Archives that ferry made meet it
  (`PublishedIsConfined`), unless their chaindata/ was a link.
- `docs/design.md:384-388` calls concurrent extraction race-free. Where chaindata/ is a
  link, its outcome depends on the interleaving (`DirectoryFirstFails`).
- Both pools leave their loop silently when the caller's context is cancelled. An upload is
  rescued by the manifest check (`CollectPublishesIff`). A download is not: it can return
  success with an empty datadir wherever it can commit at all
  (`CancelledDownloadSucceedsEmptyIff`).
- With overwrite, the old manifest stays visible while new parts replace the old ones. A
  torn snapshot is reachable exactly when the plan gives a listed part or sidecar another
  size or digest (`UploadTearsIff`).
- `readBEUint` turns an 8-byte length with the top bit set into a negative offset, and the
  next read panics: `HugeLengthPanics` is an input, `FieldAtPanicsIff` the exact condition
  for the whole reader.
- A datadir comes back exactly if and only if its links are relative, it holds no device
  files, its `chaindata/` and its `ancient/` are not links, and its optional directories
  are not links that lead nowhere (`RebuildsExactlyWhenPortable`). An `ancient/` kept on
  another volume behind a link is uploaded and comes back as a plain directory
  (`LinkedAncientIsAcceptedAndLost`); a link to an unmounted volume is dropped without an
  error (`UnmountedStateIsDropped`).
- A parent path that ends in two slashes, and is not made of slashes alone, makes the
  download look under another key than the upload wrote (`AddressesAgreeIff`).
- `pkg/backend/s3/s3.go:47-50` puts the memory of one writer at concurrency buffers; the
  tight bound is two more, the current one and one that waits for a slot (`BoundedMemory`,
  `MemoryBoundIsReached`).

## Model

| member | source | states |
|---|---|---|
| Multipart.StepKeepsInv | pkg/backend/s3/s3.go:386-549 | every step of a writer (copy, rotate, take a slot, succeed, fail, close, abort) keeps the geometry, the account of parts and the life cycle |
| Multipart.NothingLostOrReordered | pkg/backend/s3/s3.go:386-449 | in every reachable state the parts cut so far, in order, then the buffer, are the bytes written; the waiting part and each in-flight body is the piece its number names |
| Multipart.PartsAccounted | pkg/backend/s3/s3.go:425-494 | until a failure, each number below partNum is in exactly one of completed, in flight or waiting for a slot, and completed at most once |
| Multipart.SortSorts | pkg/backend/s3/s3.go:518-521 | the sort before completion gives the same part numbers in ascending order |
| Multipart.CompleteListRebuilds | pkg/backend/s3/s3.go:518-528 | in whatever order the workers finished, the sorted part list assembles to the pieces in the order they were cut |
| Multipart.StreamPreserved | pkg/backend/s3/s3.go:499-549 | over every run, a completed object is exactly the bytes written, it exists if and only if the first Close returned nil, and never after a part failure or an Abort |
| Multipart.CommittedGeometry | pkg/backend/s3/s3.go:386-436 | a committed object of n bytes has ceil(n / partSize) parts, at most 10000, all but the last of full size |
| Multipart.PartCount | pkg/backend/s3/s3.go:39-43 | the number of parts stays within 10000 if and only if the total is at most 10000 part sizes |
| Multipart.CommitsIffItFits | pkg/backend/s3/s3.go:39-43 | for every part size, concurrency and stream: some run commits the stream if and only if it is at most 10000 part sizes long (for the empty stream that run needs a remote that accepts an empty part list) |
| Multipart.PartNumBounded | pkg/backend/s3/s3.go:425-449 | the 32-bit part counter never passes 10000 + concurrency + 2, so it cannot wrap |
| Multipart.NeverStuck | pkg/backend/s3/s3.go:425-549 | a dispatcher waiting for a slot, a Close and an Abort always have a step that lets them go on |
| Multipart.StepsUseUpWhatIsLeft | pkg/backend/s3/s3.go:425-549 | every step but copying in more bytes lowers one measure of what is left to do |
| Multipart.BegunEnds | pkg/backend/s3/s3.go:499-549 | from the moment a Close or Abort has begun, every run has at most concurrency + 6 more steps, in whatever order they come |
| MultipartWriters.MultipartWriter.constructor | pkg/backend/s3/s3.go:76-94 | part size and concurrency are the configured ones or, when not positive, 256 MiB and 5 |
| MultipartWriters.MultipartWriter.Write | pkg/backend/s3/s3.go:386-407 | terminates, keeps the writer reachable, and takes all of p when it succeeds; on an error it reports 0 bytes, has taken some prefix of p, and the error sticks; nothing becomes visible |
| MultipartWriters.MultipartWriter.DispatchBuffered | pkg/backend/s3/s3.go:425-449 | on success the buffer is empty and its bytes are still counted as written; on the sticky error the buffer stays |
| MultipartWriters.MultipartWriter.Launch | pkg/backend/s3/s3.go:438-447 | waits for a slot and hands the waiting part to a worker, losing no byte |
| MultipartWriters.MultipartWriter.RunWorker | pkg/backend/s3/s3.go:468-494 | one in-flight part fewer, its outcome recorded, an earlier error kept |
| MultipartWriters.MultipartWriter.WaitAll | pkg/backend/s3/s3.go:507 | no part is left in flight |
| MultipartWriters.MultipartWriter.Flush | pkg/backend/s3/s3.go:503-507 | afterwards nothing waits or flies and the buffer is empty unless the upload has failed |
| MultipartWriters.MultipartWriter.Complete | pkg/backend/s3/s3.go:509-532 | fails exactly on a recorded error or a refused completion; otherwise the key holds exactly the bytes written |
| MultipartWriters.MultipartWriter.Close | pkg/backend/s3/s3.go:499-533 | a first Close that returns nil stores exactly the bytes written under the key and changes no other key; an error or a later call changes nothing; an earlier error makes it fail |
| MultipartWriters.MultipartWriter.Abort | pkg/backend/s3/s3.go:539-549 | the first Abort ends the writer with nothing visible; after Close or Abort it changes nothing |
| SharedBuffers.ActKeepsInv | pkg/backend/s3/s3.go:317-466 | with any number of writers, every step keeps each buffer in exactly one place (pool, a writer's buffer, waiting, in flight, being returned) and each writer within its slots |
| SharedBuffers.WriterStepRefines | pkg/backend/s3/s3.go:386-466 | seen through its buffers, each step of a writer on the shared pool is the same step of the writer that owns its bytes |
| SharedBuffers.OthersUndisturbed | pkg/backend/s3/s3.go:425-466 | no step of one writer, of the pool or of the garbage collector changes what another writer's buffers hold |
| SharedBuffers.SharedPoolIsSafe | pkg/backend/s3/s3.go:294-466 | over every history of a backend, ownership stays exclusive and every writer is in a state that it could have reached alone |
| SharedBuffers.SharedStreamPreserved | pkg/backend/s3/s3.go:386-549 | on a shared pool too, a writer's completed object is exactly its own bytes, and trouble completes none |
| SharedBuffers.BoundedMemory | pkg/backend/s3/s3.go:425-466 | per writer at most `concurrency` parts are in flight and `concurrency + 2` buffers are checked out, none of them pooled |
| SharedBuffers.MemoryBoundIsReached | pkg/backend/s3/s3.go:425-449 | the bound is tight: for every part size and concurrency some history has a writer that holds `concurrency + 2` buffers |
| WriterContract.VisibleOnlyThroughFirstClose | pkg/backend/backend.go:41-67 | over every sequence of calls, the visible object changes only at a first Close that returns nil, to the bytes written; everything after the first Close or Abort changes nothing |
| WriterContract.NothingVisibleBeforeEnd | pkg/backend/backend.go:41-46 | until the first Close or Abort a reader sees what was there before |
| AtomicFiles.AtomicFile.constructor | pkg/backend/file/file.go:121-131 | creates an empty temporary file and touches nothing else |
| AtomicFiles.AtomicFile.Write | pkg/backend/file/file.go:150-152 | appends the accepted prefix to the temporary file only; an error is exactly a short write |
| AtomicFiles.AtomicFile.Close | pkg/backend/file/file.go:154-168 | a first success moves exactly the written bytes to the final path and removes the temporary file; a failure or a repeated call leaves the final path; no other file changes |
| AtomicFiles.AtomicFile.Abort | pkg/backend/file/file.go:170-177 | at most the temporary file disappears; after Close or Abort nothing changes |
| Rlp.ValueOfBigEndian | internal/datadir/header.go:140-151 | the value of the minimal big-endian bytes of n is n |
| HeaderReader.ReadBEUint | internal/datadir/header.go:140-151 | the shift loop computes the value of up to 8 bytes wrapped into a signed 64-bit integer and refuses longer input |
| HeaderReader.SkipItemExactIff | internal/datadir/header.go:73-108 | on arbitrary bytes, skipping never reads out of bounds from an offset that is not negative; it succeeds if and only if the item's header is complete; it lands on the declared end if and only if that end fits 63 bits, and then moves forward |
| HeaderReader.NextReadPanicsIff | internal/datadir/header.go:75-151 | the read after a skip is out of bounds if and only if the declared end, modulo 2^64, has its top bit set |
| HeaderReader.FieldAtPanicsIff | internal/datadir/header.go:31-151 | on arbitrary bytes, reading field k goes out of bounds if and only if the list header is readable and one of the k items skipped on the way declares an end whose 64-bit value is negative |
| HeaderReader.FieldAtNeverPanics | internal/datadir/header.go:31-108 | where every item that the reader actually skips ends below 2^63, nothing goes out of bounds and every skip moves forward, whatever the bytes it jumps over look like |
| HeaderReader.HugeLengthPanics | internal/datadir/header.go:31-151 | a ten-byte header whose first item declares a length of 2^63 panics the reader of any field from the third on, so the timestamp reader too |
| HeaderReader.SkipEncoded | internal/datadir/header.go:73-108 | on every nested item's encoding, skipping returns the offset just past it |
| HeaderReader.EnterHeader | internal/datadir/header.go:48-71 | at the start of an encoded list, the reader returns the first item's offset and the body length |
| HeaderReader.ReadUintEncoded | internal/datadir/header.go:110-138 | on the encoding of every item, reading gives the unsigned value and the next offset for strings of up to 8 bytes and an error for lists and longer strings |
| HeaderReader.UintRoundTrip | internal/datadir/header.go:110-151 | every 64-bit unsigned integer, those from 2^63 on included, is read back from its canonical encoding |
| HeaderReader.FieldAtEncoded | internal/datadir/header.go:31-45 | on the encoding of every list, the skip-then-read loop returns field k's value, or an error if the field is missing or not an integer |
| HeaderReader.ReadHeaderTimestamp | internal/datadir/header.go:31-45 | on arbitrary bytes the loop returns what the field specification says of field 11, error cases included; on the encoding of every block header, given by the names and order of its fields with any later ones after them, it returns that header's timestamp, or an error if that is not a uint64 |
| HeaderReader.TimestampRoundTrip | internal/datadir/header.go:31-45 | for every block header, whatever its other fields hold, the field that is read back is the one named timestamp |
| HeaderReader.FreezerTailRoundTrip | internal/datadir/freezer.go:24-51 | the tail is read back from [version, tail] followed by any further fields |
| HeaderReader.FreezerTailIsFieldOne | internal/datadir/freezer.go:38-50 | on arbitrary bytes the freezer parser is the field reader at index 1 |
| Paths.SafePathStaysInside | pkg/snapshot/extract.go:118-126 | lexically, an accepted entry name is a path of ordinary names below the destination; a name is refused exactly when its cleaned form starts with two dots |
| Paths.SafePathOfRendered | pkg/snapshot/extract.go:118-126 | the name of a tar entry, with or without a directory's trailing slash, resolves to the path it was made from |
| Disks.CleanLeadsThere | pkg/snapshot/extract.go:118-126 | cleaning keeps the meaning of a path: on every disk without links a path that leads to a place still leads there when it is cleaned, from any directory or from the root |
| Extraction.HeaderNames | pkg/upload/upload.go:692-702 | the name in a header cleans to the path of its entry, and ends in a slash if and only if the entry is a directory |
| Extraction.Untar | pkg/snapshot/extract.go:18-32 | the loop applies the entries in order, on a file system with links, and fails at the first one that fails |
| Extraction.MkdirAllMakes | pkg/snapshot/extract.go:129-146 | MkdirAll, which takes a link to a directory for a directory, only adds directories below the nearest existing ancestor, with links followed, and on success leaves a directory there |
| Extraction.MakeFrame | pkg/snapshot/extract.go:118-155 | an entry, successful or not, changes only the places it touches: nothing disappears, only files are overwritten, and a failed one leaves no link |
| Extraction.EntryStaysIff | pkg/snapshot/extract.go:118-155 | for every disk and every entry, links included: everything it makes or writes lies below the root if and only if the nearest existing ancestor of its parent, and for a file its last segment, resolve there |
| PlainExtraction.MakeAdds | pkg/snapshot/extract.go:118-155 | where no link is on the way, a successful entry adds its object and exactly its missing parents and changes nothing else |
| Containment.PlainMakes | pkg/snapshot/extract.go:118-155 | where no link is on the way, an entry on a real disk succeeds exactly when plain extraction does, does the same to the tree below the root, and changes nothing outside |
| Containment.EntryStays | pkg/snapshot/extract.go:118-155 | and touches no place outside the root, even when it fails |
| Containment.SequenceIsPlain | pkg/snapshot/extract.go:18-32 | the same for whole sequences of entries of streams in which no link is on the way of any entry |
| FileTrees.WalkEmits | pkg/upload/upload.go:662-728 | the walk emits an entry if and only if it is a node of the tree with no skipped path on the way to it |
| FileTrees.WalkDistinct | pkg/upload/upload.go:662-728 | no path is emitted twice, and every directory comes before what is in it |
| SnapshotPlan.PrefixTestIsExact | pkg/upload/upload.go:367-369 | the string test "equal, or begins with it and a slash" is exactly "below it" on path segments |
| SnapshotPlan.SkipAncientIff | pkg/upload/upload.go:367-369 | the live part skips exactly chaindata/ancient and what is below it |
| SnapshotPlan.PartHolds | pkg/upload/upload.go:353-395 | a part's tar holds exactly the nodes under its directory that its predicate does not skip |
| SnapshotPlan.PartsDisjoint | docs/design.md:384-388 | no path belongs to two planned parts |
| SnapshotPlan.PartsCover | pkg/upload/upload.go:278-395 | if neither chaindata/ nor ancient/ is a link, the ancient layout is accepted and the optional directories resolve, every node of chaindata/ and triedb/ except ancient/ itself is in some planned part |
| SnapshotPlan.LayoutOkIff | pkg/upload/upload.go:278-299 | where no link is on the way, the layout check passes if and only if ancient/ is missing or a directory and everything below it lies under chain/ or state/ |
| SnapshotPlan.ObjectNamesDistinct | pkg/upload/upload.go:349-395 | the part and sidecar names of a plan are all different |
| Schedules.MergeTakesAll | pkg/download/download.go:145-168 | a finished interleaving contains every entry of every stream |
| Schedules.TakenOnce | pkg/download/download.go:145-168 | and takes none of them twice |
| RoundTrip.ExtractEntries | pkg/snapshot/extract.go:118-155 | entries of one tree with different paths, in any order, extract plainly without error if and only if their links have relative, non-empty targets; the result then agrees with the tree and holds exactly the entries and their parents |
| RoundTrip.UploadedStreamsArePlain | pkg/upload/upload.go:662-728 | in the streams of every accepted upload no link is on the way of any entry, unless chaindata/ is itself a link |
| RoundTrip.RebuildsExactlyWhenPortable | pkg/snapshot/extract.go:18-155 | for every tree that an upload accepts, every interleaving of its parts and every disk with an empty directory: extraction succeeds and chaindata/ and triedb/ come back there exactly, with all that the parts carried, if and only if the tree is portable; unless chaindata/ is a link nothing outside changes |
| RoundTrip.LinkedAncientIsLost | pkg/upload/upload.go:278-299 | where ancient/ is a link, plain extraction of no interleaving of an accepted upload's parts puts the link back |
| RoundTrip.LinkedAncientIsAcceptedAndLost | pkg/upload/upload.go:278-299 | such an upload exists: a link to a mounted volume that holds a chain freezer passes the layout check and every walk |
| RoundTrip.LinkedChaindataIsNotBack | pkg/upload/upload.go:353-395 | where chaindata/ is a link, no disk whatever holds both that tree and what the accepted upload's parts carried |
| RoundTrip.DirectoryFirstFails | docs/design.md:384-388 | such parts are not independent: every interleaving that takes a freezer entry before the link of the live part fails |
| RoundTrip.UnmountedStateIsDropped | pkg/upload/upload.go:377-395 | a datadir whose ancient/state is a link to nowhere is accepted and its link is in no part |
| Walks.WalkSize | pkg/upload/upload.go:417-443 | the accumulating walk adds the number of regular files that the walk emits, and the length of all that they hold put together |
| Walks.TarKids | pkg/upload/upload.go:662-728 | over a directory's children, fails exactly on a socket, and otherwise appends the headers and the file list of the walk in order |
| Walks.TarTree | pkg/upload/upload.go:662-728 | over a whole tree, fails exactly on a socket, and otherwise appends the headers and the file list of the walk in order |
| Walks.ThreeWalksAgree | cmd/ferry/upload.go:276-364 | the dry run's walk, the planning walk and the tar walk list the same files with the same contents for every planned part, although their roots and skip predicates differ |
| Walks.PrintPlan | cmd/ferry/upload.go:228-333 | the dry run announces exactly the keys of the planned parts, in order; where an upload would accept the tree, its totals are the number of regular files in all the parts and the length of all that they hold put together |
| Walks.DryRunIsExact | cmd/ferry/upload.go:310-322 | for every tree that an upload accepts, the files that the dry run measures hold, one after the other, exactly what the files in the parts hold |
| Walks.TotalsAgree | pkg/upload/upload.go:397-405 | so the three walks measure the same contents, and the sidecar's lines give the length of each file in order |
| Walks.TocListsFiles | pkg/upload/upload.go:567-573 | the sidecar lists a name and a size if and only if the part has that regular file |
| WorkerPool.NextKeepsInv | pkg/upload/upload.go:464-520 | every step of the pool keeps its invariant: jobs start in order, at most the clamped number run, an error cancels the run, leaving early means that someone cancelled |
| WorkerPool.NextIsMonotone | pkg/upload/upload.go:481-514 | the first error, finished jobs and the caller's cancellation are never undone |
| WorkerPool.FirstErrorStays | pkg/upload/upload.go:481-488 | over a whole run the recorded error is never replaced |
| WorkerPool.CancelStopsLaunching | pkg/upload/upload.go:490-498 | once an error is recorded or the caller has cancelled, over the rest of the run no job is started except the one that had already passed the check |
| WorkerPool.NilMeansAllWon | pkg/upload/upload.go:492-519 | an ended pool without an error filled every slot if and only if it did not leave its loop early, and it leaves early without an error only if the caller cancelled |
| WorkerPool.NoDeadlock | pkg/upload/upload.go:490-515 | a pool that has not ended always has a step of its own |
| WorkerPool.MovesUseFuel | pkg/upload/upload.go:490-515 | each such step lowers a measure that cancellation leaves alone, so the pool ends |
| WorkerPool.PoolTheorem | pkg/download/download.go:116-173 | over every run at most as many jobs run at once as were asked for, but at least one and not more than there are, there are at most 3 * jobs + 1 steps, and no error without cancellation means that every job succeeded |
| WorkerPool.BoundIsReached | pkg/upload/upload.go:464-480 | the bound is tight: some run of every pool has exactly as many jobs running at once as were asked for, but at least one and not more than there are |
| Dispatchers.Dispatcher.FinishOne | pkg/upload/upload.go:498-513 | one running worker ends and writes its own slot or the first error |
| Dispatchers.Dispatcher.Launch | pkg/upload/upload.go:496-498 | the loop starts the next job once a slot is free |
| Dispatchers.Dispatcher.WaitAll | pkg/upload/upload.go:515 | no worker is left running |
| Dispatchers.Dispatcher.RunAll | pkg/upload/upload.go:464-520 | the whole pool: without an error and cancellation the results are each job's result at its own index; a gap without an error is exactly the early break; an error names a job that failed |
| Manifests.Validate | pkg/snapshot/manifest.go:130-157 | accepts exactly the well-formed manifests and names the first problem there is: another version than 1, no name, a role that is neither of the two, no parts, or the first part without a name, with a name seen before, or without a digest |
| UploadProtocol.StepKeepsInv | pkg/upload/upload.go:127-200 | every step of an upload run, in any interleaving, keeps "a filled slot is the record of objects that are stored" |
| UploadProtocol.CollectPublishesIff | pkg/upload/upload.go:184-195 | the manifest check passes if and only if every planned part was uploaded; a cancelled run fails |
| UploadProtocol.ManifestIsLast | pkg/upload/upload.go:127-200 | from a free name, in every state of every run (failures, crashes and cancellation at any point) a visible manifest has version 1 and the name and role of the run and lists exactly the planned parts, each described field by field, and each part and sidecar it lists is stored with its size and digest |
| UploadProtocol.ExistingSnapshotUntouched | pkg/upload/upload.go:218-243 | without overwrite, a run on a taken name changes neither the objects nor the manifest |
| UploadProtocol.NothingStoredUnchecked | pkg/upload/upload.go:229-243 | without overwrite, nothing is stored in any state unless the existence check was answered and found no manifest |
| UploadProtocol.UploadCanSucceed | pkg/upload/upload.go:127-200 | from a free name some run of every plan ends in success |
| UploadProtocol.UploadTearsIff | pkg/upload/upload.go:127-243 | from every intact visible snapshot, some run reaches a state in which a listed object is missing or different if and only if it overwrites and plans another size or digest for a part or sidecar that the manifest lists |
| UploadProtocol.OverwriteCanTear | pkg/upload/upload.go:230-233 | one concrete store and plan that tear |
| PartUploads.CountingTee.Write | pkg/upload/upload.go:540-541 | after a chunk is accepted, count, hash input and written bytes have all grown by exactly it; a refused chunk is neither counted nor hashed |
| PartUploads.StreamObject | pkg/upload/upload.go:522-583 | on success the key holds the encoder's whole output and the digest has its size and hash; on any failure every object is as before |
| PartUploads.UploadPart | pkg/upload/upload.go:522-649 | returns the record that the upload protocol stores only if the part and its sidecar are both stored; a failure leaves at most the part |
| PartDownloads.TeeReader.Read | pkg/download/download.go:193-197 | what is read, alone or together with the end or a failure, is the object's next bytes, and the hasher has seen exactly the bytes read |
| PartDownloads.TeeReader.Drain | pkg/download/download.go:220-224 | terminates, and without an error the hasher has seen the whole object, wherever reading stopped before |
| PartDownloads.DownloadPart | pkg/download/download.go:185-231 | success means that the object exists, decodes to a clean end and has the manifest's digest over all its bytes, and that the disk is what exactly its entries make of it; a failure leaves a prefix of them and at most a part of the next |
| AtomicTargets.PrepareAtomic | pkg/snapshot/extract.go:34-87 | makes an empty scratch directory and nothing else, or changes nothing; without force it refuses a destination that leads to a file, to a directory with anything at any depth below it, or that cannot be looked at, and passes one that is missing or an empty directory; with force it passes any |
| AtomicTargets.EmptyEnoughIff | pkg/snapshot/extract.go:34-52 | reading the names in the destination decides that: none is found if and only if no place of the disk lies below it |
| AtomicTargets.AtomicTarget.Commit | pkg/snapshot/extract.go:89-107 | success moves the scratch tree to the cleared destination; failure removes the scratch and leaves of the destination what the removal had not reached; a second call changes nothing |
| AtomicTargets.AtomicTarget.Abort | pkg/snapshot/extract.go:109-116 | removes the scratch the first time and touches nothing else |
| DownloadProtocol.StepKeepsInv | pkg/download/download.go:75-173 | every step of a download run on one disk with links, in any interleaving, keeps: until a part fails the disk is what the entries taken so far make of it, a finished part is verified and fully extracted, and whatever is neither in the scratch nor touched is as it was |
| DownloadSafety.OutsideIsSafeIff | docs/design.md:340-346 | for every source and disk: up to Commit no run, whatever fails in it, makes, writes or removes anything outside the scratch directory, if and only if every entry that a run comes to resolves inside it |
| DownloadSafety.PlainSourceStays | pkg/snapshot/extract.go:12-18 | it suffices that in the snapshot's streams no link is on the way of any entry |
| DownloadSafety.LinkedEntryChangesTheDestination | pkg/snapshot/extract.go:118-155 | without the condition the promise fails: a part with a relative link and a file through it, whose digest differs, leaves the file in the existing destination before the run returns its error |
| DownloadSafety.FailedDownloadChangesNothing | pkg/download/download.go:67-108 | where every entry stays, the whole disk outside the scratch directory is as it was in every state up to Commit, and a run that has returned has returned an error and left the disk as it was |
| DownloadSafety.DestinationIsSafeIff | docs/design.md:340-343 | runs that have not returned success, crashed ones included, touch nothing outside their scratch in any state, if and only if every entry stays, and there is no destination or the run cannot commit (it is neither empty nor forced, or the manifest is missing or ill-formed) |
| DownloadSafety.DestinationGuardIff | pkg/snapshot/extract.go:34-87 | every run leaves the disk as it is in every state and none returns success, if and only if force is not given and the destination leads to a file, to a directory with anything below it, or cannot be looked at; where it is missing, empty or forced and the manifest is well-formed, some run succeeds |
| DownloadRuns.IntactDownloadCanLoseTheOriginal | pkg/snapshot/extract.go:89-107 | even with every part intact, every interleaving and no cancellation, some run ends in an error with no destination left |
| DownloadProtocol.SuccessfulDownload | pkg/download/download.go:75-173 | on success the destination holds what an interleaving of the manifest's parts made in the scratch, and the rest of the disk is as that interleaving left it; the loop was not cut short if and only if a worker won every part, and then the interleaving is complete and every part's object exists, decodes to a clean end and has the manifest's digest; only the caller's cancellation cuts it short |
| DownloadSafety.PlainSuccess | pkg/download/download.go:75-173 | with no link on the way of the streams, that is exactly what plain extraction makes of an empty directory, and nothing else on the disk has changed |
| DownloadSafety.CancelledDownloadSucceedsEmptyIff | pkg/download/download.go:147-150 | some run returns success with an empty datadir and no part fetched if and only if the destination is free or forced and the manifest is well-formed |
| DownloadRuns.EveryInterleavingHappens | pkg/download/download.go:75-173 | for every complete interleaving of intact parts that extracts, some uncancelled run extracts along it, returns success and has moved its result to the destination |
| Verification.Verify | cmd/ferry/verify.go:61-97 | the result names, in manifest order and once for each, exactly the parts whose object cannot be read or has another length (quick) or digest (deep) than the manifest says |
| Verification.UploadedSnapshotVerifies | cmd/ferry/verify.go:61-97 | in every state of every upload run from a free name that shows its manifest, quick and deep verify both accept the readable snapshot |
| Verification.DownloadedMeansDeepVerified | cmd/ferry/verify.go:80-90 | deep verify accepts every snapshot that a download completed from |
| EndToEnd.PlanNamesDistinct | pkg/upload/upload.go:353-395 | the plan of every tree has the distinct object names that the upload theorems need |
| EndToEnd.ManifestTellsTheTruth | pkg/upload/upload.go:158-198 | in every state of every upload of a datadir to a free name, a visible manifest has that run's name and role and, for each planned part in order, the key of the archive of exactly its entries with both its sizes and its digest, and of the sidecar with one entry per regular file |
| EndToEnd.DatadirComesBack | pkg/upload/upload.go:127-200 | whatever the schedules of the upload that published the manifest and of the uncancelled download that returned success, chaindata/ and triedb/ are back exactly, with all that the parts carried, if and only if the tree is portable; unless chaindata/ was a link, nothing else on the disk has changed |
| EndToEnd.PublishedIsConfined | pkg/download/download.go:67-108 | every entry of a snapshot that ferry published stays in every download, unless chaindata/ was a link |
| EndToEnd.EveryScheduleBringsItBack | pkg/download/download.go:75-173 | for every portable tree and every complete schedule of its parts, some upload publishes the tree and some download along that schedule rebuilds it, so the theorem above is about all of them |
| Buckets.PutThroughKey | pkg/backend/s3/s3.go:198-200 | storing an object under its full S3 key is storing it under its name in the snapshot's view of the bucket, and changes nothing else in that view |
| Buckets.BucketFollows | pkg/upload/upload.go:522-649 | over a whole upload run, the bucket, whose other keys may change at will, holds under the full keys exactly what the protocol has stored, and at the manifest's key what decodes to the visible manifest |
| Buckets.BucketManifestTellsTheTruth | pkg/upload/upload.go:184-198 | the same of what decodes from the manifest's key of the bucket, about the objects under their full keys |
| Buckets.SameHomeIff | pkg/snapshot/layout.go:138-160 | all keys of the download's address are the upload's if and only if the parent does not end in two slashes or is made of slashes alone |
| Buckets.DatadirComesBackThroughBucket | pkg/download/download.go:175-231 | the end-to-end theorem on one bucket: uploaded to a parent's URL and downloaded from the snapshot's URL with the manifest that lies there, for such a parent |
| Names.ParseNameExactIff | pkg/snapshot/layout.go:58-82 | a string parses to a name if and only if it has the four-part shape with those numbers below 2^64 |
| Names.PrintedNameParses | pkg/snapshot/layout.go:42-82 | parsing a printed name gives it back, for all 64-bit numbers and both roles |
| Names.DecimalRestoresIff | pkg/snapshot/layout.go:48-50 | printing a digit string's value gives the string back if and only if it has no superfluous leading zero |
| Names.DecimalIsPositional | pkg/snapshot/layout.go:68-75 | the digits of a number count by their position, ten for one |
| Names.DigitsCount | pkg/snapshot/layout.go:48-50 | the characters 0 to 9 stand for these numbers and are printed for them |
| Names.ParsedNamePrintsIff | pkg/snapshot/layout.go:48-82 | printing a parsed string restores it if and only if neither number has superfluous leading zeros |
| Names.PrintedNameIsPathSafe | pkg/snapshot/layout.go:48-50 | every printed name passes the path-safety check |
| Names.PathSafeIsSegment | pkg/snapshot/layout.go:84-106 | a path-safe name is exactly one path segment |
| Names.PathSafeIff | pkg/snapshot/layout.go:84-106 | a name passes if and only if it is not empty, not a dot name, and made of the 65 listed characters |
| Addressing.CanonPrefixIsCanonical | pkg/backend/s3/s3.go:183-189 | canonicalising takes away leading slashes and puts a slash at the end if something is left that does not end in one; the result is empty, or ends in a slash and does not begin with one, and stays as it is when canonicalised again |
| Addressing.TrimKeyUndoesFullKeyIff | pkg/backend/s3/s3.go:198-204 | trimKey after fullKey gives the key without its leading slashes, so the key itself exactly when it has none |
| Addressing.JoinIsConcat | pkg/upload/upload.go:523 | joining a path-safe name and an object path only puts a slash between them |
| Addressing.SplitOfUnder | pkg/snapshot/layout.go:138-160 | splitting the address of a snapshot gives its name and its parent without trailing slashes |
| Addressing.SplitTrailingIff | pkg/snapshot/layout.go:138-160 | splitting any path is refused if and only if it is all slashes; otherwise the path is the root, slashes, one whole segment that is the name, and slashes, and the root does not end in a slash |
| Addressing.AddressesAgreeIff | pkg/snapshot/layout.go:145-160 | upload and download compute the same full key if and only if the parent does not end in two slashes or is made of slashes alone |
| Addressing.LegacyRoutingIff | pkg/snapshot/layout.go:113-124 | a snapshot address is routed to the legacy reader if and only if the last eight characters of the snapshot's own name spell .tar.zst or .tar.lz4, in capitals or not |

## Left out

- AWS calls, credentials, endpoint options, retries, timeouts, CRC32 and ETags: a remote call succeeds or fails, and a refused completion has committed nothing.
- Whether the remote accepts an empty part list: closing a writer that was never written to may succeed or fail.
- The zstd, tar, JSON and sha256 formats: abstract functions. Decoding an encoded archive or manifest is assumed to give it back; the hash is not assumed injective.
- File modes, owners, times and hard links; opening a device that stands where a file should go; a trailing slash in a link's target.
- What stands behind the datadir's own links is a parameter of the upload; a download resolves every link on its own disk. The directory that holds the destination exists and is named by its real place; a destination that is a link to nowhere is outside those theorems that say so.
- System errors of the planner's stat other than "does not exist", and unreadable files in the best-effort size walks.
- A tree that changes while it is walked.
- Two uploaders on one name: checkOverwrite only looks before it writes, so one uploader is assumed.
- The manifest's other fields. In the upload protocol the manifest is a field of its own; on a bucket it is an object with a key of its own.
- Crash atomicity inside Commit, which removes and then renames, and failures to remove a scratch directory.
- The sync.Pool guard on a buffer's capacity: an append never exceeds the capacity, so the guard never refuses; a run with a nil pool is not modelled.
- The 32-bit part counter is an unbounded number that is proved small rather than wrapped.
- Slices longer than the address space: the reader's theorems require that a buffer's length plus 64 is below 2^63.
- A freezer table without a .meta file, whose tail is read as 0: the model starts from the file's bytes.
- RLP items whose encoding is not canonical are covered by the arbitrary-bytes theorems, not by the round trips.
- The preflight check for a running node, capability and state-scheme detection, and everything that opens the pebble database.
- Legacy single-file snapshots beyond their routing, `ferry list` and its grouping, `ferry inspect`, `ferry contents`.
- Progress output, summaries, human-readable sizes, flags and the backend registry.
- URL parsing and percent-decoding: addresses start from a decoded path.
- MultipartWriters.MultipartWriter.Write: the S3 writer's prefix taken on an error is not pinned down further, because workers may fail at any moment.
- AtomicFiles.AtomicFile.Write: a Close after a short write still commits the accepted bytes, as the code does; callers abort instead.
- MultipartWriters.MultipartWriter.RunWorker: workers progress inside the class at its synchronisation points only; arbitrary interleavings are in the transition systems.
- A reader that returns no bytes, no end and no error for a read that asked for some.
