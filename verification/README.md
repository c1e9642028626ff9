# Anchor LFS, modelled and proved in Dafny

Anchor LFS is a Git LFS server: it hands out upload and download URLs, stores objects by their SHA-256 on disk or in
S3, keeps file locks, and authenticates against GitHub. This project models its stateful core and proves what that
core is for, for all inputs and for every interleaving of its concurrent parts.

`dafny verify dfyconfig.toml` checks everything.

## How it is organised

| file | component |
|---|---|
| `ByteText.dfy`, `Numbers.dfy`, `Paths.dfy` | byte strings, their order, cutting at a separator; integer ranges; `path/filepath`'s Clean, Join and Rel |
| `Locks.dfy`, `LockSet.dfy`, `LockCursor.dfy`, `LockPaging.dfy` | sorted lock lists, the indexed lock set mutated in place, paging cursors, walks over changing listings |
| `LockStore.dfy` | `FileLockStore` for one endpoint: the lock file and its cache |
| `LockProtocol.dfy`, `LockRuns.dfy`, `LockProgress.dfy`, `LockStale.dfy`, `LockWalks.dfy` | any number of processes and goroutines over one lock file, as a step system; its progress; what its metadata assumption is for; clients paging through its listing meanwhile |
| `Base64Url.dfy` | unpadded base64url, sections 3.2 and 5 of RFC 4648 |
| `S3Upload.dfy` | the streaming S3 uploader over an abstract bucket |
| `LocalStore.dfy`, `LocalRuns.dfy` | concurrent local uploads, the temp-file sweeper and crashes, as a step system |
| `AuthCache.dfy`, `AuthProtocol.dfy`, `AuthRuns.dfy`, `CacheKeys.dfy`, `RetryAfter.dfy` | the GitHub access cache, every interleaving of its callers, its string keys, rate-limit waits |
| `Batch.dfy` | the 16-slot batch engine and the space check |
| `Signer.dfy` | signed URLs |
| `Names.dfy` | object IDs, endpoint directories, configuration checks, object locations |

The three step systems (`LockProtocol`, `AuthProtocol`, `LocalStore`) and the one in `Batch` define each small step the
code takes between two points where another goroutine or process can act. An execution is any finite sequence of such
steps; the theorems named in the table hold of every state of every execution.

## Assumptions

- Rename is atomic, and a rename that fails leaves its target alone.
- The advisory file lock admits one exclusive holder or several shared ones, and a dying process loses it.
- Fresh UUIDs and the random names of temporary files have not been used before.
- Parsing what the JSON encoder wrote gives it back (`LockStores.CodecLaw`); case folding, SHA-256, HMAC and JSON are
  function parameters.
- A lock file is absent at first, or parses into locks with unique IDs and paths; for paging, into locks that a cursor
  can carry (`LockWalks.TripIsWalk`, `LockWalks.HeldLocksAreListedOnce`).
- File versions with the same identity, modification time and size have the same bytes. This is a hypothesis of
  what is said about listings alone (`LockProtocol.InfoInv`); creating and unlocking compare bytes and do not need it.
- `uuid.New` gives 36 lower-case hexadecimal digits and hyphens, and a UTC time in RFC 3339 form consists of digits,
  `-`, `:`, `T` and `Z` (`LockCursor.IsStamped`).
- An S3 call that returns an error had no effect, and aborting a multipart upload succeeds. A reader returns neither
  data nor an error only finitely often.
- Clock readings do not go back. That a local upload tracks its temporary file within the sweeper's maximum age after
  creating it, and that no other process sweeps the directory, are hypotheses of what is said about running uploads'
  files alone (`LocalStore.PromptAndAlone`); that stored objects are intact and stay does not need them.
- HMAC is collision-free where a lemma says so.

## Where the code does less than one might expect

- `parseLockCursor` gives back a lock's position exactly when the time is non-empty and has no `|` and the ID is
  non-empty (`LockCursor.CursorRoundTrip`); the locks the store creates are such locks (`LockCursor.StampedIsListable`).
- `lockSet.remove` takes any lock, but keeps the list and its indexes in agreement exactly when whatever the set holds
  under that ID has that time and path (`LockSets.LockSet.Remove`); `Unlock` only passes locks of the set.
- Were two versions of the lock file to share their metadata, a listing could be stale
  (`LockStale.LyingMetadataMakesListingsStale`), but never anything other than the fold of some prefix of the commits
  (`LockRuns.OutcomesTellTheTruth`).
- `fill` is documented to report the end of the stream only when the stream ended before the buffer was full. It does
  so except when the remaining bytes fill the buffer exactly and the reader reports its end along with the last of
  them (`S3Upload.FullBufferEndsIff`, at work in `S3Upload.FullBufferCanEnd`); the uploader copes.
- An upload that waits the sweeper's maximum age between creating and tracking its temporary file can lose it and fail
  (`LocalRuns.SlowPutCanLoseItsFile`); an upload that has lost its file never reports success
  (`LocalRuns.LostFileMeansFailure`), and no object is affected.
- A rate-limit reset within 62135596800 seconds of the largest int64 wraps in `time.Unix` and counts as past, so the
  client waits one second (`RetryAfter.UnixTime`).
- A signed URL sent exactly as issued is accepted only if its path has no `%`, `?` or control byte
  (`Signer.SignThenVerify`); the paths of accepted endpoints have none (`Signer.LinksWork`).
- A `Retry-After` above 9223372036 seconds wraps when converted to nanoseconds: 9223372037 makes the client wait one
  second (`RetryAfter.WrappedHeaderIsShort`); `RetryAfter.HeaderIsHonoured` says exactly when the header is honoured.
- The space check agrees with exact arithmetic unless storage claims 2^64 - 1 free bytes and even more are needed
  (`Batch.SpaceCheckIsExact`).

## Model

| member | source | states |
|---|---|---|
| Locks.CompareIsTotalOrder | lfs/locks.go:97-100 | the listing order is a strict total order on (time, ID) positions |
| Locks.BeforeMeans | lfs/locks.go:97-100 | the listing order is by creation time, then ID, each by the first byte that differs |
| Locks.SortedListIsItsSet | lfs/locks.go:86-95 | a sorted list is determined by its elements, so the result of sorting does not depend on the algorithm |
| Locks.DeleteUndoesInsert | lfs/locks.go:102-119 | removing the lock just added gives back the very list |
| LockSets.BinarySearch | lfs/locks.go:104-112 | finds the number of earlier entries and whether an equal position is there |
| LockSets.LockSet.constructor | lfs/locks.go:86-95 | the set holds the sorted locks, indexed exactly by ID and by path |
| LockSets.LockSet.Add | lfs/locks.go:102-108 | the sorted list gains the lock in place, order, uniqueness and both indexes are kept |
| LockSets.LockSet.Remove | lfs/locks.go:110-119 | for any lock the sorted list loses exactly the entry at its position; order, uniqueness and both indexes are kept if and only if whatever the set holds under its ID has its time and path |
| LockSets.LockSet.Match | lfs/locks.go:170-180 | the map lookups answer what a linear filter on path and ID answers |
| LockSets.LockSet.List | lfs/locks.go:121-150 | binary search and maps give exactly the linear filter on path, ID and cursor cut to the clamped limit; the page, on storage of its own, is by time then ID in byte order, holds just locks asked for, all of them or as many as the limit (100 by default, 1000 at most) with a cursor for the last one; it fails exactly on what is no cursor |
| LockSets.ListingMeans | lfs/locks.go:121-168 | the same of the reference listing, stated without filter, order or cursor functions |
| LockSets.CursorMeans | lfs/locks.go:157-168 | a cursor parses to the one time and ID it stands for, base64url of the two with a bar between them, or to nothing |
| LockSets.FilterAfterIsSuffix | lfs/locks.go:128-138 | keeping what is after a position is dropping the prefix that binary search finds |
| Base64Url.RoundTrip | lfs/locks.go:152-159 | decoding inverts encoding for byte strings of every length |
| LockCursor.CursorRoundTrip | lfs/locks.go:152-168 | a cursor gives back its lock's position if and only if the position can be carried |
| LockCursor.StampedIsListable | lfs/locks.go:376-381 | the position of every lock the store creates can be carried by a cursor |
| LockPaging.WalkNeverRepeats | lfs/locks.go:121-150 | everything a walk returns is strictly sorted, so no lock comes twice, whatever changes between pages |
| LockPaging.HeldThroughoutIsListedOnce | lfs/locks.go:121-168 | a complete walk lists every wanted lock held at each of its pages exactly once, even if the cursor's own lock is released |
| LockPaging.QuietWalk | lfs/locks.go:121-150 | on an unchanged set a walk has at most max(1, ceil(n/limit)) pages, is complete exactly there, and then concatenates to the sorted list |
| LockPaging.WalkGoesOn | lfs/locks.go:128-136 | the next request of an incomplete walk is answered, whatever the set holds by then |
| LockPaging.QuietWalkCompletes | lfs/locks.go:121-168 | every walk begun over an unchanged set can be carried on until it is complete |
| LockPaging.QuietSetIsListed | lfs/locks.go:121-168 | an unchanged set is listed in full, in order, in exactly max(1, ceil(n/limit)) pages |
| LockStores.FileLockStore.ReadLocks | lfs/locks.go:259-293 | returns the sorted, indexed locks of the file as it is, reusing the cached set only for equal bytes; fails exactly on a stat, read or parse failure |
| LockStores.FileLockStore.SaveLocks | lfs/locks.go:295-355 | on every exit path the cache is gone or holds exactly the parse of its bytes; the file changes only on success |
| LockStores.FileLockStore.LoadLocks | lfs/locks.go:243-257 | with honest metadata answers as the file itself would; with any metadata as the file or as the bytes the cache was read from |
| LockStores.FileLockStore.Create | lfs/locks.go:357-389 | outcome and new file as a function of the old file alone: an existing lock on the path, the inserted lock, or failure with the file untouched; the cache stays faithful |
| LockStores.FileLockStore.Unlock | lfs/locks.go:407-436 | likewise: not found, not the folded owner and not forced, the lock deleted, or failure with the file untouched |
| LockStores.FileLockStore.List | lfs/locks.go:391-405 | with honest metadata the page is the reference listing of the file's locks, by time then ID in byte order, with all it must hold; it is always on storage the store does not own, and it fails exactly on what is no cursor |
| LockStores.PageSurvivesUpdates | lfs/locks.go:146-149 | a returned page keeps its contents through any sequence of later creates, unlocks and listings of the store it came from, each with its own faults and metadata |
| LockRuns.StepKeepsInv | lfs/locks.go:198-436 | every step of every worker, failure and crash, whatever metadata the file gets, keeps mutual exclusion, cache faithfulness, the fold, and what each call's outcome means |
| LockRuns.FileIsFoldOfCommits | lfs/locks.go:295-436 | in every state of every execution the file is the fold of the committed changes in rename order, sorted, with unique IDs and paths, each change legal where it was made |
| LockRuns.OutcomesTellTheTruth | lfs/locks.go:357-436 | every finished call is linearised within its own time: success means that a change the call asked for was committed, once, between its start and end; a conflict, a missing lock, a refusal or a page was true of the file at some moment between them and left no trace |
| LockRuns.CommitsWereIssued | lfs/locks.go:357-436 | every commit is a change its call asked for, and some step of the execution issued that call |
| LockRuns.OnlyRenameWrites | lfs/locks.go:321-355 | (helper) only the rename changes the file, and adds exactly one commit |
| LockRuns.LocksLeaveOnlyByUnlock | lfs/handler.go:519-519 | a lock leaves the file only through a commit of an unlock call that was issued for its ID by its case-folded owner, or by a maintainer who asked to force it |
| LockRuns.HitIsCurrent | lfs/locks.go:243-250 | with honest metadata a cache hit is the file as it is now, even if the entry was replaced between loading it and the stat |
| LockRuns.HitIsFold | lfs/locks.go:243-250 | with any metadata a cache hit is the fold of some prefix of the commits |
| LockStale.LyingMetadataMakesListingsStale | lfs/locks.go:243-250 | an execution in which another process creates a lock under unchanged metadata and a listing begun after that is answered with a page that no moment of its time justifies |
| LockProgress.NeverStuck | lfs/locks.go:198-232 | the mutexes and the file lock never deadlock: in every state with an unfinished call some call can take a step that is neither giving up nor, unless its set cannot be encoded, failing |
| LockProgress.StepsAdvance | lfs/locks.go:357-436 | every step but an issue or a crash brings one call closer to its end, of at most eleven steps, and leaves the others where they are |
| LockRuns.CreateIsCommit | lfs/locks.go:357-389 | (helper) each outcome of the store's Create is the protocol's: a legal addition it was asked for, a conflict that is there, or a failure where there is none |
| LockRuns.UnlockIsCommit | lfs/handler.go:519-519 | (helper) each outcome of Unlock is the protocol's: a legal removal forced exactly for a maintainer who asked, a missing lock, another owner's, or a failure where neither holds |
| LockWalks.TripIsWalk | lfs/locks.go:391-405 | the pages a client gets in an execution form a walk over states the file had while each page was served |
| LockWalks.HeldLocksAreListedOnce | lfs/locks.go:121-168 | in every execution a client paging through the listing never gets a lock twice, and gets every wanted lock held from its first call to its last exactly once |
| S3Upload.PartSizeIsLeast | storage/s3.go:230-233 | the smallest part size from 8 MiB to 5 GiB that fits the size into 10000 parts |
| S3Upload.Fill | storage/s3.go:252-263 | the buffer holds the next bytes of the stream, full or up to its end, however the reader splits them, and the end is the one the last read reported |
| S3Upload.FullBufferEndsIff | storage/s3.go:251-263 | an end is reported only before the buffer is full, as documented, unless the bytes fit exactly and the reader ends with the last of them |
| S3Upload.FullBufferCanEnd | storage/s3.go:251-263 | for a buffer of any size, a reader for which the full buffer is returned together with the end |
| S3Upload.NextChunk | storage/s3.go:287-300 | each chunk is the next bytes of the stream, full unless it is the last, and every byte read is hashed |
| S3Upload.UploadParts | storage/s3.go:285-327 | parts numbered 1 to n, non-empty, all full but the last, concatenating to the asked-for bytes, completable by S3's rules; the part limit is hit only by longer streams |
| S3Upload.PutMultipart | storage/s3.go:265-342 | the object appears complete and verified or not at all, and the upload is never left open |
| S3Upload.PutUnknownSize | storage/s3.go:217-228 | the same for a stream of unknown length, in one request or in parts |
| S3Upload.Put | storage/s3.go:188-215 | the bucket gains exactly the asked-for bytes at the object's key (directory, two digits, two digits, ID) when they arrive and hash to the OID, and is otherwise unchanged, with each error for its own reason |
| S3Upload.VerifiesMeans | storage/s3.go:344-351 | a hash verifies exactly when it is the ID digit by digit, ignoring case |
| S3Upload.StreamWithinLimitFits | storage/s3.go:108-108 | a stream within the configured maximum fits the parts, 10000 full ones included |
| S3Upload.PutWithinLimits | storage/s3.go:188-342 | within the limits, a readable body with the right hash is stored unless a storage call fails |
| S3Upload.BucketStaysIntact | storage/s3.go:188-342 | through any number of Puts to whatever endpoints, whatever lies at an object's key keeps hashing to the object's ID |
| S3Upload.BucketObjectsStay | storage/s3.go:188-342 | an object once stored is in every later state of the bucket, with the very same bytes if the hash has no collisions |
| S3Upload.PutLeavesOthers | storage/s3.go:446-454 | for accepted endpoints a Put changes no object of another endpoint or with another ID |
| AuthCache.Cache.Lookup | auth/github.go:350-362 | answers unexpired entries; dropping an expired one changes no later answer for any key |
| AuthCache.Cache.StoreIfEnabled | auth/github.go:364-383 | the access is found until the TTL is over, at most 10 seconds for an invalid token, and not after; no other key's answer changes, and a TTL of zero stores nothing |
| AuthCache.Cache.RecordProbe | auth/github.go:385-393 | what is found, and until when, stays for every key; only that key's record gains the outcome, of that operation alone |
| AuthCache.Cache.Sweep | auth/github.go:418-427 | removes exactly the expired entries, in whatever order the map is walked, changing no later answer |
| AuthCache.FoundIsRecent | auth/github.go:350-383 | what a lookup finds was stored at most the TTL ago, 10 seconds for an invalid token |
| AuthCache.ProbeOutcomeMeans | auth/github.go:268-285 | a probe without error or with 409 or 422 allows, one with 401, 403 or 404 denies, anything else is no answer |
| AuthCache.ClassifyMeans | auth/github.go:294-314 | 401 is an invalid token, 403 and 404 no role, a rate limit a wait, anything else no answer |
| AuthProtocol.StepKeepsInv | auth/github.go:133-260 | every step keeps: each cached, flying or held record rests on GitHub's answers for its own token and endpoint |
| AuthRuns.AuthorizationIsEarned | auth/github.go:93-126 | an authorised upload means push was reported and a write probe got no error, 409 or 422 for that pair, a maintainer maintain or admin, a private download pull and such a read probe |
| AuthRuns.NoAnswerOnUncheckedProbe | auth/github.go:106-115 | at the very step that answers a caller, the record the answer is decided on rests on GitHub's answers for that pair and has each probe the operation needs |
| AuthRuns.AnswersStay | auth/github.go:133-183 | what a caller was answered stays its answer |
| AuthRuns.CachingIsInvisible | auth/github.go:133-260 | with fixed definitive answers for a token and endpoint every result for them, cached or shared or not, is that of the uncached algorithm |
| AuthRuns.AnswersAreVerdicts | auth/github.go:93-183 | with fixed definitive answers each result is their verdict, in permissions, login and status codes: authorised if and only if push (pull), a login and, for uploads and private downloads, a probe with no error, 409 or 422; maintainer with maintain or admin; unauthenticated if and only if 401 |
| AuthRuns.RepoReplyIsTaken | auth/github.go:200-215 | a turned-away token is cached, 401 as invalid and 403 or 404 without a role; missing permissions are answered but not cached; failures are neither |
| AuthRuns.UserReplyIsTaken | auth/github.go:217-233 | a login is cached with the reported permissions; a turned-away user lookup is answered but not cached |
| AuthRuns.ProbeReplyIsTaken | auth/github.go:236-260 | a passed or refused probe is recorded, a 401 caches the token as invalid, a failure is returned |
| AuthRuns.CachedIsTaken | auth/github.go:156-161 | a caller takes an unexpired entry without asking GitHub, and misses otherwise |
| AuthRuns.CachedProbeIsTaken | auth/github.go:236-239 | a probe that another flight has recorded is taken from the cache without asking GitHub |
| AuthRuns.StoredIsFound | auth/github.go:364-383 | what a flight stores is found until its TTL is over |
| AuthRuns.RecordedIsFound | auth/github.go:385-393 | a recorded probe is on the entry that is found and on the record returned |
| AuthRuns.NeverStuck | auth/github.go:133-198 | a caller without an answer can go on, or the flight it waits for can, whatever GitHub answers |
| AuthRuns.StepsAdvance | auth/github.go:133-260 | a caller takes at most five steps and a flight four |
| AuthRuns.CacheAgeIsBounded | auth/github.go:350-427 | in every execution found entries are within the TTL, and a TTL of zero keeps the cache empty |
| AuthProtocol.RecordedIsHeard | auth/github.go:385-393 | recording a probe on a newer entry keeps the entry justified |
| CacheKeys.CacheKeyIsInjective | auth/github.go:429-434 | cache keys keep every token and endpoint path apart |
| CacheKeys.FlightKeysAreApart | auth/github.go:143-149 | a probe's shared key is never a lookup's and belongs to one token, endpoint and operation |
| CacheKeys.AcceptedFlightsAreApart | auth/github.go:143-149 | so for every pair of accepted endpoint paths, lookups and probes are shared only within one token, endpoint and operation |
| RetryAfter.ClientWaitIsBounded | lfs/handler.go:573-576 | the client is told to wait 1 to 3600 seconds whatever GitHub sent |
| RetryAfter.WaitIsCovered | auth/github.go:288-336 | the fewest whole seconds, from 1 to 3600, that cover the time to the reset or the wait asked for, and 60 when GitHub gave neither |
| RetryAfter.HeaderIsHonoured | auth/github.go:319-328 | a Retry-After header is passed on, capped at an hour, exactly when its product does not wrap or wraps past 3599 seconds |
| RetryAfter.WrappedHeaderIsShort | auth/github.go:321-323 | the smallest header that wraps, 9223372037 seconds, sends the client back after one second |
| LocalStore.StepKeepsInv | storage/local.go:132-193 | every step of uploads, sweeper, other processes' sweepers, clock and crash, however late an upload tracks its file, keeps objects intact and reported uploads stored |
| LocalRuns.ObjectsHashToTheirName | storage/local.go:164-193 | in every execution whatever lies at an object's path hashes to its ID, also when the sweeper takes a running upload's file away |
| LocalRuns.ObjectsStay | storage/tempfiles.go:19-72 | no stored object is ever removed |
| LocalStore.OnlyMoveChangesObjects | storage/local.go:186-193 | the one step that changes any object is an upload's rename, which stores the bytes it hashed at its own path and nothing else |
| LocalRuns.SuccessMeansStored | storage/local.go:132-193 | once an upload has reported success its object is there for the rest of the execution, with the hash of the bytes sent, and with those very bytes if the hash has no collisions |
| LocalRuns.UploadsFailForACause | storage/local.go:164-193 | an upload that ends has stored its object and reports success, or some step is to blame: a broken read or write, a wrong hash, a failed rename, or a file gone by then |
| LocalRuns.GoodUploadSucceeds | storage/local.go:132-193 | from every reachable state an upload of bytes with the right hash can go through: success is reported, the object has those bytes, and nothing else is left in the tree or the tracking |
| LocalRuns.EndedUploadLeavesNoTemp | storage/local.go:155-162 | when an upload ends, well or badly, its temp file is gone unless removing it failed, and it is untracked |
| LocalRuns.OnlyStaleFilesAreCondemned | storage/tempfiles.go:48-57 | the sweeper condemns a file only if it has not been modified for the maximum age |
| LocalRuns.StaleFilesAreSwept | storage/tempfiles.go:42-66 | from every reachable state a sweep can take any such temporary file that nobody is writing, and nothing else |
| LocalRuns.RunningPutsKeepTheirFile | storage/tempfiles.go:45-65 | while no upload has waited the maximum age before tracking and no other process sweeps, the sweeper condemns no running upload's temp file, which holds exactly the bytes hashed |
| LocalRuns.SlowPutCanLoseItsFile | storage/tempfiles.go:45-65 | otherwise it can: for every maximum age an execution in which the sweeper deletes an upload's file and the upload fails, although its bytes hash to its ID |
| LocalRuns.LostFileMeansFailure | storage/local.go:152-193 | an upload whose file is gone before its rename never gets it back: it is cut short by a crash or reports failure |
| LocalStore.TrackedKeyIsWalkPath | storage/local.go:63-68 | the tracked key is the path the walk reports, for every data directory and however it is written |
| Paths.RelUndoesJoin | storage/local.go:144-151 | relative to the base, a file in a directory joined onto that base is the joined elements and its name, through the cleaning of both paths |
| LocalStore.ObjectHasNoTempName | storage/tempfiles.go:42-44 | objects are never named like temporary files |
| LocalStore.ShardsHoldNoTemps | storage/tempfiles.go:74-78 | skipping shards hides no directory with temporary files |
| LocalStore.ShardMeans | storage/tempfiles.go:74-78 | a shard is exactly a path of two elements, the first not the lock store's, the second of two characters |
| Batch.UploadOfferedExactlyWhenNeeded | lfs/batch.go:66-208 | an upload is offered exactly for a valid object within the limit that storage lacks, with a non-negative size; errors carry no actions |
| Batch.LinksAreExact | lfs/batch.go:66-208 | a download link exactly for a valid object stored with the very size asked for, an upload link and its verify link exactly for one within the limit that storage lacks, unless presigning failed |
| Batch.ErrorsAreExact | lfs/batch.go:66-208 | 404, 422, 500 or no error, each if and only if its condition on operation, validity, size, lookup and presigning holds |
| Batch.HasSpaceFor | lfs/handler.go:176-194 | the accumulator is the exact sum capped at 2^64 - 1, and decides the answer |
| Batch.SpaceCheckIsExact | lfs/handler.go:181-193 | the capped comparison agrees with the exact one if and only if space is below 2^64 - 1 or the need fits |
| Batch.CastIsHarmless | lfs/handler.go:179-183 | for non-negative sizes the cast changes no sum |
| Batch.BatchSpaceIsExact | lfs/batch.go:66-79 | the answers of a batch add up to the very sizes it offered uploads for |
| Batch.BatchEqualsSequentialMap | lfs/batch.go:17-45 | at most 16 lookups at once, and the returned prefix is the sequential map, all of it unless cancelled |
| Batch.NeverStuck | lfs/batch.go:27-38 | until the call returns some step other than a cancellation is possible |
| Batch.RunsAreBounded | lfs/batch.go:27-38 | no execution takes more than 4n + 2 steps besides cancellations |
| Signer.DecimalRoundTrip | lfs/signer.go:60-93 | parsing a formatted number gives it back if and only if it fits int64 |
| Signer.UnescapeUndoesEscapes | lfs/signer.go:72-75 | percent escapes of every byte are undone, in paths and in queries |
| Signer.MessageText | lfs/signer.go:110-115 | the signed message is v1, the operation, the target and the expiry, one per line |
| Signer.SignedText | lfs/signer.go:63-64 | the issued URL is base and path, then exp and sig as its query |
| Signer.QueryRoundTrip | lfs/signer.go:64-88 | parsing a signed query gives exactly the two parameters |
| Signer.SignedIsVerified | lfs/signer.go:57-108 | what Sign issued is accepted until and including its expiry second, however the path was escaped, and expired after |
| Signer.SignThenVerify | lfs/signer.go:57-108 | the issued URL itself, after its base, is accepted until its expiry if and only if its path is carried unchanged by a request line; such a URL is expired after |
| Signer.LinksWork | lfs/batch.go:119-120 | every object or verify link of an accepted endpoint is accepted until its expiry and expired after |
| Signer.MessageIsInjective | lfs/signer.go:110-115 | the signed message determines operation, target and expiry even if the target has line breaks |
| Signer.AcceptedIsWhatWasSigned | lfs/signer.go:70-108 | an accepted request has just the two parameters, is unexpired, and its tag can only have been issued for that operation, target and expiry |
| Names.NormaliseIsCanonical | storage/oid.go:12-25 | exactly 64 hexadecimal digits are taken; normalising is idempotent, leaves no upper-case letter, changes case only, and identifies IDs that differ in case only |
| Names.DirectoryMeans | internal/sanitise/endpoint.go:16-37 | an endpoint's directory is its path without leading slashes, an underscore for each separator, and _invalid exactly for other characters, dot segments or a dot at either end |
| Names.ValidateEndpoints | config/config.go:568-588 | reports no problem if and only if there are endpoints, all named, with sound access settings, well-formed paths and pairwise distinct directories ignoring case |
| Names.ValidateAccess | config/config.go:648-665 | reports no problem if and only if authentication is GitHub's, or is off for a public endpoint without an API URL |
| Names.AcceptedPathMeans | config/config.go:611-641 | a path is well-formed if and only if it is rooted with no empty or dot element, is neither /health nor /ready, and has a valid directory other than locks and signing.key ignoring case |
| Paths.CleanIff | config/config.go:622-624 | a rooted path is clean if and only if no element after the first slash is empty, . or .. |
| Names.AcceptedPathHasNoBar | internal/sanitise/endpoint.go:16-37 | accepted paths consist of safe characters and separators, so never of a bar |
| Names.LocationsAreInjective | storage/s3.go:446-454 | for accepted configurations (endpoint, ID) to location is injective ignoring case, on disk and in the bucket |
| Names.LocationElements | storage/s3.go:446-454 | below its root an object's location is exactly the endpoint's directory, the ID's first two digits, its next two and the whole ID, in lower case |
| Names.ShardsAreByPrefix | storage/local.go:211-218 | two objects of an endpoint share a directory if and only if their IDs agree in the first four digits ignoring case |
| Names.OtherElements | storage/local.go:145-149 | temp files lie at directory/.tmp/.tmp-name and lock files at locks/directory/locks.json |
| Names.ObjectsAvoidReserved | config/config.go:605-609 | no object lies anywhere in the lock store's directory, where the signing key lies, or where an upload's temp file lies |
| Names.LockFilesAreApart | lfs/locks.go:193-196 | accepted endpoints have lock files of their own in the lock store's directory, ignoring case |

## Left out

- HTTP handlers, routing, media types and JSON decoding: plumbing around the modelled operations.
- The ours/theirs split of the lock verification handler, lock path validation and `unrecognisedKeys`: one filter or one pattern test each.
- Presigned URLs, the AWS client, and the go-github client: only the classified answers and the abstract bucket are modelled.
- Configuration loading, environment overrides, CLI, logging, metrics, readiness, shutdown, rate limiting and proxies.
- The system calls behind file locks and free space, and SHA-256 and HMAC themselves.
- LockStores.FileLockStore: one store object stands for one endpoint; that endpoints have separate lock files and cache keys is `Names.LockFilesAreApart`.
- LockRuns.StepKeepsInv: a worker gives back the file lock and the mutex in one step, since nothing shared is touched between the two; writing the temporary file is one step, since only its own worker can see it.
- LocalStore.StepKeepsInv: the sweeper may visit any path that has ever existed, in any order, so directory order, skipped shards, permission errors and the removed count are not modelled.
- Paths.Rel: a target that is not below its base gives no answer, where `filepath.Rel` climbs with `..` elements or fails; volume names are not modelled.
- Signer.Verify: request URIs in absolute form (with scheme and host) are not modelled and count as malformed.
- S3Upload.Put: hexadecimal case folding is ASCII.
- Batch.BatchEqualsSequentialMap: what storage answers for an object is a function of its position in the request.
- Names.ValidateEndpoints: lower-casing is ASCII; Windows' reserved file names are not modelled.
