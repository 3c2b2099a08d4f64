# Verified models of the S3 server's stateful cores

This project models the parts of the server whose correctness does not show in one function body: the
multipart-upload protocol between put-part, copy-part and complete requests, the counter arithmetic behind
reading encrypted data from an offset, the worker pool of multi-object delete, part and version listings that
go over several pages, reads of ranges and parts, the polled configuration overlay, the metadata prefetch and
the ACL no-change test. Dafny proves what is said below for all inputs and all runs.

## How it is organised

| files | what they model |
|---|---|
| `Sequences`, `Locations`, `MpuModel`, `MpuInvariant`, `MpuSafety` | the upload protocol as a state machine with one event for each metadata or data call; its invariant; what holds of all runs |
| `MpuOthers`, `MpuStatus`, `MpuOverlap` | exactly when no run loses data: in the part lists of the attempts, in other writes of the key, in changes of the versioning status, and in completions that overlap |
| `MpuReplay`, `MpuConservation` | exactly when a successful completion leaves the object that it listed; the books of all undisturbed runs |
| `MpuServer` | the same requests as imperative code over shared fields, with other requests at work between any two calls; every call is proved to be one event of the protocol |
| `MpuKeys`, `PartListing` | keys of the shadow bucket, the listing of a completion, and the pages of listParts |
| `CtrSeek` | the in-place addition to an initialisation vector and the decipher that starts at an offset, against counter mode (section 6.5 of NIST SP 800-38A, with the standard incrementing function of its appendix B.1) |
| `DeleteEntry`, `DeleteJob`, `DeleteRequest` | multi-object delete: one entry on its own, the pool of workers, the whole request |
| `PartRanges` | which locations, and which bytes of them, a GET of a range or a part reads |
| `VersionListing`, `Overlay`, `Acl`, `MetadataCache` | the `IsLatest` flags, the polled overlay, the ACL test, the prefetched map |

Main results, in short:

- **Uploads.** No interleaving of any number of part uploads and copies with serial completion attempts, each
  failing anywhere, ever deletes data that a version, the null key or a stored part refers to, or gives two
  versions the same data, if each attempt names at least the parts that the attempts before it named, other
  requests write the key only before the first attempt, and no attempt begins while versioning is suspended
  after one that began while it was enabled (`EveryRunIsSafe`). Each condition is exact: for any other part
  lists, or with other writes after the first attempt has begun, some run loses data (`SafeExactly`); so does
  one for any other sequence of versioning statuses (`StatusesExactly`); and with growing part lists all runs
  are safe if and only if the attempts do not overlap, or there is only one (`OverlapExactly`).
- **Replays.** A completion that finds a location of its list in the current object reports success and leaves
  that object as it is. `ListedExactly` says for all part lists when that is right: if and only if each earlier
  attempt has no part in common with the last one, or names the same parts, with no part stored in between
  unless the list has a single part, and with no other write during the last attempt.
- **Conservation.** Every undisturbed run ends with each location of the upload in the object or deleted once
  (`NothingLeaks`), and with each older location referred to by a version or deleted once, with one exception
  (`OldDataIsKept`).
- **Seek.** Deciphering from an offset gives the plain suffix exactly when adding the block number to the IV
  does not overflow 128 bits (`SeekRoundTripExactly`); the addition carries around the end, the standard one
  drops the carry.
- **Multi-object delete.** Whatever order the workers end in, the reports, both counters and the deleted data
  are those of handling the entries one after the other, and every requested entry is answered once, unless a
  delete marker cannot be stored. Deferring the data deletion hides exactly one error for each entry with a
  list of locations whose metadata is deleted and whose data is not (`DeferredDeletesTheSame`).
- **Overlay.** The stored overlay version never goes back if and only if at most one process polls
  (`StoredVersionIsKeptExactly`).

## Where the code and its own words differ

- `lib/api/completeMultipartUpload.js:421-424` says that on a replay the old and new locations should in
  principle be fully identical. Lists that grow, such as part 1 and then parts 1 and 2, and a part that is
  uploaded again between two attempts, make replays of other objects; `ListedExactly` gives the exact condition.
- `lib/api/apiUtils/object/versioning.js:196-214` takes a null version that is current for the only null
  version there is. But `lib/api/apiUtils/object/versioning.js:239-266` has copied it to the null key before
  the replay test and the commit of an attempt that began while versioning was enabled, and the copy stays if
  that attempt fails or is a replay. Input: the current object is a null version with data at L, an attempt
  begins while versioning is enabled and fails at its commit, versioning is suspended, and a later attempt of
  any part list commits: it deletes L, and the null key still refers to L. `StatusesExactly` says for all
  sequences of statuses when that cannot happen.
- `lib/metadata/acl.js:31-35` says that a grant is unchanged when the elements of one list are in the other
  one. With a repeated grantee in the old list that hides a change; `TestIsSoundExactly` gives the exact
  condition, and `DuplicateFreeExactly` says which requests make such lists.
- `lib/metadata/metadataUtils.js:119` stores prefetched metadata under key and version id, but
  `lib/metadata/metadataUtils.js:72` looks it up under the key alone, so the map never spares a read, and it
  gives another object's metadata when one key spells another key with its version id
  (`LookupIsRightExactly`).
- `lib/api/multiObjectDelete.js:408-436`: a failed deletion of deferred data is logged, but `onDone` drops the
  error, so the request still reports success (`DeleteChunks`, `DeferredDeletesTheSame`). A delete marker that cannot be stored makes the callback in
  lines 361-365 read a property of `undefined`; the request is then never answered (`CrashesExactly`).
- The stored overlay version can go back when two processes poll at the same time, although each of them
  checks that it only saves newer versions (`StoredVersionIsKeptExactly`).

## Model

| member | source | states |
|---|---|---|
| Locations.LocationKeysHaveChanged | lib/api/apiUtils/object/locationKeysHaveChanged.js:16-32 | The keys have changed if and only if no new location is one of the old object's locations, for missing, legacy and current forms of the old one. |
| MpuSafety.EveryRunIsSafe | lib/api/completeMultipartUpload.js:184-512 | In every interleaving of part uploads, part copies and serial completion attempts, all failing anywhere, no version, null key or stored part refers to deleted data and no two versions share data, when the attempts' part lists grow, others write the key only before the first attempt, and no attempt begins while versioning is suspended after one that began while it was enabled. |
| MpuOthers.SafeExactly | lib/api/completeMultipartUpload.js:236-512 | For all sequences of ascending part lists and every i: all runs with these attempts, in which others write the key only before attempt i and no attempt begins while versioning is suspended after one that began while it was enabled, are safe if and only if each list contains those before it and i is 0 or there is no attempt. |
| MpuSafety.ShrinkingListLosesData | lib/api/completeMultipartUpload.js:497-512 | If a later attempt leaves out a part that an earlier one named, some run deletes data of the committed object as an extra part. |
| MpuOthers.LaterOtherPutLosesData | lib/api/apiUtils/object/createAndStoreObject.js:266-299 | For all part lists, and in every bucket whose versioning is not configured or is suspended, one other write after the first attempt has begun is enough: it deletes data that stored parts still refer to. |
| MpuStatus.StatusesExactly | lib/api/apiUtils/object/versioning.js:189-266 | For all growing part lists and all versioning statuses that their attempts can begin under: all runs, with others writing only before the first attempt, are safe if and only if no attempt begins while versioning is suspended after one that began while it was enabled. |
| MpuStatus.AttemptCopies | lib/api/apiUtils/object/versioning.js:239-266 | An attempt that begins while versioning is enabled and fails at its commit leaves a copy of a current null version under the null key. |
| MpuStatus.AttemptDeletesCopied | lib/api/apiUtils/object/versioning.js:196-214 | A later attempt that begins while versioning is suspended deletes data that such a copy refers to, whatever parts it names. |
| MpuOverlap.OverlapExactly | lib/api/completeMultipartUpload.js:408-445 | For all growing part lists and any number of completion requests that may be under way at a time: all runs are safe if and only if there is at most one such request, or at most one attempt. |
| MpuOverlap.OverlapLosesSeparation | lib/api/completeMultipartUpload.js:433-446 | Of two attempts with a common part that both read the object before either commits, neither sees a replay: two versions get the same data. |
| MpuOthers.ReplayIsMissedAfterOtherPut | lib/api/completeMultipartUpload.js:408-445 | Replay detection looks at the current version only: for all growing part lists of at least two attempts, one other write of the key after the first commit gives a run in a versioned bucket in which two versions share data. |
| MpuReplay.ListedExactly | lib/api/completeMultipartUpload.js:408-445 | For all part lists, i and j: after every run in which parts are stored only before attempt i and others write only before attempt j, the commit of the last attempt leaves the object that it listed, if and only if each earlier attempt has no part in common with it, or names the same parts while others write only before the last attempt and parts are stored only before that earlier attempt or there is only one part. |
| MpuReplay.RunLeavesListed | lib/api/completeMultipartUpload.js:413-445 | The positive half for a given run: what is taken for an earlier commit of the same parts is one. |
| MpuReplay.UploadBetweenFails | lib/api/completeMultipartUpload.js:433-444 | For all lists whose last attempt names the parts of an earlier one, at least two: with a part stored after that earlier attempt has begun, some run ends with success and another object than the listed one. |
| MpuInvariant.PassesOnKeeps | lib/api/objectPutPart.js:316-387 | Publishing a part, reading the flag after it, deleting what it overwrote, marking, listing, copying the null version and all deletions of the cleanup keep the protocol invariant: each gives a location only to holders that may share it with those who have it. |
| MpuInvariant.WriteDataKeeps | lib/api/objectPutPart.js:271-291 | New data is known to its writer alone, and keeps the protocol invariant. |
| MpuInvariant.CompleteReadKeeps | lib/api/completeMultipartUpload.js:128-160 | An attempt that names at least the parts of the attempts before it keeps the protocol invariant. |
| MpuInvariant.CommitKeeps | lib/api/completeMultipartUpload.js:388-490 | Committing, or finding a replay, keeps the protocol invariant, and the committed data is in no other version. |
| MpuInvariant.PlanStays | lib/api/apiUtils/object/versioning.js:189-266 | What a completion is going to do to the current object and the null key keeps fitting them, as long as no attempt begins while versioning is suspended after one that began while it was enabled. |
| MpuInvariant.OtherPutKeeps | lib/api/apiUtils/object/createAndStoreObject.js:266-299 | Another write of the key keeps the protocol invariant as long as no attempt has begun, with its data among what is older than the upload. |
| MpuModel.LocateExactly | lib/api/completeMultipartUpload.js:268-274 | Data is what the commit writes if and only if the k-th listed part stands where the parts before it end, for every k, and nothing else follows. |
| MpuConservation.NothingLeaks | lib/api/completeMultipartUpload.js:273-293 | After every run in which requests neither overlap nor fail and a completion has done all it had to do, the object is the last upload of each listed part, one after the other in list order; every location issued for the upload is in the object or deleted exactly once, never both, of older data only the replaced object's is deleted, once, and no metadata of the upload is left. |
| MpuConservation.LastUploadIs | lib/api/objectPutPart.js:292-328 | The last upload of a part is the one that no later upload of that part follows. |
| MpuConservation.OldDataIsKept | lib/api/apiUtils/object/versioning.js:189-266 | After such a run, each older location that a version or the null key referred to is still referred to and not deleted, or is deleted once; the one exception is a null key that the copy of a null version overwrites. |
| MpuConservation.PutCanRun | lib/api/objectPutPart.js:227-387 | From every quiet state of such a run any part can be uploaded or copied without disturbance, and is then stored. |
| MpuConservation.CompletionCanRun | lib/api/completeMultipartUpload.js:128-513 | From every quiet state of such a run a completion with a list of stored parts can do all it has to do. |
| MpuServer.Server.constructor | lib/services.js:424-428 | A new upload with its overview stored, beside whatever versions the key already has, is a valid start of the protocol. |
| MpuServer.Server.IsSafe | lib/api/completeMultipartUpload.js:408-445 | Whenever the completions so far named growing part lists, others wrote the key only before the first one, and none began while versioning was suspended after one that began while it was enabled, the server's stores are safe. |
| MpuServer.Server.ObjectPutPart | lib/api/objectPutPart.js:57-387 | Size and part number are rejected with the source's errors; otherwise every call is a protocol event, success means that an upload of this part number began, its data was written and the part stored, and without a failing call the overwritten data is gone or must stay, and the only error is NoSuchKey, at some moment of the request without an overview. |
| MpuServer.Server.PublishPart | lib/api/objectPutPart.js:292-387 | The part is stored before the flag is read; without a failing call nothing that may be deleted is left over, a part that replaced nothing is a success, and the only error is an overview that was missing at some moment; a failed deletion is no error. |
| MpuServer.Server.IsCompleteInProgress | lib/services.js:576-599 | The answer is whether the overview is marked; only an unmarked overview lets the request delete the data it replaced; a missing overview is an error. |
| MpuServer.Server.ObjectPutCopyPart | lib/api/objectPutCopyPart.js:52-398 | As ObjectPutPart, with the old part read only after the data was copied, and an overview that is missing at first reported as NoSuchUpload. |
| MpuServer.Server.MarkForCompletion | lib/services.js:540-560 | Success means that the overview is marked; it is marked by one event, and a failure may come after the write. |
| MpuServer.Server.MarkAndList | lib/api/completeMultipartUpload.js:162-211 | On success the listing is what was stored at a moment of this request at which the overview was marked. |
| MpuServer.Server.VersioningPreprocessing | lib/api/apiUtils/object/versioning.js:321-368 | A null version that is current is copied to the null key while versioning is enabled, and the data to delete is that of the current object or of the null key as they were read; the write may take effect and still fail. |
| MpuServer.Server.StoreAsNewObj | lib/api/completeMultipartUpload.js:388-489 | Without a replay the versions are those before, less a null version that was current, with the listed data as the current one, the null key is gone if it was to be replaced, and the replaced data is what remains to delete; with a replay nothing is written and nothing replaced is deleted. |
| MpuServer.Server.StoreObject | lib/api/completeMultipartUpload.js:446-489 | The write of the new object, which may fail before or after it took effect. |
| MpuServer.Server.CompleteMultipartUpload | lib/api/completeMultipartUpload.js:128-513 | Every call is a protocol event. Success means that the list is ascending and names parts that this request listed while the upload was marked, with matching ETags and all but the last big enough, that the overview is gone, and that either the object from before has a location of them and no version has changed, or a new version is current that is made of the listed parts in list order, beside all others but a null version that was current, which is kept or gone as the versioning status asked for. Without a failing call each error has its reason: no overview at some moment, an empty or unordered list, a part that is missing, does not match or is too small. |
| MpuServer.ReplayExactly | lib/api/completeMultipartUpload.js:408-445 | The replay test finds exactly a location of a listed part in the object that was read. |
| MpuServer.Server.CheckParts | lib/api/completeMultipartUpload.js:228-251 | The list is accepted exactly if it ascends and all its parts are stored, match and are big enough; an error names something that is wrong with it. |
| MpuServer.Server.CleanUp | lib/api/completeMultipartUpload.js:491-513 | On success nothing of the upload is left to delete, and the overview is gone. |
| MpuKeys.KeyForms | lib/api/objectPutPart.js:27-37 | The form of both kinds of keys, and of the padded number: five digits, those of the number behind zeros. |
| MpuKeys.ParsingInvertsPadding | lib/api/objectPutPart.js:27-29 | Parsing a padded part number gives the number modulo 100000, so the number itself exactly up to 99999. |
| MpuKeys.PartKeysAreOrdered | lib/api/objectPutPart.js:35-37 | Part keys of an upload are in string order exactly as their numbers are in numerical order. |
| MpuKeys.KeysAreInjective | lib/api/objectPutPart.js:31-37 | Overview and part keys tell all entries apart, even for object keys that contain the splitter. |
| MpuKeys.PrefixSelectsParts | lib/services.js:856-857 | An upload id is a prefix of the part keys of that upload and of no other key. |
| MpuKeys.PartNumberIsReadBack | lib/api/listParts.js:207-209 | The digits behind the last splitter of a part key parse to its part number. |
| MpuKeys.BelowIsTotal | lib/services.js:865-878 | String order, in which keys are listed: of two different strings exactly one comes first. |
| PartListing.ListingOfParts | lib/services.js:865-878 | A listing by upload id and marker returns the part keys with the smallest numbers after the marker, and is truncated exactly when there are more. |
| PartListing.CompletionSeesAllParts | lib/services.js:854-863 | In every reachable state of the protocol the completion's listing is not truncated and is all stored parts in the order of their numbers. |
| PartListing.PageShowsNextParts | lib/api/listParts.js:198-265 | A page shows the next part numbers after its marker; it names a next marker, its last number, exactly when parts remain. |
| PartListing.PageIsFull | lib/api/listParts.js:82-91 | A page has as many of the remaining parts as were asked for, 1000 if nothing else or more was, or all that remain. |
| PartListing.MaxPartsIs | lib/api/listParts.js:82-91 | A negative page size is InvalidArgument; otherwise it is the one asked for from 1 to 1000, and 1000 for any other. |
| PartListing.PagesShowEveryPartOnce | lib/api/listParts.js:82-94 | Following the next marker, with any page sizes, shows parts in ascending order, each once, ends after at most one page more than there are parts, and has then shown all of them. |
| CtrSeek.IncrementIV | lib/kms/common.js:43-58 | For every non-empty buffer and counter the loop ends and leaves the bytes of the sum with end-around carry: the sum less a multiple of the largest value that fits, and 0 only if the sum is 0. |
| CtrSeek.AdditionStep | lib/kms/common.js:48-56 | One turn keeps the sum of buffer and carry, the carry weighted by its position and by its laps around the buffer. |
| CtrSeek.AdditionProgresses | lib/kms/common.js:48-56 | One turn makes the carry smaller, or leaves it at 1 and turns one more byte of 255 into 0. |
| CtrSeek.EndAroundAgrees | lib/kms/common.js:48-57 | For every sum, end-around carry agrees with addition modulo the base exactly when the sum is 0, or is no multiple of the base and has wrapped a multiple of base minus 1 times. |
| CtrSeek.IncNIsStandard | lib/kms/common.js:129-132 | The k-th counter block of the standard incrementing function has the value of the first plus k, modulo 256 to the power of its length. |
| CtrSeek.SeekIsRightExactly | lib/kms/common.js:129-132 | For a counter that fits the block, the code's counter block is the standard's exactly when the sum does not overflow. |
| CtrSeek.SeekRoundTrip | lib/kms/common.js:121-145 | For every block function, IV, plain text and offset without overflow, the suffix of the cipher text deciphered from the offset is the suffix of the plain text. |
| CtrSeek.SeekRoundTripExactly | lib/kms/common.js:121-145 | For every block cipher and every suffix that holds a whole block of the key stream, the plain suffix comes back if and only if the sum does not overflow. |
| CtrSeek.CtrStream.Update | lib/kms/common.js:133-142 | Byte k of the output is byte k of the data, exclusive-or the byte of the block function at the position that the stream has come to: of the counter block 16 bytes at a time after the first, at the remainder modulo 16. |
| CtrSeek.CreateDecipher | lib/kms/common.js:121-145 | The decipher stands at the skipped position of the key stream that begins at the code's counter block; unknown schemes and failed derivations are InternalError. |
| CtrSeek.CreateCipher | lib/kms/common.js:159-162 | As CreateDecipher. |
| DeleteEntry.CrashesExactly | lib/api/multiObjectDelete.js:355-366 | The callback of an entry throws if and only if the bucket has versioning, no version is named, the read works and the delete marker cannot be stored. |
| DeleteEntry.OutcomeWithoutDeletion | lib/api/multiObjectDelete.js:262-285 | A version id that does not decode is NoSuchVersion; a failing read is that error; a missing object is a success; without a version id, versioning asks for a delete marker, which crashes the worker if it cannot be stored. |
| DeleteEntry.OutcomeOfProtection | lib/api/multiObjectDelete.js:291-333 | A named version in a bucket with object lock: a user who asks for the bypass is refused if policies deny it, and a locked object is refused unless it is under governance, without a legal hold, and bypassed. |
| DeleteEntry.OutcomeOfDeletion | lib/api/multiObjectDelete.js:334-359 | What nothing protects is deleted, with its data; a failed metadata deletion is an error, and a failed data deletion only at once and for a list of locations. |
| DeleteEntry.TallyIs | lib/api/multiObjectDelete.js:366-405 | What each outcome is reported as: a marker with its encoded id and -1, a removed object with +1 if it has a size, its bytes, and its own id if it was a delete marker, an error with its text. |
| DeleteEntry.EveryEntryIsAnsweredOnce | lib/api/multiObjectDelete.js:366-405 | When every delete marker that is wanted can be stored, the entries answered are exactly the entries given, each as often as it was given. |
| DeleteEntry.DeferredDeletesTheSame | lib/services.js:316-352 | Deferred and immediate deletion ask for the same multiset of locations; deferral hides one error for each entry that comes to its last call, has a list of locations, and has its metadata deleted but not its data; reports and counters are the same if and only if there is no such entry. |
| DeleteJob.SplitIntoChunks | lib/api/multiObjectDelete.js:421-425 | The chunks are the list again, in order, each with 1 to the limit's number of items, and all full but the last. |
| DeleteJob.Job.End | lib/api/multiObjectDelete.js:366-405 | Ending a worker adds its outcome to the results: an error, or a deletion with +1 and its bytes for a removed object that has a size, -1 for a delete marker, and its data. |
| DeleteJob.Job.Answer | lib/api/multiObjectDelete.js:261-366 | Each answer moves one worker to its next call or ends it with the outcome that the entry has on its own; only a delete marker that was not stored crashes. |
| DeleteJob.Job.ForEachLimit | lib/api/multiObjectDelete.js:260-406 | For every order of starts and answers the results are the sum of the entries' outcomes on their own, and never more workers than the limit are at work. |
| DeleteJob.Job.DeleteChunks | lib/api/multiObjectDelete.js:408-436 | All deferred data is asked to be deleted, each location as often as it was collected, in chunks up to the limit; an error is logged exactly if some chunk fails, and nothing else changes. |
| DeleteJob.Job.GetObjMetadataAndDelete | lib/api/multiObjectDelete.js:249-446 | As ForEachLimit, and in the end exactly the data of the removed objects has been asked to be deleted, at once or in chunks. |
| DeleteRequest.CheckPolicies | lib/api/multiObjectDelete.js:492-592 | It fails exactly for a Vault error or for results that are not one with a usable ARN per entry; otherwise no entry is lost or doubled, an account's entries all stay in play, a blanket denial refuses all, and an entry is in each list exactly if some result puts it there. |
| DeleteRequest.SplitKeepsEntries | lib/api/multiObjectDelete.js:562-589 | Refused, in-play and internal entries together are the results' entries, none lost and none doubled. |
| DeleteRequest.SplitHolds | lib/api/multiObjectDelete.js:577-588 | An entry is in a list if and only if some result puts it there. |
| DeleteRequest.RequestedIsSent | lib/api/multiObjectDelete.js:562-576 | When Vault answers in the request's order, the entries read off the ARNs are those of the request. |
| DeleteRequest.CheckBucket | lib/api/multiObjectDelete.js:593-633 | It fails exactly when the bucket is looked at and is missing or shielded; otherwise no entry is lost or doubled, all errors are AccessDenied, and the entries in play stay so exactly if access is granted. |
| DeleteRequest.BucketKeepsEntries | lib/api/multiObjectDelete.js:593-633 | Looking at the bucket loses no refused or in-play entry and doubles none, whether or not access is denied. |
| DeleteRequest.SharesAddUp | lib/api/multiObjectDelete.js:482-638 | Each requested entry is once among the refused, the handled and the server's own, as often as it was requested. |
| DeleteRequest.DeleteInPlay | lib/api/multiObjectDelete.js:639-644 | The response holds exactly the refused entries and the in-play entries' outcomes, with both counters, or is never given when a delete marker fails to be stored. |
| DeleteRequest.MultiObjectDelete | lib/api/multiObjectDelete.js:463-676 | Whatever order the workers end in: the request is refused with the error of the first check that fails, never answered exactly when a delete marker cannot be stored, and otherwise reports the refused entries as AccessDenied and the outcomes of the handled ones, with both counters. An entry is handled exactly as often as Vault allows it, or an account asks for it, if it is no internal key and the bucket is open to the requester; as often as Vault or the bucket denies it, it is refused and not handled. |
| PartRanges.SetPartRanges | lib/api/apiUtils/object/setPartRanges.js:8-88 | Reading the resulting locations gives exactly the bytes of the range, or the whole object without one; each size is the number of bytes read, except exactly for a range of a non-empty object with one location that begins behind its first byte and reaches past its end. |
| PartRanges.ReadRange | lib/api/apiUtils/object/setPartRanges.js:35-86 | Over several locations the early exits and skips lose no byte of the range and add none. |
| PartRanges.SelectPart | lib/api/objectGet.js:252-274 | The loop that stops behind the part selects all locations of the part, and no other. |
| PartRanges.SelectedBytes | lib/api/objectGet.js:281-285 | From the first location's start to the last one's end lie exactly the bytes of the part. |
| PartRanges.GetObject | lib/api/objectGet.js:209-296 | InvalidRequest exactly for a range together with a part, InvalidArgument exactly for no number or one outside 1 to 10000, InvalidPartNumber exactly for a part that no location belongs to, and no other error; otherwise the bytes read are those of the locations of the part, of the range or of the object, and the announced length is their number. |
| PartRanges.ContentJoins | lib/api/objectGet.js:209-296 | The data of an object is that of its locations, one after the other. |
| PartRanges.GetPart | lib/api/objectGet.js:252-296 | A missing part is InvalidPartNumber; otherwise the bytes read are the part's, and the announced length is their number and that of the part's range. |
| PartRanges.PartRangesTile | lib/api/objectGet.js:252-290 | The ranges of the parts, in the order of their numbers, lie end to start over the whole object, their announced lengths add up to the object's, and a part is there exactly if its number is among the object's. |
| PartRanges.PartsTileObject | lib/api/objectGet.js:252-290 | The bytes of all parts, in the order of their numbers, are the object. |
| VersionListing.ProcessVersions | lib/api/bucketGet.js:136-161 | One row for each item: the escaped key, the delete-marker flag, `null` or the encoded version id, and a latest flag that is set unless the row before, or the key marker, shows the same key. |
| VersionListing.PagesShowTheSameRows | lib/api/bucketGet.js:136-142 | However a listing is split into pages, each page's marker being the last key of the page before, the rows are those of the unsplit listing. |
| VersionListing.PageIsRightExactly | lib/api/bucketGet.js:136-142 | For any key marker, a page has the rows of the whole listing if and only if the marker is the first item's key exactly when that item has a version of its key before it. |
| VersionListing.LatestIsFirstOfKey | lib/api/bucketGet.js:141-142 | With an injective escape function the flag is set exactly on the first listed version of each key. |
| VersionListing.ExactlyOneLatest | lib/api/bucketGet.js:141-142 | Every listed key has exactly one version with the flag. |
| Overlay.LatestNeverDangles | lib/management/configuration.js:149-209 | In every run of any number of processes, with failures and restarts anywhere, the stored latest version names a stored overlay that has that version. |
| Overlay.OverlayIsFound | lib/management/configuration.js:188-209 | A process that has read the latest version finds the overlay it names. |
| Overlay.LiveNeverGoesBack | lib/management/configuration.js:38-50 | The live version of a process that is not restarted never decreases, whatever other processes do. |
| Overlay.StoredVersionNeverGoesBack | lib/management/configuration.js:21-25 | When rounds do not overlap, the stored version never decreases, with failures and restarts anywhere. |
| Overlay.OverlapLosesVersion | lib/management/configuration.js:149-175 | For any two processes, any stored overlays and any two newer versions, a failure-free run exists in which the stored version goes back from the newer to the older one. |
| Overlay.StoredVersionIsKeptExactly | lib/management/configuration.js:149-175 | From every idle state the stored version goes back in no run, between no two of its states, if and only if at most one process polls. |
| Overlay.Poller.LoadCachedOverlay | lib/management/configuration.js:188-209 | Fails exactly when a read that it makes fails; otherwise gives the overlay stored under the latest version, which has that version, or the empty overlay when none is stored. |
| Overlay.Poller.PatchConfiguration | lib/management/configuration.js:38-135 | Fails exactly for a newer overlay that is refused, leaving the live version; otherwise the live version is the newer of the two. |
| Overlay.Poller.SaveConfigurationVersion | lib/management/configuration.js:149-178 | Fails exactly when a write that it makes is reported as failed, lost or not; the overlay is written before the version that names it, so the latest version always names a stored overlay; without a failure the newer version is stored. |
| Overlay.Poller.ApplyConfigurationOverlay | lib/management/poll.js:44-67 | No round makes the live or the stored version go back; a round without a failing call ends without an error; one without an error leaves the live version at the newest of live, stored and remote, and stores the newest of stored and remote. |
| Acl.SameLengthInside | lib/metadata/acl.js:34-35 | A duplicate-free list that passes the length-and-inclusion test against another one has the same grantees, each as often. |
| Acl.UnchangedMeansReordered | lib/metadata/acl.js:26-36 | With a duplicate-free old list the test holds exactly for its reorderings. |
| Acl.UnchangedMeansSameGrantees | lib/metadata/acl.js:26-36 | With both lists duplicate-free the test holds exactly when the sets of grantees are equal. |
| Acl.TestIsSoundExactly | lib/metadata/acl.js:29-35 | The test never hides a change of an old list, for any new list, exactly when the old list has no duplicates. |
| Acl.UnchangedMeansSameAcl | lib/metadata/acl.js:40-41 | With duplicate-free old grants, an ACL counts as unchanged exactly when the canned ACL, the kinds of grants and all grantees agree. |
| Acl.ObjectMD.AddObjectACL | lib/metadata/acl.js:38-51 | The write is skipped exactly for an unchanged ACL, and only a failing write is an error; with duplicate-free old grants what is stored after a call without error says what the request says. |
| Acl.SortHeaderGrants | lib/utilities/aclUtils.js:216-224 | Each list gets the grantees of its kind in header order, behind those it had. |
| Acl.DuplicateFreeExactly | lib/utilities/aclUtils.js:216-224 | The lists that a request makes are duplicate-free exactly when its headers repeat no grant. |
| MetadataCache.DirectLookup | lib/metadata/metadataUtils.js:69-90 | A direct lookup answers the document that the service finds, passes its error on, and answers none for a missing version other than "null". |
| MetadataCache.NullLookupFails | lib/metadata/metadataUtils.js:27-57 | The second look for the version "null" fails exactly if reading the master, or the version it refers to, fails. |
| MetadataCache.NullVersionIsFound | lib/metadata/metadataUtils.js:27-57 | A lookup of the version "null" finds the null version wherever either layout keeps it, and none if there is none. |
| MetadataCache.MetadataGetObjects | lib/metadata/metadataUtils.js:100-125 | The map holds each fetched document under its key followed by the version id, the last one of several; an error is passed on. |
| MetadataCache.LookupIsRightExactly | lib/metadata/metadataUtils.js:69-90 | A lookup through the map equals a direct one if and only if no fetched document's key, followed by its version id, spells the key that is looked up. |
| MetadataCache.RequestIsRightExactly | lib/api/multiObjectDelete.js:203-229 | Every lookup of a request equals a direct one, whatever the service and the batch read answer, if and only if no key of the request is another one followed by its version id. |
| MetadataCache.PlainKeysCollide | lib/metadata/metadataUtils.js:119 | A document fetched without a version id is found under its key followed by the word undefined. |

## Left out

What the models assume of parts that are not modelled:

- The metadata service's listing is taken to return the first keys in string order and to say whether there are more; its code is not part of this model.
- Fresh locations: the data service is taken to hand out locations that were never handed out before.
- The choice of parts by a completion (`validateAndFilterMpuParts` and `generateMpuPartStorageInfo`, which are not part of this model) is taken to accept an ascending list of stored parts whose ETags match and that are big enough but for the last, and to concatenate their locations in list order; of two errors of an ascending list, either may be answered. Whether an ETag matches and a part is big enough is given.
- Batch reads of metadata are taken to give each entry's own document or none, with the version id that was asked for.
- Vault, bucket authorization, object-lock clocks, key derivation, the AES block function, version-id encoding and XML escaping are unknown functions or given answers.

What the models do not do:

- Uploads: aborting an upload, external backends, `x-scal-s3-version-id`, and shadow buckets of model version 1 with the old splitter (with the module-level `splitter` that keeps the old value once it has seen one).
- Uploads: the compatibility mode that keeps null versions under version ids instead of the null key, and null versions written by servers older than the null key.
- Uploads: another write of the key is one event, from the reading of the current object to the deletion of the data it replaces; that it may fail halfway, and leave a copy under the null key as a completion may, is not modelled.
- Uploads: a call that fails may have had its effect, but an effect never comes later than the answer; key deletions that are still under way when a completion ends are not modelled.
- MpuServer.Server.ObjectPutPart: the part number is given as a number; text that is no number is refused like a number below 1. Authorization and encryption set-up come before what is modelled.
- MpuServer.Server.OtherRequests: stands for whatever other requests do in the meantime; callers know its contract only. The same holds for OtherPuts.
- PartListing.PagesShowEveryPartOnce: the marker is a number below 100000; a larger one loses its leading digits in the padding, and a negative one is no part key.
- CtrSeek.IncrementIV: counters are unbounded numbers; the original computes with doubles, which are exact up to 2 to the power 53.
- CtrSeek.SeekRoundTripExactly: the failing half needs a suffix that holds a whole block of the key stream, because two different blocks may agree in some bytes.
- CtrSeek.CreateDecipher: the stream machinery of Node is a method that returns the output; writing and reading the skipped bytes is one call.
- DeleteJob.Job.ForEachLimit: what the services answer to an entry's worker does not depend on what other workers of the request have done, so two entries with the same key do not influence each other.
- DeleteRequest.MultiObjectDelete: parsing the body, its digest, the XML of the response and metrics are left out; deleting the server's own files is one given answer.
- DeleteEntry.DeferredDeletesTheSame: metadata deletion is taken to return no payload of its own, which the immediate form would otherwise treat as locations; a missing location that is not null counts as none.
- PartRanges.GetObject: objects of older models with a bare key as location, reads from a preferred replica, and the parsing of the Range header, which is given as a range inside the object.
- Overlay.LatestNeverDangles: polling mode only. In push mode every overlay is saved without a look at the stored one, so the stored version may go back.
- Overlay.Poller.PatchConfiguration: the accounts, endpoints and locations that a version carries are not modelled, only which version is live.
- Acl.ObjectMD.AddObjectACL: a new ACL that lacks a kind of grant of the old one makes the original throw; callers always give all kinds.
- MetadataCache.LookupIsRightExactly: the map is a plain map; keys that name properties which every JavaScript object inherits are not modelled.
- HTTP routing, authentication, bucket configuration handlers, metrics and logging would only add members without hard properties.
