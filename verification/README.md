# CloudVault in Dafny

A model of CloudVault's netdisk service and proofs about it. The service keeps a forest of
files and folders in a table, shares stored content between rows by a manual reference
count, caches objects and folder pages in Redis, downloads in the background through a
message queue, takes large files in chunks, spreads content over storage nodes and folds
activity events into daily counters. Each of these is modelled with the branches, limits
and error paths of the source, and the properties it is built for are proved over all
inputs, all runs, or all reachable states.

`dafny verify dfyconfig.toml` checks everything (Dafny 4.11).

## How it is laid out

| files | part |
|---|---|
| `Forest`, `References`, `CacheKeys`, `Caches`, `Contents`, `Removal`, `Copies`, `Steps` | the tables, counts, caches and stored content as values, and the laws about them |
| `Netdisk`, `Rules`, `Runs`, `Limits` | the service as a class whose methods change tables, blobs and caches call by call; its refusals in terms of columns; whole runs; where it falls short |
| `Download`, `Worker` | the offline-download protocol as a state machine over its steps, and the message handler as a method that takes those steps |
| `Slices`, `Multipart`, `Merging` | cutting a file, chunk uploads, completion, the web client's loop, and completions of several callers at once |
| `RoundRobin`, `StorageCluster`, `Placement`, `ClusterLimits` | node selection, replicas and migration; where the copies lie; runs that end with wrong used sizes |
| `Activity` | deduplicated daily counters |
| `ArchiveNames`, `Archive` | the listing behind a zip download |
| `RedisLocks` | the token lock |
| `Wrappers`, `Decimals`, `ObjectNames` | small shared types, numbers as text, object names |

Every call to the database, the object store, Redis or the broker is one step that takes
effect completely or not at all. Where an object has a constant `reliable`, `false` lets any
such call fail and `true` lets only conflicts fail (names, keys, missing rows). `log` fields
record the tables after every single write, so that a contract can speak about each
intermediate step. Randomness, clocks, download results and the order of unordered queries
are chosen freely; on the storage nodes and in activity counting, which calls fail is an
input. Object and row ids are positive and never reused.

## What turned out not to hold, and exactly when it does

- A move that is carried out keeps the forest if and only if no moved row is the target or one
  of its ancestors. With working calls the only ones the guard misses are ancestors behind a
  recycled or foreign row, where `isChildFolder` stops with "no"; it answers the same when a
  lookup fails (`Netdisk.Service.MoveFiles`, witness `Limits.GuardMissesHiddenAncestor`).
- Objects keep locations of their own, and rows their content, if and only if no upload
  writes where an object of another hash lies. Nothing makes locations unique: the name of a
  user and a hash are joined with a slash, and both may contain one
  (`Netdisk.Service.CompleteFile`, `Netdisk.Service.UploadFromURL`, witness
  `Limits.SharedPathLosesContent`; `Contents.OwnNamesKeepPathsOpen` for names without one).
- `CopyFiles` inserts a row before it counts the reference: from exact counts every step is
  safe if and only if no file row is added. A copy that stops half-way skips the page
  invalidation; pages stay coherent if and only if no cached one would show the new rows
  (`Netdisk.Service.CopyFiles`). Nothing guards against a target inside a source, where no
  copy succeeds, however deep it goes (`Limits.CopyToDepth`, `Limits.NoCopyInsideItsSource`).
- Storing a finished download keeps the counts if and only if no earlier attempt stored the
  object: the existing-object branch adds a row and no reference
  (`Netdisk.Service.FinishDownload`, witness `Limits.DownloadStoredTwice`).
- An upload of a new hash that is rolled back, and no other upload, leaves cache entries that
  name the deleted object (`Netdisk.Service.StoreNew`). While the cache holds both of them, a
  retry under a free name fails, and drops one (`Netdisk.Service.CompleteFile`, witness
  `Limits.GhostRetryFails`).
- A completed download can be reopened as long as, and only as long as, a message about it is
  queued, delayed or held; a failed one while such a message has attempts left or a handler
  is still downloading (`Download.CompletedCanChangeIff`, `Download.FailedCanChangeIff`,
  witness `Download.CompletedCanReopen`). A running one whose handler is gone can change
  as long as, and only as long as, a message about it is known: the last redelivery that
  finds it running is acknowledged and leaves it so for good, one whose read fails retries it
  (`Download.RunningCanChangeIff`, witnesses `Download.AbandonedStaysRunning`,
  `Download.AbandonedIsRetried`). Where reading and claiming work, ended rows never change
  and running rows without a handler stay running (`Download.EndsAbsorb`,
  `Download.AbandonedForever`).
- Least connections reads a used size of -1 as "none yet": it picks a least used node if and
  only if the least size is not -1 or the last available node has it
  (`StorageCluster.LeastConnIff`, witness `ClusterLimits.MinusOneIsReached`).
- Used sizes stay the bytes the nodes hold after an upload if and only if no node got two
  copies, or the object is empty, and no node written to held content at the key
  (`StorageCluster.BookedAfterUploadIff`). A node gets two copies, with circular selection
  among m available nodes, if and only if two puts that work are a multiple of m selections
  apart (`Placement.CircularApartIff`; when no put fails, more copies than nodes:
  `Placement.BookedCircularReliablyIff`); under least connections, with no used size below
  zero, if and only if there are more copies than nodes that come before the first one's next
  turn (`Placement.LeastConnApartIff`, witness `ClusterLimits.LeastConnDoubles`).
- Used sizes stay right in a migration without failures if and only if the target held no
  content at the keys that move (`StorageCluster.BookedAfterMigrationIff`). Migration merges
  two replicas into one if and only if the target held one (`StorageCluster.MoveMergesIff`).
- With working marks and an empty queue, the daily rows are the sums of the distinct events
  if and only if no event was marked and then not written (`Activity.DrainedIff`, witness
  `Activity.MarkedAndLost`). The summary of a day is right if and only if its hash is unread,
  absent, or misses no event applied on that day (`Activity.Aggregator.GetSummary`, witness
  `Activity.HashHidesRow`).
- A multipart upload resumed with another chunk size that announces the same number of
  chunks passes the count check, and what it stores is the file if and only if there was one
  chunk or one size (`Slices.MixedSizesIff`, `Multipart.ResumeWithOtherSize`).
- Paths in a zip are distinct if and only if no two rows of one kind in one folder below a
  selected row, and no two selected rows of one kind, have names that become the same
  (`Archive.ArchivePathsDistinctIff`).

## Model

| member | source | states |
|---|---|---|
| `Runs.Run` | internal/service/user_file.go:47-598 | After any sequence of uploads, stored downloads, tree operations, listings, lookups and cache expiries that fail only on name, key or permission conflicts: every ref_count equals the number of live and recycled rows pointing at the object and no object is unreferenced, the parent relation is acyclic, cached objects agree with their rows; folder pages equal what the query would return unless a copy or delete was refused after writing rows; lookups are exact unless an upload of a new hash was rolled back; and no two objects share a location and every object has its content unless an upload or download wrote where an object of another hash lies. Only moves that would close a cycle, copies into one of their own sources and downloads already stored are kept out |
| `Runs.OffTheWalk` | internal/service/user_file.go:423-442 | Decides whether no selected row is the target or one of its ancestors, whoever owns them and whether or not they are recycled |
| `Runs.ClosesCycle` | internal/service/user_file.go:355-403 | Decides whether a move would be carried out and close a cycle; then a moved row is an ancestor of the target that the guard does not see |
| `Runs.OutsideSources` | internal/service/user_file.go:464-521 | Decides whether a copy target lies outside everything the copy would visit, the condition under which it can succeed |
| `Forest.AboveShrinks` | internal/service/user_file.go:423-442 | Each step of a parent walk on a forest strictly shrinks the set of ancestors left, so the walk ends |
| `Forest.KidShrinks` | internal/service/user_file.go:192-228 | A child's subtree is a proper part of its folder's subtree, so recursion over children ends |
| `Forest.SubUnfold` | internal/service/user_file.go:192-228 | What a recursion from a row visits is the row and, if it is a folder, what it visits from each child |
| `Forest.SiblingsDisjoint` | internal/service/user_file.go:192-228 | On a forest the subtrees of two different children share no row |
| `Forest.InsertAcyclic` | internal/service/user_file.go:47-95 | Inserting a row below an existing one keeps the forest |
| `Forest.SubtableAcyclic` | internal/service/user_file.go:157-228 | Deleting rows keeps the forest |
| `Forest.MoveAcyclicIff` | internal/service/user_file.go:399-403 | Re-parenting a batch keeps the parent relation acyclic if and only if no moved row is the target or one of its ancestors |
| `Forest.Fetch` | internal/service/user_file.go:193-197 | A query without ORDER BY returns exactly the matching rows, once each, in any order |
| `References.InsertSettles` | internal/service/file_object.go:212-230 | The row that follows makes the counts exact again |
| `References.GiveUp` | internal/service/file_object.go:139-155 | Taking a counted reference back leaves counts exact, or the object unused when it was the last |
| `References.RemoveOwes` | internal/service/user_file.go:169-178 | Deleting a row leaves its object exactly one reference too many until RemoveObject runs |
| `References.InsertFirstIsSafeIff` | internal/service/user_file.go:491-520 | Inserting the row before counting it, as CopyFiles does, keeps every count at least the number of rows if and only if the object's count had room |
| `References.InsertFirstBreaks` | internal/task/download_task.go:127-146 | With exact counts, adding a row to an existing object without counting it leaves the count too low |
| `Contents.RemovalStaysPlaced` | internal/service/file_object.go:589-594 | Removing an object no row uses, with its blob, takes no other object's content where no two share a location |
| `Contents.NewObjectPlacedIff` | internal/service/file_object.go:519-530 | A new object keeps locations apart if and only if nothing lies at its own |
| `Contents.LostContentShows` | internal/service/file_object.go:589-591 | With exact counts a blob taken from a location in use is missed by some row |
| `Contents.ObjectNameInjective` | internal/service/file_object.go:39-41 | Object names of users without a slash in their names differ for different users or hashes |
| `Contents.OwnNamesKeepPathsOpen` | internal/service/file_object.go:39-41 | Where user names have no slash and objects lie under their own names, locations are unique and no upload meets another object |
| `Steps.CopiedTrans` | internal/service/user_file.go:464-521 | What copying does step by step: rows of the user for objects in use are added, pages dropped, and from exact counts every step is safe if and only if no file was added |
| `References.ReplaceableIff` | model/user_file.go:12-27 | An update of one row respects the unique index over user, parent, name and is_deleted if and only if no other row has the new key; rows with NULL parent never clash |
| `CacheKeys.BuildCacheKey` | utils/cache.go:115-121 | The key is the prefix followed by every parameter after a colon |
| `CacheKeys.ListKeyInjective` | utils/cache.go:137-170 | Two list requests share a key only if user, folder, page, size, order and direction are the same |
| `CacheKeys.ListPatternExact` | utils/cache.go:174-182 | The invalidation pattern of (user, folder) matches a list key if and only if the key is of that user and folder |
| `CacheKeys.GlobIsPrefix` | utils/cache.go:60-79 | A literal followed by * matches exactly the strings that start with the literal |
| `CacheKeys.ObjectKeysDisjoint` | utils/cache.go:212-294 | Object entries by id, by hash and by path never share a key |
| `CacheKeys.ObjectKeysInjective` | utils/cache.go:239-294 | Different hashes have different keys, and different bucket-path pairs have different keys when the bucket has no colon |
| `Decimals.NatTextInjective` | utils/cache.go:115-121 | Different numbers are spelled differently |
| `Caches.ChangedFolders` | internal/service/user_file.go:33-36 | Frame rule: a write can make stale only pages of folders whose listing it changes |
| `Caches.CoherentIff` | internal/service/user_file.go:405-418 | After writes that changed some folders and dropped some pages, the pages are coherent if and only if the cached ones of those folders still show what the table holds |
| `Caches.DropCures` | utils/cache.go:174-182 | Deleting by a folder's pattern makes that folder's pages coherent and drops no other page |
| `Caches.InsertChangesOne` | internal/service/user_file.go:47-95 | An insert changes the listing of one folder only |
| `Caches.UpdateChangesMany` | internal/service/user_file.go:405-418 | A batch update changes only the listings the rows were in and are in now |
| `Caches.StoreCoherent` | utils/cache.go:157-170 | Caching a freshly queried page keeps all pages coherent |
| `Removal.SubIsDescendants` | internal/service/user_file.go:192-228 | What the recursion visits is exactly the folder and all its descendants, when folders only hold rows |
| `Removal.GoneStep` | internal/service/user_file.go:199-225 | Handling one more child removes exactly that child's subtree, disjoint from what is gone already |
| `Removal.GoneAll` | internal/service/user_file.go:199-225 | After the last child exactly the folder's proper descendants are gone |
| `Removal.SiblingKept` | internal/service/user_file.go:199-225 | Deleting earlier children leaves a later child's subtree and deletability alone |
| `Removal.BytesUnion` | internal/service/user_file.go:192-228 | File bytes add up over disjoint sets of rows |
| `Copies.Assemble` | internal/service/user_file.go:464-521 | A copied folder row together with copies of its children is an isomorphic copy of the whole live subtree |
| `Copies.CopyOccurrences` | internal/service/user_file.go:515-520 | A completed copy adds to each object exactly as many rows as it occurs in the copied subtrees |
| `Copies.WholeSubtrees` | internal/service/user_file.go:495-513 | A successful copy has copied every live row below its sources |
| `Copies.JoinInjective` | internal/service/user_file.go:464-521 | No new row stands for two old ones |
| `Copies.ChargedKeeps` | internal/service/user_file.go:515-520 | Counting one reference per new file row keeps exact counts exact, even after a copy that stopped half-way |
| `Netdisk.Service.constructor` | internal/service/user_file.go:47-68 | An empty store satisfies every invariant |
| `Netdisk.Service.GetFileObjectById` | internal/service/file_object.go:113-126 | Lookup by id through the cache returns the row's values if the row exists, and with a cache free of rolled-back entries exactly when it exists |
| `Netdisk.Service.GetFileObjectByHash` | internal/service/file_object.go:91-111 | Lookup by hash likewise; a stale hash entry is dropped and the table asked. It answers with an object that is gone only if the cache held both the hash entry and the object, and always then if entries do not expire meanwhile |
| `Netdisk.Service.GetFileByObject` | internal/service/file_object.go:67-89 | Lookup by path likewise |
| `Netdisk.Service.IncreaseRefCount` | internal/service/file_object.go:128-137 | Adds one to the count and drops the cached entry |
| `Netdisk.Service.DecreaseRefCount` | internal/service/file_object.go:139-155 | Counts down only while more than one reference is left and otherwise reports zero |
| `Netdisk.Service.RemoveObject` | internal/service/file_object.go:576-603 | Gives up one reference; object and blob go exactly when it was the last. Whatever call fails, if no two objects shared a location before and every row had its content, the same holds afterwards |
| `Netdisk.Service.DeleteByPattern` | utils/cache.go:60-79 | The scan deletes exactly the keys the pattern matches |
| `Netdisk.Service.InvalidateFileListCache` | internal/service/user_file.go:33-36 | Invalidation cures the folder's pages and touches no others |
| `Netdisk.Service.CreateUserFile` | internal/service/user_file.go:47-68 | Inserts exactly the given file row, when foreign keys and unique index allow it, and keeps forest and pages |
| `Netdisk.Service.Attach` | internal/service/file_object.go:212-230 | One more reference to an existing object and its row, or neither; the counts are safe at every intermediate step |
| `Netdisk.Service.StoreNew` | internal/service/minio.go:433-450 | A new object and its first row, or neither; after the rollback only cache entries remain, and lookups are exact if and only if there was none |
| `Netdisk.Service.FastUpload` | internal/service/file_object.go:176-236 | With working calls and no cached deleted object the answer is exact: an upload is asked for because no object has the hash, because the sizes are known and differ, or because its content is missing; otherwise it is instant if the name is free and refused if not. Counts are safe at every step under any failing call, and every row keeps its content |
| `Netdisk.AnswersFound` | internal/service/file_object.go:195-230 | Of the answers to an upload by a hash that is stored exactly one applies, by size, content and name |
| `Netdisk.Service.MultiPartFileInit` | internal/service/file_object.go:273-307 | Instant exactly when the hash is stored and available and the name is free; the new row then has the caller, folder and name asked for, its object has the requested hash, and its size is that object's; otherwise nothing changes |
| `Netdisk.Service.Repair` | internal/service/file_object.go:488-511 | Rewrites blob, row and cache entries of an object whose blob is missing, keeping counts |
| `Netdisk.Service.CompleteFile` | internal/service/file_object.go:473-560 | The new row refers to the object of the hash, which gains exactly one reference and keeps owner and location, or is moved into the bucket where its content was missing, or to a new object with exactly the given owner, hash, location and size. With working calls and no cached entry for the hash that leads to a deleted object, it succeeds if and only if the name is free; with such an entry that lasts it fails, and the entry is gone afterwards. Every row's content stays in place if the path is open; with working calls, exact counts and no such entry, if and only if the hash was taken or nothing lay at the new path; rows of other hashes keep theirs byte for byte if the path is open and no such entry answers |
| `Netdisk.Service.MinioUploadFile` | internal/service/minio.go:23-126 | The new root row refers to the object at the path, which gains one reference, or to a new object with exactly the given owner, hash, path and size; it fails exactly when the hash is taken by an object elsewhere; no row loses its content |
| `Netdisk.Service.UploadFromURL` | internal/service/minio.go:396-452 | A fresh object with one row, or no change to tables; content stays in place if and only if nothing lay at its path |
| `Netdisk.Service.Reuse` | internal/service/file_object.go:483-517 | One more reference to the object found by hash, its content written again and moved into the bucket where it was missing |
| `Netdisk.Service.ReuseAt` | internal/service/minio.go:39-75 | The same for the object found by path |
| `Netdisk.Service.StoreAt` | internal/service/file_object.go:519-560 | New content, object and first row, or none of them |
| `Netdisk.Service.FinishDownload` | internal/task/download_task.go:108-152 | With working calls the counts stay exact, and safe, if and only if no earlier attempt had stored the object already, and content stays in place if and only if that is so or nothing lay at its path. Where an earlier attempt had stored it, and cached entries last, content is lost if and only if the write works, the object's lookup fails with no cached answer, the clean-up works, and an object lay at the path |
| `Netdisk.Service.AddToExisting` | internal/task/download_task.go:127-152 | A row for the object found by hash, counted nowhere; where cached entries last, the written content is removed again exactly when neither cache nor database answers the lookup and the removal works |
| `Netdisk.Service.MoveToRecycle` | internal/service/user_file.go:108-125 | Marks exactly the named row of the user recycled, when no other recycled row has its name |
| `Netdisk.Service.RestoreFile` | internal/service/user_file.go:138-155 | Marks exactly the named row of the user live again, when no other live row has its name |
| `Netdisk.Service.RenameFile` | internal/service/user_file.go:329-353 | Renames exactly the named row, when no live sibling has the name |
| `Netdisk.Service.CreateFolder` | internal/service/user_file.go:559-598 | Inserts exactly one folder, when the name is free and the parent, unless it is the root, is a row of the user, a folder and not deleted |
| `Netdisk.Service.BatchMoveToRecycle` | internal/service/user_file.go:533-556 | Marks exactly the named live rows recycled, all or none |
| `Netdisk.Service.IsChildFolder` | internal/service/user_file.go:423-442 | Ends on every forest and answers true exactly when the folder's parent walk reaches the given row through live rows of the user |
| `Netdisk.Service.MoveGuard` | internal/service/user_file.go:356-371 | Lets a move pass exactly when the target is live, not moved itself and no moved row is a visible ancestor of it; with live ancestors, exactly when no moved row is the target or a proper ancestor of it |
| `Netdisk.Service.MoveFiles` | internal/service/user_file.go:355-420 | All selected rows are re-parented or none; with working calls it succeeds exactly when guard, names and unique index allow; the relation stays acyclic if and only if no moved row is an ancestor of the target hidden behind a recycled or foreign row |
| `Netdisk.GuardLeavesHidden` | internal/service/user_file.go:362-370 | Past the guard, the only cycle left is through an ancestor behind a recycled or foreign row; with live ancestors there is none |
| `Netdisk.LiveAncestorsAreSeen` | internal/service/user_file.go:423-442 | With live ancestors isChildFolder answers true if and only if the row is a proper ancestor |
| `Netdisk.MoveVerdict` | internal/service/user_file.go:373-403 | When the database accepts the batch update of a move |
| `Netdisk.MoveStorable` | internal/service/user_file.go:382-403 | The unique index and the parent key accept a move exactly when the target exists and the names differ |
| `Rules.MoveRule` | internal/service/user_file.go:355-403 | A move is allowed exactly when all listed rows are the user's own live rows, listed once; the target, unless it is the root, is a live folder of the user, none of the moved rows and, as far as the guard sees, below none of them; no live row of the user in the target has the name of a moved one; and in a folder the moved names differ |
| `Rules.CreateRule` | internal/service/user_file.go:559-592 | A folder is allowed exactly when its parent, unless there is none, is a live folder of the user in which no live row of the user has the name; at the root no live folder has it |
| `Rules.CopyRule` | internal/service/user_file.go:445-494 | A copy is allowed exactly when all listed rows are the user's own live rows, listed once; the target, unless it is the root, is a live folder of the user; no live row of the user in it has a source's name and the sources' names differ; and every live row in a folder below the sources is the user's |
| `Rules.MarkRule` | model/user_file.go:12-27 | Recycling, restoring or renaming a row is refused exactly when a row of the same user and folder would have the same name and mark; at the root never |
| `Rules.BatchRule` | internal/service/user_file.go:533-545 | Recycling a batch is refused exactly when a row of the same user, folder and name as one of them is in the recycle bin already |
| `Rules.InsertRule` | model/user_file.go:12-27 | A row is inserted exactly when its object and folder exist and no row of the same user, folder, name and mark is there; at the root names may repeat |
| `Netdisk.Service.GetFileList` | internal/service/user_file.go:263-326 | Served from cache or table, the page is what the query returns now |
| `Netdisk.Service.Expire` | utils/cache.go:34-57 | Any entry may expire; no invariant is lost |
| `Netdisk.Service.DeleteTree` | internal/service/user_file.go:201-225 | One child and everything below it: rows, bytes, counts and blobs exactly as for the whole |
| `Netdisk.Service.DeleteFolderRecursively` | internal/service/user_file.go:192-228 | Ends on every forest; removes exactly the rows below the folder, live or recycled, and returns the sum of the removed files' sizes; the counts are safe at every step and exact at the end; blobs go exactly with their last reference |
| `Netdisk.Service.DeleteFileRecord` | internal/service/user_file.go:157-189 | Permanent deletion of a recycled row and all below it, exact in rows, bytes, counts, objects and blobs; no remaining row has a removed parent or, where no two objects share a location, loses its content; refused without writing it leaves the pages coherent, and given up half-way exactly when no cached page of a folder in the subtree, or above it, shows what is gone |
| `Netdisk.Service.CopyOne` | internal/service/user_file.go:464-521 | One source becomes an isomorphic copy under the target and each object in it gains its occurrences |
| `Netdisk.Service.CopyRow` | internal/service/user_file.go:465-493 | The new row of a copied file or folder, with name check |
| `Netdisk.Service.CopyChildren` | internal/service/user_file.go:495-513 | All live children of a folder are copied below its copy |
| `Netdisk.Service.CopyFiles` | internal/service/user_file.go:445-530 | With a target outside the sources it ends; on success fresh-id trees isomorphic to the live subtrees stand under the target, no old row changed, and each ref_count rose by the number of occurrences; with working calls it succeeds exactly when names and owners allow. Whatever fails: from exact counts every step was safe if and only if no file row was added (after success: if and only if no live file lies below the sources), pages stay coherent if and only if no cached page of the target or of a new folder would show something else, and no row loses its content |
| `Limits.GuardMissesHiddenAncestor` | internal/service/user_file.go:423-442 | Three rows, a recycled folder between two live ones: the move passes every check and closes a cycle |
| `Limits.NoCopyInsideItsSource` | internal/service/user_file.go:445-530 | No table holds a complete copy of a folder inside that folder, so a copy into its own source has no result to end with |
| `Limits.CopyToDepth` | internal/service/user_file.go:445-530 | The copy with its recursion cut off at any depth, whatever fails, succeeds only with a target outside everything below the sources |
| `Limits.NewFolderIsBelow` | internal/service/user_file.go:482-513 | When the target lies below the source, or is it, the new folder lies below a child that is still to be copied |
| `Limits.SharedPathLosesContent` | internal/service/file_object.go:519-530 | Two completed uploads, by user "a" with hash "b/c" and user "a/b" with hash "c", store at one path; deleting the second file for good takes the first one's content |
| `Limits.GhostRetryFails` | internal/service/file_object.go:473-560 | An upload of a new hash is rolled back on a name clash; the retry under a free name fails because the cache answers with the deleted object, and the one after it succeeds |
| `Limits.DownloadStoredTwice` | internal/task/download_task.go:108-152 | Two attempts store one download: two rows, and a count that is too low |
| `Download.RetryDelays` | internal/worker/download_worker.go:208-220 | The delay is the configured one for the attempt, the last one from there on; an ascending schedule gives ascending waits |
| `Download.StepKeepsCover` | internal/worker/download_worker.go:97-206 | Every step of anybody keeps each retrying or accepted pending task covered by a message |
| `Download.NoTaskIsEverLost` | internal/worker/download_worker.go:97-206 | In every run, with any number of handlers, crashes, duplicates, failed publishes and failed writes, each retrying task and each pending task whose creation returned has a message ready, delayed, or held by a handler that has not claimed or has not published yet |
| `Download.MessageOrigin` | internal/mq/rabbitmq.go:141-153 | Messages come only from creation and from scheduled retries |
| `Download.RetriesAreBounded` | internal/worker/download_worker.go:149-178 | In every run each message's attempt and each retry_count stay within max(0, maxRetry) |
| `Download.ClaimsAreExclusive` | internal/task/download_task.go:79-96 | In runs in which reading and claiming work, at most one handler owns a task between claim and status write, and the row says running meanwhile |
| `Download.OnlyTheOwnerWrites` | internal/worker/download_worker.go:159-192 | In runs in which reading and claiming work, only the owner changes a running task's row |
| `Download.EndsAbsorb` | internal/task/download_task.go:154-161 | In runs in which reading and claiming work, completed and failed rows never change again |
| `Download.AbandonedForever` | internal/worker/download_worker.go:112-129 | In runs in which reading and claiming work, a running task whose handler crashed or was cancelled stays running |
| `Download.CompletedCanReopen` | internal/task/download_task.go:75-93 | Witness: one failed read before the claim reopens a completed download |
| `Download.CompletedCanChangeIff` | internal/task/download_task.go:75-93 | From every reachable state, a completed row can still change in some continuation if and only if a message about it is queued, delayed or held |
| `Download.RunningCanChangeIff` | internal/task/download_task.go:79-96 | From every reachable state, a running row, owned or not, can still change in some continuation if and only if a message about it is queued, delayed or held; an owner holds one |
| `Download.AbandonedIsRetried` | internal/task/download_task.go:75-93 | Witness: a handler crashes after the claim, the next read of the redelivered message fails, and the task is retried |
| `Download.AbandonedStaysRunning` | internal/task/download_task.go:94-96 | Witness: a handler crashes after the claim, the redelivered message finds the row running and is acknowledged, and no continuation changes the row |
| `Download.FailedCanChangeIff` | internal/worker/download_worker.go:149-178 | From every reachable state, a failed row can still change if and only if such a message has attempts left or a handler is still downloading for it |
| `Download.SettledForever` | internal/worker/download_worker.go:97-206 | A completed or running row about which no message is known, and a failed one that meets none of its two conditions, stays as it is in every continuation |
| `Download.NeverStuck` | internal/worker/download_worker.go:97-206 | In runs without duplication, cancellation, lost publishes or lost status writes, a task that has not ended always has a step to take |
| `Download.EffortIsPaid` | internal/worker/download_worker.go:135-206 | In such runs the steps taken and the steps left never exceed 6 * maxRetry + 7 |
| `Download.EveryTaskEnds` | internal/worker/download_worker.go:135-206 | Without duplication, cancellation, lost publishes or lost status writes a task is claimed at most maxRetry + 1 times, takes boundedly many steps, and has ended when no step is left |
| `Worker.DownloadWorker.ProcessDownloadTask` | internal/task/download_task.go:74-164 | Claims before downloading; ends done, given back, or with an error before or after the claim. Without interference the row is claimed exactly when it is pending or retrying, and completed exactly when processing ends without error |
| `Worker.DownloadWorker.ScheduleRetry` | internal/worker/download_worker.go:149-178 | While attempts are left, writes retrying with the next attempt and publishes it to the delayed queue; otherwise marks the download failed; a call that fails gives the message back |
| `Worker.DownloadWorker.MarkFailed` | internal/worker/download_worker.go:180-206 | Writes failed or gives the message back |
| `Worker.DownloadWorker.HandleDownloadMessage` | internal/worker/download_worker.go:97-147 | Whatever fails and whoever interferes between its calls, the message ends acknowledged or given back, and all that happened is a run of the protocol, so no task is lost. When nobody interferes the outcome is exact: a failed read, an HTTP status 408, 429 or of at least 500, or another fault ends with the row retrying, its count raised and the next attempt delayed while the next attempt is at most the configured number; any other status, a missing row or spent attempts ends with failed and nothing sent; no error on a claimable row ends with completed |
| `Slices.CutAndJoin` | static/app.js:1033-1083 | Cutting a file with one chunk size and concatenating the chunks gives the file back, for every file and size |
| `Slices.ChunkLengths` | static/app.js:1072-1074 | Every chunk but the last is full and none is empty unless the file is |
| `Slices.MixedSizesIff` | static/app.js:1033-1083 | When each chunk is cut with one of two sizes that announce the same number, what is composed is the file if and only if there is one chunk or all were cut with one size |
| `Slices.MixedLengthIff` | static/app.js:1072-1074 | For any sizes, the composed length is the file's if and only if all chunk sizes but the last add up to as many of the last |
| `Slices.Sorted` | internal/service/file_object.go:405-408 | Chunk rows come back in ascending order of index, each once |
| `Slices.AscendingIsAll` | internal/service/file_object.go:425-427 | n ascending indices below n are 0 to n - 1 |
| `Multipart.CountMakesWhole` | internal/service/file_object.go:425-427 | When the number of in-range chunk rows is the announced one, they are exactly all indices |
| `Multipart.ChunkPathInjective` | internal/service/file_object.go:360-360 | Different chunks never share a blob, whatever the upload ids contain |
| `Multipart.ComposedIsTheFile` | internal/service/file_object.go:425-471 | If the chunk blobs were cut from one file with one size and the count check passes, compose writes the file |
| `Multipart.Server.Init` | internal/service/file_object.go:308-347 | Resumes the newest session when it has chunks, else opens one; the answer lists the stored indices |
| `Multipart.Server.UploadChunk` | internal/handler/minio.go:188-232 | Guards answer by session, owner and range; a stored chunk replaces blob and row of its index and nothing else |
| `Multipart.Server.WriteObject` | internal/service/file_object.go:445-471 | Writes the concatenation of the chunks, or the empty object for zero chunks and size zero |
| `Multipart.Server.CleanupUploadData` | internal/service/file_object.go:435-444 | Removes only this upload's chunk blobs, rows and session |
| `Multipart.Server.CompleteFile` | internal/service/file_object.go:412-564 | Done only with exactly all indices present; the object then holds their concatenation and no other blob changed. With working calls the answer is determined: no session, missing chunks, a refused row, content that cannot be composed, or done |
| `Multipart.Server.Guards` | internal/handler/minio.go:244-259 | Refuses without a session of that user and hash or with another chunk number; otherwise the number is the session's and a size left out is too |
| `Multipart.Server.Complete` | internal/handler/minio.go:235-279 | Guards on session and chunk number, then the lock, then completion with the session's number. With working calls the answer is determined by session, number, lock, chunks, row and content; while the lock is taken it is never done and nothing on the server changes |
| `Merging.MergeKeyInjective` | internal/handler/minio.go:258-258 | Two completion requests ask for one lock if and only if they are about the same user and hash |
| `Merging.Merges.Begin` | internal/handler/minio.go:244-268 | A caller is refused, and changes nothing on the server, while another one of the same user and hash is between lock and unlock |
| `Merging.Merges.Finish` | internal/handler/minio.go:269-277 | A caller composes while it is the only one of its user and hash between lock and unlock |
| `Merging.Merges.Run` | internal/handler/minio.go:235-279 | Whatever callers do in whatever order, every composition happens with no other caller of the same user and hash between lock and unlock |
| `Multipart.SendInAnyOrder` | internal/service/file_object.go:351-397 | Any order, repetition and failure of chunk uploads, with other uploads in between: only pieces of the file are held, no stored index is lost |
| `Multipart.SendMissing` | static/app.js:1062-1088 | The client's resume loop sends the missing indices and leaves rows and blobs of the others alone; with working calls, no lost request and an own session it gets through |
| `Multipart.UploadByMultipart` | static/app.js:1022-1105 | A completed upload is the file, provided earlier chunks were cut with the same size, and completion never finds chunks missing. With working calls, no lost request, a free lock and an accepted row it completes, unless an earlier try announced another number of chunks or lost the content of one |
| `Multipart.ResumeWithOtherSize` | static/app.js:1033-1083 | A whole upload on the server, resumed with another size that announces the same number: completion answers done, and the object is the file if and only if there was one chunk or one size |
| `RoundRobin.NextRotates` | internal/storage/storage_cluster.go:107-117 | A selection takes the head of the circular order of available nodes and moves it to the end |
| `RoundRobin.PicksSpread` | internal/storage/storage_cluster.go:107-117 | k consecutive selections return min(k, m) distinct nodes, m being available |
| `RoundRobin.RoundRobinIsFair` | internal/storage/storage_cluster.go:107-117 | Any m consecutive selections return every available node exactly once |
| `StorageCluster.LeastConnIff` | internal/storage/storage_cluster.go:120-143 | Least connections returns a least used available node if and only if the least used size is not -1 or the last available node has it |
| `StorageCluster.ScanFindsLeast` | internal/storage/storage_cluster.go:120-143 | Where the least used size is not -1, it returns the first least used node |
| `StorageCluster.ReplicasLieApart` | internal/storage/storage_cluster.go:184-237 | With circular selection and no failing put the object lies on exactly min(ReplicaCount, n, m) distinct available nodes and no other node changed |
| `StorageCluster.UploadExcess` | internal/storage/storage_cluster.go:204-233 | An upload charges a node once per time it was chosen, whatever the node held at the key before |
| `StorageCluster.BookedAfterUploadIff` | internal/storage/storage_cluster.go:204-233 | Where every used size is the number of bytes the node holds, it is so after an upload, by any selection and with any puts failing, if and only if no node got two copies, or the object is empty, and no node written to held content at the key before |
| `Placement.CircularApartIff` | internal/storage/storage_cluster.go:107-117 | With circular selection among m available nodes, no node gets two copies if and only if no two puts that worked are a multiple of m selections apart |
| `Placement.BookedCircularIff` | internal/storage/storage_cluster.go:184-237 | With circular selection used sizes stay right if and only if that is so, or the object is empty, and no node written to held content at the key before |
| `Placement.BookedCircularReliablyIff` | internal/storage/storage_cluster.go:184-237 | With circular selection and no failing put they stay right if and only if no more copies were asked for than nodes were available, or the object is empty, and no chosen node held content at the key before |
| `Placement.NextSoonest` | internal/storage/storage_cluster.go:120-143 | After one copy each on the soonest nodes, least connections selects a new node exactly as long as there is one in front of the first one's next turn |
| `Placement.LeastConnApartIff` | internal/storage/storage_cluster.go:120-143 | Under least connections, with no used size below zero, the copies lie on different nodes if and only if there are no more of them than nodes that come before the first one charged once, counting the first; they are then the soonest nodes |
| `Placement.BookedLeastConnIff` | internal/storage/storage_cluster.go:184-237 | Under least connections used sizes stay right if and only if that is so, or the object is empty, and no node written to held content at the key before |
| `ClusterLimits.LeastConnDoubles` | internal/storage/storage_cluster.go:184-237 | Witness: two nodes and two copies under least connections; after one failed put both copies of the next object go to one node, which is charged twice |
| `StorageCluster.BookedAfterMoveIff` | internal/storage/storage_cluster.go:285-306 | It is so after one object was put on the target if and only if the target held no content at the key, or, where the removal failed, as much as was put |
| `StorageCluster.BookedAfterMigrationIff` | internal/storage/storage_cluster.go:273-317 | It is so after a migration without failures if and only if the target held no content at the keys that moved |
| `StorageCluster.UploadKeepsCovers` | internal/storage/storage_cluster.go:184-237 | No upload, whatever fails, takes a used size below what the node holds |
| `StorageCluster.RoundKeepsCovers` | internal/storage/storage_cluster.go:240-317 | Neither does a round of migrations in which no removal fails |
| `StorageCluster.CoveredPicksLeast` | internal/storage/storage_cluster.go:120-143 | Where used sizes are at least what the nodes hold, least connections picks the first of the least used available nodes |
| `ClusterLimits.MinusOneIsReached` | internal/storage/storage_cluster.go:240-317 | Witness: two uploads and two rounds of the monitor, the first with a failing removal and the second with a failing read, leave a used size of -1; least connections then picks the fullest node |
| `StorageCluster.UploadedAt` | internal/storage/storage_cluster.go:184-237 | A node is charged once per time it was chosen |
| `StorageCluster.CopyPreserves` | internal/storage/storage_cluster.go:285-299 | Copying an object to another node loses nothing |
| `StorageCluster.DropPreserves` | internal/storage/storage_cluster.go:301-306 | Removing it where another node holds a copy loses nothing |
| `StorageCluster.MoveMergesIff` | internal/storage/storage_cluster.go:285-306 | A migration keeps the number of copies unless the target already held one, and then merges two replicas into one |
| `StorageCluster.PairLosesNothing` | internal/storage/storage_cluster.go:285-306 | At every step of a migration source and target together hold the keys they held, with equal copies the same contents, and no object has fewer copies than before, except one less where both held it |
| `StorageCluster.RateIff` | internal/storage/storage_cluster.go:173-181 | A rate exceeds the threshold if and only if a hundred times the used size exceeds the threshold times the total size, for a positive total; for an unknown total only if the threshold is below zero |
| `StorageCluster.TurnEmptiesNode` | internal/storage/storage_cluster.go:243-266 | A fault-free turn of a node of which more than the threshold is used leaves it without the objects that were listed with their size, on the node picked; of any other node, of unknown size or picked itself, it changes nothing |
| `StorageCluster.QuietRound` | internal/storage/storage_cluster.go:240-270 | Up to the first node that is over the threshold a round changes nothing |
| `StorageCluster.MigratedBlobs` | internal/storage/storage_cluster.go:273-317 | When nothing fails, exactly the objects listed with their size have left the source and lie on the target |
| `StorageCluster.Cluster.SelectRoundRobin` | internal/storage/storage_cluster.go:107-117 | Returns the first available node from the current position on, circularly, and moves past it; no node only if none is available |
| `StorageCluster.Cluster.SelectLeastConn` | internal/storage/storage_cluster.go:120-143 | The scan with -1 as "none yet" |
| `StorageCluster.Cluster.SelectNode` | internal/storage/storage_cluster.go:86-104 | Under least connections the node the scan finds, otherwise the next one in circular order; none only if none is available |
| `StorageCluster.Cluster.UploadFileWithReplication` | internal/storage/storage_cluster.go:184-237 | Succeeds exactly when a node is available and the first put works; the copies are then as many as puts worked, on the nodes of consecutive circular selections, or each on the node least connections finds after the one before was charged |
| `StorageCluster.Cluster.MigrateFiles` | internal/storage/storage_cluster.go:273-317 | Whatever call fails, at every step only source and target have changed, each object of the source is on one of them with its content, each of the target is still there, and the used sizes together are unchanged; which call fails for which entry, and which listed size is wrong, determines the outcome exactly |
| `StorageCluster.Cluster.CheckAndMigrate` | internal/storage/storage_cluster.go:240-270 | The same at every step of a whole round, each migration beginning where the one before ended; each node in turn that is over the threshold by then has migrated what its listing shows to the node least connections picks, as far as calls worked |
| `Activity.BuildIncrements` | internal/activity/aggregate.go:186-213 | One event counts once, in the field of its action, with its bytes unless negative or a share |
| `Activity.SumReports` | internal/activity/aggregate.go:157-213 | The counters of a user and day are, action by action, the number of the events listed of that user, day and action, and the sum of their bytes, negative ones counted as none |
| `Activity.TalliesIff` | internal/activity/aggregate.go:157-184 | Rows report the applied events if and only if each is the running sum of their increments |
| `Activity.SumIgnoresOrder` | internal/activity/aggregate.go:157-184 | Row sums do not depend on the order of events |
| `Activity.SomeMissingIsFewer` | internal/activity/aggregate.go:157-184 | Leaving out an event always shows in the counts of its day |
| `Activity.HashExactIff` | internal/activity/aggregate.go:83-97 | A hash equals the sum of the events applied on its day if and only if none of them is missing from it |
| `Activity.DrainedIff` | internal/activity/aggregate.go:44-98 | Once the queue is empty every row is the sum over the distinct events sent if and only if no event was marked and then not written |
| `Activity.Aggregator.ApplyEvent` | internal/activity/aggregate.go:44-98 | Which faults occur, and what is remembered, determines whether the event is applied, recognised, ignored, fails or is cut short, and what remains remembered; row and hash sums and the deduplication books stay right |
| `Activity.Aggregator.Tally` | internal/activity/aggregate.go:77-96 | Row upsert and hash pipeline add exactly the event's increments, the hash on best effort |
| `Activity.Aggregator.Emit` | internal/activity/event.go:37-50 | Publishes, or applies directly when publishing fails; events that do not count change nothing |
| `Activity.Aggregator.HandleActivityMessage` | internal/worker/activity_worker.go:61-74 | Acknowledges exactly events that are recognised or applied without the worker stopping, and gives back the others; a recognised event is never applied again |
| `Activity.Aggregator.Run` | internal/worker/activity_worker.go:16-74 | Any run of sends, duplicates, failures, crashes and hash expiries keeps the books; drained, the rows are the sums of the distinct events if and only if none is stuck, and then a hash is right if and only if no event of its day is missing from it |
| `Activity.Aggregator.GetSummary` | internal/activity/aggregate.go:102-155 | One entry per day of the clamped range, oldest first; each is right if and only if its hash could not be read, is not there, or misses no event applied on that day |
| `Activity.HashHidesRow` | internal/activity/aggregate.go:83-97 | Witness: of two uploads on one day the first one's pipeline fails; the row counts both, and the summary shows the second alone |
| `Activity.MarkedAndLost` | internal/activity/aggregate.go:63-82 | Witness: a worker stops between mark and row; the message comes back, is recognised and acknowledged, and the event is never counted |
| `ArchiveNames.SanitizedIsGood` | internal/service/archive.go:17-26 | Every name becomes non-empty, not ".", without slashes, backslashes or ".." |
| `ArchiveNames.GoodNamesStay` | internal/service/archive.go:17-26 | A name that is already so and has no space at its ends is unchanged |
| `ArchiveNames.CleanLeavesSafe` | internal/service/archive.go:73-73 | path.Clean leaves a path of such names alone |
| `ArchiveNames.JoinIsPlain` | internal/service/archive.go:73-73 | path.Join of such a path and such a name only puts a slash between them |
| `Archive.OneMoreChild` | internal/service/archive.go:72-96 | Appending a child's entry and then its subtree keeps the listing in pre-order |
| `Archive.Archiver.CollectChild` | internal/service/archive.go:72-96 | One child: its entry below its parent's, followed by its whole live subtree |
| `Archive.Archiver.CollectArchiveChildren` | internal/service/archive.go:65-98 | Lists exactly the user's live rows below the folder, once each, in pre-order, every entry after and below its parent's; fails only when a file has no object |
| `Archive.Archiver.BuildArchiveEntries` | internal/service/archive.go:29-63 | For each selected row, in order, its entry and everything live below it; with working calls it succeeds exactly when every selected row is the user's live row and every listed file has its object |
| `Archive.SamePathSameRoots` | internal/service/archive.go:31-61 | Entries of two selected rows share a path only if these rows are of one kind and get one name |
| `Archive.ArchivePathsDistinctIff` | internal/service/archive.go:29-98 | The paths of a finished listing are distinct if and only if below each selected row no two rows of one kind in one folder have names that become the same, and no two selected rows of one kind have, wherever they lie |
| `RedisLocks.RedisLock.Lock` | internal/repo/redis.go:59-70 | Takes the key with a fresh token exactly when it is free and the call works |
| `RedisLocks.RedisLock.Unlock` | internal/repo/redis.go:72-91 | Removes the key exactly when it holds the caller's own token |
| `RedisLocks.Callers.HeldExcludes` | internal/repo/redis.go:59-91 | If everybody inside still holds the key, at most one caller per key is inside |
| `RedisLocks.Callers.Exit` | internal/repo/redis.go:80-91 | Leaving never takes the key from another caller |
| `RedisLocks.Callers.Run` | internal/repo/redis.go:59-91 | Any interleaving of Lock, Unlock and expiry of keys nobody relies on keeps callers of one key apart |
| `RedisLocks.Callers.ExpireHeld` | internal/repo/redis.go:59-91 | Expiry under a holder breaks exclusion as soon as the next caller gets in |

## Left out

- HTTP handlers other than the multipart ones, routing, JSON, authentication, shares, favourites, recents, profile and the rest of the web client: plumbing without state of its own.
- MySQL, Redis, MinIO and RabbitMQ themselves: each call is one atomic step; a queue is a multiset of messages, compose is concatenation, part-size limits are not modelled.
- MySQL's collation: names are equal when their characters are.
- Concurrent requests on the same tables: service calls run one after the other. Concurrency is kept for the download workers and the lock.
- Redis failures while caching or invalidating: invalidation always takes effect in the model.
- Expiry times, clocks and the rate limiter: expiry is a step that may happen at any moment, a limiter's refusal a free choice; the timestamp columns are one opaque stamp.
- URL and address checks, the HTTP download, content types, presigned URLs: a download is a free result.
- Semaphore and prefetch of the download worker: any number of handlers may run at once.
- The dead-letter queue: publishing to it is best effort and decides nothing.
- 64-bit wrap-around of sizes and counters: integers are unbounded.
- Rounding of storage usage rates: they are compared with the migration threshold as exact reals.
- Bucket listings: any sequence of keys and sizes may be listed, so the fact that a listing without recursion shows prefixes is one of the cases.
- Activity events sent by the file operations: the operations ignore the outcome.
- Chunk sizes that are not whole megabytes, and the twin loop for folder uploads: the arithmetic is the same.
- Netdisk.Service.CopyFiles: requires a target outside the sources; the source has no guard, and a copy into one of them cannot succeed.
- Netdisk.Service.RenameFile: at the root the source compares the parent with NULL and finds no sibling; the model does the same and claims no uniqueness there.
- Netdisk.Service.RemoveObject: leaves out the deletion of chunk rows of the latest upload session, beyond its possible failure.
- Netdisk.Service.FinishDownload: when cached entries may expire during the call, content can be lost under the other conditions stated even though the cache held an answer before.
- Runs.Run: leaves out downloads already stored, moves that would close a cycle, and copies into a source, which break the invariants, or cannot end, as stated above.
- Archive.Archiver.BuildArchiveEntries: the objects a lookup by id finds are one given set; a listed row keeps its object in the table by a foreign key, and for an object in the table the cached answer is the row's (`Netdisk.Service.GetFileObjectById`).
- StorageCluster.Cluster.MigrateFiles: a put whose announced size is not that of the data fails without effect; what a store may keep of it is internal to the client library.
- Multipart.Server.CompleteFile: the object and file rows it writes are those of `Netdisk.Service.CompleteFile`; here their failure is a free choice and the bytes are modelled.
- Multipart.Server.Complete: whether the lock is taken is given; callers that take it in turns are in `Merging`.
- Merging.Merges.Run: the lock does not expire while a caller composes; with expiry under a holder exclusion is false (`RedisLocks.Callers.ExpireHeld`).
- Activity.Aggregator.Run: deduplication keys do not expire, and event tokens are fresh.
- RedisLocks.Callers.Run: keys expire only when nobody inside relies on them; with expiry under a holder exclusion is false.
- Download.EveryTaskEnds: fairness is not modelled; it bounds the steps a task can take and shows that it can always take one.
