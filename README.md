# Banana-BoostyDownloader core, modelled in Dafny

Banana-BoostyDownloader mirrors a Boosty creator's content onto local disk. The
model covers the four pieces of sequential, stateful logic at its centre:

- **The download manager** (`core/downloader.py`). For each media item it:
  - deletes a leftover `<path>.part`;
  - keeps an existing destination, or flags it `incomplete` when it is below
    80% of the probed length;
  - otherwise downloads into `.part` and renames it onto the destination;
  - bumps exactly one counter of the global statistics tracker.

  The per-kind downloads report every item's status and the incomplete
  destinations, in item order.
- **The offset checkpoint state machine** of the media feeds and the posts
  feed (`core/launchers.py`):
  - A scan walks pages newest first and stops at the first page whose parsed
    offset is at or below the stored high-water mark (`eot`).
  - After each page it saves a runtime resume token.
  - On completion it clears the token and raises the stored mark to the first
    non-zero offset of the run (`fot`).
- **The post path registry ("masquerade" mode)** and the single-post download
  (`fetch_and_save_lonely_post`). The single-post download folds every post's
  item statuses into `error`, `downloaded`, `skipped` or `ok`.
- **The batch driver of `main.py`**:
  - parses the links file;
  - runs each link with a bounded batch size;
  - buckets the results into succeeded, skipped and failed links;
  - de-duplicates incomplete links and files, keeping first-seen order.

  It also includes the helpers of the API diagnostic script `api_test.py`:
  - link parsing, hash-field filtering and playlist detection;
  - media-item extraction with the signed query;
  - the verification-gap warnings.

The outside world becomes explicit input:
- **Network.** Each media item carries an `ItemEnv` record: whether the `.part`
  delete succeeds, the probed length, the transfer and whether the rename
  succeeds. A feed is the sequence of pages the API would serve, each with its
  content, its `is_last` flag, its next token and its parsed offset.
- **Disk.** The file system is a map from path to size.
- **Databases.** The sync record is the `SyncData` class, with per-stream
  `last` and `runtime` maps and `lastSyncUtc`. The post database is the
  `PostDb` class, a map from post id to row.
- **Concurrency.** `asyncio.gather` is run one task after the other, in task
  order. This is the order in which `gather` returns its results.

Modules:
- `Common`: Python truthiness, `str.lower`, `str.strip`, substring search and
  path joining.
- `Downloader`, `SyncStore`, `Registry`, `Posts`, `Pagination`, `LonelyPost`:
  the download manager and the launchers.
- `LinkBatch`: `main.py`.
- `ApiCheck`: `api_test.py`.

Each imperative method is proved against a specification function on values:
- `Decide`, `ItemStep` and `Batch` for the downloader;
- `ScanLength`, `Fot`, `NewMark`, `MediaRun` and `PostWrites` for the scans;
- `MasqueradePath` and `MasqueradeRows` for the registry;
- `PostsRun` and `LonelyRun` for post processing;
- `ParseLines` and `Summarize` for the batch;
- `Items`, `Warnings` and `WarnedCount` for the diagnostic script.

Lemmas state what the source promises about those functions.

Where the prose description of the program and the code differ, the model
follows the code:
- **Runtime token on the terminal page.** The token is saved even for the page
  that ends the scan, and it is the token that page was fetched with, not the
  next one (`Pagination.LastCheckpointIsFetchToken`).
- **Resuming can lower the mark.** `fot` is the first non-zero offset of the
  current run. A run resumed from a runtime token can therefore store a mark
  that is lower than an uninterrupted run would have stored
  (`Pagination.ResumeCanLowerMark`).
- **Registry paths are not guaranteed unique.** The suffixed name
  `<title>_<id>` is never checked again, so two rows can share a directory
  (`Registry.SuffixedNameCanCollide`). Directories stay unique only while the
  name a new post receives is free (`Registry.UniqueWhileChosenPathFree`).
- **Empty-title fallback.** The fallback to the post id applies when the *raw*
  title is empty, not when the sanitised title is empty.
- **Posts feed.** The posts feed takes no registry lock. It saves its runtime
  token once per post of a page, so a page without posts saves nothing
  (`Pagination.EmptyPagesSaveNoPostToken`).
- **Single post returning `ok`.** Every processed post sets at least one of the
  three flags. A single-post download therefore returns `ok` only when the fetch
  reported `ok` and no posts came back (`LonelyPost.FetchAndSaveLonelyPost`).
- **Audio and attached files need the cookie in posts.** In the posts feed and
  the single-post download, audio and attached files are downloaded only when
  the cookie is in use, and photos and videos without it (`Posts.Wanted`). The
  media storage mode fetches the audio stream on its own switch alone, with no
  cookie test, and never fetches attached files
  (`Pagination.FetchAndSaveMedia`).

## Model

| member | source | states |
|---|---|---|
| Common.Lower | core/downloader.py:45 | the ASCII part of `str.lower`: the length is kept, each ASCII capital becomes its small letter and every other character is kept |
| Common.Strip | main.py:36 | `str.strip` returns the line with exactly its leading and trailing whitespace removed: the result sits in the line with only whitespace around it and starts and ends on a non-space |
| Common.StripUnique | main.py:36 | an infix with only whitespace around it and a non-space at each end is the stripped line, so `str.strip` has exactly one result |
| Common.ContainsTail | api_test.py:47 | a string that contains `"video.m3u8"` also contains `".m3u8"`, which makes the second test of `is_playlist_url` redundant |
| Downloader.KindOf | core/downloader.py:80-102 | the dispatch recognises exactly the codes `p`, `v`, `a` and `f` |
| Downloader.CodeOf | core/downloader.py:80-99 | every kind has a code, and that code dispatches back to the kind |
| Downloader.Destinations | core/downloader.py:134-137 | one destination per item, in item order, each `<base>/<subdir>/<name><ext>` |
| Downloader.DestinationInjective | core/downloader.py:128-182 | items whose names are single path segments (no `/`; a file title also not empty, `.` or `..`) share a destination only if they have the same kind and the same name |
| Downloader.PartPathDiffers | core/downloader.py:35 | the `.part` path is never the destination itself |
| Downloader.Decide | core/downloader.py:29-70 | the per-item decision never returns `error`; failures raise instead |
| Downloader.IncompleteExactly | core/downloader.py:43-53 | the result is `incomplete` exactly when the destination exists, the URL has no `.m3u8`, the probed length is non-zero and `5·actual < 4·expected`; the file system is then left as after the `.part` cleanup |
| Downloader.ExistingIsKept | core/downloader.py:43-55 | an existing destination is never transferred again: the result is `passed` or `incomplete`, and only the `.part` cleanup touches the files |
| Downloader.PlaylistNeverProbed | core/downloader.py:44-47 | for a `.m3u8` URL the probe's answer changes nothing, and the result is never `incomplete` |
| Downloader.UnlinkFailureHarmless | core/downloader.py:36-41 | whether deleting a leftover `.part` fails never changes the item's outcome |
| Downloader.DownloadedExactly | core/downloader.py:57-70 | a result of `downloaded` happens exactly when the destination was missing, the transfer succeeded and the rename succeeded; the destination then holds the transferred size and no `.part` is left |
| Downloader.RaisedLeavesNoDestination | core/downloader.py:58-66 | a failed transfer or rename raises and never creates the destination |
| Downloader.SecondRunPasses | core/downloader.py:43-55 | running an item again after it was downloaded never downloads it a second time, and it passes when the probe reports the stored size |
| Downloader.Bump | core/downloader.py:104-114 | every attempt adds exactly one to the kind's counters: `downloaded` to downloaded, `passed` and `incomplete` to passed, a raise to errors |
| Downloader.ItemStep | core/downloader.py:72-114 | one item keeps the set of counted kinds |
| Downloader.Batch | core/downloader.py:128-182 | a per-kind batch keeps the counted kinds and yields one result per item |
| Downloader.BatchSnoc | core/downloader.py:134-138 | a batch grows by one item step per item, in item order |
| Downloader.IncompletePathsMembers | core/downloader.py:139 | a path is reported incomplete exactly when it sits beside an `incomplete` result |
| Downloader.IncompletePathsEmpty | core/downloader.py:139 | no incomplete path is reported exactly when no result is `incomplete` |
| Downloader.StepCounts | core/downloader.py:104-114 | an item step bumps exactly the counter its status names, in its own kind |
| Downloader.BatchOtherKinds | core/downloader.py:128-182 | a batch leaves every other kind's counters untouched |
| Downloader.BatchTotal | core/downloader.py:128-182 | a batch adds exactly one count per item to its kind |
| Downloader.BatchCounts | core/downloader.py:104-114 | the downloaded, passed and error counters grow by the number of `downloaded`, `passed` or `incomplete`, and `error` results |
| Downloader.BatchIncompleteAgrees | core/downloader.py:51-139 | the tracker's global incomplete list grows by exactly the batch's incomplete paths |
| Downloader.FileSystem.constructor | core/downloader.py:29-70 | the model file system starts from the given files with no metadata written |
| Downloader.StatTracker.constructor | core/downloader.py:12 | the tracker starts with zero counters for every kind and no incomplete files |
| Downloader.StatTracker.Record | core/downloader.py:104-114 | records one attempt: only that kind's counters change, as `Bump` says |
| Downloader.StatTracker.AddIncompleteFile | core/downloader.py:51 | appends one path to the incomplete list and changes no counter |
| Downloader.Downloader.constructor | core/downloader.py:16-27 | a downloader holds its pool, base path, parallelism and metadata switch |
| Downloader.Downloader.DownloadFileIfNotExists | core/downloader.py:29-70 | the new files and the attempt are `Decide`'s; an `incomplete` result records its path; metadata is written exactly after a download with the switch on and metadata present |
| Downloader.Downloader.GetFileAndRaiseStat | core/downloader.py:72-114 | an unknown code returns nothing and changes nothing; a known code performs exactly `ItemStep` and returns its status |
| Downloader.Downloader.DownloadKind | core/downloader.py:128-182 | the effects and results are `Batch`'s over the kind's items, and the incomplete paths are those of the `incomplete` results, in order |
| Downloader.Downloader.DownloadItem | core/downloader.py:134-137 | one loop iteration extends the batch by exactly one item |
| Downloader.Downloader.DownloadByContentType | core/downloader.py:116-126 | image, video and audio content runs the photo, video and audio batch respectively |
| SyncStore.SyncData.constructor | core/launchers.py:42-45 | a record holds an offset and a runtime token for each of the four streams |
| SyncStore.SyncData.SetLast | core/launchers.py:85-87 | sets one stream's stored offset and nothing else |
| SyncStore.SyncData.SetRuntime | core/launchers.py:74-81 | sets one stream's runtime token and nothing else |
| SyncStore.SyncData.SetLastSyncUtc | core/launchers.py:142-143 | sets the sync time and leaves every offset and token alone |
| Registry.KnownPostKeepsPath | core/launchers.py:192-194 | a post with a row keeps its stored directory whatever its title, and no row is added |
| Registry.ResolveIsStable | core/launchers.py:192-203 | resolving the same post twice gives the same directory and adds no second row |
| Registry.NewPostGetsOneRow | core/launchers.py:196-203 | a new post gets exactly one new row: the sanitised title (or the id for an empty title), or that name suffixed `_<id>` once when it is taken |
| Registry.SameTitleTwoPosts | core/launchers.py:196-203 | of two new posts with the same title, the first gets the plain name and the second the suffixed one |
| Registry.UniqueWhileChosenPathFree | core/launchers.py:196-203 | directories stay pairwise distinct as long as the directory chosen for a new post is free |
| Registry.SuffixedNameCanCollide | core/launchers.py:201-203 | the suffixed name is not checked again: a concrete table where a new post's directory duplicates an existing row's |
| Registry.PostDb.constructor | core/launchers.py:166 | the database opens on the given rows |
| Registry.PostDb.GetPost | core/launchers.py:192-193 | finds a row exactly when the id has one, and returns that row |
| Registry.PostDb.GetPostsByPath | core/launchers.py:201 | returns exactly the ids whose row names the given directory |
| Registry.PostDb.CreatePost | core/launchers.py:203 | inserts or overwrites the one row of the id |
| Registry.ResolvePostPath | core/launchers.py:191-203 | returns `MasqueradePath` and leaves the rows as `MasqueradeRows`, so the registry lemmas apply to it |
| Registry.LockRegistry.constructor | core/launchers.py:19 | the lock registry starts empty |
| Registry.LockRegistry.GetLock | core/launchers.py:22-26 | a key gets the same lock on every call; an unknown key gets a fresh lock and is the only key added |
| Posts.Select | core/launchers.py:220-240 | keeps exactly the wanted kinds of the given order, and adds no repeats |
| Posts.EnabledKinds | core/launchers.py:220-240 | the tasks built are photos and videos when enabled, audios and files only when enabled and the cookie is in use, each at most once |
| Posts.SameKeysAllKinds | core/downloader.py:12 | a counter map with the same kinds as a complete one is complete |
| Posts.KindsRun | core/launchers.py:220-242 | a post's downloads keep every kind counted and yield one result per item of its enabled kinds |
| Posts.KindsRunSnoc | core/launchers.py:362-369 | the per-post results concatenate the per-kind batches in task order |
| Posts.KindsRunIncomplete | core/launchers.py:362-374 | a post reports incomplete paths exactly when one of its items is `incomplete` |
| Posts.KindsRunCounts | core/downloader.py:104-114 | every item of every enabled kind bumps exactly one counter |
| Posts.BatchGrandTotal | core/downloader.py:104-114 | a batch adds exactly its item count to the sum of all counters |
| Posts.PostStep | core/launchers.py:188-245 | one post keeps every kind counted |
| Posts.PostsRun | core/launchers.py:188-245 | posts processed in order keep every kind counted |
| Posts.PostsRunSnoc | core/launchers.py:188 | a run of posts grows by one post step per post |
| Posts.PostsRunCounts | core/launchers.py:188-245 | the sum of all counters grows by exactly the number of items of the enabled kinds of all posts |
| Posts.PostsRunRows | core/launchers.py:191-203 | the registry part of a run depends only on the rows and the posts, never on the downloads |
| Posts.RowsRunKeeps | core/launchers.py:192-194 | existing rows keep their directory; without masquerade the rows do not change |
| Posts.RowsRunCovers | core/launchers.py:191-203 | in masquerade mode every processed post ends up with a row |
| Posts.RowsRunOnlyPosts | core/launchers.py:191-203 | no row appears for an id that was not processed |
| Posts.PostsRunRegisters | core/launchers.py:188-203 | the registry after a run of posts keeps old rows, covers every post in masquerade mode, and adds nothing else |
| Posts.ProcessPost | core/launchers.py:188-242 | returns the post's directory per the registry and leaves downloads, rows, statuses and incomplete paths as `PostStep` says |
| Posts.GatherKinds | core/launchers.py:220-242 | running the enabled kinds one after the other is exactly `KindsRun` |
| Pagination.ScanLength | core/launchers.py:46-62 | a scan fetches at least one page, stops at the first terminal page, and every page before it is non-terminal |
| Pagination.Fot | core/launchers.py:56-57 | `fot`, when present, is never zero |
| Pagination.NewMark | core/launchers.py:80-88 | the stored mark is unchanged without `fot`; with `fot` it becomes at least `fot`; it never decreases; it is the old mark or `fot` |
| Pagination.FirstTerminalEndsScan | core/launchers.py:46-62 | the first terminal page is the last page scanned |
| Pagination.ScanStopsAtMark | core/launchers.py:58-62 | a page whose parsed offset is at or below a non-zero stored mark ends the scan, yet that page is still scanned |
| Pagination.FotNone | core/launchers.py:56-57 | `fot` is absent exactly when no scanned page carried a non-zero offset |
| Pagination.FotWitness | core/launchers.py:56-57 | `fot` is the offset of the first page with a non-zero offset |
| Pagination.FotStable | core/launchers.py:56-57 | once set, `fot` never changes, whatever pages follow |
| Pagination.RerunKeepsMark | core/launchers.py:58-87 | a re-run whose first page is already at or below the mark scans one page and keeps the mark |
| Pagination.TwoPageExample | core/launchers.py:46-88 | with mark 50 and first-page offset 80, the second page, at offset 40, ends the scan, and the mark becomes 80 |
| Pagination.LastCheckpointIsFetchToken | core/launchers.py:74-78 | the last runtime token saved is the one the final page was fetched with, and nothing is saved when that token is empty |
| Pagination.ResumeReplaysFromCheckpoint | core/launchers.py:74-78 | resuming from the token saved for a page fetches that page again and then follows the same tokens as the original scan |
| Pagination.ResumeCanLowerMark | core/launchers.py:56-87 | a resumed run can store a lower mark than an uninterrupted run over the same feed |
| Pagination.MediaRun | core/launchers.py:65-72 | downloading a stream's pages keeps every kind counted |
| Pagination.MediaRunSnoc | core/launchers.py:46-78 | the scan grows by one page's batch per page |
| Pagination.MediaRunCounts | core/launchers.py:65-72 | a media scan adds one count of the stream's kind per item on the scanned pages and leaves the other kinds alone |
| Pagination.DownloadPage | core/launchers.py:65-72 | a fresh downloader for a page extends the downloads by exactly that page |
| Pagination.ControlStep | core/launchers.py:46-78 | one iteration advances the token, `is_last` and `fot` by one page |
| Pagination.SaveRuntimeToken | core/launchers.py:74-76 | after a page, the token it was fetched with is saved when both the record and the token exist; nothing else changes |
| Pagination.ScanStep | core/launchers.py:46-78 | one iteration reads the page, downloads it and saves its checkpoint |
| Pagination.CompleteStream | core/launchers.py:80-88 | completion clears the stream's token and sets its mark to `NewMark`, nothing else |
| Pagination.RaiseMark | core/launchers.py:82-87 | the stored mark becomes `NewMark` of the old mark and `fot` |
| Pagination.CompletePosts | core/launchers.py:252-261 | posts completion clears the posts token, sets the sync time and raises the posts mark |
| Pagination.UpdateTwice | core/launchers.py:253-260 | overwriting one map key twice keeps only the second value |
| Pagination.FinishPosts | core/launchers.py:252-261 | without a record nothing is saved; with one, completion is as `CompletePosts` says |
| Pagination.ReadPage | core/launchers.py:55-62 | `is_last` is the page's terminality and `fot` advances as `NextFot` |
| Pagination.ScanMedia | core/launchers.py:38-78 | scans exactly `ScanLength` pages, computes `Fot` over them, downloads exactly those pages and saves one checkpoint per page fetched with a token |
| Pagination.FetchMedia | core/launchers.py:29-88 | `_fetch_media`: the scan starts from the stored mark; the token is then cleared and the mark raised to `NewMark` |
| Pagination.StreamRun | core/launchers.py:101-136 | a stream's downloads keep every kind counted |
| Pagination.FetchStream | core/launchers.py:102-136 | a disabled stream changes nothing; an enabled one is `FetchMedia` |
| Pagination.MediaSyncRun | core/launchers.py:91-140 | a media sync keeps every kind counted |
| Pagination.FetchAndSaveMedia | core/launchers.py:91-144 | the photo, video and audio streams run in order when enabled; attached files are never downloaded; the sync time is set at the end |
| Pagination.MediaSyncKeepsMarks | core/launchers.py:80-88 | a media stream never touches another stream's mark and never lowers its own |
| Pagination.PostsOfSnoc | core/launchers.py:188 | the posts of a run of pages grow page by page |
| Pagination.CopiesNone | core/launchers.py:243-245 | a page with no posts saves no token |
| Pagination.CopiesSnoc | core/launchers.py:243-245 | each further post of a page saves the page's token once more |
| Pagination.PostWritesAreFetchTokens | core/launchers.py:243-247 | every token the posts loop saves is the token a scanned page was fetched with |
| Pagination.OnePostPerPageSavesLikeMedia | core/launchers.py:243-245 | with exactly one post per page, the posts loop saves the same tokens as a media scan |
| Pagination.EmptyPagesSaveNoPostToken | core/launchers.py:188-245 | unlike a media scan, the posts loop saves nothing for a page without posts |
| Pagination.ProcessPostAt | core/launchers.py:188-242 | processing one post extends the processed posts by that post |
| Pagination.ProcessAndSavePost | core/launchers.py:188-245 | one post is processed and then the page's fetch token is saved for it once |
| Pagination.CopiesMembers | core/launchers.py:243-245 | every token saved for a page's posts is that page's fetch token |
| Pagination.SavePostToken | core/launchers.py:243-245 | after a post, the page's fetch token is saved when both record and token exist |
| Pagination.ProcessPagePosts | core/launchers.py:188-245 | the posts of a page are processed in order, each followed by one save of the page's token |
| Pagination.PostsScanStep | core/launchers.py:176-247 | one posts-loop iteration reads the page, processes its posts and saves their checkpoints |
| Pagination.ScanPosts | core/launchers.py:168-247 | scans exactly `ScanLength` pages, computes `Fot`, processes all their posts and saves exactly `PostWrites` |
| Pagination.FetchAndSavePosts | core/launchers.py:147-261 | when the registry store cannot be created, nothing changes; otherwise the sync proceeds as `SyncPosts` says |
| Pagination.SyncPosts | core/launchers.py:168-261 | the posts scan starts from the stored mark, processes every scanned post, and completes as `FinishPosts` says |
| LonelyPost.AggregateSnoc | core/launchers.py:307-390 | the flags and collected paths grow by one post's update per post |
| LonelyPost.AggregateErrors | core/launchers.py:372-377 | the error flag is set exactly when some post had an item `error` |
| LonelyPost.AggregateDownloaded | core/launchers.py:371-386 | the download flag is set exactly when some post downloaded an item and had no error |
| LonelyPost.AggregateSkipped | core/launchers.py:378-389 | the skip flag is set exactly when some post had neither downloads nor errors, or had incomplete items |
| LonelyPost.AggregateFiles | core/launchers.py:388-390 | the collected paths are every post's incomplete paths, concatenated in post order |
| LonelyPost.AggregateSetsAFlag | core/launchers.py:376-389 | every processed post sets at least one flag |
| LonelyPost.LonelyVerdict | core/launchers.py:398-404 | the status is `error` exactly when some post had an item error; `downloaded` exactly when none had an error and some downloaded an item; `skipped` exactly when there were posts and none had an error or a download; `ok` exactly when there were no posts |
| LonelyPost.LonelyRun | core/launchers.py:307-390 | the single-post loop keeps every kind counted and yields one outcome per post |
| LonelyPost.LonelyRunSnoc | core/launchers.py:307 | the loop grows by one post step per post |
| LonelyPost.LonelyRunIsPostsRun | core/launchers.py:307-361 | each fetched post is processed exactly as the posts feed processes one |
| LonelyPost.PostStepIncomplete | core/launchers.py:362-374 | a post's outcome has incomplete paths exactly when one of its items is `incomplete` |
| LonelyPost.LonelyRunIncomplete | core/launchers.py:374 | for real download outcomes, `has_incomplete` reduces to an item being `incomplete` |
| LonelyPost.LonelyStep | core/launchers.py:307-390 | one iteration processes the post and updates the flags and paths as `Aggregate` says |
| LonelyPost.DownloadLonelyPosts | core/launchers.py:303-404 | the loop's downloads and rows are `LonelyRun`'s, the paths are all posts' incomplete paths, and the status is the verdict of the flags |
| LonelyPost.FetchAndSaveLonelyPost | core/launchers.py:264-404 | a failed registry store gives `error` with no paths before any fetch; a failed or empty fetch gives its status (or `error`) with no paths; otherwise the posts are processed; the lock is registered in masquerade mode; `ok` comes only from an `ok` fetch with no posts |
| LonelyPost.SaveLonelyPosts | core/launchers.py:303-404 | processing fetched posts never yields `ok`, and sets the sync time only |
| LinkBatch.Inner | main.py:42 | drops exactly the first and last character of the line |
| LinkBatch.CleanLine | main.py:36-42 | a line is dropped exactly when it is blank or starts with `#` after stripping; a kept line has no surrounding whitespace |
| LinkBatch.StripKeeps | main.py:36 | stripping an already stripped line changes nothing |
| LinkBatch.CleanLineUnquotes | main.py:39-42 | a line wrapped in a matching pair of `"` or `'` loses exactly that pair and is stripped again |
| LinkBatch.ParseLinesSnoc | main.py:35-47 | the parsed and invalid lists grow by one line's classification per line |
| LinkBatch.ParseLinesPartition | main.py:35-47 | every kept line goes to exactly one of the parsed and invalid lists |
| LinkBatch.ParseLinesClassified | main.py:43-47 | a parsed link carries the creator and a non-empty post id the link parser found; an invalid line is one where no post id was found |
| LinkBatch.ParseLinksFile | main.py:28-52 | a read failure or a file without a valid link is malformed; otherwise the result is the parsed and invalid lists in line order |
| LinkBatch.PostParallel | main.py:121 | the batch limit is at least one, and is the configured value whenever that is at least one |
| LinkBatch.ProcessLink | main.py:124-145 | a creator whose sync data failed, or a failing download, gives `error` with no files; otherwise the single-post download's own status and incomplete files are passed through |
| LinkBatch.BucketsPartition | main.py:156-163 | every result lands in exactly one bucket: `downloaded` and `ok` in succeeded, `skipped` in skipped, anything else in failed |
| LinkBatch.DedupIntoMembers | main.py:149-155 | de-duplication keeps the earlier list as a prefix, admits no repeats, and holds exactly the earlier and the new items |
| LinkBatch.DedupIsFirstOccurrences | main.py:149-155 | de-duplicating from empty keeps exactly the first occurrence of each item, in first-seen order |
| LinkBatch.DedupIntoAppend | main.py:152-155 | de-duplicating a concatenation equals de-duplicating one part after the other |
| LinkBatch.SummarizeSnoc | main.py:149-163 | the summary grows by one result's contribution per result |
| LinkBatch.AddFiles | main.py:153-155 | the membership-check loop appends exactly the unseen files, in order |
| LinkBatch.SummarizeResults | main.py:149-163 | the results loop computes exactly `Summarize` |
| LinkBatch.SummaryProperties | main.py:149-163 | the buckets partition the links; the incomplete links and files are the first occurrences, without repeats |
| ApiCheck.NameRun | api_test.py:20 | the run of `[^/\s]` characters stays inside the string |
| ApiCheck.IdRun | api_test.py:20 | the run of `[0-9a-fA-F-]` characters stays inside the string |
| ApiCheck.NameRunSpan | api_test.py:20 | the name run is made of name characters and ends at the end or at a non-name character |
| ApiCheck.IdRunSpan | api_test.py:20 | the id run is made of id characters and ends at the end or at a non-id character |
| ApiCheck.NameRunIs | api_test.py:20 | a maximal stretch of name characters is exactly the name run |
| ApiCheck.IdRunIs | api_test.py:20 | a maximal stretch of id characters is exactly the id run |
| ApiCheck.FirstMatch | api_test.py:20 | a match position leaves room for `boosty.to/` and at least one more character |
| ApiCheck.FirstMatchSpec | api_test.py:20 | the search finds the leftmost `boosty.to/` followed by a name character, and finds none exactly when there is none |
| ApiCheck.FirstMatchAt | api_test.py:20 | a match at a position with no earlier match is the one the search finds |
| ApiCheck.AfterSlash | api_test.py:20 | the optional `/` moves the position by at most one |
| ApiCheck.GroupsAtName | api_test.py:20-23 | at a match the creator group is a non-empty name |
| ApiCheck.IdGroupShape | api_test.py:20 | the id group, when present, is a non-empty id that directly follows `posts/` |
| ApiCheck.ParseBoostyLinkShape | api_test.py:19-23 | without a `boosty.to/` match the input comes back unchanged with no id; with one, the creator is a non-empty name and any id is a non-empty id |
| ApiCheck.FiveParts | api_test.py:20 | slicing a five-part concatenation recovers each part |
| ApiCheck.CanonicalMatch | api_test.py:20 | a canonical post link matches right after `https://` |
| ApiCheck.IdGroupIs | api_test.py:20 | `posts/<id>` at the end of the link yields exactly that id |
| ApiCheck.CanonicalCreator | api_test.py:20 | in a canonical link the creator group is exactly the creator |
| ApiCheck.ParseCanonicalLink | api_test.py:19-23 | parsing `https://boosty.to/<creator>/posts/<id>` returns exactly the creator and the id |
| ApiCheck.HashFieldsIdempotent | api_test.py:36-42 | filtering the hash fields twice equals filtering once |
| ApiCheck.FindHashFields | api_test.py:36-42 | keeps exactly the keys whose lower-cased form contains `hash`, `md5`, `sha` or `checksum`, with their values unchanged |
| ApiCheck.PlaylistTestsAgree | api_test.py:45-47 | the diagnostic's playlist test agrees with the downloader's: a lower-cased `.m3u8` anywhere in the URL |
| ApiCheck.FormatCheckStatus | api_test.py:88-89 | `YES` exactly for true, `NO` exactly for false |
| ApiCheck.VideoItemsShape | api_test.py:117-129 | an `ok_video` yields one video item per player URL that is present and non-empty, each carrying one of those URLs and the media's id, size and hash fields |
| ApiCheck.MediaItemsShape | api_test.py:111-143 | `image`, `audio_file` and `file` yield one item exactly when their URL is non-empty; other types yield none; the signed query is appended only to `audio_file` and `file` URLs |
| ApiCheck.ItemsSnoc | api_test.py:111 | the items grow by one media's items per media |
| ApiCheck.VideoItemsSnoc | api_test.py:118 | the video items grow by one player URL's item per URL |
| ApiCheck.ItemsOfMedia | api_test.py:112-143 | the loop body for one media yields exactly `MediaItems` |
| ApiCheck.ExtractItems | api_test.py:108-143 | the extraction loop yields exactly `Items` |
| ApiCheck.Shown | api_test.py:147 | `items[:limit]` is a prefix of the items, of Python's slice length for a negative, small or large limit |
| ApiCheck.WarningsIff | api_test.py:163-186 | no warning exactly when the URL is not a playlist and hash, length and size are all available and agree; a size mismatch exactly when both sizes are present and differ |
| ApiCheck.WarnedCountBounds | api_test.py:188-189 | the warned count is at most the number shown, and zero exactly when no shown item has a warning |
| ApiCheck.WarnedCountSnoc | api_test.py:188-189 | the warned count grows by one exactly for an item with a warning |
| ApiCheck.ItemWarnings | api_test.py:176-186 | the warning list built step by step is exactly `Warnings` |
| ApiCheck.CountWarned | api_test.py:147-189 | the loop over the shown items computes exactly `WarnedCount` |

## Left out

- **HTTP and the Boosty API.** `get_all_media_by_type`, `get_all_posts`, `get_post_by_id`, `download_file`, `get_content_length` and `fetch_post_json` are not modelled. The model takes their answers as inputs: the pages of a feed, the fetch status, the probed length, the transfer outcome and the `.part` delete and rename outcomes.
- **asyncio.** Semaphores, `gather`, `sleep` and the bodies of the asynchronous locks are not modelled. Tasks run one after the other in task order, so interleavings of concurrent downloads are not captured. `Registry.LockRegistry.GetLock` models only the registry of locks, not mutual exclusion.
- **Helpers outside this model.** The following are not part of this model and are taken as given values or parameters:
  - `parse_offset_time` (a page's parsed offset);
  - `validate_windows_dir_name` (a post's `safeTitle`);
  - `core.utils.parse_boosty_link`, used by `main.py` (the `parse` parameter of `LinkBatch.ParseLines`);
  - `ensure_post_database_exists` (the `dbOk` flag);
  - the `PostPool` and `MediaPool` internals (pages hold posts and pools directly).
- Downloader.Decide: assumes that `get_content_length` (core/downloader.py:46) and `write_video_metadata` (core/downloader.py:69) do not raise. In the source, either raising makes the item an `error` count (core/downloader.py:112-114), even when the file is already in place after the rename. `Downloader.DownloadedExactly` and `Downloader.Bump` hold only when these calls return normally.
- **File system details.** Directory creation, the post text document (`create_text_document`), file contents and errors other than those in `ItemEnv` are not modelled. The file system is a map from path to size. `write_video_metadata` is recorded as a path in `metadataLog`.
- **Floating point.** `actual < expected * 0.8` is stated as the integer inequality `5·actual < 4·expected`.
- **Clock.** `datetime.now(UTC)` is an opaque integer `now`, passed in.
- **Stored offsets.** Stored offsets are integers. The source writes `str(fot)` of a non-zero integer, and `int(...)` reads that text back as the same integer, so the integer stands for the stored text.
- **Console, prompts, logging and configuration.** These are not modelled: `input()` prompts, log messages, `print`, the summary printing of `main.py` and `api_test.py`, YAML config loading, argparse and `core/logger.py`.
- **Outside the links file and the results.** The creator-name path of `main.py` (no links file) and the per-creator sync-data preparation are not modelled. A failed preparation enters `LinkBatch.ProcessLink` as the set `syncDataErrors`.
- **JSON values.** API JSON values are abstracted. A media's `size` is an optional integer and hash-field values are opaque. `ApiCheck.FindHashFields` returns a map, so the insertion order of Python's dict is not captured. The diagnostic script's `print` lines are not modelled.
- Common.Lower: only ASCII capitals are lowered. Python's `str.lower` also lowers non-ASCII capitals and can change the length (U+0130 becomes two code points). So a key spelled with the Kelvin sign U+212A, such as `chec\u212Asum`, is a hash field to `api_test.py` but not to `ApiCheck.HashKey`. The `.m3u8` tests are unaffected, because no non-ASCII character lowers to a character of `.m3u8`.
- Common.JoinPath: a plain string join `a + "/" + b`. `pathlib`'s `/` behaves differently: an absolute component replaces the path, and `.` segments and trailing or doubled slashes collapse. Attached-file titles reach `files_path / file["title"]` unsanitised (core/downloader.py:177). So titles such as `a` and `./a`, or `a` and `a/`, share a destination in the program, and an absolute title can name any path. `Downloader.DestinationInjective` therefore assumes names that are single plain segments.
- LinkBatch.ParseLinksFile: takes the file already split into lines. How `str.splitlines()` splits it (on `\n`, `\r`, `\v`, `\f`, `\x1c`-`\x1e`, `\x85`, `\u2028` and `\u2029`) is not modelled.
- **Exceptions inside a download.** An exception raised while a single-post download is processed is the `None` outcome of `LinkBatch.ProcessLink`. What the partial download left on disk at that point is not modelled.
