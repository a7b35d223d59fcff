# Offline-first synchronisation engine of the blog dashboard

This project models the offline-first core of an Angular blog dashboard. It
covers:

- the local IndexedDB stores;
- the per-entity services that choose between the local store and the remote
  API and tag each record with a `syncStatus`;
- the sync coordinator, with its last-writer-wins refresh and its queue of
  pending operations;
- the reconnect trigger of the root component;
- the time-limited cache;
- the list state and preview text of the post list.

Every asynchronous call is flattened into one sequential step. The two inputs
that every decision depends on are parameters:

- the connectivity flag (`online`);
- the outcome of each remote call. This is a `Reply` (the answer, or
  `Unavailable`), a `remoteOk` flag, or a set `accepted` of the ids whose remote
  call succeeds.

Timestamps are integer milliseconds, and `now` is a parameter.

Modules, one per file:

- `Common`: options, results, remote replies, the engine's errors, and `Filter`
  (`Array.prototype.filter`).
- `Records`: posts, comments, users, `syncStatus`, queued operations and the
  records of the queue store.
- `KeyOrder`: the key order in which IndexedDB's `getAll` lists a store.
- `ObjectStores`: an object store with the in-line key `id`. It supports put,
  add (refused on an existing key), delete, bulk put and an all-or-nothing bulk
  add. It also holds lemmas on bulk writes and listings.
- `Storage`: `OfflineStorageService`. It holds three keyed stores, the
  auto-numbered `syncQueue` and the `ready` flag. Each request names one of
  the three stores, and every request fails while the database is not open.
- `Posts`, `Comments`, `Users`: the entity services, over the stores of the
  entity services' own database.
- `Sync`: `SyncService`.
- `Cache`: `CacheService`.
- `PostList`: `PostListComponent` and `truncateText`.
- `App`: `AppComponent`.

The model follows the code as written. In particular:

- An online delete whose remote call fails leaves the local post as it was. It
  is not re-marked for retry.
- The reconciliation pass re-sends only `pending` posts. Posts tagged `failed`
  are not retried.
- A pending post is always re-sent by POST, never by PUT.
- `processSyncQueue` clears the queue only when every dispatched call succeeds.

## Model

| member | source | states |
|---|---|---|
| `ObjectStores.PutEachLast` | src/app/services/post.service.ts:125 | after a bulk put, each key holds the last item written with that key; keys not written keep their old record |
| `ObjectStores.FreshIff` | src/app/services/offline-storage.service.ts:195-215 | a batch of adds meets no existing key exactly when no item's key is stored already and no two items share a key |
| `ObjectStores.ListedKeys` | src/app/services/post.service.ts:207-210 | filtering the `getAll` listing selects exactly the stored records that satisfy the filter, each as stored under its key |
| `ObjectStores.FilterDistinct` | src/app/services/sync.service.ts:64-71 | filtering a list with distinct keys keeps the keys distinct |
| `ObjectStores.PutEachKeyed` | src/app/services/post.service.ts:125 | a bulk put keeps every record stored under its own id |
| `ObjectStores.ObjectStore.AddAll` | src/app/services/offline-storage.service.ts:195-215 | one transaction of adds: it succeeds exactly when every add meets a free key, and then writes every item; otherwise nothing is written |
| `ObjectStores.ObjectStore.PutAll` | src/app/services/post.service.ts:125 | a bulk put leaves the store as the items put one after another |
| `KeyOrder.ValuesComplete` | src/app/services/offline-storage.service.ts:187-189 | every stored record appears in the `getAll` listing |
| `KeyOrder.ValuesSound` | src/app/services/offline-storage.service.ts:187-189 | every listed record is stored under some key |
| `Storage.OfflineStorageService.Update` | src/app/services/offline-storage.service.ts:172-174 | an upsert keyed by the record's id, with every other key unchanged; it fails with "Database not initialized" when the database is not open |
| `Storage.OfflineStorageService.Add` | src/app/services/offline-storage.service.ts:176-181 | reports success at once; the store gains the record only when its key is free |
| `Storage.OfflineStorageService.Delete` | src/app/services/offline-storage.service.ts:183-185 | removes exactly the key `id` |
| `Storage.OfflineStorageService.GetAll` | src/app/services/offline-storage.service.ts:187-189 | every record in key order, or the not-initialized error |
| `Storage.OfflineStorageService.GetById` | src/app/services/offline-storage.service.ts:191-193 | the record under the key; an absent key is a success with no record |
| `Storage.OfflineStorageService.BulkAdd` | src/app/services/offline-storage.service.ts:195-216 | all-or-nothing: writes every item when no add is refused, otherwise aborts and writes nothing |
| `Storage.OfflineStorageService.AddToSyncQueue` | src/app/services/offline-storage.service.ts:218-223 | appends the operation at the end of the queue, stamped with the current time |
| `Storage.OfflineStorageService.GetSyncQueue` | src/app/services/offline-storage.service.ts:225-227 | the queue in insertion order |
| `Storage.OfflineStorageService.ClearSyncQueue` | src/app/services/offline-storage.service.ts:229-234 | empties the queue and changes nothing else |
| `Storage.OfflineStorageService.DeletePost` | src/app/services/offline-storage.service.ts:236-242 | when the database is not ready, emits nothing and changes nothing; otherwise deletes the post |
| `Storage.OfflineStorageService.UpdateWithList` | src/app/services/sync.service.ts:83-105 | putting an array into a store keyed by `id` is refused and writes nothing |
| `Storage.OfflineStorageService.UpdateQueueWithList` | src/app/services/sync.service.ts:111 | putting an array into the auto-numbered queue store adds it as one new record |
| `Posts.OfflinePage` | src/app/services/post.service.ts:110-120 | the page is exactly `stored[start..min(start+20, n)]`; an empty window is "No offline data available.", never an empty page |
| `Posts.PagesTile` | src/app/services/post.service.ts:110-117 | reading offline pages 20 apart from `start` yields every stored post from `start` on, once each and in order |
| `Posts.HasMoreMatchesOfflinePage` | src/app/services/post.service.ts:151-155 | offline, "has more" after `n` loaded posts holds exactly when the offline page at `n` exists |
| `Posts.Reconciled` | src/app/services/post.service.ts:206-235 | the pass as meant, with its store writes carried out: only `pending` posts (now `synced` or `failed`) and `delete-pending` posts (removed, or now `delete-failed`) change; nothing pending is left |
| `Posts.ReconcileIdempotent` | src/app/services/post.service.ts:206-235 | a second reconciliation pass as meant changes nothing, whatever its remote outcomes |
| `Posts.ReconcileKeepsKeys` | src/app/services/post.service.ts:206-235 | a pass keeps every post under its own id |
| `Posts.ListedForPass` | src/app/services/post.service.ts:207-210 | the two lists the pass walks are exactly the stored pending and delete-pending posts |
| `Posts.UntouchedDeletes` | src/app/services/post.service.ts:212-225 | the loop over pending posts leaves the delete-pending posts as stored |
| `Posts.TwoLoopsReconcile` | src/app/services/post.service.ts:212-235 | the first loop over the stored pending posts, then the second over the stored delete-pending posts, produce `Reconciled` |
| `Posts.PostService.GetOfflinePosts` | src/app/services/post.service.ts:110-120 | the offline page at `start` of the stored posts, in key order |
| `Posts.PostService.FetchAndStoreAllPosts` | src/app/services/post.service.ts:123-127 | bulk-puts the fetched list and returns it unchanged; a failed fetch writes nothing |
| `Posts.PostService.LoadPosts` | src/app/services/post.service.ts:25-41 | offline, the page at 0; online, the remote page, and an empty store is filled from the full remote list |
| `Posts.PostService.LoadMorePosts` | src/app/services/post.service.ts:43-62 | increments the page counter by one first, then loads the page at `counter * 20`; online with an empty store it fills the store before paging |
| `Posts.PostService.ResetPagination` | src/app/services/post.service.ts:147-149 | the page counter is back at 0 |
| `Posts.PostService.HasMorePosts` | src/app/services/post.service.ts:151-160 | `n < stored count` offline, `n < 100` online |
| `Posts.PostService.LocalPost` | src/app/services/post.service.ts:66-67 | the stored post, or "Post not found in offline DB" |
| `Posts.PostService.GetPostById` | src/app/services/post.service.ts:64-81 | online success with an id upserts and returns the remote post; offline, after a remote failure, or when the store refuses a remote post without an id, the stored post or "Post not found in offline DB", with the store unchanged |
| `Posts.PostService.DeletePost` | src/app/services/post.service.ts:130-144 | online, removes the post locally only after the remote delete succeeds; offline, "Post not found in IndexedDB" when absent, otherwise the post stays and is tagged `delete-pending` |
| `Posts.PostService.AddPending` | src/app/services/post.service.ts:175-182 | adds the caller's post tagged `pending`; a post without an id is refused (the store has a key path and no key generator), and so is an id already stored; a refused add leaves the store unchanged |
| `Posts.PostService.CreatePost` | src/app/services/post.service.ts:162-184 | stored `synced` only when online and the API answers with a non-zero id; otherwise the caller's post is added tagged `pending`, which fails with the store unchanged for a post without an id or an id already stored |
| `Posts.PostService.UpdatePost` | src/app/services/post.service.ts:186-204 | online success with an id stores the API's copy `synced`; an online failure (or an API copy without an id) stores the input `failed`; offline stores the input `pending`; a post without an id is refused and nothing is written; every success is an upsert of the returned post |
| `Posts.PostService.ResendPending` | src/app/services/post.service.ts:212-223 | as meant (the writes of the callbacks run): the store becomes `PendingSettled`: each listed pending post is `synced` (accepted) or `failed`, and nothing else changes |
| `Posts.PostService.ResendDeletes` | src/app/services/post.service.ts:225-235 | as meant (the writes of the callbacks run): the store becomes `DeletesSettled`: each listed delete-pending post is removed (accepted) or `delete-failed`, and nothing else changes |
| `Posts.PostService.SyncPendingPostsAsWritten` | src/app/services/post.service.ts:206-239 | as written: the posts sent are exactly the stored pending and delete-pending posts, and the store is not written |
| `Posts.UnwrittenPassResends` | src/app/services/post.service.ts:212-235 | a pending post left pending by the pass as written is sent again by the next pass, while the pass as meant settles it and leaves nothing pending |
| `Posts.PostService.SyncPendingPosts` | src/app/services/post.service.ts:206-239 | as meant: the store after the pass is `Reconciled(old store, accepted)` |
| `Comments.CommentsOf` | src/app/services/comment.service.ts:41-45 | exactly the stored comments whose `postId` is the argument |
| `Comments.ByPostIdAsWritten` | src/app/services/comment.service.ts:27-39 | as written, the lookup fails exactly when online and the remote call fails |
| `Comments.ByPostId` | src/app/services/comment.service.ts:27-39 | with the announced fallback, the lookup lists only comments of the post, and every stored one when the remote list was not fetched |
| `Comments.FetchedAreListed` | src/app/services/comment.service.ts:32-38 | online, the result holds every fetched comment of the post (the last sent with each id) and every stored comment of the post not replaced |
| `Comments.RemoteFailureHidesStoredComments` | src/app/services/comment.service.ts:32-38 | with a comment stored, an online lookup whose remote call fails reports an error, while the fallback lists the comment |
| `Comments.Resent` | src/app/services/comment.service.ts:72-88 | the pass as meant, with its store writes carried out: only pending comments change, each to `synced` or `failed`; nothing pending is left |
| `Comments.ResentIdempotent` | src/app/services/comment.service.ts:72-88 | a second pass as meant changes nothing |
| `Comments.ListedPending` | src/app/services/comment.service.ts:73-74 | the pass walks exactly the stored pending comments |
| `Comments.LoopIsResent` | src/app/services/comment.service.ts:75-86 | re-sending those comments yields `Resent` |
| `Comments.CommentService.FetchAndStoreAllComments` | src/app/services/comment.service.ts:19-25 | bulk-puts the fetched list and returns it unchanged |
| `Comments.CommentService.GetOfflineCommentsByPostId` | src/app/services/comment.service.ts:41-45 | the stored comments of the post, in key order |
| `Comments.CommentService.GetCommentsByPostIdAsWritten` | src/app/services/comment.service.ts:27-39 | online, bulk-puts the fetched comments and reads the store again; a remote failure is an error |
| `Comments.CommentService.GetCommentsByPostId` | src/app/services/comment.service.ts:27-39 | as written, but a remote failure reads the store |
| `Comments.CommentService.AddPending` | src/app/services/comment.service.ts:57-68 | adds a copy of the input tagged `pending` and returns it; a comment without an id is refused, and so is an id already stored; a refused add leaves the store unchanged |
| `Comments.CommentService.AddComment` | src/app/services/comment.service.ts:48-70 | online success adds the server copy `synced`; when the remote call or that add fails (an id already stored, or no id), and offline, adds the input copy `pending`, with the same refusals as `AddPending` |
| `Comments.CommentService.ResendPending` | src/app/services/comment.service.ts:75-86 | as meant (the writes of the callbacks run): each listed pending comment becomes `synced` (accepted) or `failed` |
| `Comments.CommentService.SyncPendingCommentsAsWritten` | src/app/services/comment.service.ts:72-88 | as written: the comments sent are exactly the stored pending comments, and the store is not written |
| `Comments.UnwrittenPassResends` | src/app/services/comment.service.ts:75-86 | a pending comment left pending by the pass as written is posted again by the next pass, while the pass as meant settles it and leaves nothing pending |
| `Comments.CommentService.SyncPendingComments` | src/app/services/comment.service.ts:72-88 | as meant: the store after the pass is `Resent(old store, accepted)` |
| `Users.UserService.FetchAndStoreAllUsers` | src/app/services/user.service.ts:19-25 | bulk-puts the fetched list and returns it unchanged |
| `Users.UserService.GetUserByIdOffline` | src/app/services/user.service.ts:41-43 | the stored user, or no value (not an error) when absent |
| `Users.UserService.GetUserById` | src/app/services/user.service.ts:28-39 | online success upserts and returns the remote user; offline or after a remote failure, the local lookup |
| `Sync.Find` | src/app/services/sync.service.ts:65 | the post found has the id and is listed; no value only when no listed post has the id |
| `Sync.FindInListing` | src/app/services/sync.service.ts:61-65 | in the listing of a store, the post found is the one stored under the id |
| `Sync.Winners` | src/app/services/sync.service.ts:64-70 | exactly the remote posts the conflict rule selects against the local snapshot; distinct remote ids stay distinct |
| `Sync.Refresh` | src/app/services/sync.service.ts:64-71 | the posts store after the intended refresh (every selected remote post put in order): no stored post is removed, and every new key is the id of a remote post |
| `Sync.UnbeatenNotSelected` | src/app/services/sync.service.ts:64-69 | no selected post has the id of a stored post that no remote post beats |
| `Sync.RefreshKeepsUnbeaten` | src/app/services/sync.service.ts:64-69 | a stored post that no remote post beats is kept unchanged |
| `Sync.RefreshKeepsUndated` | src/app/services/sync.service.ts:66 | a stored post without `updatedAt` is never overwritten |
| `Sync.RefreshTakesNewer` | src/app/services/sync.service.ts:64-69 | with distinct remote ids, a missing post is added and a strictly older dated one is replaced by the remote post |
| `Sync.RefreshSettles` | src/app/services/sync.service.ts:64-69 | after a refresh, no remote post beats the stored post with its id |
| `Sync.NothingSelectedAfterRefresh` | src/app/services/sync.service.ts:64-69 | a second refresh from the same remote list selects nothing |
| `Sync.RefreshIdempotent` | src/app/services/sync.service.ts:58-81 | refreshing twice from the same remote list is refreshing once |
| `Sync.RefreshAddsMissingPost` | src/app/services/sync.service.ts:64-73 | the intended refresh adds a missing post |
| `Sync.Dispatch` | src/app/services/sync.service.ts:123-155 | a failed call or an unrecognised record writes nothing; a list record succeeds at once |
| `Sync.ReplaySucceedsIff` | src/app/services/sync.service.ts:156-158 | a replay succeeds exactly when every record's dispatch does |
| `Sync.NestedRecordsAreInert` | src/app/services/sync.service.ts:123-154 | records that hold a whole list are never dispatched |
| `Sync.QueuedListNeverDispatched` | src/app/services/sync.service.ts:107-133 | a queued post creation is applied, but the same operation inside a list record is not |
| `Sync.SyncService.OnDbReady` | src/app/services/sync.service.ts:31-38 | once the database is ready, `syncInProgress` says whether the queue holds any record |
| `Sync.SyncService.SyncPostsAsWritten` | src/app/services/sync.service.ts:58-81 | succeeds when both lists are read and writes no post |
| `Sync.SyncService.SyncPosts` | src/app/services/sync.service.ts:58-81 | the posts store becomes `Refresh(old store, remote list)` |
| `Sync.SyncService.PutUpdates` | src/app/services/sync.service.ts:64-71 | the selected posts are put in order |
| `Sync.SyncService.SyncCommentsAsWritten` | src/app/services/sync.service.ts:83-93 | always fails |
| `Sync.SyncService.SyncComments` | src/app/services/sync.service.ts:83-93 | every fetched comment is upserted |
| `Sync.SyncService.SyncUsersAsWritten` | src/app/services/sync.service.ts:95-105 | always fails |
| `Sync.SyncService.SyncUsers` | src/app/services/sync.service.ts:95-105 | every fetched user is upserted |
| `Sync.SyncService.SyncCommentsAndUsers` | src/app/services/sync.service.ts:83-105 | the comments and users parts: each store takes its fetched list when its call answers; both succeed only when both answer |
| `Sync.SyncService.FinishSync` | src/app/services/sync.service.ts:47-50 | the queue is cleared only when all parts succeeded |
| `Sync.SyncService.SyncDataAsWritten` | src/app/services/sync.service.ts:41-56 | the queue is never cleared |
| `Sync.SyncService.SyncData` | src/app/services/sync.service.ts:41-56 | each store is refreshed when its remote call answers; the queue is cleared only when all three answer; failures are swallowed |
| `Sync.SyncService.QueueSyncOperationAsWritten` | src/app/services/sync.service.ts:107-118 | the queue gains one record holding the old records followed by the operation |
| `Sync.SyncService.QueueSyncOperation` | src/app/services/sync.service.ts:107-118 | the queue becomes `existing ++ [operation]` |
| `Sync.SyncService.DispatchRecord` | src/app/services/sync.service.ts:123-155 | create or update post and create comment: remote call, then upsert of the API's copy; delete post: remote delete, then local delete; every other record: no-op |
| `Sync.SyncService.ProcessSyncQueue` | src/app/services/sync.service.ts:120-160 | every record is dispatched in order; the queue is cleared only when all succeed; an empty queue completes without emitting |
| `Cache.Lookup` | src/app/services/cache.service.ts:22-33 | found exactly when present and at most 300000 ms old |
| `Cache.AfterGet` | src/app/services/cache.service.ts:27-30 | `get` evicts only an expired item under the key |
| `Cache.SetThenGet` | src/app/services/cache.service.ts:18-33 | a freshly set item is found until its timeout passes, and not after |
| `Cache.SetIsolated` | src/app/services/cache.service.ts:18-20 | setting one key does not change what `get` finds under another |
| `Cache.ExpiryIsFinal` | src/app/services/cache.service.ts:27-30 | an expired item stays expired, and a second `get` finds what the first found |
| `Cache.CacheService.Set` | src/app/services/cache.service.ts:18-20 | overwrites the key with the caller's item and timestamp |
| `Cache.CacheService.Get` | src/app/services/cache.service.ts:22-33 | returns `Lookup` and leaves `AfterGet` |
| `Cache.CacheService.Clear` | src/app/services/cache.service.ts:35-37 | removes only the key |
| `Cache.CacheService.ClearAll` | src/app/services/cache.service.ts:39-41 | empties the cache |
| `PostList.Split` | src/app/components/post-list/post-list.component.ts:128 | at least one piece; no piece contains a space |
| `PostList.SplitJoin` | src/app/components/post-list/post-list.component.ts:128-129 | joining the pieces with spaces gives back the text |
| `PostList.SplitCount` | src/app/components/post-list/post-list.component.ts:128-129 | a text with `n` spaces has `n + 1` pieces, empty pieces included |
| `PostList.JoinPrefix` | src/app/components/post-list/post-list.component.ts:129 | the first `n` pieces joined are a prefix of the text with `n - 1` spaces |
| `PostList.TruncateText` | src/app/components/post-list/post-list.component.ts:124-128 | the preview is the text itself, or a prefix of the text followed by "..." |
| `PostList.TruncateTextSpec` | src/app/components/post-list/post-list.component.ts:126-130 | at most 15 words: the text unchanged ('' for ''); more: the prefix before the fifteenth space followed by "..." |
| `PostList.Without` | src/app/components/post-list/post-list.component.ts:114-115 | no post with the id is left; every other post is kept |
| `PostList.WithoutKeepsOrder` | src/app/components/post-list/post-list.component.ts:114-115 | removal keeps the order of the rest |
| `PostList.WithoutTwice` | src/app/components/post-list/post-list.component.ts:114-115 | removing twice is removing once |
| `PostList.PostListComponent.BeginLoad` | src/app/components/post-list/post-list.component.ts:61-65 | raises the flag of the kind of load |
| `PostList.PostListComponent.OnLoaded` | src/app/components/post-list/post-list.component.ts:72-89 | load more appends and a first load replaces; an error keeps the list; the flag is lowered either way |
| `PostList.PostListComponent.RequestPage` | src/app/components/post-list/post-list.component.ts:66-68 | the result is `Loaded`: offline, the stored page at 0 or at the advanced counter times the page size; online, the remote page, or the failure of the fill of an empty store on a load-more; the store becomes `StoreAfterLoad` (filled only when it was empty and the full list arrived); the counter advances only on a load-more |
| `PostList.PostListComponent.LoadPosts` | src/app/components/post-list/post-list.component.ts:59-89 | the result and the store are those of `RequestPage`, and the list becomes what `OnLoaded` makes of that result; the flag of the kind of load is lowered |
| `PostList.PostListComponent.CheckHasMore` | src/app/components/post-list/post-list.component.ts:93-97 | the flag is the service's "has more" for the number of posts shown |
| `PostList.PostListComponent.DeletePost` | src/app/components/post-list/post-list.component.ts:99-123 | without confirmation nothing happens; once confirmed the outcome and the store are the post service's (online: removed on a remote success, else a remote failure; offline: tagged `delete-pending`, or not found); only a successful delete takes the post out of `posts` and `allPosts` |
| `App.Reactions` | src/app/app.component.ts:38-52 | one reaction per emission: the first emission is silent; every later `true` is "Back online" with a sync, and every later `false` is "Offline mode" |
| `App.PendingPostStaysPending` | src/app/app.component.ts:60-63 | a pending post that would be accepted differs from its reconciled form, so leaving it unsent leaves it pending |
| `App.AppComponent.SyncDataAsWritten` | src/app/app.component.ts:60-63 | as written: the posts are not sent at all, the comments sent are exactly the stored pending comments, and no store is written |
| `App.AppComponent.SyncData` | src/app/app.component.ts:60-63 | as meant: re-sends the pending posts, then the pending comments, and stores the outcome of each |
| `App.AppComponent.OnStatusAsWritten` | src/app/app.component.ts:38-52 | as written: `isOnline` becomes the status and `initialStatusSet` becomes true; coming back online after the first emission sends the stored pending comments and writes nothing; otherwise nothing is sent |
| `App.AppComponent.OnStatus` | src/app/app.component.ts:38-52 | with `syncData` as meant: `isOnline` becomes the status and `initialStatusSet` becomes true; coming back online after the first emission re-sends posts and comments and stores the outcome, otherwise nothing is written |

## Left out

- Opening the database (version upgrade, blocked retry, animation-frame wait) is browser I/O. Only its result, the `ready` flag set by `Opened`, is modelled. `isDatabaseReady` is that flag. The source checks two conditions separately: the requests test the `db` handle (src/app/services/offline-storage.service.ts:139-144), while `deletePost` waits for the readiness signal (src/app/services/offline-storage.service.ts:236-242). The model merges them into the one flag, so the moment between the handle being set and readiness being signalled is not modelled.
- The entity services use a second database through an IndexedDB wrapper. Its stores are `ObjectStore`s like those of `OfflineStorageService`. Failures of that wrapper's requests other than an add of an existing key and a write of a post or comment without an id are not modelled.
- RxJS scheduling is flattened into one sequential order. That covers fire-and-forget subscriptions and the order in which replies arrive: the two loops of the reconciliation passes and the dispatches of `processSyncQueue` run in list order.
- `forkJoin` can cancel a sibling call when another fails. Neither `syncData` nor `processSyncQueue` models that: every part whose call succeeds is applied.
- Sync.SyncService.ProcessSyncQueue: writes land in queue order. In the source they land in reply order, so two operations on one id may be stored in the other order.
- Posts.PostService.LoadPosts: the side fill of an empty store is modelled as done before the page is returned. In the source it is a fire-and-forget subscription.
- `getPostDetails` is not modelled. It is the composition of `getPostById`, `getCommentsByPostId` and `getUserById`, and each of those is modelled.
- `fetchPaginatedPosts` is a remote call. Its page is the `pageReply` parameter.
- The HTTP wrappers (`api.service.ts`) are not modelled. Their results are the `Reply` parameters, and an answer of the wrong kind counts as a failed call.
- Post fields `status`, `createdAt`, `syncError`, `tags` and the extra fields of enriched posts are not modelled. The user's address, phone, website and company are not modelled either. None of these fields takes part in any rule.
- The nullable post id (and the optional comment id) is an `int`, with 0 standing for a missing id in the members of the post and comment services that write a single post or comment: `Posts.PostService.GetPostById`, `AddPending`, `CreatePost` and `UpdatePost`, and `Comments.CommentService.AddPending` and `AddComment`. There a write of such a record is refused by the store, and `createPost` rejects it from the API. Elsewhere (the stores of `OfflineStorageService`, bulk puts, the user service, the sync service) 0 is an ordinary key.
- Posts.PostService.CreatePost, Posts.PostService.UpdatePost: these return a tagged copy of the caller's post. The source tags the caller's own object in place (src/app/services/post.service.ts:176, 181, 190, 196 and 201), so the caller's reference also changes; object identity and aliasing are not modelled.
- Posts.PostService.CreatePost: a failed local write after a successful remote create is not modelled. In the source it also falls back to the pending add.
- The messages that `catchError` substitutes in the sync service ("Failed to sync posts" and the like) are not modelled. Each part reports success as a boolean, and `syncData` swallows every failure.
- Logging and the snackbar toasts are not modelled. The toast shown is the `Reaction` value.
- Parts of the post list are not modelled: the search form, the `posts$` stream, `ngOnInit` (a first load plus the comment and user prefetch, each modelled) and `ngOnDestroy`. The delete dialog is the `confirmed` parameter.
- The root component's `title` and `ngOnDestroy` are not modelled.
- The convenience readers and writers of `OfflineStorageService` (`addPosts`, `getPosts` and the like) are not modelled separately. They are `BulkAdd` and `GetAll` on one store.
- The cache stores values of one type `T`. The extra untyped fields of a cache item are not modelled.

## Findings

| source | as written | input that shows it | evidently intended | confidence | as-written member | corrected member |
|---|---|---|---|---|---|---|
| src/app/app.component.ts:60-63 | `syncData` calls `syncPendingPosts()` but never subscribes to the Observable it returns, so no pending post is ever re-sent | a stored post tagged `pending`, then the status goes offline and comes back online | pending posts are re-sent, then pending comments | high, not executed | `App.AppComponent.SyncDataAsWritten` with `App.PendingPostStaysPending` | `App.AppComponent.SyncData` |
| src/app/services/sync.service.ts:62-73 | the conflict-rule updates are built inside `map`, and the Observable they form is never subscribed, so `syncPosts` writes nothing | an empty posts store and a remote list with one post | the selected remote posts are written | high, not executed | `Sync.SyncService.SyncPostsAsWritten` with `Sync.RefreshAddsMissingPost` | `Sync.SyncService.SyncPosts` |
| src/app/services/sync.service.ts:41-105 | `syncComments` and `syncUsers` put the whole fetched array into a store keyed by `id`; an array has no `id`, so the put is refused, and `syncData` never reaches `clearSyncQueue` | any `syncData` while the database is open | each fetched record is upserted, and the queue is cleared when all three parts succeed | high, not executed | `Sync.SyncService.SyncDataAsWritten` | `Sync.SyncService.SyncData` |
| src/app/services/sync.service.ts:110-111 | `queueSyncOperation` puts the list of all queue records plus the new operation back into the auto-numbered store, which keeps that list as one new record; `processSyncQueue` never dispatches such a record | an empty queue, one queued post creation, then `processSyncQueue` with the API accepting it | the operation is appended to the queue and later dispatched | high, not executed | `Sync.SyncService.QueueSyncOperationAsWritten` with `Sync.QueuedListNeverDispatched` | `Sync.SyncService.QueueSyncOperation` |
| src/app/services/post.service.ts:206-239 | the store writes in the callbacks of the re-sends (`db.update` and `db.delete`) return Observables that are never subscribed, so no post's tag changes and no accepted delete is removed | a stored post tagged `pending` and a pass whose remote call succeeds | each pending post becomes `synced` or `failed`, each delete-pending post is removed or becomes `delete-failed` | high, not executed | `Posts.PostService.SyncPendingPostsAsWritten` with `Posts.UnwrittenPassResends` | `Posts.PostService.SyncPendingPosts` |
| src/app/services/comment.service.ts:72-88 | the `db.update` in the callbacks of the re-sends is never subscribed, so every pending comment stays pending and is posted again on every pass | a stored comment tagged `pending` and a pass whose remote call succeeds | each pending comment becomes `synced` or `failed` | high, not executed | `Comments.CommentService.SyncPendingCommentsAsWritten` with `Comments.UnwrittenPassResends` | `Comments.CommentService.SyncPendingComments` |
| src/app/services/comment.service.ts:32-38 | the commented "fallback if API fails" is a `switchMap`, which runs only on success, so a failed remote call fails the whole lookup | online, a comment of the post stored, remote call fails | the stored comments of the post are returned | medium, not executed | `Comments.ByPostIdAsWritten` with `Comments.RemoteFailureHidesStoredComments` | `Comments.ByPostId` |
