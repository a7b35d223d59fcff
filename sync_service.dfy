/** The sync service: refreshes the local stores from the remote API with a
    last-writer-wins rule for posts, keeps the pending-operations queue, and replays
    that queue against the remote API. Each `Reply` is what a remote call delivered. */
module Sync {
  import opened Common
  import opened Records
  import opened ObjectStores
  import KeyOrder
  import opened Storage

  /** `localPosts.find(lp => lp.id === id)`: the first listed post with that id. */
  function Find(posts: seq<Post>, id: int): (r: Option<Post>)
    ensures r.Some? ==> r.value in posts && r.value.id == id
    ensures r.None? ==> forall p | p in posts :: p.id != id
  {
    if posts == [] then None
    else if posts[0].id == id then Some(posts[0])
    else Find(posts[1..], id)
  }

  /** In the listing of a store, the post found for `id` is the one stored under it. */
  lemma FindInListing(m: map<int, Post>, id: int)
    requires forall k | k in m :: m[k].id == k
    ensures Find(KeyOrder.Values(m), id) == if id in m then Some(m[id]) else None
  {
    var r := Find(KeyOrder.Values(m), id);
    if id in m {
      KeyOrder.ValuesComplete(m, id);
      assert r.Some?;
      ListedIsStored(m, PostKey, r.value);
    }
  }

  /** The conflict rule: the remote post replaces the local one when there is no
      local post, or when both carry an update time and the local one is older. A
      post without an update time is never replaced, and neither is one of the same age. */
  predicate RemoteWins(local: Option<Post>, remote: Post)
  {
    local.None? ||
    (local.value.updatedAt.Some? && remote.updatedAt.Some? && local.value.updatedAt.value < remote.updatedAt.value)
  }

  /** The remote posts the conflict rule selects, each decided against the snapshot
      `local`, in the order the remote API listed them. */
  function Winners(local: seq<Post>, remote: seq<Post>): (r: seq<Post>)
    ensures forall p | p in r :: p in remote && RemoteWins(Find(local, p.id), p)
    ensures forall i | 0 <= i < |remote| && RemoteWins(Find(local, remote[i].id), remote[i]) :: remote[i] in r
    ensures DistinctKeys(remote, PostKey) ==> DistinctKeys(r, PostKey)
  {
    var keep := (p: Post) => RemoteWins(Find(local, p.id), p);
    if DistinctKeys(remote, PostKey) then
      FilterDistinct(remote, keep, PostKey);
      Filter(remote, keep)
    else
      Filter(remote, keep)
  }

  /** The posts store after the refresh `syncPosts` means to perform: every selected
      remote post is put, in order. */
  function Refresh(m: map<int, Post>, remote: seq<Post>): (r: map<int, Post>)
    ensures m.Keys <= r.Keys
    ensures forall k | k in r && k !in m :: exists p | p in remote :: p.id == k
  {
    PutEach(m, Winners(KeyOrder.Values(m), remote), PostKey)
  }

  /** No post the rule selects has the id of a stored post that no remote post beats. */
  lemma UnbeatenNotSelected(m: map<int, Post>, remote: seq<Post>, k: int)
    requires forall k | k in m :: m[k].id == k
    requires k in m && forall p | p in remote && p.id == k :: !RemoteWins(Some(m[k]), p)
    ensures k !in KeysOf(Winners(KeyOrder.Values(m), remote), PostKey)
  {
    var w := Winners(KeyOrder.Values(m), remote);
    FindInListing(m, k);
    forall i | 0 <= i < |w| ensures PostKey(w[i]) != k {
      assert w[i] in w;
    }
  }

  /** A stored post that no remote post with its id beats stays as it is. */
  lemma RefreshKeepsUnbeaten(m: map<int, Post>, remote: seq<Post>, k: int)
    requires forall k | k in m :: m[k].id == k
    requires k in m && forall p | p in remote && p.id == k :: !RemoteWins(Some(m[k]), p)
    ensures k in Refresh(m, remote) && Refresh(m, remote)[k] == m[k]
  {
    UnbeatenNotSelected(m, remote, k);
    PutEachLast(m, Winners(KeyOrder.Values(m), remote), PostKey);
  }

  /** A stored post without an update time is never overwritten by the refresh. */
  lemma RefreshKeepsUndated(m: map<int, Post>, remote: seq<Post>)
    requires forall k | k in m :: m[k].id == k
    ensures forall k | k in m && m[k].updatedAt.None? :: k in Refresh(m, remote) && Refresh(m, remote)[k] == m[k]
  {
    forall k | k in m && m[k].updatedAt.None? ensures k in Refresh(m, remote) && Refresh(m, remote)[k] == m[k] {
      RefreshKeepsUnbeaten(m, remote, k);
    }
  }

  /** With distinct remote ids, a remote post the rule selects against the store ends
      up stored under its id: a missing post is added, an older dated one replaced. */
  lemma RefreshTakesNewer(m: map<int, Post>, remote: seq<Post>, p: Post)
    requires forall k | k in m :: m[k].id == k
    requires DistinctKeys(remote, PostKey)
    requires p in remote && RemoteWins(if p.id in m then Some(m[p.id]) else None, p)
    ensures p.id in Refresh(m, remote) && Refresh(m, remote)[p.id] == p
  {
    var w := Winners(KeyOrder.Values(m), remote);
    FindInListing(m, p.id);
    var i :| 0 <= i < |remote| && remote[i] == p;
    assert p in w;
    var j :| 0 <= j < |w| && w[j] == p;
    assert LastWithKey(w, PostKey, j);
    PutEachLastAt(m, w, PostKey, j);
  }

  /** After a refresh, no post of the same remote list (with distinct ids) beats the
      stored one. */
  lemma RefreshSettles(m: map<int, Post>, remote: seq<Post>, p: Post)
    requires forall k | k in m :: m[k].id == k
    requires DistinctKeys(remote, PostKey)
    requires p in remote
    ensures p.id in Refresh(m, remote) && !RemoteWins(Some(Refresh(m, remote)[p.id]), p)
  {
    if RemoteWins(if p.id in m then Some(m[p.id]) else None, p) {
      RefreshTakesNewer(m, remote, p);
    } else {
      var i :| 0 <= i < |remote| && remote[i] == p;
      forall q | q in remote && q.id == p.id ensures !RemoteWins(Some(m[p.id]), q) {
        var j :| 0 <= j < |remote| && remote[j] == q;
        assert PostKey(remote[i]) == PostKey(remote[j]);
      }
      RefreshKeepsUnbeaten(m, remote, p.id);
    }
  }

  /** After a refresh, the rule selects nothing from the same remote list. */
  lemma NothingSelectedAfterRefresh(m: map<int, Post>, remote: seq<Post>)
    requires forall k | k in m :: m[k].id == k
    requires DistinctKeys(remote, PostKey)
    ensures Winners(KeyOrder.Values(Refresh(m, remote)), remote) == []
  {
    var m1 := Refresh(m, remote);
    PutEachKeyed(m, Winners(KeyOrder.Values(m), remote), PostKey);
    var w := Winners(KeyOrder.Values(m1), remote);
    if w != [] {
      var p := w[0];
      assert p in w;
      RefreshSettles(m, remote, p);
      FindInListing(m1, p.id);
    }
  }

  /** With distinct remote ids, refreshing twice from the same remote list is
      refreshing once. */
  lemma RefreshIdempotent(m: map<int, Post>, remote: seq<Post>)
    requires forall k | k in m :: m[k].id == k
    requires DistinctKeys(remote, PostKey)
    ensures Refresh(Refresh(m, remote), remote) == Refresh(m, remote)
  {
    NothingSelectedAfterRefresh(m, remote);
  }

  /** The refresh `syncPosts` means to perform adds a post missing from the store. */
  lemma RefreshAddsMissingPost()
    ensures var p := Post(1, 1, "title", "body", Some(1), Untagged);
            Refresh(map[], [p]) == map[1 := p]
  {
    var p := Post(1, 1, "title", "body", Some(1), Untagged);
    assert Find(KeyOrder.Values(map[]), 1) == None;
    assert Winners(KeyOrder.Values(map[]), [p]) == [p];
  }

  /** The local stores `processSyncQueue` writes. */
  datatype Tables = Tables(posts: map<int, Post>, comments: map<int, Comment>)

  /** The reply to the remote call for the `i`-th queued record; a missing one is a failure. */
  function ReplyAt(replies: seq<Reply<Payload>>, i: nat): Reply<Payload>
  {
    if i < |replies| then replies[i] else Unavailable
  }

  predicate IsCreatePost(op: SyncOperation) { op.opType == "create" && op.entityType == "post" }
  predicate IsCreateComment(op: SyncOperation) { op.opType == "create" && op.entityType == "comment" }
  predicate IsUpdatePost(op: SyncOperation) { op.opType == "update" && op.entityType == "post" }
  predicate IsDeletePost(op: SyncOperation) { op.opType == "delete" && op.entityType == "post" }

  /** Whether the dispatch of `rec` succeeds. A record that is not an operation of a
      recognised type and entity succeeds at once; a recognised one succeeds when its
      remote call answers (a create or update with a record of its own kind). */
  predicate Succeeds(rec: QueueRecord, reply: Reply<Payload>)
  {
    match rec
    case QueuedList(_) => true
    case Queued(op) =>
      if IsCreatePost(op) || IsUpdatePost(op) then reply.Answered? && reply.value.PostData?
      else if IsCreateComment(op) then reply.Answered? && reply.value.CommentData?
      else if IsDeletePost(op) then reply.Answered?
      else true
  }

  /** What dispatching one queued record does to the stores: a created or updated
      post or a created comment is put as the API returned it, a deleted post's id is
      removed; a failed call and an unrecognised record write nothing. */
  function Dispatch(t: Tables, rec: QueueRecord, reply: Reply<Payload>): (r: (Tables, bool))
    ensures r.1 == Succeeds(rec, reply)
    ensures !r.1 ==> r.0 == t
    ensures rec.QueuedList? ==> r.0 == t
  {
    match rec
    case QueuedList(_) => (t, true)
    case Queued(op) =>
      if IsCreatePost(op) || IsUpdatePost(op) then
        (if reply.Answered? && reply.value.PostData?
         then (t.(posts := t.posts[reply.value.post.id := reply.value.post]), true)
         else (t, false))
      else if IsCreateComment(op) then
        (if reply.Answered? && reply.value.CommentData?
         then (t.(comments := t.comments[reply.value.comment.id := reply.value.comment]), true)
         else (t, false))
      else if IsDeletePost(op) then
        (if reply.Answered? then (t.(posts := t.posts - {op.data.Id()}), true) else (t, false))
      else (t, true)
  }

  /** The stores after dispatching the queued records in order, and whether every
      dispatch succeeded. */
  function Replay(t: Tables, recs: seq<QueueRecord>, replies: seq<Reply<Payload>>): (Tables, bool)
  {
    if recs == [] then (t, true)
    else
      var n := |recs| - 1;
      var before := Replay(t, recs[..n], replies);
      var after := Dispatch(before.0, recs[n], ReplyAt(replies, n));
      (after.0, before.1 && after.1)
  }

  /** A replay succeeds exactly when every record's dispatch does, so the queue is
      cleared only then. */
  lemma {:induction false} ReplaySucceedsIff(t: Tables, recs: seq<QueueRecord>, replies: seq<Reply<Payload>>)
    ensures Replay(t, recs, replies).1 <==> forall i | 0 <= i < |recs| :: Succeeds(recs[i], ReplyAt(replies, i))
  {
    if recs != [] {
      var n := |recs| - 1;
      ReplaySucceedsIff(t, recs[..n], replies);
      assert forall i | 0 <= i < n :: recs[..n][i] == recs[i];
    }
  }

  /** Records holding a whole list are never dispatched: replaying only such records
      changes nothing and succeeds. */
  lemma {:induction false} NestedRecordsAreInert(t: Tables, recs: seq<QueueRecord>, replies: seq<Reply<Payload>>)
    requires forall i | 0 <= i < |recs| :: recs[i].QueuedList?
    ensures Replay(t, recs, replies) == (t, true)
  {
    if recs != [] {
      var n := |recs| - 1;
      assert forall i | 0 <= i < n :: recs[..n][i] == recs[i];
      NestedRecordsAreInert(t, recs[..n], replies);
    }
  }

  /** A queued create of a post is dispatched and stores the API's copy, while the
      same operation inside a list record is not. */
  lemma QueuedListNeverDispatched()
    ensures var p := Post(1, 1, "title", "body", None, Pending);
            var op := SyncOperation("create", "create", "post", PostData(p), 0);
            var t := Tables(map[], map[]);
            Replay(t, [Queued(op)], [Answered(PostData(p))]) == (Tables(map[1 := p], map[]), true) &&
            Replay(t, [QueuedList([Queued(op)])], [Answered(PostData(p))]) == (t, true)
  {
    var p := Post(1, 1, "title", "body", None, Pending);
    var op := SyncOperation("create", "create", "post", PostData(p), 0);
    var t := Tables(map[], map[]);
    assert [Queued(op)][..0] == [];
    assert [QueuedList([Queued(op)])][..0] == [];
  }

  class SyncService {
    /** Whether the queue held any record when last read. */
    var syncInProgress: bool
    const storage: OfflineStorageService

    ghost predicate Valid()
      reads this, storage, storage.posts, storage.comments, storage.users
    {
      storage.Valid()
    }

    constructor (storage: OfflineStorageService)
      requires storage.Valid()
      ensures Valid() && this.storage == storage && !syncInProgress
    {
      this.storage := storage;
      syncInProgress := false;
    }

    /** The readiness subscription: once the database is ready, the flag says whether
        the queue holds any record. */
    method OnDbReady()
      modifies this`syncInProgress
      ensures storage.ready ==> (syncInProgress <==> |storage.syncQueue| > 0)
      ensures !storage.ready ==> syncInProgress == old(syncInProgress)
    {
      if storage.ready {
        var queue := storage.GetSyncQueue();
        syncInProgress := queue.Ok? && |queue.value| > 0;
      }
    }

    /** `syncPosts` as written: the conflict rule builds the updates, but they are
        returned from `map` and never subscribed, so no post is written. It succeeds
        when the remote list and the local listing are both read. */
    method SyncPostsAsWritten(reply: Reply<seq<Post>>) returns (ok: bool)
      ensures ok <==> reply.Answered? && storage.ready
    {
      if reply.Unavailable? {
        return false;
      }
      var local := storage.GetAll(storage.posts);
      if local.Err? {
        return false;
      }
      var _ := Winners(local.value, reply.value);
      ok := true;
    }

    /** `syncPosts` as meant: every remote post the conflict rule selects against the
        local listing is put. */
    method SyncPosts(reply: Reply<seq<Post>>) returns (ok: bool)
      requires Valid()
      modifies storage.posts
      ensures Valid()
      ensures ok <==> reply.Answered? && storage.ready
      ensures storage.posts.records == if ok then Refresh(old(storage.posts.records), reply.value) else old(storage.posts.records)
    {
      if reply.Unavailable? {
        return false;
      }
      var local := storage.GetAll(storage.posts);
      if local.Err? {
        return false;
      }
      var updates := Winners(local.value, reply.value);
      PutUpdates(updates);
      ok := true;
    }

    /** The updates of `syncPosts`, each put in turn into the ready posts store. */
    method PutUpdates(updates: seq<Post>)
      requires Valid() && storage.ready
      modifies storage.posts
      ensures Valid()
      ensures storage.posts.records == PutEach(old(storage.posts.records), updates, PostKey)
    {
      ghost var m0 := storage.posts.records;
      for i := 0 to |updates|
        invariant Valid()
        invariant storage.posts.records == PutEach(m0, updates[..i], PostKey)
      {
        var _ := storage.Update(storage.posts, updates[i]);
        assert updates[..i + 1][..i] == updates[..i];
      }
      assert updates[..|updates|] == updates;
    }

    /** `syncComments` as written: the whole fetched list is put as one value into the
        keyed comments store, which refuses it, so the step always fails. */
    method SyncCommentsAsWritten(reply: Reply<seq<Comment>>) returns (ok: bool)
      ensures !ok
    {
      if reply.Unavailable? {
        return false;
      }
      var res := storage.UpdateWithList(storage.comments, reply.value);
      ok := res.Done?;
    }

    /** `syncComments` as meant: every fetched comment is put. */
    method SyncComments(reply: Reply<seq<Comment>>) returns (ok: bool)
      requires Valid()
      modifies storage.comments
      ensures Valid()
      ensures ok <==> reply.Answered? && storage.ready
      ensures storage.comments.records ==
                if ok then PutEach(old(storage.comments.records), reply.value, CommentKey) else old(storage.comments.records)
    {
      if reply.Unavailable? || !storage.ready {
        return false;
      }
      storage.comments.PutAll(reply.value);
      ok := true;
    }

    /** `syncUsers` as written: refused like `syncComments`, so it always fails. */
    method SyncUsersAsWritten(reply: Reply<seq<User>>) returns (ok: bool)
      ensures !ok
    {
      if reply.Unavailable? {
        return false;
      }
      var res := storage.UpdateWithList(storage.users, reply.value);
      ok := res.Done?;
    }

    /** `syncUsers` as meant: every fetched user is put. */
    method SyncUsers(reply: Reply<seq<User>>) returns (ok: bool)
      requires Valid()
      modifies storage.users
      ensures Valid()
      ensures ok <==> reply.Answered? && storage.ready
      ensures storage.users.records ==
                if ok then PutEach(old(storage.users.records), reply.value, UserKey) else old(storage.users.records)
    {
      if reply.Unavailable? || !storage.ready {
        return false;
      }
      storage.users.PutAll(reply.value);
      ok := true;
    }

    /** The step after the three parts of `syncData`: the queue is cleared only when
        all of them succeeded. */
    method FinishSync(allOk: bool)
      modifies storage`syncQueue
      ensures storage.syncQueue == if allOk && storage.ready then [] else old(storage.syncQueue)
    {
      if allOk {
        var _ := storage.ClearSyncQueue();
      }
    }

    /** `syncData` as written: the comments and users parts always fail, the error is
        swallowed, and nothing changes: no store is written and the queue is never
        cleared. */
    method SyncDataAsWritten(postsReply: Reply<seq<Post>>, commentsReply: Reply<seq<Comment>>,
                             usersReply: Reply<seq<User>>)
      modifies storage`syncQueue
      ensures storage.syncQueue == old(storage.syncQueue)
    {
      var postsOk := SyncPostsAsWritten(postsReply);
      var commentsOk := SyncCommentsAsWritten(commentsReply);
      var usersOk := SyncUsersAsWritten(usersReply);
      FinishSync(postsOk && commentsOk && usersOk);
    }

    /** `syncData` as meant: each part refreshes its store when its remote call
        answers, and the queue is cleared when all three succeeded. */
    method SyncData(postsReply: Reply<seq<Post>>, commentsReply: Reply<seq<Comment>>,
                    usersReply: Reply<seq<User>>)
      requires Valid()
      modifies storage.posts, storage.comments, storage.users, storage`syncQueue
      ensures Valid()
      ensures storage.posts.records ==
                if storage.ready && postsReply.Answered?
                then Refresh(old(storage.posts.records), postsReply.value) else old(storage.posts.records)
      ensures storage.comments.records ==
                if storage.ready && commentsReply.Answered?
                then PutEach(old(storage.comments.records), commentsReply.value, CommentKey)
                else old(storage.comments.records)
      ensures storage.users.records ==
                if storage.ready && usersReply.Answered?
                then PutEach(old(storage.users.records), usersReply.value, UserKey) else old(storage.users.records)
      ensures storage.syncQueue ==
                if storage.ready && postsReply.Answered? && commentsReply.Answered? && usersReply.Answered?
                then [] else old(storage.syncQueue)
    {
      var postsOk := SyncPosts(postsReply);
      var othersOk := SyncCommentsAndUsers(commentsReply, usersReply);
      FinishSync(postsOk && othersOk);
    }

    /** The comments and users parts of `syncData`, one after the other. */
    method SyncCommentsAndUsers(commentsReply: Reply<seq<Comment>>, usersReply: Reply<seq<User>>)
      returns (ok: bool)
      requires Valid()
      modifies storage.comments, storage.users
      ensures Valid()
      ensures ok <==> storage.ready && commentsReply.Answered? && usersReply.Answered?
      ensures storage.comments.records ==
                if storage.ready && commentsReply.Answered?
                then PutEach(old(storage.comments.records), commentsReply.value, CommentKey)
                else old(storage.comments.records)
      ensures storage.users.records ==
                if storage.ready && usersReply.Answered?
                then PutEach(old(storage.users.records), usersReply.value, UserKey) else old(storage.users.records)
    {
      var commentsOk := SyncComments(commentsReply);
      var usersOk := SyncUsers(usersReply);
      ok := commentsOk && usersOk;
    }

    /** `queueSyncOperation` as written: the queue's records plus the new operation are
        put back as one array, which the auto-numbered store keeps as one new record. */
    method QueueSyncOperationAsWritten(op: SyncOperation) returns (res: Outcome)
      modifies storage`syncQueue
      ensures res == if storage.ready then Done else Fail(DatabaseNotInitialized)
      ensures storage.syncQueue ==
                if storage.ready then old(storage.syncQueue) + [QueuedList(old(storage.syncQueue) + [Queued(op)])]
                else old(storage.syncQueue)
    {
      var all := storage.GetSyncQueue();
      if all.Err? {
        return Fail(all.error);
      }
      res := storage.UpdateQueueWithList(all.value + [Queued(op)]);
    }

    /** `queueSyncOperation` as meant: the operation is appended to the queue. */
    method QueueSyncOperation(op: SyncOperation) returns (res: Outcome)
      modifies storage`syncQueue
      ensures res == if storage.ready then Done else Fail(DatabaseNotInitialized)
      ensures storage.syncQueue == if storage.ready then old(storage.syncQueue) + [Queued(op)] else old(storage.syncQueue)
    {
      if !storage.ready {
        return Fail(DatabaseNotInitialized);
      }
      storage.syncQueue := storage.syncQueue + [Queued(op)];
      res := Done;
    }

    /** The dispatch of one queued record in `processSyncQueue`. */
    method DispatchRecord(rec: QueueRecord, reply: Reply<Payload>) returns (ok: bool)
      requires Valid() && storage.ready
      modifies storage.posts, storage.comments
      ensures Valid()
      ensures (Tables(storage.posts.records, storage.comments.records), ok) ==
                Dispatch(Tables(old(storage.posts.records), old(storage.comments.records)), rec, reply)
    {
      if rec.QueuedList? {
        return true;
      }
      var op := rec.op;
      if IsCreatePost(op) || IsUpdatePost(op) {
        if reply.Answered? && reply.value.PostData? {
          var _ := storage.Update(storage.posts, reply.value.post);
          return true;
        }
        return false;
      } else if IsCreateComment(op) {
        if reply.Answered? && reply.value.CommentData? {
          var _ := storage.Update(storage.comments, reply.value.comment);
          return true;
        }
        return false;
      } else if IsDeletePost(op) {
        if reply.Answered? {
          var _ := storage.Delete(storage.posts, op.data.Id());
          return true;
        }
        return false;
      }
      ok := true;
    }

    /** `processSyncQueue`: every queued record is dispatched in order, `replies[i]`
        answering the remote call of the `i`-th; the queue is cleared when every
        dispatch succeeded. An empty queue completes without emitting. */
    method ProcessSyncQueue(replies: seq<Reply<Payload>>) returns (emitted: Option<Outcome>)
      requires Valid()
      modifies storage.posts, storage.comments, storage`syncQueue
      ensures Valid()
      ensures !storage.ready || old(storage.syncQueue) == [] ==>
                storage.posts.records == old(storage.posts.records) &&
                storage.comments.records == old(storage.comments.records) &&
                storage.syncQueue == old(storage.syncQueue)
      ensures !storage.ready ==> emitted == Some(Fail(DatabaseNotInitialized))
      ensures storage.ready && old(storage.syncQueue) == [] ==> emitted == None
      ensures storage.ready && old(storage.syncQueue) != [] ==>
                var r := Replay(Tables(old(storage.posts.records), old(storage.comments.records)),
                                old(storage.syncQueue), replies);
                storage.posts.records == r.0.posts && storage.comments.records == r.0.comments &&
                (r.1 ==> emitted == Some(Done) && storage.syncQueue == []) &&
                (!r.1 ==> emitted == Some(Fail(RemoteUnavailable)) && storage.syncQueue == old(storage.syncQueue))
    {
      var queue := storage.GetSyncQueue();
      if queue.Err? {
        return Some(Fail(queue.error));
      }
      var recs := queue.value;
      if recs == [] {
        return None;
      }
      ghost var t0 := Tables(storage.posts.records, storage.comments.records);
      var allOk := true;
      for i := 0 to |recs|
        invariant Valid() && storage.syncQueue == recs
        invariant (Tables(storage.posts.records, storage.comments.records), allOk) == Replay(t0, recs[..i], replies)
      {
        var ok := DispatchRecord(recs[i], ReplyAt(replies, i));
        assert recs[..i + 1][..i] == recs[..i];
        allOk := allOk && ok;
      }
      assert recs[..|recs|] == recs;
      if !allOk {
        return Some(Fail(RemoteUnavailable));
      }
      var res := storage.ClearSyncQueue();
      emitted := Some(res);
    }
  }
}
