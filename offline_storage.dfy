/** The offline storage service: three keyed stores (posts, comments, users), the
    auto-numbered pending-operations queue, and the flag that says whether the
    database connection is open. Every request fails while it is not. */
module Storage {
  import opened Common
  import opened Records
  import opened ObjectStores

  class OfflineStorageService {
    /** The connection is open (`db` is set and readiness has been signalled). */
    var ready: bool
    const posts: ObjectStore<Post>
    const comments: ObjectStore<Comment>
    const users: ObjectStore<User>
    /** The `syncQueue` store, in insertion (auto-increment key) order. */
    var syncQueue: seq<QueueRecord>

    ghost predicate Valid()
      reads this, posts, comments, users
    {
      && posts.Valid() && posts.keyOf == PostKey
      && comments.Valid() && comments.keyOf == CommentKey
      && users.Valid() && users.keyOf == UserKey
      && posts as object != comments as object && posts as object != users as object
      && comments as object != users as object
    }

    /** Before the database has opened, nothing is stored and every request fails. */
    constructor ()
      ensures Valid() && !ready && syncQueue == []
      ensures fresh(posts) && fresh(comments) && fresh(users)
      ensures posts.records == map[] && comments.records == map[] && users.records == map[]
    {
      ready := false;
      posts := new ObjectStore(PostKey);
      comments := new ObjectStore(CommentKey);
      users := new ObjectStore(UserKey);
      syncQueue := [];
    }

    /** The open request succeeded: the service becomes ready. */
    method Opened()
      modifies this`ready
      ensures ready
    {
      ready := true;
    }

    /** The store a request names is one of the service's own stores; the source
        passes its name, and a name the database does not hold is never used. */
    predicate OwnStore<R>(store: ObjectStore<R>)
      reads this
    {
      store as object == posts as object || store as object == comments as object ||
      store as object == users as object
    }

    /** `update`: a put keyed by the record's id. */
    method Update<R>(store: ObjectStore<R>, data: R) returns (res: Outcome)
      requires OwnStore(store)
      requires store.Valid()
      modifies store
      ensures store.Valid()
      ensures res == if ready then Done else Fail(DatabaseNotInitialized)
      ensures store.records == if ready then old(store.records)[store.keyOf(data) := data] else old(store.records)
    {
      if !ready {
        return Fail(DatabaseNotInitialized);
      }
      store.Put(data);
      res := Done;
    }

    /** `update` given an array for a store keyed by `id`: an array has no `id`, so
        the put is refused and nothing is written. */
    method UpdateWithList<R>(store: ObjectStore<R>, data: seq<R>) returns (res: Outcome)
      requires OwnStore(store)
      ensures res == if ready then Fail(KeyPathMissing) else Fail(DatabaseNotInitialized)
    {
      if !ready {
        return Fail(DatabaseNotInitialized);
      }
      res := Fail(KeyPathMissing);
    }

    /** `update` given an array for the auto-numbered `syncQueue` store: the store
        generates a new key, so the whole array becomes one new record. */
    method UpdateQueueWithList(data: seq<QueueRecord>) returns (res: Outcome)
      modifies this`syncQueue
      ensures res == if ready then Done else Fail(DatabaseNotInitialized)
      ensures syncQueue == if ready then old(syncQueue) + [QueuedList(data)] else old(syncQueue)
    {
      if !ready {
        return Fail(DatabaseNotInitialized);
      }
      syncQueue := syncQueue + [QueuedList(data)];
      res := Done;
    }

    /** `add`: issues the insert and reports success at once, whatever the insert
        request does; an insert of a key already present is refused by the store. */
    method Add<R>(store: ObjectStore<R>, data: R) returns (res: Outcome)
      requires OwnStore(store)
      requires store.Valid()
      modifies store
      ensures store.Valid()
      ensures res == if ready then Done else Fail(DatabaseNotInitialized)
      ensures store.records ==
                if ready && store.keyOf(data) !in old(store.records)
                then old(store.records)[store.keyOf(data) := data]
                else old(store.records)
    {
      if !ready {
        return Fail(DatabaseNotInitialized);
      }
      var _ := store.Add(data);
      res := Done;
    }

    /** `delete`: removes exactly the key `id`. */
    method Delete<R>(store: ObjectStore<R>, id: int) returns (res: Outcome)
      requires OwnStore(store)
      requires store.Valid()
      modifies store
      ensures store.Valid()
      ensures res == if ready then Done else Fail(DatabaseNotInitialized)
      ensures store.records == if ready then old(store.records) - {id} else old(store.records)
    {
      if !ready {
        return Fail(DatabaseNotInitialized);
      }
      store.Delete(id);
      res := Done;
    }

    /** `getAll`: every record in key order. */
    method GetAll<R>(store: ObjectStore<R>) returns (res: Result<seq<R>>)
      requires OwnStore(store)
      ensures res == if ready then Ok(KeyOrder.Values(store.records)) else Err(DatabaseNotInitialized)
    {
      if !ready {
        return Err(DatabaseNotInitialized);
      }
      var all := store.GetAll();
      res := Ok(all);
    }

    /** `getById`: the record under `id`; an absent key is a success with no record. */
    method GetById<R>(store: ObjectStore<R>, id: int) returns (res: Result<Option<R>>)
      requires OwnStore(store)
      requires store.Valid()
      ensures !ready ==> res == Err(DatabaseNotInitialized)
      ensures ready ==> res.Ok? && (res.value.Some? <==> id in store.records)
      ensures ready && res.value.Some? ==> res.value.value == store.records[id] && store.keyOf(res.value.value) == id
    {
      if !ready {
        return Err(DatabaseNotInitialized);
      }
      var r := store.Get(id);
      res := Ok(r);
    }

    /** `bulkAdd`: every item added in one transaction, reported only when the
        transaction completes; one refused add aborts it and nothing is written. */
    method BulkAdd<R>(store: ObjectStore<R>, data: seq<R>) returns (res: Outcome)
      requires OwnStore(store)
      requires store.Valid()
      modifies store
      ensures store.Valid()
      ensures !ready ==> res == Fail(DatabaseNotInitialized) && store.records == old(store.records)
      ensures ready && Fresh(old(store.records), data, store.keyOf) ==>
                res == Done && store.records == PutEach(old(store.records), data, store.keyOf)
      ensures ready && !Fresh(old(store.records), data, store.keyOf) ==>
                res == Fail(TransactionAborted) && store.records == old(store.records)
    {
      if !ready {
        return Fail(DatabaseNotInitialized);
      }
      var ok := store.AddAll(data);
      res := if ok then Done else Fail(TransactionAborted);
    }

    /** `addToSyncQueue`: appends the operation stamped with the current time. */
    method AddToSyncQueue(op: SyncOperation, now: int) returns (res: Outcome)
      modifies this`syncQueue
      ensures res == if ready then Done else Fail(DatabaseNotInitialized)
      ensures syncQueue == if ready then old(syncQueue) + [Queued(op.(timestamp := now))] else old(syncQueue)
    {
      if !ready {
        return Fail(DatabaseNotInitialized);
      }
      syncQueue := syncQueue + [Queued(op.(timestamp := now))];
      res := Done;
    }

    method GetSyncQueue() returns (res: Result<seq<QueueRecord>>)
      ensures res == if ready then Ok(syncQueue) else Err(DatabaseNotInitialized)
    {
      res := if ready then Ok(syncQueue) else Err(DatabaseNotInitialized);
    }

    /** `clearSyncQueue`: empties the queue and nothing else. */
    method ClearSyncQueue() returns (res: Outcome)
      modifies this`syncQueue
      ensures res == if ready then Done else Fail(DatabaseNotInitialized)
      ensures syncQueue == if ready then [] else old(syncQueue)
    {
      if !ready {
        return Fail(DatabaseNotInitialized);
      }
      syncQueue := [];
      res := Done;
    }

    /** `deletePost`: waits for the readiness signal's current value; when it is
        false the call completes without emitting anything (`None`). */
    method DeletePost(id: int) returns (emitted: Option<Outcome>)
      requires Valid()
      modifies posts
      ensures Valid()
      ensures emitted == if ready then Some(Done) else None
      ensures posts.records == if ready then old(posts.records) - {id} else old(posts.records)
    {
      if !ready {
        return None;
      }
      var res := Delete(posts, id);
      emitted := Some(res);
    }
  }
}
