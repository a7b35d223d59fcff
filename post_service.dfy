/** The post service: the per-post offline-first rules. For every read and write it
    chooses the local store or the remote API from the connectivity flag, and it
    decides which `syncStatus` the stored post ends with. `online` is the
    connectivity flag at the time of the call; each `Reply` is what the remote
    call delivered. */
module Posts {
  import opened Common
  import opened Records
  import opened ObjectStores
  import KeyOrder

  const PageSize: nat := 20
  /** The total number of posts the remote API is taken to hold. */
  const TotalPostsAvailable: nat := 100

  /** JavaScript's `slice(from, to)` for non-negative bounds: both are clamped to the sequence. */
  function Slice<T>(s: seq<T>, from: nat, to: nat): seq<T>
  {
    var lo := Min(from, |s|);
    var hi := Min(to, |s|);
    if lo < hi then s[lo..hi] else []
  }

  /** The offline page that starts at `start` in the stored posts. An empty window is
      the NoOfflineData error, never an empty page. */
  function OfflinePage(stored: seq<Post>, start: nat): (r: Result<seq<Post>>)
    ensures r.Ok? <==> start < |stored|
    ensures r.Ok? ==> r.value == stored[start..Min(start + PageSize, |stored|)]
    ensures r.Ok? ==> 0 < |r.value| <= PageSize
    ensures r.Err? ==> r.error == NoOfflineData
  {
    var page := Slice(stored, start, start + PageSize);
    if |page| == 0 then Err(NoOfflineData) else Ok(page)
  }

  /** The position of the first post of page `page` (counted from 0). */
  function PageStart(page: nat): nat
  {
    page * PageSize
  }

  /** The posts read by loading offline pages from `start` on, one page size apart,
      until the first NoOfflineData. */
  function PagesFrom(stored: seq<Post>, start: nat): seq<Post>
    decreases |stored| - start
  {
    match OfflinePage(stored, start)
    case Err(_) => []
    case Ok(page) => page + PagesFrom(stored, start + PageSize)
  }

  /** Paging offline from `start` yields every stored post from there on, once and in order. */
  lemma {:induction false} PagesTile(stored: seq<Post>, start: nat)
    ensures PagesFrom(stored, start) == if start < |stored| then stored[start..] else []
    decreases |stored| - start
  {
    if start < |stored| {
      PagesTile(stored, start + PageSize);
      var end := Min(start + PageSize, |stored|);
      if end < |stored| {
        assert stored[start..] == stored[start..end] + stored[end..];
      } else {
        assert stored[start..end] == stored[start..];
      }
    }
  }

  /** `hasMorePosts`: offline, more posts exist when fewer than the stored count are
      loaded; online, when fewer than that remote total are. */
  function HasMore(online: bool, totalLoaded: int, storedCount: nat): bool
  {
    if online then totalLoaded < TotalPostsAvailable else totalLoaded < storedCount
  }

  /** Offline, "has more" after `n` loaded posts holds exactly when the offline page at `n` exists. */
  lemma HasMoreMatchesOfflinePage(stored: seq<Post>, n: nat)
    ensures HasMore(false, n, |stored|) <==> OfflinePage(stored, n).Ok?
  {
  }

  predicate IsPending(p: Post) { p.syncStatus == Pending }
  predicate IsDeletePending(p: Post) { p.syncStatus == DeletePending }

  /** What one reconciliation pass does to one stored post, given whether its remote
      call succeeded; `None` means the post is removed. */
  function Settle(p: Post, accepted: bool): (r: Option<Post>)
  {
    match p.syncStatus
    case Pending => Some(p.(syncStatus := if accepted then Synced else Failed))
    case DeletePending => if accepted then None else Some(p.(syncStatus := DeleteFailed))
    case _ => Some(p)
  }

  /** The store after a reconciliation pass in which the remote calls for the posts
      whose ids are in `accepted` succeed. Only `pending` and `delete-pending` posts
      change: a pending post becomes synced or failed, a delete-pending post is
      removed or becomes delete-failed; every other post stays as it was. */
  function Reconciled(m: map<int, Post>, accepted: set<int>): (r: map<int, Post>)
    ensures forall k | k in r :: k in m
    ensures forall k | k in m && m[k].syncStatus !in {Pending, DeletePending} :: k in r && r[k] == m[k]
    ensures forall k | k in m && m[k].syncStatus == Pending ::
              k in r && r[k] == m[k].(syncStatus := if k in accepted then Synced else Failed)
    ensures forall k | k in m && m[k].syncStatus == DeletePending ::
              (k in r <==> k !in accepted) && (k in r ==> r[k] == m[k].(syncStatus := DeleteFailed))
    ensures forall k | k in r :: r[k].syncStatus !in {Pending, DeletePending}
  {
    map k | k in m && Settle(m[k], k in accepted).Some? :: Settle(m[k], k in accepted).value
  }

  /** A second pass finds nothing left to send: it changes nothing, whatever its outcomes. */
  lemma ReconcileIdempotent(m: map<int, Post>, first: set<int>, second: set<int>)
    ensures Reconciled(Reconciled(m, first), second) == Reconciled(m, first)
  {
    var once := Reconciled(m, first);
    assert Reconciled(once, second).Keys == once.Keys;
  }

  /** A reconciliation pass keeps every post stored under its own id. */
  lemma ReconcileKeepsKeys(m: map<int, Post>, accepted: set<int>)
    requires forall k | k in m :: m[k].id == k
    ensures forall k | k in Reconciled(m, accepted) :: Reconciled(m, accepted)[k].id == k
  {
  }

  /** The store once the first loop of a pass has handled the posts whose keys are in
      `keys`: the accepted ones are synced, the others failed. */
  ghost function PendingSettled(m: map<int, Post>, keys: set<int>, accepted: set<int>): (r: map<int, Post>)
    ensures r.Keys == m.Keys
    ensures forall k | k in m ::
              r[k] == if k in keys then m[k].(syncStatus := if k in accepted then Synced else Failed) else m[k]
  {
    map k | k in m :: if k in keys then m[k].(syncStatus := if k in accepted then Synced else Failed) else m[k]
  }

  /** Handling one more post in the first loop marks it synced or failed. */
  lemma PendingSettledStep(m: map<int, Post>, keys: set<int>, accepted: set<int>, k: int)
    requires k in m
    ensures PendingSettled(m, keys + {k}, accepted) ==
            PendingSettled(m, keys, accepted)[k := m[k].(syncStatus := if k in accepted then Synced else Failed)]
  {
  }

  /** The store once the delete loop of a pass has handled the posts whose keys are in
      `keys`: the accepted ones are gone, the others are marked delete-failed. */
  ghost function DeletesSettled(m: map<int, Post>, keys: set<int>, accepted: set<int>): (r: map<int, Post>)
    ensures r.Keys == m.Keys - (keys * accepted)
    ensures forall k | k in r :: r[k] == if k in keys then m[k].(syncStatus := DeleteFailed) else m[k]
  {
    map k | k in m && !(k in keys && k in accepted) :: if k in keys then m[k].(syncStatus := DeleteFailed) else m[k]
  }

  /** Handling one more post in the delete loop removes it or marks it. */
  lemma DeletesSettledStep(m: map<int, Post>, keys: set<int>, accepted: set<int>, k: int)
    requires k in m
    ensures DeletesSettled(m, keys + {k}, accepted) ==
            if k in accepted then DeletesSettled(m, keys, accepted) - {k}
            else DeletesSettled(m, keys, accepted)[k := m[k].(syncStatus := DeleteFailed)]
  {
  }

  class PostService {
    /** The page counter of `loadMorePosts`. */
    var currentPage: nat
    /** The `posts` store of the browser database the entity services use. */
    const posts: ObjectStore<Post>

    ghost predicate Valid()
      reads this, posts
    {
      posts.Valid() && posts.keyOf == PostKey
    }

    constructor (posts: ObjectStore<Post>)
      requires posts.Valid() && posts.keyOf == PostKey
      ensures Valid() && this.posts == posts && currentPage == 0
    {
      this.posts := posts;
      currentPage := 0;
    }

    /** `getOfflinePosts`: the page at `start` of the stored posts, in key order. */
    method GetOfflinePosts(start: nat) returns (r: Result<seq<Post>>)
      ensures r == OfflinePage(KeyOrder.Values(posts.records), start)
    {
      var all := posts.GetAll();
      r := OfflinePage(all, start);
    }

    /** `fetchAndStoreAllPosts`: bulk-puts the fetched list and returns it unchanged. */
    method FetchAndStoreAllPosts(reply: Reply<seq<Post>>) returns (r: Result<seq<Post>>)
      requires Valid()
      modifies posts
      ensures Valid()
      ensures reply.Answered? ==> r == Ok(reply.value) && posts.records == PutEach(old(posts.records), reply.value, PostKey)
      ensures reply.Unavailable? ==> r == Err(RemoteUnavailable) && posts.records == old(posts.records)
    {
      if reply.Unavailable? {
        return Err(RemoteUnavailable);
      }
      posts.PutAll(reply.value);
      r := Ok(reply.value);
    }

    /** `loadPosts`: the first page. Online it is the remote page, and an empty store
        is filled from the full remote list on the side. */
    method LoadPosts(online: bool, pageReply: Reply<seq<Post>>, allReply: Reply<seq<Post>>)
      returns (r: Result<seq<Post>>)
      requires Valid()
      modifies posts
      ensures Valid()
      ensures !online ==> r == OfflinePage(KeyOrder.Values(old(posts.records)), 0) && posts.records == old(posts.records)
      ensures online ==> r == (if pageReply.Answered? then Ok(pageReply.value) else Err(RemoteUnavailable))
      ensures online && |old(posts.records)| == 0 && allReply.Answered? ==>
                posts.records == PutEach(old(posts.records), allReply.value, PostKey)
      ensures online && !(|old(posts.records)| == 0 && allReply.Answered?) ==> posts.records == old(posts.records)
    {
      if !online {
        r := GetOfflinePosts(0);
        return;
      }
      var count := posts.Count();
      if count == 0 {
        var _ := FetchAndStoreAllPosts(allReply);
      }
      r := if pageReply.Answered? then Ok(pageReply.value) else Err(RemoteUnavailable);
    }

    /** `loadMorePosts`: advances the page counter, then loads the page it designates. */
    method LoadMorePosts(online: bool, pageReply: Reply<seq<Post>>, allReply: Reply<seq<Post>>)
      returns (r: Result<seq<Post>>)
      requires Valid()
      modifies this`currentPage, posts
      ensures Valid()
      ensures currentPage == old(currentPage) + 1
      ensures !online ==> r == OfflinePage(KeyOrder.Values(old(posts.records)), PageStart(old(currentPage) + 1))
                          && posts.records == old(posts.records)
      ensures online && |old(posts.records)| == 0 && allReply.Unavailable? ==>
                r == Err(RemoteUnavailable) && posts.records == old(posts.records)
      ensures online && |old(posts.records)| == 0 && allReply.Answered? ==>
                posts.records == PutEach(old(posts.records), allReply.value, PostKey)
      ensures online && |old(posts.records)| != 0 ==> posts.records == old(posts.records)
      ensures online && !(|old(posts.records)| == 0 && allReply.Unavailable?) ==>
                r == (if pageReply.Answered? then Ok(pageReply.value) else Err(RemoteUnavailable))
    {
      currentPage := currentPage + 1;
      var start := PageStart(currentPage);
      if !online {
        r := GetOfflinePosts(start);
        return;
      }
      var count := posts.Count();
      if count == 0 {
        var fetched := FetchAndStoreAllPosts(allReply);
        if fetched.Err? {
          return Err(fetched.error);
        }
      }
      r := if pageReply.Answered? then Ok(pageReply.value) else Err(RemoteUnavailable);
    }

    /** `resetPagination`. */
    method ResetPagination()
      modifies this`currentPage
      ensures currentPage == 0
    {
      currentPage := 0;
    }

    /** `hasMorePosts`. */
    method HasMorePosts(online: bool, totalLoaded: int) returns (more: bool)
      ensures more == HasMore(online, totalLoaded, |posts.records|)
    {
      if !online {
        var total := posts.Count();
        return totalLoaded < total;
      }
      more := totalLoaded < TotalPostsAvailable;
    }

    /** The local lookup by id shared by the offline path and the remote-failure path. */
    method LocalPost(postId: int) returns (r: Result<Post>)
      requires Valid()
      ensures postId in posts.records ==> r == Ok(posts.records[postId])
      ensures postId !in posts.records ==> r == Err(PostNotFoundOffline)
    {
      var found := posts.Get(postId);
      r := if found.Some? then Ok(found.value) else Err(PostNotFoundOffline);
    }

    /** `getPostById`: online, the remote post is stored and returned; offline, after
        a remote failure, or when the store refuses the remote post for lack of an id
        (0), the stored post, or PostNotFoundOffline. */
    method GetPostById(online: bool, postId: int, reply: Reply<Post>) returns (r: Result<Post>)
      requires Valid()
      modifies posts
      ensures Valid()
      ensures online && reply.Answered? && reply.value.id != 0 ==>
                r == Ok(reply.value) && posts.records == old(posts.records)[reply.value.id := reply.value]
      ensures !(online && reply.Answered? && reply.value.id != 0) ==> posts.records == old(posts.records)
      ensures !(online && reply.Answered? && reply.value.id != 0) && postId in old(posts.records) ==>
                r == Ok(old(posts.records)[postId])
      ensures !(online && reply.Answered? && reply.value.id != 0) && postId !in old(posts.records) ==>
                r == Err(PostNotFoundOffline)
    {
      if online && reply.Answered? && reply.value.id != 0 {
        posts.Put(reply.value);
        return Ok(reply.value);
      }
      r := LocalPost(postId);
    }

    /** `deletePost`. Online the local post is removed only once the remote delete
        succeeded; offline the post stays, tagged delete-pending. */
    method DeletePost(online: bool, postId: int, remoteOk: bool) returns (res: Outcome)
      requires Valid()
      modifies posts
      ensures Valid()
      ensures online && remoteOk ==> res == Done && posts.records == old(posts.records) - {postId}
      ensures online && !remoteOk ==> res == Fail(RemoteUnavailable) && posts.records == old(posts.records)
      ensures !online && postId !in old(posts.records) ==>
                res == Fail(PostNotFoundInIndexedDb) && posts.records == old(posts.records)
      ensures !online && postId in old(posts.records) ==>
                res == Done &&
                posts.records == old(posts.records)[postId := old(posts.records)[postId].(syncStatus := DeletePending)]
    {
      if online {
        if !remoteOk {
          return Fail(RemoteUnavailable);
        }
        posts.Delete(postId);
        return Done;
      }
      var found := posts.Get(postId);
      if found.None? {
        return Fail(PostNotFoundInIndexedDb);
      }
      posts.Put(found.value.(syncStatus := DeletePending));
      res := Done;
    }

    /** The fallback of `createPost`: add the caller's post tagged pending. The store's
        key path is the id without a key generator, so a post without an id (0) is
        refused, and so is an id that is already stored. */
    method AddPending(post: Post) returns (r: Result<Post>)
      requires Valid()
      modifies posts
      ensures Valid()
      ensures post.id == 0 ==> r == Err(KeyPathMissing) && posts.records == old(posts.records)
      ensures post.id != 0 && post.id !in old(posts.records) ==>
                r == Ok(post.(syncStatus := Pending)) &&
                posts.records == old(posts.records)[post.id := post.(syncStatus := Pending)]
      ensures post.id != 0 && post.id in old(posts.records) ==>
                r == Err(KeyAlreadyExists) && posts.records == old(posts.records)
    {
      if post.id == 0 {
        return Err(KeyPathMissing);
      }
      var tagged := post.(syncStatus := Pending);
      var inserted := posts.Add(tagged);
      r := if inserted then Ok(tagged) else Err(KeyAlreadyExists);
    }

    /** `createPost`: stored synced only when online and the API answered with a
        non-zero id; otherwise (offline, remote failure, id 0) the caller's post is
        added tagged pending, which fails for a post without an id. */
    method CreatePost(online: bool, post: Post, reply: Reply<Post>) returns (r: Result<Post>)
      requires Valid()
      modifies posts
      ensures Valid()
      ensures online && reply.Answered? && reply.value.id != 0 ==>
                r == Ok(reply.value.(syncStatus := Synced)) &&
                posts.records == old(posts.records)[reply.value.id := reply.value.(syncStatus := Synced)]
      ensures !(online && reply.Answered? && reply.value.id != 0) && post.id == 0 ==>
                r == Err(KeyPathMissing) && posts.records == old(posts.records)
      ensures !(online && reply.Answered? && reply.value.id != 0) && post.id != 0 && post.id !in old(posts.records) ==>
                r == Ok(post.(syncStatus := Pending)) &&
                posts.records == old(posts.records)[post.id := post.(syncStatus := Pending)]
      ensures !(online && reply.Answered? && reply.value.id != 0) && post.id != 0 && post.id in old(posts.records) ==>
                r == Err(KeyAlreadyExists) && posts.records == old(posts.records)
    {
      if online && reply.Answered? {
        var saved := reply.value.(syncStatus := Synced);
        if saved.id != 0 {
          posts.Put(saved);
          return Ok(saved);
        }
      }
      r := AddPending(post);
    }

    /** `updatePost`: online success stores the API's copy synced; a remote failure
        stores the caller's post tagged failed (it exists remotely but was rejected);
        offline stores it tagged pending. A write of a post without an id (0) is
        refused by the store; when that happens to the API's copy it counts as a
        remote failure. */
    method UpdatePost(online: bool, post: Post, reply: Reply<Post>) returns (r: Result<Post>)
      requires Valid()
      modifies posts
      ensures Valid()
      ensures r.Ok? ==> r.value.id != 0 && posts.records == old(posts.records)[r.value.id := r.value]
      ensures r.Err? ==> r == Err(KeyPathMissing) && posts.records == old(posts.records)
      ensures online && reply.Answered? && reply.value.id != 0 ==> r == Ok(reply.value.(syncStatus := Synced))
      ensures online && !(reply.Answered? && reply.value.id != 0) ==>
                r == if post.id != 0 then Ok(post.(syncStatus := Failed)) else Err(KeyPathMissing)
      ensures !online ==> r == if post.id != 0 then Ok(post.(syncStatus := Pending)) else Err(KeyPathMissing)
    {
      var stored: Post;
      if online && reply.Answered? && reply.value.id != 0 {
        stored := reply.value.(syncStatus := Synced);
      } else if online {
        stored := post.(syncStatus := Failed);
      } else {
        stored := post.(syncStatus := Pending);
      }
      if stored.id == 0 {
        return Err(KeyPathMissing);
      }
      posts.Put(stored);
      r := Ok(stored);
    }

    /** The first loop of `syncPendingPosts`: each listed pending post becomes synced
        or failed. */
    method ResendPending(pending: seq<Post>, accepted: set<int>)
      requires Valid()
      requires forall p | p in pending :: p.id in posts.records && posts.records[p.id] == p && IsPending(p)
      modifies posts
      ensures Valid()
      ensures posts.records == PendingSettled(old(posts.records), KeysOf(pending, PostKey), accepted)
    {
      ghost var m0 := posts.records;
      for i := 0 to |pending|
        invariant Valid()
        invariant posts.records == PendingSettled(m0, KeysOf(pending[..i], PostKey), accepted)
      {
        var p := pending[i];
        KeysOfPrefix(pending, PostKey, i);
        PendingSettledStep(m0, KeysOf(pending[..i], PostKey), accepted, p.id);
        if p.id in accepted {
          posts.Put(p.(syncStatus := Synced));
        } else {
          posts.Put(p.(syncStatus := Failed));
        }
      }
      assert pending[..|pending|] == pending;
    }

    /** The second loop of `syncPendingPosts`: each listed delete-pending post is
        removed or becomes delete-failed. */
    method ResendDeletes(toDelete: seq<Post>, accepted: set<int>)
      requires Valid()
      requires forall p | p in toDelete :: p.id in posts.records && posts.records[p.id] == p && IsDeletePending(p)
      modifies posts
      ensures Valid()
      ensures posts.records == DeletesSettled(old(posts.records), KeysOf(toDelete, PostKey), accepted)
    {
      ghost var m0 := posts.records;
      for i := 0 to |toDelete|
        invariant Valid()
        invariant posts.records == DeletesSettled(m0, KeysOf(toDelete[..i], PostKey), accepted)
      {
        var p := toDelete[i];
        KeysOfPrefix(toDelete, PostKey, i);
        DeletesSettledStep(m0, KeysOf(toDelete[..i], PostKey), accepted, p.id);
        if p.id in accepted {
          posts.Delete(p.id);
        } else {
          posts.Put(p.(syncStatus := DeleteFailed));
        }
      }
      assert toDelete[..|toDelete|] == toDelete;
    }

    /** `syncPendingPosts` as written: the remote calls go out for every stored
        pending and delete-pending post, but the store writes in their callbacks are
        never subscribed, so nothing is written and every post keeps its tag. The
        method changes no state; it returns the posts it sends. */
    method SyncPendingPostsAsWritten() returns (sent: seq<Post>, deleted: seq<Post>)
      requires Valid()
      ensures forall p | p in sent :: p.id in posts.records && posts.records[p.id] == p
      ensures forall p | p in deleted :: p.id in posts.records && posts.records[p.id] == p
      ensures KeysOf(sent, PostKey) == set k | k in posts.records && IsPending(posts.records[k])
      ensures KeysOf(deleted, PostKey) == set k | k in posts.records && IsDeletePending(posts.records[k])
    {
      var all := posts.GetAll();
      sent := Filter(all, IsPending);
      deleted := Filter(all, IsDeletePending);
      ListedForPass(posts.records, all, sent, deleted);
    }

    /** `syncPendingPosts` as meant: re-sends every pending post and every
        delete-pending one, and stores the outcome; the remote calls for the ids in
        `accepted` succeed, the others fail. */
    method SyncPendingPosts(accepted: set<int>)
      requires Valid()
      modifies posts
      ensures Valid()
      ensures posts.records == Reconciled(old(posts.records), accepted)
    {
      ghost var m0 := posts.records;
      var all := posts.GetAll();
      var pending := Filter(all, IsPending);
      var toDelete := Filter(all, IsDeletePending);
      ListedForPass(m0, all, pending, toDelete);
      ResendPending(pending, accepted);
      UntouchedDeletes(m0, pending, toDelete, accepted);
      ResendDeletes(toDelete, accepted);
      TwoLoopsReconcile(m0, KeysOf(pending, PostKey), KeysOf(toDelete, PostKey), accepted);
    }
  }

  /** The finding behind `SyncPendingPostsAsWritten`: a store holding one pending post
      still holds it pending after the pass as written, so every later pass sends it
      again; the pass as meant settles it and leaves nothing to send. */
  lemma UnwrittenPassResends()
    ensures var p := Post(1, 1, "title", "body", None, Pending);
            var m := map[1 := p];
            (set k | k in m && IsPending(m[k])) == {1} &&
            var r := Reconciled(m, {1});
            (set k | k in r && IsPending(r[k])) == {} && r[1] == p.(syncStatus := Synced)
  {
    var p := Post(1, 1, "title", "body", None, Pending);
    var m := map[1 := p];
    assert IsPending(m[1]);
    var r := Reconciled(m, {1});
    assert r[1] == p.(syncStatus := Synced);
  }

  /** The lists a reconciliation pass walks are the stored pending and delete-pending
      posts, each as stored under its id. */
  lemma ListedForPass(m0: map<int, Post>, all: seq<Post>, pending: seq<Post>, toDelete: seq<Post>)
    requires forall k | k in m0 :: m0[k].id == k
    requires all == KeyOrder.Values(m0)
    requires pending == Filter(all, IsPending) && toDelete == Filter(all, IsDeletePending)
    ensures forall p | p in pending :: p.id in m0 && m0[p.id] == p && IsPending(p)
    ensures forall p | p in toDelete :: p.id in m0 && m0[p.id] == p && IsDeletePending(p)
    ensures KeysOf(pending, PostKey) == set k | k in m0 && IsPending(m0[k])
    ensures KeysOf(toDelete, PostKey) == set k | k in m0 && IsDeletePending(m0[k])
  {
    ListedKeys(m0, IsPending, PostKey);
    ListedKeys(m0, IsDeletePending, PostKey);
  }

  /** The first loop leaves the delete-pending posts as they were stored. */
  lemma UntouchedDeletes(m0: map<int, Post>, pending: seq<Post>, toDelete: seq<Post>, accepted: set<int>)
    requires forall p | p in pending :: p.id in m0 && m0[p.id] == p && IsPending(p)
    requires forall p | p in toDelete :: p.id in m0 && m0[p.id] == p && IsDeletePending(p)
    ensures var m1 := PendingSettled(m0, KeysOf(pending, PostKey), accepted);
            forall p | p in toDelete :: p.id in m1 && m1[p.id] == p && IsDeletePending(p)
  {
    var m1 := PendingSettled(m0, KeysOf(pending, PostKey), accepted);
    forall p | p in toDelete ensures p.id in m1 && m1[p.id] == p {
      forall q | q in pending ensures PostKey(q) != p.id {
        assert IsPending(m0[q.id]);
      }
    }
  }

  /** The two loops of a reconciliation pass, over the stored pending and the stored
      delete-pending posts, together produce `Reconciled`. */
  lemma TwoLoopsReconcile(m0: map<int, Post>, sent: set<int>, deleted: set<int>, accepted: set<int>)
    requires sent == set k | k in m0 && IsPending(m0[k])
    requires deleted == set k | k in m0 && IsDeletePending(m0[k])
    ensures DeletesSettled(PendingSettled(m0, sent, accepted), deleted, accepted) == Reconciled(m0, accepted)
  {
    var m2 := DeletesSettled(PendingSettled(m0, sent, accepted), deleted, accepted);
    var r := Reconciled(m0, accepted);
    assert m2.Keys == r.Keys;
    forall k | k in m2 ensures m2[k] == r[k] {
      assert k in m0;
    }
  }
}
