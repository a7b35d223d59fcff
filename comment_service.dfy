/** The comment service: comments are read from and written to the `comments` store,
    refreshed from the remote API when online, and tagged pending when the remote
    API cannot take them. `online` is the connectivity flag at the time of the call;
    each `Reply` is what the remote call delivered. */
module Comments {
  import opened Common
  import opened Records
  import opened ObjectStores
  import KeyOrder

  /** The stored comments of post `postId`, in key order: every one of them, each as
      stored under its id. */
  function CommentsOf(m: map<int, Comment>, postId: int): (r: seq<Comment>)
    requires forall k | k in m :: m[k].id == k
    ensures forall c | c in r :: c.id in m && m[c.id] == c && c.postId == postId
    ensures forall k | k in m && m[k].postId == postId :: m[k] in r
  {
    var keep := (c: Comment) => c.postId == postId;
    ListedKeys(m, keep, CommentKey);
    var r := Filter(KeyOrder.Values(m), keep);
    assert forall k | k in m && m[k].postId == postId :: m[k] in r by {
      forall k | k in m && m[k].postId == postId ensures m[k] in r {
        assert k in KeysOf(r, CommentKey);
        var i :| 0 <= i < |r| && CommentKey(r[i]) == k;
        assert r[i] in r;
      }
    }
    r
  }

  /** The comments store after the lookup by post: online, the fetched list is
      bulk-put; otherwise the store is unchanged. */
  function Refreshed(m: map<int, Comment>, online: bool, reply: Reply<seq<Comment>>): map<int, Comment>
  {
    if online && reply.Answered? then PutEach(m, reply.value, CommentKey) else m
  }

  /** `getCommentsByPostId` as the code builds it: a failed remote call is the error
      of the whole lookup; the store is not consulted. */
  function ByPostIdAsWritten(m: map<int, Comment>, online: bool, postId: int, reply: Reply<seq<Comment>>)
    : (r: Result<seq<Comment>>)
    requires forall k | k in m :: m[k].id == k
    ensures r.Err? <==> online && reply.Unavailable?
  {
    PutEachKeyed(m, if reply.Answered? then reply.value else [], CommentKey);
    if online && reply.Unavailable? then Err(RemoteUnavailable)
    else Ok(CommentsOf(Refreshed(m, online, reply), postId))
  }

  /** `getCommentsByPostId` as its own comment intends it: a failed remote call falls
      back to the stored comments, so the lookup always yields the comments of the
      post found in the store after the refresh. */
  function ByPostId(m: map<int, Comment>, online: bool, postId: int, reply: Reply<seq<Comment>>)
    : (r: seq<Comment>)
    requires forall k | k in m :: m[k].id == k
    ensures forall c | c in r :: c.postId == postId
    ensures !(online && reply.Answered?) ==> forall k | k in m && m[k].postId == postId :: m[k] in r
  {
    PutEachKeyed(m, if reply.Answered? then reply.value else [], CommentKey);
    CommentsOf(Refreshed(m, online, reply), postId)
  }

  /** Online, the lookup lists every fetched comment of the post (the last one sent
      with each id) and every stored comment of the post the fetched list does not
      replace. */
  lemma FetchedAreListed(m: map<int, Comment>, fetched: seq<Comment>, postId: int)
    requires forall k | k in m :: m[k].id == k
    ensures forall k | k in PutEach(m, fetched, CommentKey) :: PutEach(m, fetched, CommentKey)[k].id == k
    ensures forall i | 0 <= i < |fetched| && fetched[i].postId == postId &&
                       (forall j | i < j < |fetched| :: fetched[j].id != fetched[i].id) ::
              fetched[i] in ByPostId(m, true, postId, Answered(fetched))
    ensures forall k | k in m && k !in KeysOf(fetched, CommentKey) && m[k].postId == postId ::
              m[k] in ByPostId(m, true, postId, Answered(fetched))
  {
    PutEachKeyed(m, fetched, CommentKey);
    PutEachLast(m, fetched, CommentKey);
    var after := PutEach(m, fetched, CommentKey);
    forall i | 0 <= i < |fetched| && fetched[i].postId == postId &&
               (forall j | i < j < |fetched| :: fetched[j].id != fetched[i].id)
      ensures fetched[i] in ByPostId(m, true, postId, Answered(fetched))
    {
      assert CommentKey(fetched[i]) in after;
      assert after[fetched[i].id] == fetched[i];
    }
  }

  /** The finding: with a comment of post 1 stored, an online lookup whose remote call
      fails reports an error, while the intended fallback lists the stored comment. */
  lemma RemoteFailureHidesStoredComments()
    ensures var c := Comment(1, 1, "n", "e", "b", Synced);
            var m := map[1 := c];
            ByPostIdAsWritten(m, true, 1, Unavailable) == Err(RemoteUnavailable) &&
            c in ByPostId(m, true, 1, Unavailable)
  {
    var c := Comment(1, 1, "n", "e", "b", Synced);
    var m := map[1 := c];
    assert m[1].postId == 1;
  }

  predicate IsPending(c: Comment) { c.syncStatus == Pending }

  /** The store after `syncPendingComments` when the remote calls for the ids in
      `accepted` succeed: each pending comment becomes synced or failed; nothing else
      changes. */
  function Resent(m: map<int, Comment>, accepted: set<int>): (r: map<int, Comment>)
    ensures r.Keys == m.Keys
    ensures forall k | k in m && !IsPending(m[k]) :: r[k] == m[k]
    ensures forall k | k in m && IsPending(m[k]) ::
              r[k] == m[k].(syncStatus := if k in accepted then Synced else Failed)
    ensures forall k | k in r :: !IsPending(r[k])
  {
    map k | k in m :: if IsPending(m[k]) then m[k].(syncStatus := if k in accepted then Synced else Failed) else m[k]
  }

  /** A second pass finds nothing pending and changes nothing. */
  lemma ResentIdempotent(m: map<int, Comment>, first: set<int>, second: set<int>)
    ensures Resent(Resent(m, first), second) == Resent(m, first)
  {
    var once := Resent(m, first);
    forall k | k in once ensures Resent(once, second)[k] == once[k] {
      assert !IsPending(once[k]);
    }
  }

  /** Whether `addComment` keeps the API's copy: online, answered, and the copy has an
      id the store does not hold yet. */
  predicate SavedAdded(online: bool, reply: Reply<Comment>, m: map<int, Comment>)
  {
    online && reply.Answered? && reply.value.id != 0 && reply.value.id !in m
  }

  class CommentService {
    /** The `comments` store of the browser database the entity services use. */
    const comments: ObjectStore<Comment>

    ghost predicate Valid()
      reads this, comments
    {
      comments.Valid() && comments.keyOf == CommentKey
    }

    constructor (comments: ObjectStore<Comment>)
      requires comments.Valid() && comments.keyOf == CommentKey
      ensures Valid() && this.comments == comments
    {
      this.comments := comments;
    }

    /** `fetchAndStoreAllComments`: bulk-puts the fetched list and returns it unchanged. */
    method FetchAndStoreAllComments(reply: Reply<seq<Comment>>) returns (r: Result<seq<Comment>>)
      requires Valid()
      modifies comments
      ensures Valid()
      ensures reply.Answered? ==>
                r == Ok(reply.value) && comments.records == PutEach(old(comments.records), reply.value, CommentKey)
      ensures reply.Unavailable? ==> r == Err(RemoteUnavailable) && comments.records == old(comments.records)
    {
      if reply.Unavailable? {
        return Err(RemoteUnavailable);
      }
      comments.PutAll(reply.value);
      r := Ok(reply.value);
    }

    /** `getOfflineCommentsByPostId`: the stored comments of the post. */
    method GetOfflineCommentsByPostId(postId: int) returns (r: seq<Comment>)
      requires Valid()
      ensures r == CommentsOf(comments.records, postId)
    {
      var all := comments.GetAll();
      r := Filter(all, (c: Comment) => c.postId == postId);
    }

    /** `getCommentsByPostId` as written: offline the stored comments; online the fetched
        list is bulk-put and the store is read again, and a remote failure is an error. */
    method GetCommentsByPostIdAsWritten(online: bool, postId: int, reply: Reply<seq<Comment>>)
      returns (r: Result<seq<Comment>>)
      requires Valid()
      modifies comments
      ensures Valid()
      ensures comments.records == Refreshed(old(comments.records), online, reply)
      ensures r == ByPostIdAsWritten(old(comments.records), online, postId, reply)
    {
      if online {
        var fetched := FetchAndStoreAllComments(reply);
        if fetched.Err? {
          return Err(fetched.error);
        }
      }
      var listed := GetOfflineCommentsByPostId(postId);
      r := Ok(listed);
    }

    /** `getCommentsByPostId` with the fallback its comment announces: a remote failure
        reads the store instead. */
    method GetCommentsByPostId(online: bool, postId: int, reply: Reply<seq<Comment>>)
      returns (r: seq<Comment>)
      requires Valid()
      modifies comments
      ensures Valid()
      ensures comments.records == Refreshed(old(comments.records), online, reply)
      ensures r == ByPostId(old(comments.records), online, postId, reply)
    {
      if online {
        var _ := FetchAndStoreAllComments(reply);
      }
      r := GetOfflineCommentsByPostId(postId);
    }

    /** The fallback of `addComment`: add the caller's comment tagged pending. The
        store's key path is the id without a key generator, so a comment without an id
        (0) is refused, and so is an id that is already stored. */
    method AddPending(comment: Comment) returns (r: Result<Comment>)
      requires Valid()
      modifies comments
      ensures Valid()
      ensures comment.id == 0 ==> r == Err(KeyPathMissing) && comments.records == old(comments.records)
      ensures comment.id != 0 && comment.id !in old(comments.records) ==>
                r == Ok(comment.(syncStatus := Pending)) &&
                comments.records == old(comments.records)[comment.id := comment.(syncStatus := Pending)]
      ensures comment.id != 0 && comment.id in old(comments.records) ==>
                r == Err(KeyAlreadyExists) && comments.records == old(comments.records)
    {
      if comment.id == 0 {
        return Err(KeyPathMissing);
      }
      var tagged := comment.(syncStatus := Pending);
      var inserted := comments.Add(tagged);
      r := if inserted then Ok(tagged) else Err(KeyAlreadyExists);
    }

    /** `addComment`: online, the API's copy is added synced; when the remote call or
        that add fails (an id already stored, or no id), and offline, the caller's
        comment is added tagged pending. */
    method AddComment(online: bool, comment: Comment, reply: Reply<Comment>) returns (r: Result<Comment>)
      requires Valid()
      modifies comments
      ensures Valid()
      ensures SavedAdded(online, reply, old(comments.records)) ==>
                r == Ok(reply.value.(syncStatus := Synced)) &&
                comments.records == old(comments.records)[reply.value.id := reply.value.(syncStatus := Synced)]
      ensures !SavedAdded(online, reply, old(comments.records)) && comment.id == 0 ==>
                r == Err(KeyPathMissing) && comments.records == old(comments.records)
      ensures !SavedAdded(online, reply, old(comments.records)) && comment.id != 0 && comment.id !in old(comments.records) ==>
                r == Ok(comment.(syncStatus := Pending)) &&
                comments.records == old(comments.records)[comment.id := comment.(syncStatus := Pending)]
      ensures !SavedAdded(online, reply, old(comments.records)) && comment.id != 0 && comment.id in old(comments.records) ==>
                r == Err(KeyAlreadyExists) && comments.records == old(comments.records)
    {
      if online && reply.Answered? && reply.value.id != 0 {
        var saved := reply.value.(syncStatus := Synced);
        var inserted := comments.Add(saved);
        if inserted {
          return Ok(saved);
        }
      }
      r := AddPending(comment);
    }

    /** The loop of `syncPendingComments`: each listed pending comment becomes synced
        or failed. */
    method ResendPending(pending: seq<Comment>, accepted: set<int>)
      requires Valid()
      requires forall c | c in pending :: c.id in comments.records && comments.records[c.id] == c && IsPending(c)
      modifies comments
      ensures Valid()
      ensures comments.records.Keys == old(comments.records).Keys
      ensures forall k | k in old(comments.records) ::
                comments.records[k] == if k in KeysOf(pending, CommentKey)
                                       then old(comments.records)[k].(syncStatus := if k in accepted then Synced else Failed)
                                       else old(comments.records)[k]
    {
      ghost var m0 := comments.records;
      for i := 0 to |pending|
        invariant Valid()
        invariant comments.records.Keys == m0.Keys
        invariant forall k | k in m0 ::
                    comments.records[k] == if k in KeysOf(pending[..i], CommentKey)
                                           then m0[k].(syncStatus := if k in accepted then Synced else Failed)
                                           else m0[k]
      {
        var c := pending[i];
        KeysOfPrefix(pending, CommentKey, i);
        if c.id in accepted {
          comments.Put(c.(syncStatus := Synced));
        } else {
          comments.Put(c.(syncStatus := Failed));
        }
      }
      assert pending[..|pending|] == pending;
    }

    /** `syncPendingComments` as written: the remote call goes out for every stored
        pending comment, but the store write in its callback is never subscribed, so
        nothing is written and every comment stays pending. The method changes no
        state; it returns the comments it sends. */
    method SyncPendingCommentsAsWritten() returns (sent: seq<Comment>)
      requires Valid()
      ensures forall c | c in sent :: c.id in comments.records && comments.records[c.id] == c
      ensures KeysOf(sent, CommentKey) == set k | k in comments.records && IsPending(comments.records[k])
    {
      var all := comments.GetAll();
      sent := Filter(all, IsPending);
      ListedPending(comments.records, all, sent);
    }

    /** `syncPendingComments` as meant: re-sends every pending comment and stores the
        outcome; the remote calls for the ids in `accepted` succeed, the others fail. */
    method SyncPendingComments(accepted: set<int>)
      requires Valid()
      modifies comments
      ensures Valid()
      ensures comments.records == Resent(old(comments.records), accepted)
    {
      ghost var m0 := comments.records;
      var all := comments.GetAll();
      var pending := Filter(all, IsPending);
      ListedPending(m0, all, pending);
      ResendPending(pending, accepted);
      LoopIsResent(m0, comments.records, KeysOf(pending, CommentKey), accepted);
    }
  }

  /** The finding behind `SyncPendingCommentsAsWritten`: a store holding one pending
      comment still holds it pending after the pass as written, so every later pass
      posts it again; the pass as meant settles it and leaves nothing to send. */
  lemma UnwrittenPassResends()
    ensures var c := Comment(1, 1, "n", "e", "b", Pending);
            var m := map[1 := c];
            (set k | k in m && IsPending(m[k])) == {1} &&
            var r := Resent(m, {1});
            (set k | k in r && IsPending(r[k])) == {} && r[1] == c.(syncStatus := Synced)
  {
    var c := Comment(1, 1, "n", "e", "b", Pending);
    var m := map[1 := c];
    assert IsPending(m[1]);
  }

  /** The list the pass walks is the stored pending comments, each as stored under its id. */
  lemma ListedPending(m0: map<int, Comment>, all: seq<Comment>, pending: seq<Comment>)
    requires forall k | k in m0 :: m0[k].id == k
    requires all == KeyOrder.Values(m0) && pending == Filter(all, IsPending)
    ensures forall c | c in pending :: c.id in m0 && m0[c.id] == c && IsPending(c)
    ensures KeysOf(pending, CommentKey) == set k | k in m0 && IsPending(m0[k])
  {
    ListedKeys(m0, IsPending, CommentKey);
  }

  /** Re-sending exactly the stored pending comments produces `Resent`. */
  lemma LoopIsResent(m0: map<int, Comment>, m1: map<int, Comment>, sent: set<int>, accepted: set<int>)
    requires sent == set k | k in m0 && IsPending(m0[k])
    requires m1.Keys == m0.Keys
    requires forall k | k in m0 ::
               m1[k] == if k in sent then m0[k].(syncStatus := if k in accepted then Synced else Failed) else m0[k]
    ensures m1 == Resent(m0, accepted)
  {
    var r := Resent(m0, accepted);
    forall k | k in m1 ensures m1[k] == r[k] {
      assert k in sent <==> IsPending(m0[k]);
    }
  }
}
