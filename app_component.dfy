/** The root component: it follows the connectivity status, tells the user when the
    application goes offline or comes back, and on coming back re-sends the pending
    posts and comments. */
module App {
  import opened Common
  import opened Records
  import opened ObjectStores
  import Posts
  import Comments

  /** What the component does on one status emission. */
  datatype Reaction = Silent | BackOnline | WentOffline

  /** The reaction to `status` given whether a status was seen before: the first
      emission only records the status. */
  function React(initialStatusSet: bool, status: bool): Reaction
  {
    if !initialStatusSet then Silent else if status then BackOnline else WentOffline
  }

  /** The reactions to a run of emissions, starting with the flag `seen`: over a run
      from the start, the first is silent and every later one is announced; a `true`
      brings the user back online (and triggers the re-send), a `false` announces
      offline mode. */
  function Reactions(seen: bool, statuses: seq<bool>): (r: seq<Reaction>)
    ensures |r| == |statuses|
    ensures forall i | 0 <= i < |statuses| ::
              r[i] == if i == 0 && !seen then Silent else if statuses[i] then BackOnline else WentOffline
    decreases |statuses|
  {
    if statuses == [] then []
    else
      var rest := Reactions(true, statuses[1..]);
      assert forall i | 1 <= i < |statuses| :: statuses[1..][i - 1] == statuses[i];
      [React(seen, statuses[0])] + rest
  }

  /** The finding behind `SyncDataAsWritten`: a pending post whose re-send would
      succeed stays pending when the posts are not re-sent. */
  lemma PendingPostStaysPending()
    ensures var p := Post(1, 1, "title", "body", None, Pending);
            var m := map[1 := p];
            Posts.Reconciled(m, {1}) == map[1 := p.(syncStatus := Synced)] && Posts.Reconciled(m, {1}) != m
  {
    var p := Post(1, 1, "title", "body", None, Pending);
    var m := map[1 := p];
    assert Posts.Reconciled(m, {1})[1] == p.(syncStatus := Synced);
  }

  class AppComponent {
    var isOnline: bool
    var initialStatusSet: bool
    const postService: Posts.PostService
    const commentService: Comments.CommentService

    ghost predicate Valid()
      reads this, postService, postService.posts, commentService, commentService.comments
    {
      postService.Valid() && commentService.Valid()
    }

    /** The component starts from the connectivity flag read at construction. */
    constructor (online: bool, postService: Posts.PostService, commentService: Comments.CommentService)
      ensures isOnline == online && !initialStatusSet
      ensures this.postService == postService && this.commentService == commentService
    {
      isOnline := online;
      initialStatusSet := false;
      this.postService := postService;
      this.commentService := commentService;
    }

    /** `syncData` as written: the re-send of the posts is built but never subscribed,
        so only the pending comments are sent; and as the comment pass itself never
        writes its outcome, no store changes. Returns the comments sent. */
    method SyncDataAsWritten() returns (sent: seq<Comment>)
      requires Valid()
      ensures forall c | c in sent ::
                c.id in commentService.comments.records && commentService.comments.records[c.id] == c
      ensures KeysOf(sent, CommentKey) ==
                set k | k in commentService.comments.records && Comments.IsPending(commentService.comments.records[k])
    {
      sent := commentService.SyncPendingCommentsAsWritten();
    }

    /** `syncData` as meant: the pending posts and the pending comments are re-sent
        and the outcome of every call is stored. */
    method SyncData(acceptedPosts: set<int>, acceptedComments: set<int>)
      requires Valid()
      modifies postService.posts, commentService.comments
      ensures Valid()
      ensures postService.posts.records == Posts.Reconciled(old(postService.posts.records), acceptedPosts)
      ensures commentService.comments.records == Comments.Resent(old(commentService.comments.records), acceptedComments)
    {
      postService.SyncPendingPosts(acceptedPosts);
      commentService.SyncPendingComments(acceptedComments);
    }

    /** The status subscription as written: records the status, and from the second
        emission on announces it; coming back online runs `syncData` as written, which
        sends the pending comments and changes no store. */
    method OnStatusAsWritten(status: bool) returns (reaction: Reaction, sent: seq<Comment>)
      requires Valid()
      modifies this`isOnline, this`initialStatusSet
      ensures Valid()
      ensures isOnline == status && initialStatusSet
      ensures reaction == React(old(initialStatusSet), status)
      ensures reaction == BackOnline ==>
                KeysOf(sent, CommentKey) ==
                  set k | k in commentService.comments.records && Comments.IsPending(commentService.comments.records[k])
      ensures reaction != BackOnline ==> sent == []
    {
      isOnline := status;
      reaction := React(initialStatusSet, status);
      sent := [];
      if initialStatusSet {
        if status {
          sent := SyncDataAsWritten();
        }
      } else {
        initialStatusSet := true;
      }
    }

    /** The status subscription with `syncData` as meant (the corrected behaviour, not
        the code as written): records the status, and from the second emission on
        announces it; coming back online re-sends what is pending and stores the
        outcome. */
    method OnStatus(status: bool, acceptedPosts: set<int>, acceptedComments: set<int>) returns (reaction: Reaction)
      requires Valid()
      modifies this`isOnline, this`initialStatusSet, postService.posts, commentService.comments
      ensures Valid()
      ensures isOnline == status && initialStatusSet
      ensures reaction == React(old(initialStatusSet), status)
      ensures reaction == BackOnline ==>
                postService.posts.records == Posts.Reconciled(old(postService.posts.records), acceptedPosts) &&
                commentService.comments.records ==
                  Comments.Resent(old(commentService.comments.records), acceptedComments)
      ensures reaction != BackOnline ==>
                postService.posts.records == old(postService.posts.records) &&
                commentService.comments.records == old(commentService.comments.records)
    {
      isOnline := status;
      reaction := React(initialStatusSet, status);
      if initialStatusSet {
        if status {
          SyncData(acceptedPosts, acceptedComments);
        }
      } else {
        initialStatusSet := true;
      }
    }
  }
}
