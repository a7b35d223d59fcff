/** The post list screen: the posts shown, the loading flags, the confirmed delete
    that removes a post from both lists, and the preview text of a post body. */
module PostList {
  import opened Common
  import opened Records
  import Posts
  import KeyOrder
  import opened ObjectStores

  /** At most this many words of a body are shown. */
  const PreviewWords: nat := 15

  /** The index of the first space of `s`. */
  function FirstSpace(s: string): (i: nat)
    requires ' ' in s
    ensures i < |s| && s[i] == ' ' && ' ' !in s[..i]
  {
    if s[0] == ' ' then 0
    else
      assert ' ' in s[1..] by {
        var j :| 0 <= j < |s| && s[j] == ' ';
        assert s[1..][j - 1] == ' ';
      }
      var i := 1 + FirstSpace(s[1..]);
      assert s[..i] == [s[0]] + s[1..][..i - 1];
      i
  }

  /** `split(' ')`: the pieces between single spaces; there is always at least one. */
  function Split(s: string): (r: seq<string>)
    ensures |r| >= 1
    ensures forall w | w in r :: ' ' !in w
    decreases |s|
  {
    if ' ' !in s then [s]
    else
      var i := FirstSpace(s);
      [s[..i]] + Split(s[i + 1..])
  }

  /** `join(' ')`. */
  function Join(ws: seq<string>): string
  {
    if ws == [] then ""
    else if |ws| == 1 then ws[0]
    else ws[0] + " " + Join(ws[1..])
  }

  /** The number of spaces in `s`. */
  function Spaces(s: string): nat
  {
    if s == [] then 0 else (if s[0] == ' ' then 1 else 0) + Spaces(s[1..])
  }

  lemma {:induction false} SpacesAppend(a: string, b: string)
    ensures Spaces(a + b) == Spaces(a) + Spaces(b)
  {
    if a != [] {
      assert (a + b)[1..] == a[1..] + b;
      SpacesAppend(a[1..], b);
    } else {
      assert a + b == b;
    }
  }

  lemma {:induction false} NoSpaces(s: string)
    requires ' ' !in s
    ensures Spaces(s) == 0
  {
    if s != [] {
      assert ' ' !in s[1..];
      NoSpaces(s[1..]);
    }
  }

  /** The pieces of a text with a space: the part before its first space, then the
      pieces of the rest. */
  lemma SplitAtFirstSpace(s: string)
    requires ' ' in s
    ensures var i := FirstSpace(s);
            Split(s) == [s[..i]] + Split(s[i + 1..]) && s == s[..i] + " " + s[i + 1..]
  {
    var i := FirstSpace(s);
    assert s == s[..i] + " " + s[i + 1..];
  }

  /** Splitting and joining again gives back the text. */
  lemma {:induction false} SplitJoin(s: string)
    ensures Join(Split(s)) == s
    decreases |s|
  {
    if ' ' in s {
      var i := FirstSpace(s);
      var rest := s[i + 1..];
      SplitAtFirstSpace(s);
      SplitJoin(rest);
      var ws := Split(s);
      assert ws[1..] == Split(rest);
      assert Join(ws) == s[..i] + " " + Join(Split(rest));
    }
  }

  /** A text with `n` spaces has `n + 1` pieces. */
  lemma {:induction false} SplitCount(s: string)
    ensures |Split(s)| == Spaces(s) + 1
    decreases |s|
  {
    if ' ' !in s {
      NoSpaces(s);
    } else {
      var i := FirstSpace(s);
      var rest := s[i + 1..];
      SplitAtFirstSpace(s);
      SplitCount(rest);
      SpacesAppend(s[..i] + " ", rest);
      SpacesAppend(s[..i], " ");
      NoSpaces(s[..i]);
      assert Spaces(" ") == 1;
    }
  }

  /** Joining the first `n` pieces gives a prefix of the text with `n - 1` spaces. */
  lemma {:induction false} JoinPrefix(s: string, n: nat)
    requires 1 <= n <= |Split(s)|
    ensures Join(Split(s)[..n]) <= s
    ensures Spaces(Join(Split(s)[..n])) == n - 1
    decreases |s|
  {
    var ws := Split(s);
    if n == 1 {
      assert ws[..1] == [ws[0]];
      assert ws[0] in ws;
      NoSpaces(ws[0]);
      if ' ' in s {
        SplitAtFirstSpace(s);
      }
    } else {
      var i := FirstSpace(s);
      var rest := s[i + 1..];
      JoinPrefix(rest, n - 1);
      JoinPrefixStep(s, n);
      SplitAtFirstSpace(s);
      var tail := Join(Split(rest)[..n - 1]);
      SpacedPiece(s[..i], tail, rest);
    }
  }

  /** A piece without spaces, a space and a text: one more space than the text, and a
      prefix of the same piece and space before any text the first one is a prefix of. */
  lemma SpacedPiece(head: string, tail: string, rest: string)
    requires ' ' !in head && tail <= rest
    ensures Spaces(head + " " + tail) == Spaces(tail) + 1
    ensures head + " " + tail <= head + " " + rest
  {
    SpacesAppend(head + " ", tail);
    SpacesAppend(head, " ");
    NoSpaces(head);
    assert Spaces(" ") == 1;
  }

  /** One step of `JoinPrefix`: the first `n` pieces are the part before the first
      space, a space, and the first `n - 1` pieces of the rest. */
  lemma JoinPrefixStep(s: string, n: nat)
    requires ' ' in s && 2 <= n <= |Split(s)|
    ensures var i := FirstSpace(s);
            Join(Split(s)[..n]) == s[..i] + " " + Join(Split(s[i + 1..])[..n - 1])
  {
    var i := FirstSpace(s);
    SplitAtFirstSpace(s);
    JoinConsPrefix(s[..i], Split(s[i + 1..]), n);
  }

  /** The first `n` of a piece followed by more pieces, joined: the piece, a space,
      and the first `n - 1` of the rest. */
  lemma JoinConsPrefix(head: string, rest: seq<string>, n: nat)
    requires 2 <= n <= |rest| + 1
    ensures Join(([head] + rest)[..n]) == head + " " + Join(rest[..n - 1])
  {
    var pre := ([head] + rest)[..n];
    assert pre[0] == head;
    assert pre[1..] == rest[..n - 1];
  }

  /** `truncateText`: an empty text gives the empty text; a text of more than fifteen
      space-separated words gives its first fifteen and an ellipsis; otherwise the
      text itself. */
  function TruncateText(text: string): (r: string)
    ensures r == text || (|r| >= 3 && r[|r| - 3..] == "..." && r[..|r| - 3] <= text)
  {
    if text == "" then ""
    else
      var words := Split(text);
      if |words| > PreviewWords then
        JoinPrefix(text, PreviewWords);
        var shown := Join(words[..PreviewWords]);
        assert (shown + "...")[..|shown|] == shown;
        shown + "..."
      else text
  }

  /** A text with at most fourteen spaces is shown whole; a longer one is cut to the
      prefix before its fifteenth space, followed by an ellipsis. */
  lemma TruncateTextSpec(text: string)
    ensures Spaces(text) < PreviewWords ==> TruncateText(text) == text
    ensures Spaces(text) >= PreviewWords ==>
              var r := TruncateText(text);
              |r| >= 3 && r[|r| - 3..] == "..." && r[..|r| - 3] <= text &&
              Spaces(r[..|r| - 3]) == PreviewWords - 1 &&
              |r[..|r| - 3]| < |text| && text[|r| - 3] == ' '
  {
    SplitCount(text);
    if Spaces(text) >= PreviewWords {
      JoinPrefix(text, PreviewWords);
      JoinPrefix(text, PreviewWords + 1);
      var ws := Split(text);
      var p := Join(ws[..PreviewWords]);
      var r := TruncateText(text);
      assert r == p + "...";
      assert r[..|r| - 3] == p;
      var q := Join(ws[..PreviewWords + 1]);
      assert ws[..PreviewWords + 1][..PreviewWords] == ws[..PreviewWords];
      JoinSplitLast(ws[..PreviewWords + 1]);
      assert q == p + " " + ws[PreviewWords];
      assert q <= text;
      assert q[|p|] == ' ';
    }
  }

  /** Joining a list of at least two pieces puts a space before the last one. */
  lemma {:induction false} JoinSplitLast(ws: seq<string>)
    requires |ws| >= 2
    ensures Join(ws) == Join(ws[..|ws| - 1]) + " " + ws[|ws| - 1]
  {
    if |ws| > 2 {
      JoinSplitLast(ws[1..]);
      assert ws[1..][..|ws| - 2] == ws[..|ws| - 1][1..];
    }
  }

  /** The list without the posts with id `id`, others kept in order. */
  function Without(s: seq<Post>, id: int): (r: seq<Post>)
    ensures forall p | p in r :: p in s && p.id != id
    ensures forall i | 0 <= i < |s| && s[i].id != id :: s[i] in r
  {
    Filter(s, (p: Post) => p.id != id)
  }

  /** The page the post service delivers to `loadPosts` for the stored posts `stored`
      and the page counter `page`: offline, the stored page at 0 or at the advanced
      counter; online, the remote page, except that a load-more whose fill of an empty
      store fails reports that failure. */
  function Loaded(isLoadMore: bool, online: bool, pageReply: Reply<seq<Post>>, allReply: Reply<seq<Post>>,
                  stored: map<int, Post>, page: nat): Result<seq<Post>>
  {
    if !online then
      Posts.OfflinePage(KeyOrder.Values(stored), if isLoadMore then Posts.PageStart(page + 1) else 0)
    else if isLoadMore && |stored| == 0 && allReply.Unavailable? then
      Err(RemoteUnavailable)
    else if pageReply.Answered? then Ok(pageReply.value) else Err(RemoteUnavailable)
  }

  /** The posts store after a load: online, an empty store is filled from the full
      remote list when it arrives; otherwise it is unchanged. */
  function StoreAfterLoad(online: bool, allReply: Reply<seq<Post>>, stored: map<int, Post>): map<int, Post>
  {
    if online && |stored| == 0 && allReply.Answered? then PutEach(stored, allReply.value, PostKey) else stored
  }

  class PostListComponent {
    var posts: seq<Post>
    var allPosts: seq<Post>
    var loading: bool
    var loadingMorePosts: bool
    var hasMorePosts: bool
    const postService: Posts.PostService

    constructor (postService: Posts.PostService)
      ensures this.postService == postService
      ensures posts == [] && allPosts == [] && !loading && !loadingMorePosts && hasMorePosts
    {
      this.postService := postService;
      posts := [];
      allPosts := [];
      loading := false;
      loadingMorePosts := false;
      hasMorePosts := true;
    }

    /** The synchronous part of `loadPosts`: the flag of the kind of load is raised. */
    method BeginLoad(isLoadMore: bool)
      modifies this`loading, this`loadingMorePosts
      ensures isLoadMore ==> loadingMorePosts && loading == old(loading)
      ensures !isLoadMore ==> loading && loadingMorePosts == old(loadingMorePosts)
    {
      if isLoadMore {
        loadingMorePosts := true;
      } else {
        loading := true;
      }
    }

    /** The subscriber of `loadPosts`: a loaded page is appended (load more) or
        replaces the list; either way the flag of the kind of load is lowered. */
    method OnLoaded(isLoadMore: bool, r: Result<seq<Post>>)
      modifies this`posts, this`loading, this`loadingMorePosts
      ensures posts == (if r.Err? then old(posts) else if isLoadMore then old(posts) + r.value else r.value)
      ensures isLoadMore ==> !loadingMorePosts && loading == old(loading)
      ensures !isLoadMore ==> !loading && loadingMorePosts == old(loadingMorePosts)
    {
      if r.Ok? {
        posts := if isLoadMore then posts + r.value else r.value;
      }
      if isLoadMore {
        loadingMorePosts := false;
      } else {
        loading := false;
      }
    }

    /** `loadPosts`: raises the flag, asks the post service for the first or the next
        page, and hands the result to the subscriber. */
    method LoadPosts(isLoadMore: bool, online: bool, pageReply: Reply<seq<Post>>, allReply: Reply<seq<Post>>)
      returns (r: Result<seq<Post>>)
      requires postService.Valid()
      modifies this`posts, this`loading, this`loadingMorePosts, postService`currentPage, postService.posts
      ensures postService.Valid()
      ensures posts == (if r.Err? then old(posts) else if isLoadMore then old(posts) + r.value else r.value)
      ensures isLoadMore ==> !loadingMorePosts && loading == old(loading)
      ensures !isLoadMore ==> !loading && loadingMorePosts == old(loadingMorePosts)
      ensures isLoadMore ==> postService.currentPage == old(postService.currentPage) + 1
      ensures !isLoadMore ==> postService.currentPage == old(postService.currentPage)
      ensures r == Loaded(isLoadMore, online, pageReply, allReply,
                          old(postService.posts.records), old(postService.currentPage))
      ensures postService.posts.records == StoreAfterLoad(online, allReply, old(postService.posts.records))
    {
      BeginLoad(isLoadMore);
      r := RequestPage(isLoadMore, online, pageReply, allReply);
      OnLoaded(isLoadMore, r);
    }

    /** The request of `loadPosts`: the post service's first page, or its next page
        after the counter advances. */
    method RequestPage(isLoadMore: bool, online: bool, pageReply: Reply<seq<Post>>, allReply: Reply<seq<Post>>)
      returns (r: Result<seq<Post>>)
      requires postService.Valid()
      modifies postService`currentPage, postService.posts
      ensures postService.Valid()
      ensures postService.currentPage == old(postService.currentPage) + (if isLoadMore then 1 else 0)
      ensures r == Loaded(isLoadMore, online, pageReply, allReply,
                          old(postService.posts.records), old(postService.currentPage))
      ensures postService.posts.records == StoreAfterLoad(online, allReply, old(postService.posts.records))
    {
      if isLoadMore {
        r := postService.LoadMorePosts(online, pageReply, allReply);
      } else {
        r := postService.LoadPosts(online, pageReply, allReply);
      }
    }

    /** `checkHasMore`. */
    method CheckHasMore(online: bool)
      modifies this`hasMorePosts
      ensures hasMorePosts == Posts.HasMore(online, |posts|, |postService.posts.records|)
    {
      hasMorePosts := postService.HasMorePosts(online, |posts|);
    }

    /** `deletePost`: once the dialog is confirmed the post service deletes the post;
        when that succeeds the post leaves both lists, and otherwise nothing changes
        here. */
    method DeletePost(post: Post, confirmed: bool, online: bool, remoteOk: bool) returns (res: Option<Outcome>)
      requires postService.Valid()
      modifies this`posts, this`allPosts, postService.posts
      ensures postService.Valid()
      ensures !confirmed ==> res == None && posts == old(posts) && allPosts == old(allPosts) &&
                             postService.posts.records == old(postService.posts.records)
      ensures confirmed && online && remoteOk ==>
                res == Some(Done) && postService.posts.records == old(postService.posts.records) - {post.id}
      ensures confirmed && online && !remoteOk ==>
                res == Some(Fail(RemoteUnavailable)) && postService.posts.records == old(postService.posts.records)
      ensures confirmed && !online && post.id !in old(postService.posts.records) ==>
                res == Some(Fail(PostNotFoundInIndexedDb)) && postService.posts.records == old(postService.posts.records)
      ensures confirmed && !online && post.id in old(postService.posts.records) ==>
                res == Some(Done) &&
                postService.posts.records ==
                  old(postService.posts.records)[post.id := old(postService.posts.records)[post.id].(syncStatus := DeletePending)]
      ensures res == Some(Done) ==> posts == Without(old(posts), post.id) && allPosts == Without(old(allPosts), post.id)
      ensures res != Some(Done) ==> posts == old(posts) && allPosts == old(allPosts)
    {
      if !confirmed {
        return None;
      }
      var outcome := postService.DeletePost(online, post.id, remoteOk);
      if outcome == Done {
        allPosts := Filter(allPosts, (p: Post) => p.id != post.id);
        posts := Filter(posts, (p: Post) => p.id != post.id);
      }
      res := Some(outcome);
    }
  }

  /** Removing a post keeps the order of the rest: it works piece by piece. */
  lemma WithoutKeepsOrder(a: seq<Post>, b: seq<Post>, id: int)
    ensures Without(a + b, id) == Without(a, id) + Without(b, id)
  {
    FilterAppend(a, b, (p: Post) => p.id != id);
  }

  /** Removing a post twice is removing it once. */
  lemma {:induction false} WithoutTwice(s: seq<Post>, id: int)
    ensures Without(Without(s, id), id) == Without(s, id)
  {
    if s != [] {
      WithoutTwice(s[1..], id);
    }
  }
}
