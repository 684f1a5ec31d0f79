/** The client-side store that mirrors the remote posts, likes, bookmarks and comments
    (`PostsProvider`). Every remote call is replaced by a parameter carrying its outcome, and
    every mutating operation returns the request it sent, so that its contract can say both
    what was asked of the service and what changed locally. */
module PostsContext {
  import opened Wrappers
  import opened Types
  import Seqs

  /** The provider's state: the five local collections, the signed-in user and the loading flag. */
  datatype Store = Store(
    posts: seq<BlogPost>,
    user: Option<User>,
    isLoading: bool,
    userLikes: set<string>,
    userBookmarks: set<string>,
    likeCounts: map<string, int>,
    comments: seq<Comment>)

  /** Input of `addPost`; the fields `addPost` never reads are left out. */
  datatype NewPost = NewPost(
    title: string,
    body: string,
    imageUrl: Option<string>,
    isDraft: Option<bool>,
    userId: Option<string>)

  /** Input of `updatePost`: `None` is a field the caller did not supply. */
  datatype PostChanges = PostChanges(
    title: Option<string>,
    body: Option<string>,
    imageUrl: Option<string>,
    isDraft: Option<bool>)

  /** A write sent to the remote data service. */
  datatype Request =
    | PostInsert(userId: string, title: string, body: string, imageUrl: Option<string>, isDraft: bool)
    | PostUpdate(id: string, changes: PostChanges)
    | PostDelete(id: string)
    | LikeInsert(postId: string, userId: string)
    | LikeDelete(postId: string, userId: string)
    | CommentInsert(postId: string, userId: string, content: string, parentCommentId: Option<string>)
    | CommentDelete(id: string)
    | BookmarkInsert(postId: string, userId: string)
    | BookmarkDelete(postId: string, userId: string)
    | ViewCountUpdate(postId: string, viewCount: int)

  /** What `getUser()` gave at start-up: a session (or none), or a thrown error. */
  datatype AuthResult = Resolved(user: Option<User>) | AuthFailed

  const InitialStore := Store([], None, true, {}, {}, map[], [])

  // ----- Mapping rows to records -----

  /** The post `fetchPosts` and `updatePost` build from a row (`view_count || 0`, `is_draft || false`). */
  function PostFromRow(row: PostRow): BlogPost {
    BlogPost(row.id, row.title, row.body, row.imageUrl, row.createdAt,
             if row.viewCount.Some? then row.viewCount.value else 0,
             OrFalse(row.isDraft), row.userId)
  }

  /** The post `addPost` builds from the inserted row: the view count is always 0. */
  function InsertedPost(row: PostRow): BlogPost {
    BlogPost(row.id, row.title, row.body, row.imageUrl, row.createdAt, 0, OrFalse(row.isDraft), row.userId)
  }

  /** The comment `fetchPosts` builds from a row (no e-mail). */
  function CommentFromRow(row: CommentRow): Comment {
    Comment(row.id, row.postId, row.userId, row.content, row.parentCommentId, row.createdAt, None)
  }

  /** The comment `addComment` builds from the inserted row and the signed-in user's e-mail. */
  function InsertedComment(row: CommentRow, email: Option<string>): Comment {
    Comment(row.id, row.postId, row.userId, row.content, row.parentCommentId, row.createdAt, email)
  }

  // ----- Read accessors -----

  /** `likeCounts[postId] || 0`. */
  function LikeCount(counts: map<string, int>, postId: string): (n: int)
    ensures postId !in counts ==> n == 0
    ensures postId in counts ==> n == counts[postId]
  {
    if postId in counts then counts[postId] else 0
  }

  /** No like count is negative. */
  ghost predicate CountsNonNegative(counts: map<string, int>) {
    forall id :: id in counts ==> counts[id] >= 0
  }

  /** `getPost`: the first post with that id, or nothing. */
  function GetPost(s: Store, id: string): (r: Option<BlogPost>)
    ensures r.None? <==> forall i :: 0 <= i < |s.posts| ==> s.posts[i].id != id
    ensures r.Some? ==> exists i :: 0 <= i < |s.posts| && s.posts[i] == r.value && r.value.id == id
                                    && forall j :: 0 <= j < i ==> s.posts[j].id != id
  {
    Seqs.Find(s.posts, (p: BlogPost) => p.id == id)
  }

  /** `isPostLiked`. */
  predicate IsPostLiked(s: Store, postId: string) {
    postId in s.userLikes
  }

  /** `getLikeCount`. */
  function GetLikeCount(s: Store, postId: string): (n: int)
    ensures postId !in s.likeCounts ==> n == 0
    ensures CountsNonNegative(s.likeCounts) ==> n >= 0
  {
    LikeCount(s.likeCounts, postId)
  }

  /** The test `getComments` filters by: a top-level comment of that post. */
  function TopLevelOf(postId: string): Comment -> bool {
    (c: Comment) => c.postId == postId && !IsReply(c)
  }

  /** `getComments`: the top-level comments of one post, in list order. */
  function GetComments(s: Store, postId: string): (r: seq<Comment>)
    ensures forall c :: c in r <==> c in s.comments && c.postId == postId && !IsReply(c)
    ensures r == Seqs.Filter(s.comments, TopLevelOf(postId))
  {
    Seqs.Filter(s.comments, TopLevelOf(postId))
  }

  /** `isPostBookmarked`. */
  predicate IsPostBookmarked(s: Store, postId: string) {
    postId in s.userBookmarks
  }

  /** The test `getBookmarkedPosts` filters by. */
  function BookmarkedIn(bookmarks: set<string>): BlogPost -> bool {
    (p: BlogPost) => p.id in bookmarks
  }

  /** `getBookmarkedPosts`: the posts whose id is bookmarked, in list order. */
  function GetBookmarkedPosts(s: Store): (r: seq<BlogPost>)
    ensures forall p :: p in r <==> p in s.posts && p.id in s.userBookmarks
    ensures r == Seqs.Filter(s.posts, BookmarkedIn(s.userBookmarks))
  {
    Seqs.Filter(s.posts, BookmarkedIn(s.userBookmarks))
  }

  /** The like and bookmark flags the buttons read follow the writes: a successful like or
      bookmark by a signed-in user sets its flag, a successful unlike or unbookmark clears it,
      and signing out clears every flag. */
  lemma FlagsFollowWrites(s: Store, postId: string, q: string)
    requires s.user.Some?
    ensures IsPostLiked(PostLiked(s, postId, Success), postId)
    ensures !IsPostLiked(PostUnliked(s, postId, Success), postId)
    ensures IsPostBookmarked(PostBookmarked(s, postId, Success), postId)
    ensures !IsPostBookmarked(PostUnbookmarked(s, postId, Success), postId)
    ensures !IsPostLiked(SignedOut(s), q) && !IsPostBookmarked(SignedOut(s), q)
  {
  }

  // ----- Transitions of the store -----

  /** Requests of the operations that need a signed-in user. */
  function AddPostRequest(s: Store, post: NewPost): (r: Option<Request>)
    ensures r.Some? <==> s.user.Some?
    ensures r.Some? ==> r.value.PostInsert? && r.value.userId == s.user.value.id
                        && r.value.title == post.title && r.value.body == post.body
                        && (r.value.isDraft <==> post.isDraft == Some(true))
                        && (r.value.imageUrl.Some? <==> Truthy(post.imageUrl))
  {
    if s.user.None? then None
    else Some(PostInsert(s.user.value.id, post.title, post.body, OrNull(post.imageUrl), OrFalse(post.isDraft)))
  }

  /** `addPost`: with a user and a returned row, the new post goes in front. */
  function PostAdded(s: Store, response: Response<PostRow>): (t: Store)
    ensures t == s.(posts := t.posts)
    ensures s.user.Some? && response.Data? ==>
              |t.posts| == |s.posts| + 1 && t.posts[1..] == s.posts
              && t.posts[0].id == response.row.id && t.posts[0].viewCount == 0
              && t.posts[0].title == response.row.title && t.posts[0].body == response.row.body
              && t.posts[0].imageUrl == response.row.imageUrl && t.posts[0].createdAt == response.row.createdAt
              && t.posts[0].userId == response.row.userId
              && (t.posts[0].isDraft <==> response.row.isDraft == Some(true))
    ensures !(s.user.Some? && response.Data?) ==> t == s
  {
    if s.user.Some? && response.Data? then s.(posts := [InsertedPost(response.row)] + s.posts) else s
  }

  /** `prev.map(p => p.id === id ? updated : p)`. */
  function ReplaceById(posts: seq<BlogPost>, id: string, updated: BlogPost): (r: seq<BlogPost>)
    ensures |r| == |posts|
    ensures forall i :: 0 <= i < |posts| ==> r[i] == if posts[i].id == id then updated else posts[i]
  {
    seq(|posts|, i requires 0 <= i < |posts| => if posts[i].id == id then updated else posts[i])
  }

  /** `updatePost`: a returned row replaces exactly the posts with that id. */
  function PostUpdated(s: Store, id: string, response: Response<PostRow>): (t: Store)
    ensures t == s.(posts := t.posts)
    ensures |t.posts| == |s.posts|
    ensures forall i :: 0 <= i < |s.posts| ==>
              t.posts[i] == if response.Data? && s.posts[i].id == id then PostFromRow(response.row) else s.posts[i]
  {
    if response.Data? then s.(posts := ReplaceById(s.posts, id, PostFromRow(response.row))) else s
  }

  /** The test `deletePost` filters by: a post with another id. */
  function PostOtherThan(id: string): BlogPost -> bool {
    (p: BlogPost) => p.id != id
  }

  /** `deletePost`: after a successful delete, exactly the posts with that id are gone and the
      others keep their order. */
  function PostDeleted(s: Store, id: string, outcome: Outcome): (t: Store)
    ensures t == s.(posts := t.posts)
    ensures outcome.Failure? ==> t == s
    ensures outcome.Success? ==> forall p :: p in t.posts <==> p in s.posts && p.id != id
    ensures outcome.Success? ==> t.posts == Seqs.Filter(s.posts, PostOtherThan(id))
  {
    if outcome.Success? then s.(posts := Seqs.Filter(s.posts, PostOtherThan(id))) else s
  }

  /** `likePost`: a successful like adds the post to the user's likes and one to its count. */
  function PostLiked(s: Store, postId: string, outcome: Outcome): (t: Store)
    ensures t == s.(userLikes := t.userLikes, likeCounts := t.likeCounts)
    ensures s.user.None? || outcome.Failure? ==> t == s
    ensures s.user.Some? && outcome.Success? ==>
              t.userLikes == s.userLikes + {postId}
              && LikeCount(t.likeCounts, postId) == LikeCount(s.likeCounts, postId) + 1
              && forall q :: q != postId ==> LikeCount(t.likeCounts, q) == LikeCount(s.likeCounts, q)
    ensures CountsNonNegative(s.likeCounts) ==> CountsNonNegative(t.likeCounts)
  {
    if s.user.Some? && outcome.Success? then
      s.(userLikes := s.userLikes + {postId},
         likeCounts := s.likeCounts[postId := LikeCount(s.likeCounts, postId) + 1])
    else s
  }

  /** `Math.max(n - 1, 0)`. */
  function DecrementFloored(n: int): (r: int)
    ensures r >= 0
    ensures n >= 1 ==> r == n - 1
  {
    if n - 1 > 0 then n - 1 else 0
  }

  /** `unlikePost`: a successful unlike removes the post from the user's likes and takes one
      from its count, never going below zero. */
  function PostUnliked(s: Store, postId: string, outcome: Outcome): (t: Store)
    ensures t == s.(userLikes := t.userLikes, likeCounts := t.likeCounts)
    ensures s.user.None? || outcome.Failure? ==> t == s
    ensures s.user.Some? && outcome.Success? ==>
              t.userLikes == s.userLikes - {postId}
              && LikeCount(t.likeCounts, postId) == (if LikeCount(s.likeCounts, postId) >= 1 then LikeCount(s.likeCounts, postId) - 1 else 0)
              && forall q :: q != postId ==> LikeCount(t.likeCounts, q) == LikeCount(s.likeCounts, q)
    ensures CountsNonNegative(s.likeCounts) ==> CountsNonNegative(t.likeCounts)
  {
    if s.user.Some? && outcome.Success? then
      s.(userLikes := s.userLikes - {postId},
         likeCounts := s.likeCounts[postId := DecrementFloored(LikeCount(s.likeCounts, postId))])
    else s
  }

  /** Request of `addComment` (`parentCommentId || null`). */
  function AddCommentRequest(s: Store, postId: string, content: string, parentCommentId: Option<string>): (r: Option<Request>)
    ensures r.Some? <==> s.user.Some?
    ensures r.Some? ==> r.value.CommentInsert? && r.value.userId == s.user.value.id
                        && r.value.postId == postId && r.value.content == content
                        && (r.value.parentCommentId.Some? <==> Truthy(parentCommentId))
                        && (Truthy(parentCommentId) ==> r.value.parentCommentId == parentCommentId)
  {
    if s.user.None? then None
    else Some(CommentInsert(postId, s.user.value.id, content, OrNull(parentCommentId)))
  }

  /** Value `addComment` returns: the new comment, or nothing without a user or a row. */
  function NewComment(s: Store, response: Response<CommentRow>): (r: Option<Comment>)
    ensures r.Some? <==> s.user.Some? && response.Data?
    ensures r.Some? ==> r.value.id == response.row.id
                        && r.value.postId == response.row.postId
                        && r.value.userId == response.row.userId
                        && r.value.content == response.row.content
                        && r.value.parentCommentId == response.row.parentCommentId
                        && r.value.createdAt == response.row.createdAt
                        && r.value.userEmail == s.user.value.email
  {
    if s.user.Some? && response.Data? then Some(InsertedComment(response.row, s.user.value.email)) else None
  }

  /** `addComment`: the returned comment is appended at the end. */
  function CommentAdded(s: Store, response: Response<CommentRow>): (t: Store)
    ensures t == s.(comments := t.comments)
    ensures NewComment(s, response).Some? ==> t.comments == s.comments + [NewComment(s, response).value]
    ensures NewComment(s, response).None? ==> t == s
  {
    match NewComment(s, response)
    case Some(c) => s.(comments := s.comments + [c])
    case None => s
  }

  /** `deleteComment`: after a successful delete, exactly the comments with that id are gone;
      replies to it stay. */
  function CommentDeleted(s: Store, id: string, outcome: Outcome): (t: Store)
    ensures t == s.(comments := t.comments)
    ensures outcome.Failure? ==> t == s
    ensures outcome.Success? ==> forall c :: c in t.comments <==> c in s.comments && c.id != id
    ensures outcome.Success? ==> t.comments == Seqs.Filter(s.comments, CommentOtherThan(id))
  {
    if outcome.Success? then s.(comments := Seqs.Filter(s.comments, CommentOtherThan(id))) else s
  }

  /** The test `deleteComment` filters by: a comment with another id. */
  function CommentOtherThan(id: string): Comment -> bool {
    (c: Comment) => c.id != id
  }

  /** `bookmarkPost`. */
  function PostBookmarked(s: Store, postId: string, outcome: Outcome): (t: Store)
    ensures t == s.(userBookmarks := t.userBookmarks)
    ensures s.user.None? || outcome.Failure? ==> t == s
    ensures s.user.Some? && outcome.Success? ==> t.userBookmarks == s.userBookmarks + {postId}
  {
    if s.user.Some? && outcome.Success? then s.(userBookmarks := s.userBookmarks + {postId}) else s
  }

  /** `unbookmarkPost`. */
  function PostUnbookmarked(s: Store, postId: string, outcome: Outcome): (t: Store)
    ensures t == s.(userBookmarks := t.userBookmarks)
    ensures s.user.None? || outcome.Failure? ==> t == s
    ensures s.user.Some? && outcome.Success? ==> t.userBookmarks == s.userBookmarks - {postId}
  {
    if s.user.Some? && outcome.Success? then s.(userBookmarks := s.userBookmarks - {postId}) else s
  }

  /** `signOut`: likes and bookmarks are cleared; posts, comments, counts and even the user field
      are left as they are (the user is cleared by the auth-change handler that follows). */
  function SignedOut(s: Store): (t: Store)
    ensures t.userLikes == {} && t.userBookmarks == {}
    ensures t.posts == s.posts && t.comments == s.comments && t.likeCounts == s.likeCounts
    ensures t.user == s.user && t.isLoading == s.isLoading
  {
    s.(userLikes := {}, userBookmarks := {})
  }

  /** The ids of a list of fetched `post_id` values, as a set. */
  function IdSet(ids: seq<string>): (r: set<string>)
    ensures forall id :: id in r <==> id in ids
  {
    set id | id in ids
  }

  /** `fetchUserEngagement`: each set is replaced when its query returned data. */
  function EngagementFetched(s: Store, likes: Option<seq<string>>, bookmarks: Option<seq<string>>): (t: Store)
    ensures t == s.(userLikes := t.userLikes, userBookmarks := t.userBookmarks)
    ensures t.userLikes == if likes.Some? then IdSet(likes.value) else s.userLikes
    ensures t.userBookmarks == if bookmarks.Some? then IdSet(bookmarks.value) else s.userBookmarks
  {
    s.(userLikes := if likes.Some? then IdSet(likes.value) else s.userLikes,
       userBookmarks := if bookmarks.Some? then IdSet(bookmarks.value) else s.userBookmarks)
  }

  /** The auth-change handler: a session re-fetches the user's likes and bookmarks, no session
      clears them; the posts, comments and counts are untouched. */
  function AuthChanged(s: Store, session: Option<User>, likes: Option<seq<string>>, bookmarks: Option<seq<string>>): (t: Store)
    ensures t.user == session && !t.isLoading
    ensures t.posts == s.posts && t.comments == s.comments && t.likeCounts == s.likeCounts
    ensures session.None? ==> t.userLikes == {} && t.userBookmarks == {}
    ensures session.Some? ==> t == EngagementFetched(s, likes, bookmarks).(user := session, isLoading := false)
  {
    var u := s.(user := session);
    var v := if session.Some? then EngagementFetched(u, likes, bookmarks) else u.(userLikes := {}, userBookmarks := {});
    v.(isLoading := false)
  }

  /** The like counts built from the fetched likes, processed in order. */
  function LikeTally(likes: seq<string>): map<string, int>
    decreases |likes|
  {
    if likes == [] then map[]
    else
      var counts := LikeTally(likes[..|likes| - 1]);
      var id := likes[|likes| - 1];
      counts[id := LikeCount(counts, id) + 1]
  }

  /** The aggregated count of a post is the number of fetched likes that carry its id, and only
      liked posts get an entry. */
  lemma {:induction false} LikeTallyCounts(likes: seq<string>)
    ensures forall id :: LikeCount(LikeTally(likes), id) == multiset(likes)[id]
    ensures forall id :: id in LikeTally(likes) <==> id in likes
    decreases |likes|
  {
    if likes != [] {
      var init := likes[..|likes| - 1];
      LikeTallyCounts(init);
      assert likes == init + [likes[|likes| - 1]];
    }
  }

  /** Every aggregated count is at least one. */
  lemma LikeTallyPositive(likes: seq<string>)
    ensures forall id :: id in LikeTally(likes) ==> LikeTally(likes)[id] >= 1
  {
    LikeTallyCounts(likes);
    forall id | id in LikeTally(likes) ensures LikeTally(likes)[id] >= 1 {
      assert id in multiset(likes);
    }
  }

  /** `fetchPosts`: the fetched posts replace the list; when there is at least one post, the
      fetched likes replace the counts and the fetched comments the comment list. */
  function PostsFetched(s: Store, rows: Option<seq<PostRow>>, likes: Option<seq<string>>, commentRows: Option<seq<CommentRow>>): (t: Store)
    ensures t == s.(posts := t.posts, likeCounts := t.likeCounts, comments := t.comments)
    ensures rows.None? ==> t == s
    ensures rows.Some? ==> |t.posts| == |rows.value| && forall i :: 0 <= i < |rows.value| ==> t.posts[i] == PostFromRow(rows.value[i])
    ensures t.likeCounts == if rows.Some? && rows.value != [] && likes.Some? then LikeTally(likes.value) else s.likeCounts
    ensures rows.Some? && rows.value != [] && commentRows.Some? ==>
              |t.comments| == |commentRows.value| && forall i :: 0 <= i < |commentRows.value| ==> t.comments[i] == CommentFromRow(commentRows.value[i])
    ensures !(rows.Some? && rows.value != [] && commentRows.Some?) ==> t.comments == s.comments
  {
    match rows
    case None => s
    case Some(rs) =>
      var posts := seq(|rs|, i requires 0 <= i < |rs| => PostFromRow(rs[i]));
      if rs == [] then s.(posts := posts)
      else
        var counts := if likes.Some? then LikeTally(likes.value) else s.likeCounts;
        var comments := if commentRows.Some? then seq(|commentRows.value|, i requires 0 <= i < |commentRows.value| => CommentFromRow(commentRows.value[i])) else s.comments;
        s.(posts := posts, likeCounts := counts, comments := comments)
  }

  /** `initAuth`: the resolved user is stored, the posts are fetched, the user's engagement is
      fetched when there is a user, and loading ends whatever happened. */
  function Initialized(s: Store, auth: AuthResult, rows: Option<seq<PostRow>>, likes: Option<seq<string>>,
                       commentRows: Option<seq<CommentRow>>, userLikes: Option<seq<string>>,
                       userBookmarks: Option<seq<string>>): (t: Store)
    ensures !t.isLoading
    ensures auth.AuthFailed? ==> t == s.(isLoading := false)
    ensures auth.Resolved? ==>
              var fetched := PostsFetched(s, rows, likes, commentRows);
              t.user == auth.user && t.posts == fetched.posts
              && t.likeCounts == fetched.likeCounts && t.comments == fetched.comments
    ensures auth.Resolved? && auth.user.None? ==> t.userLikes == s.userLikes && t.userBookmarks == s.userBookmarks
    ensures auth.Resolved? && auth.user.Some? ==>
              var engaged := EngagementFetched(s, userLikes, userBookmarks);
              t.userLikes == engaged.userLikes && t.userBookmarks == engaged.userBookmarks
  {
    match auth
    case AuthFailed => s.(isLoading := false)
    case Resolved(u) =>
      var fetched := PostsFetched(s.(user := u), rows, likes, commentRows);
      var engaged := if u.Some? then EngagementFetched(fetched, userLikes, userBookmarks) else fetched;
      engaged.(isLoading := false)
  }

  /** The `forEach` that builds the like counts in `fetchPosts`. */
  method AggregateLikeCounts(likes: seq<string>) returns (counts: map<string, int>)
    ensures counts == LikeTally(likes)
  {
    counts := map[];
    var i := 0;
    while i < |likes|
      invariant i <= |likes|
      invariant counts == LikeTally(likes[..i])
    {
      assert likes[..i + 1][..i] == likes[..i];
      counts := counts[likes[i] := LikeCount(counts, likes[i]) + 1];
      i := i + 1;
    }
    assert likes[..|likes|] == likes;
  }

  /** A successful delete leaves no post with that id to find. */
  lemma DeletedPostIsGone(s: Store, id: string)
    ensures GetPost(PostDeleted(s, id, Success), id).None?
  {
    var t := PostDeleted(s, id, Success);
    forall i | 0 <= i < |t.posts| ensures t.posts[i].id != id {
      assert t.posts[i] in t.posts;
    }
  }

  /** After a successful update of a known post, the post found under that id is the server's
      record (the service returns the row it matched on `id`). */
  lemma UpdatedPostIsFound(s: Store, id: string, row: PostRow)
    requires GetPost(s, id).Some? && row.id == id
    ensures GetPost(PostUpdated(s, id, Data(row)), id) == Some(PostFromRow(row))
  {
    var t := PostUpdated(s, id, Data(row));
    var r := GetPost(t, id);
    var i :| 0 <= i < |s.posts| && s.posts[i].id == id;
    assert t.posts[i] == PostFromRow(row);
    var k :| 0 <= k < |t.posts| && t.posts[k] == r.value && r.value.id == id && forall j :: 0 <= j < k ==> t.posts[j].id != id;
  }

  /** The provider, holding the state the views read and the operations they call. */
  class PostsProvider {
    var posts: seq<BlogPost>
    var user: Option<User>
    var isLoading: bool
    var userLikes: set<string>
    var userBookmarks: set<string>
    var likeCounts: map<string, int>
    var comments: seq<Comment>

    /** The provider's state as a value. */
    function State(): Store
      reads this
    {
      Store(posts, user, isLoading, userLikes, userBookmarks, likeCounts, comments)
    }

    /** Like counts are never negative. */
    ghost predicate Valid()
      reads this
    {
      CountsNonNegative(likeCounts)
    }

    constructor ()
      ensures Valid() && State() == InitialStore
    {
      posts, user, isLoading := [], None, true;
      userLikes, userBookmarks, likeCounts, comments := {}, {}, map[], [];
    }

    method AddPost(post: NewPost, response: Response<PostRow>) returns (sent: Option<Request>, thrown: Option<string>)
      requires Valid()
      modifies this
      ensures Valid()
      ensures sent == AddPostRequest(old(State()), post)
      ensures thrown == if sent.Some? && response.Error? then Some(response.error) else None
      ensures State() == PostAdded(old(State()), response)
    {
      if user.None? {
        return None, None;
      }
      sent := Some(PostInsert(user.value.id, post.title, post.body, OrNull(post.imageUrl), OrFalse(post.isDraft)));
      thrown := None;
      match response
      case Error(e) =>
        thrown := Some(e);
      case NoData =>
      case Data(row) =>
        posts := [InsertedPost(row)] + posts;
    }

    method UpdatePost(id: string, changes: PostChanges, response: Response<PostRow>) returns (sent: Option<Request>, thrown: Option<string>)
      requires Valid()
      modifies this
      ensures Valid()
      ensures sent == Some(PostUpdate(id, changes))
      ensures thrown == if response.Error? then Some(response.error) else None
      ensures State() == PostUpdated(old(State()), id, response)
    {
      sent := Some(PostUpdate(id, changes));
      thrown := None;
      match response
      case Error(e) =>
        thrown := Some(e);
      case NoData =>
      case Data(row) =>
        posts := ReplaceById(posts, id, PostFromRow(row));
    }

    method DeletePost(id: string, outcome: Outcome) returns (sent: Option<Request>, thrown: Option<string>)
      requires Valid()
      modifies this
      ensures Valid()
      ensures sent == Some(PostDelete(id))
      ensures thrown == if outcome.Failure? then Some(outcome.error) else None
      ensures State() == PostDeleted(old(State()), id, outcome)
    {
      sent := Some(PostDelete(id));
      if outcome.Failure? {
        return sent, Some(outcome.error);
      }
      thrown := None;
      posts := Seqs.Filter(posts, PostOtherThan(id));
    }

    method LikePost(postId: string, outcome: Outcome) returns (sent: Option<Request>)
      requires Valid()
      modifies this
      ensures Valid()
      ensures sent == if old(user).Some? then Some(LikeInsert(postId, old(user).value.id)) else None
      ensures State() == PostLiked(old(State()), postId, outcome)
    {
      if user.None? {
        return None;
      }
      sent := Some(LikeInsert(postId, user.value.id));
      if outcome.Success? {
        userLikes := userLikes + {postId};
        likeCounts := likeCounts[postId := LikeCount(likeCounts, postId) + 1];
      }
    }

    method UnlikePost(postId: string, outcome: Outcome) returns (sent: Option<Request>)
      requires Valid()
      modifies this
      ensures Valid()
      ensures sent == if old(user).Some? then Some(LikeDelete(postId, old(user).value.id)) else None
      ensures State() == PostUnliked(old(State()), postId, outcome)
    {
      if user.None? {
        return None;
      }
      sent := Some(LikeDelete(postId, user.value.id));
      if outcome.Success? {
        userLikes := userLikes - {postId};
        likeCounts := likeCounts[postId := DecrementFloored(LikeCount(likeCounts, postId))];
      }
    }

    method AddComment(postId: string, content: string, parentCommentId: Option<string>, response: Response<CommentRow>)
      returns (sent: Option<Request>, thrown: Option<string>, added: Option<Comment>)
      requires Valid()
      modifies this
      ensures Valid()
      ensures sent == AddCommentRequest(old(State()), postId, content, parentCommentId)
      ensures thrown == if sent.Some? && response.Error? then Some(response.error) else None
      ensures added == NewComment(old(State()), response)
      ensures State() == CommentAdded(old(State()), response)
    {
      if user.None? {
        return None, None, None;
      }
      sent := Some(CommentInsert(postId, user.value.id, content, OrNull(parentCommentId)));
      thrown, added := None, None;
      match response
      case Error(e) =>
        thrown := Some(e);
      case NoData =>
      case Data(row) =>
        var c := InsertedComment(row, user.value.email);
        comments := comments + [c];
        added := Some(c);
    }

    method DeleteComment(commentId: string, outcome: Outcome) returns (sent: Option<Request>)
      requires Valid()
      modifies this
      ensures Valid()
      ensures sent == Some(CommentDelete(commentId))
      ensures State() == CommentDeleted(old(State()), commentId, outcome)
    {
      sent := Some(CommentDelete(commentId));
      if outcome.Success? {
        comments := Seqs.Filter(comments, CommentOtherThan(commentId));
      }
    }

    method BookmarkPost(postId: string, outcome: Outcome) returns (sent: Option<Request>)
      requires Valid()
      modifies this
      ensures Valid()
      ensures sent == if old(user).Some? then Some(BookmarkInsert(postId, old(user).value.id)) else None
      ensures State() == PostBookmarked(old(State()), postId, outcome)
    {
      if user.None? {
        return None;
      }
      sent := Some(BookmarkInsert(postId, user.value.id));
      if outcome.Success? {
        userBookmarks := userBookmarks + {postId};
      }
    }

    method UnbookmarkPost(postId: string, outcome: Outcome) returns (sent: Option<Request>)
      requires Valid()
      modifies this
      ensures Valid()
      ensures sent == if old(user).Some? then Some(BookmarkDelete(postId, old(user).value.id)) else None
      ensures State() == PostUnbookmarked(old(State()), postId, outcome)
    {
      if user.None? {
        return None;
      }
      sent := Some(BookmarkDelete(postId, user.value.id));
      if outcome.Success? {
        userBookmarks := userBookmarks - {postId};
      }
    }

    /** `incrementViewCount`: asks the service to store the local count plus one for a known
        post, and changes nothing locally. */
    method IncrementViewCount(postId: string) returns (sent: Option<Request>)
      ensures sent.Some? <==> GetPost(State(), postId).Some?
      ensures sent.Some? ==> sent.value == ViewCountUpdate(postId, GetPost(State(), postId).value.viewCount + 1)
    {
      var found := Seqs.Find(posts, (p: BlogPost) => p.id == postId);
      sent := if found.Some? then Some(ViewCountUpdate(postId, found.value.viewCount + 1)) else None;
    }

    method SignOut()
      requires Valid()
      modifies this
      ensures Valid()
      ensures State() == SignedOut(old(State()))
    {
      userLikes := {};
      userBookmarks := {};
    }

    method FetchUserEngagement(likes: Option<seq<string>>, bookmarks: Option<seq<string>>)
      requires Valid()
      modifies this
      ensures Valid()
      ensures State() == EngagementFetched(old(State()), likes, bookmarks)
    {
      if likes.Some? {
        userLikes := set id | id in likes.value;
      }
      if bookmarks.Some? {
        userBookmarks := set id | id in bookmarks.value;
      }
    }

    method AuthStateChange(session: Option<User>, likes: Option<seq<string>>, bookmarks: Option<seq<string>>)
      requires Valid()
      modifies this
      ensures Valid()
      ensures State() == AuthChanged(old(State()), session, likes, bookmarks)
    {
      user := session;
      if session.Some? {
        FetchUserEngagement(likes, bookmarks);
      } else {
        userLikes := {};
        userBookmarks := {};
      }
      isLoading := false;
    }

    method FetchPosts(rows: Option<seq<PostRow>>, likes: Option<seq<string>>, commentRows: Option<seq<CommentRow>>)
      requires Valid()
      modifies this
      ensures Valid()
      ensures State() == PostsFetched(old(State()), rows, likes, commentRows)
    {
      if rows.None? {
        return;
      }
      var rs := rows.value;
      posts := seq(|rs|, i requires 0 <= i < |rs| => PostFromRow(rs[i]));
      if rs != [] {
        if likes.Some? {
          var counts := AggregateLikeCounts(likes.value);
          LikeTallyPositive(likes.value);
          likeCounts := counts;
        }
        if commentRows.Some? {
          var cs := commentRows.value;
          comments := seq(|cs|, i requires 0 <= i < |cs| => CommentFromRow(cs[i]));
        }
      }
    }

    method InitAuth(auth: AuthResult, rows: Option<seq<PostRow>>, likes: Option<seq<string>>,
                    commentRows: Option<seq<CommentRow>>, userLikes': Option<seq<string>>,
                    userBookmarks': Option<seq<string>>)
      requires Valid()
      modifies this
      ensures Valid()
      ensures State() == Initialized(old(State()), auth, rows, likes, commentRows, userLikes', userBookmarks')
    {
      if auth.Resolved? {
        user := auth.user;
        FetchPosts(rows, likes, commentRows);
        if auth.user.Some? {
          FetchUserEngagement(userLikes', userBookmarks');
        }
      }
      isLoading := false;
    }
  }
}
