/** The comment section of a post page (`CommentSection`): it fetches a post's comments,
    threads them one level deep, adds comments and replies through the provider, and counts them. */
module CommentSection {
  import opened Wrappers
  import opened Types
  import opened Text
  import Seqs
  import opened PostsContext

  /** A top-level comment together with its replies. */
  datatype Thread = Thread(comment: Comment, replies: seq<Comment>)

  /** A fetched comment row joined with its author's e-mail, which may be missing. */
  datatype FetchedComment = FetchedComment(row: CommentRow, authorEmail: Option<string>)

  /** `c.user?.email || 'Anonymous'`. */
  function DisplayEmail(email: Option<string>): (r: string)
    ensures Truthy(email) ==> r == email.value
    ensures !Truthy(email) ==> r == "Anonymous"
  {
    if Truthy(email) then email.value else "Anonymous"
  }

  /** The comments of a fetch, each carrying its author's display e-mail. */
  function WithEmails(fetched: seq<FetchedComment>): (cs: seq<Comment>)
    ensures |cs| == |fetched|
    ensures forall i :: 0 <= i < |fetched| ==>
              var row := fetched[i].row;
              cs[i].id == row.id && cs[i].postId == row.postId && cs[i].userId == row.userId
              && cs[i].content == row.content && cs[i].parentCommentId == row.parentCommentId
              && cs[i].createdAt == row.createdAt && cs[i].userEmail == Some(DisplayEmail(fetched[i].authorEmail))
  {
    seq(|fetched|, i requires 0 <= i < |fetched| =>
      var row := fetched[i].row;
      Comment(row.id, row.postId, row.userId, row.content, row.parentCommentId, row.createdAt,
              Some(DisplayEmail(fetched[i].authorEmail))))
  }

  /** The test of the top-level filter. */
  predicate IsTopLevel(c: Comment) {
    !IsReply(c)
  }

  /** The test of a reply filter: the comment names `id` as its parent. */
  function ReplyOf(id: string): Comment -> bool {
    (c: Comment) => c.parentCommentId == Some(id)
  }

  /** The comments that are not replies, in fetch order. */
  function TopLevel(flat: seq<Comment>): (r: seq<Comment>)
    ensures forall c :: c in r <==> c in flat && !IsReply(c)
    ensures r == Seqs.Filter(flat, IsTopLevel)
  {
    Seqs.Filter(flat, IsTopLevel)
  }

  /** The comments whose parent is `id`, in fetch order. */
  function RepliesTo(flat: seq<Comment>, id: string): (r: seq<Comment>)
    ensures forall c :: c in r <==> c in flat && c.parentCommentId == Some(id)
    ensures r == Seqs.Filter(flat, ReplyOf(id))
  {
    Seqs.Filter(flat, ReplyOf(id))
  }

  /** The threaded view of a flat list of comments: one thread per top-level comment, in fetch
      order, each holding exactly the comments that name it as their parent. */
  function Threads(flat: seq<Comment>): (r: seq<Thread>)
    ensures |r| == |TopLevel(flat)|
    ensures forall i :: 0 <= i < |r| ==> r[i].comment == TopLevel(flat)[i]
  {
    var top := TopLevel(flat);
    seq(|top|, i requires 0 <= i < |top| => Thread(top[i], RepliesTo(flat, top[i].id)))
  }

  /** The view holds exactly the top-level comments, in fetch order, and each one's replies are
      exactly the comments that name it as their parent, in fetch order. */
  lemma ThreadsShape(flat: seq<Comment>)
    ensures forall c :: (exists t :: t in Threads(flat) && t.comment == c) <==> c in flat && !IsReply(c)
    ensures forall t, r :: t in Threads(flat) ==> (r in t.replies <==> r in flat && r.parentCommentId == Some(t.comment.id))
    ensures forall i :: 0 <= i < |Threads(flat)| ==>
              Threads(flat)[i].comment == TopLevel(flat)[i]
              && Threads(flat)[i].replies == RepliesTo(flat, Threads(flat)[i].comment.id)
  {
    var ts := Threads(flat);
    var top := TopLevel(flat);
    forall c | c in flat && !IsReply(c) ensures exists t :: t in ts && t.comment == c {
      var i :| 0 <= i < |top| && top[i] == c;
      assert ts[i] in ts;
    }
  }

  /** A reply whose parent is not a top-level comment of the list appears nowhere in the view. */
  lemma OrphanReplyHidden(flat: seq<Comment>, c: Comment)
    requires IsReply(c)
    requires forall d :: d in flat && !IsReply(d) ==> c.parentCommentId != Some(d.id)
    ensures forall t :: t in Threads(flat) ==> t.comment != c && c !in t.replies
  {
    ThreadsShape(flat);
    forall t | t in Threads(flat) ensures t.comment != c && c !in t.replies {
      assert t.comment in flat && !IsReply(t.comment);
    }
  }

  /** Comment ids are unique. */
  ghost predicate UniqueIds(flat: seq<Comment>) {
    forall i, j :: 0 <= i < j < |flat| ==> flat[i].id != flat[j].id
  }

  /** With unique ids, a reply to a reply appears nowhere in the view. */
  lemma ReplyToReplyHidden(flat: seq<Comment>, c: Comment, d: Comment)
    requires UniqueIds(flat)
    requires d in flat && IsReply(d) && IsReply(c) && c.parentCommentId == Some(d.id)
    ensures forall t :: t in Threads(flat) ==> t.comment != c && c !in t.replies
  {
    forall e | e in flat && !IsReply(e) ensures c.parentCommentId != Some(e.id) {
      var i :| 0 <= i < |flat| && flat[i] == d;
      var j :| 0 <= j < |flat| && flat[j] == e;
      assert i != j;
    }
    OrphanReplyHidden(flat, c);
  }

  /** The `forEach` of `fetchComments` that attaches each top-level comment's replies. */
  method BuildThreads(flat: seq<Comment>) returns (threads: seq<Thread>)
    ensures threads == Threads(flat)
  {
    var top := TopLevel(flat);
    ghost var view := Threads(flat);
    threads := [];
    var i := 0;
    while i < |top|
      invariant i <= |top| == |view|
      invariant threads == view[..i]
    {
      assert view[i] == Thread(top[i], RepliesTo(flat, top[i].id));
      assert view[..i + 1] == view[..i] + [view[i]];
      threads := threads + [Thread(top[i], RepliesTo(flat, top[i].id))];
      i := i + 1;
    }
    assert view[..|view|] == view;
  }

  /** The list after `fetchComments`: the threaded fetch, or the old list when the fetch failed.
      Every comment of a fetched list shows a display e-mail. */
  function Refreshed(threads: seq<Thread>, fetched: Option<seq<FetchedComment>>): (r: seq<Thread>)
    ensures fetched.None? ==> r == threads
    ensures fetched.Some? ==> r == Threads(WithEmails(fetched.value))
    ensures fetched.Some? ==>
              |r| == |TopLevel(WithEmails(fetched.value))|
              && forall t :: t in r ==> t.comment in WithEmails(fetched.value) && !IsReply(t.comment)
                                        && t.comment.userEmail.Some?
                                        && forall c :: c in t.replies ==> c.userEmail.Some?
  {
    if fetched.Some? then Threads(WithEmails(fetched.value)) else threads
  }

  /** `handleReply`'s update: the reply goes at the end of its parent's replies, nothing else moves. */
  function AppendReply(threads: seq<Thread>, parentId: string, reply: Comment): (r: seq<Thread>)
    ensures |r| == |threads|
    ensures forall i :: 0 <= i < |threads| ==> r[i].comment == threads[i].comment
    ensures forall i :: 0 <= i < |threads| && threads[i].comment.id != parentId ==> r[i] == threads[i]
    ensures forall i :: 0 <= i < |threads| && threads[i].comment.id == parentId ==> r[i].replies == threads[i].replies + [reply]
  {
    seq(|threads|, i requires 0 <= i < |threads| =>
      if threads[i].comment.id == parentId then threads[i].(replies := threads[i].replies + [reply]) else threads[i])
  }

  /** The `reduce` of the heading: one per top-level comment plus its replies. */
  function ThreadCount(threads: seq<Thread>): (n: nat)
    ensures n >= |threads|
  {
    if threads == [] then 0
    else ThreadCount(threads[..|threads| - 1]) + 1 + |threads[|threads| - 1].replies|
  }

  /** The heading's count: 0 when nobody is signed in. */
  function DisplayedCount(user: Option<User>, threads: seq<Thread>): (n: nat)
    ensures user.None? ==> n == 0
    ensures user.Some? ==> n == ThreadCount(threads) && n >= |threads|
  {
    if user.Some? then ThreadCount(threads) else 0
  }

  /** How many threads start with a comment of that id. */
  function CountWithId(threads: seq<Thread>, id: string): (n: nat)
    ensures n <= |threads|
    ensures n == 0 <==> forall i :: 0 <= i < |threads| ==> threads[i].comment.id != id
  {
    if threads == [] then 0
    else CountWithId(threads[..|threads| - 1], id) + (if threads[|threads| - 1].comment.id == id then 1 else 0)
  }

  /** A new top-level comment adds one to the count. */
  lemma AppendCommentCount(threads: seq<Thread>, c: Comment)
    ensures ThreadCount(threads + [Thread(c, [])]) == ThreadCount(threads) + 1
  {
    assert (threads + [Thread(c, [])])[..|threads|] == threads;
  }

  /** A reply adds one to the count for each thread it is attached to: exactly one when the
      parent is shown once. */
  lemma {:induction false} AppendReplyCount(threads: seq<Thread>, parentId: string, reply: Comment)
    ensures ThreadCount(AppendReply(threads, parentId, reply)) == ThreadCount(threads) + CountWithId(threads, parentId)
  {
    if threads != [] {
      var init := threads[..|threads| - 1];
      AppendReplyCount(init, parentId, reply);
      var a := AppendReply(threads, parentId, reply);
      assert a[..|a| - 1] == AppendReply(init, parentId, reply);
    }
  }

  /** The distinct comments of a list have distinct ids, so do the threads built from it. */
  lemma TopLevelDistinct(flat: seq<Comment>)
    requires UniqueIds(flat)
    ensures forall i, j :: 0 <= i < j < |TopLevel(flat)| ==> TopLevel(flat)[i].id != TopLevel(flat)[j].id
  {
    Seqs.FilterIsSelection(flat, IsTopLevel);
  }

  /** Among threads whose comments have distinct ids, one that shows `id` shows it once. */
  lemma {:induction false} CountWithIdOnce(threads: seq<Thread>, id: string, k: nat)
    requires forall i, j :: 0 <= i < j < |threads| ==> threads[i].comment.id != threads[j].comment.id
    requires k < |threads| && threads[k].comment.id == id
    ensures CountWithId(threads, id) == 1
    decreases |threads|
  {
    var init := threads[..|threads| - 1];
    if k < |threads| - 1 {
      CountWithIdOnce(init, id, k);
    } else {
      assert forall i :: 0 <= i < |init| ==> init[i].comment.id != id;
    }
  }

  /** A reply to a shown top-level comment adds exactly one to the heading's count. */
  lemma ReplyAddsOne(flat: seq<Comment>, parent: Comment, reply: Comment)
    requires UniqueIds(flat) && parent in flat && !IsReply(parent)
    ensures ThreadCount(AppendReply(Threads(flat), parent.id, reply)) == ThreadCount(Threads(flat)) + 1
  {
    var ts := Threads(flat);
    TopLevelDistinct(flat);
    var k :| 0 <= k < |TopLevel(flat)| && TopLevel(flat)[k] == parent;
    CountWithIdOnce(ts, parent.id, k);
    AppendReplyCount(ts, parent.id, reply);
  }

  /** How many comments of `flat` reply to the comments of `tops`, counted per parent. */
  ghost function RepliesCount(tops: seq<Comment>, flat: seq<Comment>): nat
    decreases |tops|
  {
    if tops == [] then 0
    else RepliesCount(tops[..|tops| - 1], flat) + |RepliesTo(flat, tops[|tops| - 1].id)|
  }

  /** The count of the first `k` threads: one per thread plus their replies. */
  lemma {:induction false} ThreadCountOfThreads(flat: seq<Comment>, k: nat)
    requires k <= |TopLevel(flat)|
    ensures ThreadCount(Threads(flat)[..k]) == k + RepliesCount(TopLevel(flat)[..k], flat)
  {
    if k > 0 {
      ThreadCountOfThreads(flat, k - 1);
      assert Threads(flat)[..k][..k - 1] == Threads(flat)[..k - 1];
      assert TopLevel(flat)[..k][..k - 1] == TopLevel(flat)[..k - 1];
    }
  }

  /** The ids of a list of comments. */
  ghost function IdsOf(cs: seq<Comment>): set<string> {
    set c | c in cs :: c.id
  }

  /** The test "replies to one of `ids`". */
  function ParentIn(ids: set<string>): Comment -> bool {
    (c: Comment) => c.parentCommentId.Some? && c.parentCommentId.value in ids
  }

  /** Counted per parent, with distinct parent ids, each reply is counted once. */
  lemma {:induction false} RepliesCountByParent(tops: seq<Comment>, flat: seq<Comment>)
    requires forall i, j :: 0 <= i < j < |tops| ==> tops[i].id != tops[j].id
    ensures RepliesCount(tops, flat) == |Seqs.Filter(flat, ParentIn(IdsOf(tops)))|
    decreases |tops|
  {
    if tops == [] {
      Seqs.FilterDropsAll(flat, ParentIn(IdsOf(tops)));
    } else {
      var init := tops[..|tops| - 1];
      var t := tops[|tops| - 1];
      RepliesCountByParent(init, flat);
      var before, after := IdsOf(init), IdsOf(tops);
      IdsOfSnoc(tops);
      ParentInSplit(before, t.id, flat);
      Seqs.FilterCountUnion(flat, ParentIn(before), ReplyOf(t.id), ParentIn(after));
    }
  }

  /** Adding a comment with a new id to the list adds just that id. */
  lemma IdsOfSnoc(tops: seq<Comment>)
    requires tops != []
    requires forall i, j :: 0 <= i < j < |tops| ==> tops[i].id != tops[j].id
    ensures IdsOf(tops) == IdsOf(tops[..|tops| - 1]) + {tops[|tops| - 1].id}
    ensures tops[|tops| - 1].id !in IdsOf(tops[..|tops| - 1])
  {
    var init, t := tops[..|tops| - 1], tops[|tops| - 1];
    forall c | c in init ensures c.id != t.id {
      var i :| 0 <= i < |init| && init[i] == c;
      assert tops[i] == c;
    }
    assert tops == init + [t];
  }

  /** With `id` not among `ids`, "replies to one of `ids` or to `id`" splits into two
      exclusive tests. */
  lemma ParentInSplit(ids: set<string>, id: string, flat: seq<Comment>)
    requires id !in ids
    ensures forall i :: 0 <= i < |flat| ==>
              ParentIn(ids + {id})(flat[i]) == (ParentIn(ids)(flat[i]) || ReplyOf(id)(flat[i]))
              && !(ParentIn(ids)(flat[i]) && ReplyOf(id)(flat[i]))
  {
  }

  /** When every reply answers a top-level comment of the list and no id is empty, the
      heading counts every comment of the list exactly once. */
  lemma ThreadsCountAll(flat: seq<Comment>)
    requires UniqueIds(flat)
    requires forall c :: c in flat ==> c.id != ""
    requires forall c :: c in flat && IsReply(c) ==> exists d :: d in flat && !IsReply(d) && c.parentCommentId == Some(d.id)
    ensures ThreadCount(Threads(flat)) == |flat|
  {
    var top := TopLevel(flat);
    ThreadCountOfThreads(flat, |top|);
    assert Threads(flat)[..|top|] == Threads(flat) && top[..|top|] == top;
    TopLevelDistinct(flat);
    RepliesCountByParent(top, flat);
    var all := (c: Comment) => true;
    forall i | 0 <= i < |flat|
      ensures all(flat[i]) == (IsTopLevel(flat[i]) || ParentIn(IdsOf(top))(flat[i]))
      ensures !(IsTopLevel(flat[i]) && ParentIn(IdsOf(top))(flat[i]))
    {
      var c := flat[i];
      if IsReply(c) {
        var d :| d in flat && !IsReply(d) && c.parentCommentId == Some(d.id);
        assert d in top;
      } else if c.parentCommentId.Some? {
        assert c.parentCommentId.value == "";
        assert "" !in IdsOf(top);
      }
    }
    Seqs.FilterCountUnion(flat, IsTopLevel, ParentIn(IdsOf(top)), all);
    Seqs.FilterKeepsAll(flat, all);
  }

  /** The delete control is offered only to the comment's author. */
  predicate CanDelete(user: Option<User>, c: Comment) {
    user.Some? && user.value.id == c.userId
  }

  /** The comments the view shows, in display order: each top-level comment followed by its
      replies. */
  function Shown(threads: seq<Thread>): (cs: seq<Comment>)
    ensures forall c :: c in cs <==> exists t :: t in threads && (c == t.comment || c in t.replies)
    decreases |threads|
  {
    if threads == [] then []
    else
      var rest := Shown(threads[1..]);
      assert forall t :: t in threads <==> t == threads[0] || t in threads[1..];
      [threads[0].comment] + threads[0].replies + rest
  }

  /** Adding a thread at the end shows its comment and then its replies after the rest. */
  lemma {:induction false} ShownSnoc(a: seq<Thread>, t: Thread)
    ensures Shown(a + [t]) == Shown(a) + [t.comment] + t.replies
    decreases |a|
  {
    if a == [] {
      assert a + [t] == [t] && [t][1..] == [];
    } else {
      assert (a + [t])[0] == a[0] && (a + [t])[1..] == a[1..] + [t];
      ShownSnoc(a[1..], t);
    }
  }

  /** The heading counts exactly the comments the view shows. */
  lemma {:induction false} ThreadCountIsShown(threads: seq<Thread>)
    ensures ThreadCount(threads) == |Shown(threads)|
    decreases |threads|
  {
    if threads != [] {
      var init, last := threads[..|threads| - 1], threads[|threads| - 1];
      ThreadCountIsShown(init);
      ShownSnoc(init, last);
      assert init + [last] == threads;
    }
  }

  /** The test of the delete control for one signed-in state. */
  function DeletableBy(user: Option<User>): Comment -> bool {
    (c: Comment) => CanDelete(user, c)
  }

  /** The comments whose delete control is rendered, in display order. */
  function DeleteControls(user: Option<User>, threads: seq<Thread>): (cs: seq<Comment>)
    ensures user.None? ==> cs == []
    ensures forall c :: c in cs <==> c in Shown(threads) && user.Some? && c.userId == user.value.id
  {
    if user.None? then
      Seqs.FilterDropsAll(Shown(threads), DeletableBy(user));
      []
    else
      Seqs.Filter(Shown(threads), DeletableBy(user))
  }

  /** In the view of a fetched list, a comment has a delete control exactly when the signed-in
      user wrote it and it is shown: it is top-level, or it replies to a top-level comment. */
  lemma DeleteControlsOfView(user: Option<User>, flat: seq<Comment>, c: Comment)
    ensures c in DeleteControls(user, Threads(flat)) <==>
              user.Some? && c.userId == user.value.id && c in flat
              && (!IsReply(c) || exists d :: d in flat && !IsReply(d) && c.parentCommentId == Some(d.id))
  {
    ShownOfView(flat, c);
  }

  /** The view of a fetched list shows a comment exactly when it is top-level or replies to a
      top-level comment. */
  lemma ShownOfView(flat: seq<Comment>, c: Comment)
    ensures c in Shown(Threads(flat)) <==>
              c in flat && (!IsReply(c) || exists d :: d in flat && !IsReply(d) && c.parentCommentId == Some(d.id))
  {
    ThreadsShape(flat);
    var ts := Threads(flat);
    if c in flat && IsReply(c) && (exists d :: d in flat && !IsReply(d) && c.parentCommentId == Some(d.id)) {
      var d :| d in flat && !IsReply(d) && c.parentCommentId == Some(d.id);
      var t :| t in ts && t.comment == d;
      assert c in t.replies;
    }
  }

  /** The comment section of one post. */
  class Section {
    const postId: string
    var comments: seq<Thread>
    var newComment: string
    var replyingTo: Option<string>
    var replyContent: string

    constructor (postId: string)
      ensures this.postId == postId
      ensures comments == [] && newComment == "" && replyingTo.None? && replyContent == ""
    {
      this.postId := postId;
      comments, newComment, replyingTo, replyContent := [], "", None, "";
    }

    /** `fetchComments`: a successful fetch replaces the list with its threaded view. */
    method FetchComments(fetched: Option<seq<FetchedComment>>)
      modifies this`comments
      ensures comments == Refreshed(old(comments), fetched)
    {
      if fetched.Some? {
        comments := BuildThreads(WithEmails(fetched.value));
      }
    }

    /** `handleAddComment`: a blank draft does nothing; otherwise the provider adds the comment,
        and unless that throws the draft is cleared and the new comment is appended (or the list
        re-fetched when the provider returned nothing). */
    method HandleAddComment(p: PostsProvider, response: Response<CommentRow>, refetch: Option<seq<FetchedComment>>)
      returns (sent: Option<Request>)
      requires p.Valid()
      modifies this`comments, this`newComment, p
      ensures p.Valid()
      ensures IsBlank(old(newComment)) ==>
                sent.None? && p.State() == old(p.State()) && comments == old(comments) && newComment == old(newComment)
      ensures !IsBlank(old(newComment)) ==>
                sent == AddCommentRequest(old(p.State()), postId, old(newComment), None)
                && p.State() == CommentAdded(old(p.State()), response)
      ensures !IsBlank(old(newComment)) && sent.Some? && response.Error? ==>
                newComment == old(newComment) && comments == old(comments)
      ensures !IsBlank(old(newComment)) && !(sent.Some? && response.Error?) ==>
                newComment == ""
                && comments == match NewComment(old(p.State()), response)
                               case Some(c) => old(comments) + [Thread(c, [])]
                               case None => Refreshed(old(comments), refetch)
    {
      if IsBlank(newComment) {
        return None;
      }
      var thrown, added;
      sent, thrown, added := p.AddComment(postId, newComment, None, response);
      if thrown.Some? {
        return;
      }
      newComment := "";
      if added.Some? {
        comments := comments + [Thread(added.value, [])];
      } else {
        FetchComments(refetch);
      }
    }

    /** `handleReply`: a blank reply does nothing; otherwise the provider adds it, and unless
        that throws the reply form is reset and the reply goes at the end of its parent's
        replies (or the list is re-fetched when the provider returned nothing). */
    method HandleReply(parentId: string, p: PostsProvider, response: Response<CommentRow>, refetch: Option<seq<FetchedComment>>)
      returns (sent: Option<Request>)
      requires p.Valid()
      modifies this`comments, this`replyContent, this`replyingTo, p
      ensures p.Valid()
      ensures IsBlank(old(replyContent)) ==>
                sent.None? && p.State() == old(p.State()) && comments == old(comments)
                && replyContent == old(replyContent) && replyingTo == old(replyingTo)
      ensures !IsBlank(old(replyContent)) ==>
                sent == AddCommentRequest(old(p.State()), postId, old(replyContent), Some(parentId))
                && p.State() == CommentAdded(old(p.State()), response)
      ensures !IsBlank(old(replyContent)) && sent.Some? && response.Error? ==>
                comments == old(comments) && replyContent == old(replyContent) && replyingTo == old(replyingTo)
      ensures !IsBlank(old(replyContent)) && !(sent.Some? && response.Error?) ==>
                replyContent == "" && replyingTo.None?
                && comments == match NewComment(old(p.State()), response)
                               case Some(c) => AppendReply(old(comments), parentId, c)
                               case None => Refreshed(old(comments), refetch)
    {
      if IsBlank(replyContent) {
        return None;
      }
      var thrown, added;
      sent, thrown, added := p.AddComment(postId, replyContent, Some(parentId), response);
      if thrown.Some? {
        return;
      }
      replyContent := "";
      replyingTo := None;
      if added.Some? {
        comments := AppendReply(comments, parentId, added.value);
      } else {
        FetchComments(refetch);
      }
    }

    /** `handleDelete`: once confirmed, the provider deletes the comment and the list is re-fetched. */
    method HandleDelete(commentId: string, confirmed: bool, p: PostsProvider, outcome: Outcome, refetch: Option<seq<FetchedComment>>)
      returns (sent: Option<Request>)
      requires p.Valid()
      modifies this`comments, p
      ensures p.Valid()
      ensures !confirmed ==> sent.None? && p.State() == old(p.State()) && comments == old(comments)
      ensures confirmed ==> sent == Some(CommentDelete(commentId))
                            && p.State() == CommentDeleted(old(p.State()), commentId, outcome)
                            && comments == Refreshed(old(comments), refetch)
    {
      if !confirmed {
        return None;
      }
      sent := p.DeleteComment(commentId, outcome);
      FetchComments(refetch);
    }

    /** The Reply button opens the reply form under one comment. */
    method StartReply(commentId: string)
      modifies this`replyingTo
      ensures replyingTo == Some(commentId)
    {
      replyingTo := Some(commentId);
    }

    /** The Cancel button closes the reply form and drops its text. */
    method CancelReply()
      modifies this`replyingTo, this`replyContent
      ensures replyingTo.None? && replyContent == ""
    {
      replyingTo, replyContent := None, "";
    }
  }
}
