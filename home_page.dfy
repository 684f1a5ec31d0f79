/** The home feed (`Home`): the published posts, each with an excerpt of its body and the
    number of its top-level comments. */
module HomePage {
  import opened Wrappers
  import opened Types
  import opened Text
  import Seqs
  import opened PostsContext

  /** The default excerpt length of the feed. */
  const ExcerptLength: nat := 140

  /** `getExcerpt`: the tag-stripped body when it is short enough, otherwise its first `length`
      characters, trimmed, followed by "...". */
  function GetExcerpt(text: string, length: nat): (r: string)
    ensures |StripTags(text)| <= length ==> r == StripTags(text)
    ensures |StripTags(text)| > length ==>
              3 <= |r| <= length + 3 && r[|r| - 3..] == "..."
              && TrimmedOf(r[..|r| - 3], StripTags(text)[..length])
  {
    var stripped := StripTags(text);
    if |stripped| <= length then stripped
    else
      var core := Trim(Prefix(stripped, length));
      assert (core + "...")[..|core|] == core;
      core + "..."
  }

  /** No excerpt holds a tag. */
  lemma ExcerptIsTagFree(text: string, length: nat)
    ensures TagFree(GetExcerpt(text, length))
  {
    var stripped := StripTags(text);
    StripTagsIsTagFree(text);
    if |stripped| > length {
      var u := Prefix(stripped, length);
      TagFreeSlice(stripped, 0, |u|);
      TagFreeTrim(u);
      TagFreeAppend(Trim(u), "...");
    }
  }

  /** An excerpt of a text that is already tag-free and short is the text itself. */
  lemma ShortExcerptIsWholeText(text: string, length: nat)
    requires TagFree(text) && |text| <= length
    ensures GetExcerpt(text, length) == text
  {
    StripTagsOfTagFree(text);
  }

  /** The test of the feed's filter. */
  predicate IsPublished(p: BlogPost) {
    !p.isDraft
  }

  /** `posts.filter(post => !post.isDraft)`, in list order. */
  function PublishedPosts(s: Store): (r: seq<BlogPost>)
    ensures forall p :: p in r <==> p in s.posts && !p.isDraft
    ensures r == Seqs.Filter(s.posts, IsPublished)
  {
    Seqs.Filter(s.posts, IsPublished)
  }

  /** The feed's comment badge: `getComments(post.id).length`, the number of positions of the
      comment list that hold a top-level comment of that post. */
  function CommentBadge(s: Store, postId: string): (n: nat)
    ensures n <= |s.comments|
    ensures n == |Seqs.KeptIndices(s.comments, TopLevelOf(postId))|
  {
    Seqs.FilterIsSelection(s.comments, TopLevelOf(postId));
    |GetComments(s, postId)|
  }

  /** A reply never moves the feed's comment badge of any post: only top-level comments count. */
  lemma ReplyLeavesBadge(s: Store, response: Response<CommentRow>, postId: string)
    requires response.Data? && Truthy(response.row.parentCommentId)
    ensures CommentBadge(CommentAdded(s, response), postId) == CommentBadge(s, postId)
  {
    var t := CommentAdded(s, response);
    if NewComment(s, response).Some? {
      var c := NewComment(s, response).value;
      Seqs.FilterConcat(s.comments, [c], TopLevelOf(postId));
      assert [c][1..] == [];
    }
  }

  /** A new top-level comment on a post adds one to that post's badge. */
  lemma CommentRaisesBadge(s: Store, response: Response<CommentRow>)
    requires s.user.Some? && response.Data? && !Truthy(response.row.parentCommentId)
    ensures CommentBadge(CommentAdded(s, response), response.row.postId) == CommentBadge(s, response.row.postId) + 1
  {
    var c := NewComment(s, response).value;
    Seqs.FilterConcat(s.comments, [c], TopLevelOf(response.row.postId));
    assert [c][1..] == [];
  }

  /** A post saved as a draft does not change the feed. */
  lemma DraftStaysOffFeed(s: Store, row: PostRow)
    requires row.isDraft == Some(true)
    ensures PublishedPosts(PostAdded(s, Data(row))) == PublishedPosts(s)
  {
    if s.user.Some? {
      var t := PostAdded(s, Data(row));
      assert t.posts == [t.posts[0]] + s.posts;
      Seqs.FilterConcat([t.posts[0]], s.posts, IsPublished);
      assert [t.posts[0]][1..] == [];
    }
  }

  /** A post published without the draft flag goes to the top of the feed. */
  lemma PublishedPostLeadsFeed(s: Store, row: PostRow)
    requires s.user.Some? && row.isDraft != Some(true)
    ensures PublishedPosts(PostAdded(s, Data(row))) == [InsertedPost(row)] + PublishedPosts(s)
  {
    var t := PostAdded(s, Data(row));
    assert t.posts == [InsertedPost(row)] + s.posts;
    Seqs.FilterConcat([InsertedPost(row)], s.posts, IsPublished);
    assert [InsertedPost(row)][1..] == [];
  }

  /** Publishing a draft through `updatePost` puts the server's record on the feed. */
  lemma PublishingShowsPost(s: Store, id: string, row: PostRow)
    requires GetPost(s, id).Some? && row.id == id && row.isDraft != Some(true)
    ensures PostFromRow(row) in PublishedPosts(PostUpdated(s, id, Data(row)))
  {
    var i :| 0 <= i < |s.posts| && s.posts[i].id == id;
    var t := PostUpdated(s, id, Data(row));
    assert t.posts[i] == PostFromRow(row);
  }
}
