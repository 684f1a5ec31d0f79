/** The listing page (`PostsPage`): the signed-in user's drafts, their saved posts, or all
    published posts, chosen by the `filter` query parameter. */
module PostsPage {
  import opened Wrappers
  import opened Types
  import opened Text
  import Seqs
  import opened PostsContext
  import HomePage

  /** The test of the drafts filter: a draft written by that user. */
  function OwnDraftOf(userId: string): BlogPost -> bool {
    (p: BlogPost) => p.isDraft && p.userId == userId
  }

  /** `posts.filter(p => p.isDraft && p.userId === user.id)`, in list order. */
  function UserDrafts(s: Store, userId: string): (r: seq<BlogPost>)
    ensures forall p :: p in r <==> p in s.posts && p.isDraft && p.userId == userId
    ensures r == Seqs.Filter(s.posts, OwnDraftOf(userId))
  {
    Seqs.Filter(s.posts, OwnDraftOf(userId))
  }

  /** What the page shows once a user is signed in. */
  datatype Listing = Listing(title: string, posts: seq<BlogPost>)

  /** The page: nothing without a user (it redirects home), otherwise the listing the filter
      selects; any filter value other than "drafts" and "saved" lists all published posts. */
  function Page(s: Store, filter: Option<string>): (r: Option<Listing>)
    ensures r.None? <==> s.user.None?
    ensures r.Some? && filter == Some("drafts") ==>
              r.value.title == "My Drafts" && r.value.posts == UserDrafts(s, s.user.value.id)
              && forall p :: p in r.value.posts <==> p in s.posts && p.isDraft && p.userId == s.user.value.id
    ensures r.Some? && filter == Some("saved") ==>
              r.value.title == "Saved Posts" && r.value.posts == GetBookmarkedPosts(s)
              && forall p :: p in r.value.posts <==> p in s.posts && p.id in s.userBookmarks
    ensures r.Some? && filter != Some("drafts") && filter != Some("saved") ==>
              r.value.title == "All Posts" && r.value.posts == HomePage.PublishedPosts(s)
              && forall p :: p in r.value.posts <==> p in s.posts && !p.isDraft
  {
    if s.user.None? then None
    else if filter == Some("drafts") then Some(Listing("My Drafts", UserDrafts(s, s.user.value.id)))
    else if filter == Some("saved") then Some(Listing("Saved Posts", GetBookmarkedPosts(s)))
    else Some(Listing("All Posts", HomePage.PublishedPosts(s)))
  }

  /** Where a card links: the editor for drafts, the post page otherwise. */
  function LinkTarget(filter: Option<string>, postId: string): (r: string)
    ensures filter == Some("drafts") ==> r == "/edit/" + postId
    ensures filter != Some("drafts") ==> r == "/post/" + postId
  {
    (if filter == Some("drafts") then "/edit/" else "/post/") + postId
  }

  /** `body.replace(/<[^>]*>/g, '').substring(0, n)` followed by "...", whatever the length. */
  function Snippet(body: string, n: nat): (r: string)
    ensures 3 <= |r| <= n + 3 && |r| - 3 <= |StripTags(body)| && r[|r| - 3..] == "..."
    ensures r[..|r| - 3] == StripTags(body)[..|r| - 3]
    ensures |StripTags(body)| <= n ==> r[..|r| - 3] == StripTags(body)
    ensures |StripTags(body)| > n ==> |r| == n + 3
  {
    Prefix(StripTags(body), n) + "..."
  }

  /** A card's excerpt: 150 characters of the stripped body and "...". */
  function CardExcerpt(body: string): (r: string)
    ensures |r| <= 153
  {
    Snippet(body, 150)
  }

  /** Unlike the feed's excerpt, a card's excerpt of a short tag-free body still ends in "...". */
  lemma ShortCardStillEllipsized(body: string)
    requires TagFree(body) && |body| <= 150
    ensures CardExcerpt(body) == body + "..."
    ensures HomePage.GetExcerpt(body, 150) == body
  {
    StripTagsOfTagFree(body);
  }

  /** The saved listing does not hide drafts: every bookmarked post is listed, draft or not. */
  lemma SavedListsBookmarkedDrafts(s: Store, p: BlogPost)
    requires s.user.Some? && p in s.posts && p.isDraft && p.id in s.userBookmarks
    ensures p in Page(s, Some("saved")).value.posts
    ensures p !in Page(s, None).value.posts
  {
  }
}
