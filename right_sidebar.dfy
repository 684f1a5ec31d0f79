/** The sidebar (`RightSidebar`): up to five of the user's drafts and saved posts, with a
    "see all" link when there are more, or a message when there are neither. */
module RightSidebar {
  import opened Wrappers
  import opened Types
  import Seqs
  import opened PostsContext
  import PostsPage

  /** How many entries a section shows. */
  const ShownMax: nat := 5

  /** One section: the entries it lists, and the total its "see all" link shows, if any. */
  datatype Section = Section(entries: seq<BlogPost>, seeAll: Option<nat>)

  /** The two optional sections and whether the empty-state message shows. */
  datatype SidebarView = SidebarView(drafts: Option<Section>, saved: Option<Section>, emptyMessage: bool)

  /** A section over a list: none when the list is empty; otherwise its first five entries, and
      a "see all" link with the total when there are more than five. */
  function MakeSection(list: seq<BlogPost>): (r: Option<Section>)
    ensures r.None? <==> list == []
    ensures r.Some? ==> |r.value.entries| == (if |list| < ShownMax then |list| else ShownMax)
                        && r.value.entries == list[..|r.value.entries|]
                        && (r.value.seeAll.Some? <==> |list| > ShownMax)
                        && (r.value.seeAll.Some? ==> r.value.seeAll.value == |list|)
  {
    if list == [] then None
    else Some(Section(Seqs.Take(list, ShownMax), if |list| > ShownMax then Some(|list|) else None))
  }

  /** The user's drafts, or none without a user. */
  function Drafts(s: Store): (r: seq<BlogPost>)
    ensures s.user.None? ==> r == []
    ensures s.user.Some? ==> r == PostsPage.UserDrafts(s, s.user.value.id)
    ensures forall p :: p in r <==> s.user.Some? && p in s.posts && p.isDraft && p.userId == s.user.value.id
  {
    if s.user.Some? then PostsPage.UserDrafts(s, s.user.value.id) else []
  }

  /** The user's saved posts, or none without a user. */
  function Saved(s: Store): (r: seq<BlogPost>)
    ensures s.user.None? ==> r == []
    ensures s.user.Some? ==> r == GetBookmarkedPosts(s)
    ensures forall p :: p in r <==> s.user.Some? && p in s.posts && p.id in s.userBookmarks
  {
    if s.user.Some? then GetBookmarkedPosts(s) else []
  }

  /** The sidebar: nothing without a user; with one, each non-empty section, and the message
      exactly when both sections are absent. */
  function View(s: Store): (v: SidebarView)
    ensures s.user.None? ==> v == SidebarView(None, None, false)
    ensures v.drafts == MakeSection(Drafts(s)) && v.saved == MakeSection(Saved(s))
    ensures v.emptyMessage <==> s.user.Some? && v.drafts.None? && v.saved.None?
    ensures v.drafts.Some? ==> forall p :: p in v.drafts.value.entries ==> p in s.posts && p.isDraft && p.userId == s.user.value.id
    ensures v.saved.Some? ==> forall p :: p in v.saved.value.entries ==> p in s.posts && p.id in s.userBookmarks
  {
    var drafts := Drafts(s);
    var saved := Saved(s);
    SidebarView(MakeSection(drafts), MakeSection(saved), s.user.Some? && drafts == [] && saved == [])
  }

  /** The empty-state message shows exactly to a signed-in user who has written no draft and
      whose bookmarks name no post of the list; each section shows at most five entries. */
  lemma SidebarMessageAndCap(s: Store)
    ensures View(s).emptyMessage <==>
              s.user.Some? && forall p :: p in s.posts ==> !(p.isDraft && p.userId == s.user.value.id) && p.id !in s.userBookmarks
    ensures View(s).drafts.Some? ==> |View(s).drafts.value.entries| <= ShownMax
    ensures View(s).saved.Some? ==> |View(s).saved.value.entries| <= ShownMax
  {
    if s.user.Some? && Drafts(s) != [] {
      assert Drafts(s)[0] in Drafts(s);
    }
    if s.user.Some? && Saved(s) != [] {
      assert Saved(s)[0] in Saved(s);
    }
  }

  /** Each section previews the listing its "see all" link opens: its entries are the first
      entries of that listing, and the link's total is the listing's length. */
  lemma SectionsPreviewListings(s: Store)
    requires s.user.Some?
    ensures var v := View(s);
            var drafts := PostsPage.Page(s, Some("drafts")).value.posts;
            var saved := PostsPage.Page(s, Some("saved")).value.posts;
            (v.drafts.Some? ==> v.drafts.value.entries == drafts[..|v.drafts.value.entries|]
                                && (v.drafts.value.seeAll.Some? ==> v.drafts.value.seeAll.value == |drafts|))
            && (v.saved.Some? ==> v.saved.value.entries == saved[..|v.saved.value.entries|]
                                  && (v.saved.value.seeAll.Some? ==> v.saved.value.seeAll.value == |saved|))
  {
  }
}
