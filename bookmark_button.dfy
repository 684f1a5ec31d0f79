/** The bookmark button of a post: what it shows and what a click does (`BookmarkButton`). */
module BookmarkButton {
  import opened Wrappers
  import opened Types
  import opened PostsContext

  /** What the button shows: its tooltip and, when saved, the "Saved" badge. */
  datatype ButtonView = ButtonView(title: string, badge: Option<string>)

  function Render(s: Store, postId: string): (v: ButtonView)
    ensures v.badge == Some("Saved") <==> postId in s.userBookmarks
    ensures v.badge.None? <==> postId !in s.userBookmarks
    ensures v.title == "Remove bookmark" <==> postId in s.userBookmarks
    ensures v.title == "Bookmark for later" <==> postId !in s.userBookmarks
  {
    if IsPostBookmarked(s, postId) then ButtonView("Remove bookmark", Some("Saved"))
    else ButtonView("Bookmark for later", None)
  }

  /** The provider's state after one click whose remote write had `outcome`: nothing without
      a user, an unbookmark when bookmarked, a bookmark otherwise. */
  function Clicked(s: Store, postId: string, outcome: Outcome): Store {
    if s.user.None? then s
    else if IsPostBookmarked(s, postId) then PostUnbookmarked(s, postId, outcome)
    else PostBookmarked(s, postId, outcome)
  }

  /** The provider's state after a series of clicks, one outcome per click. */
  function Clicks(s: Store, postId: string, outcomes: seq<Outcome>): Store
    decreases |outcomes|
  {
    if outcomes == [] then s else Clicks(Clicked(s, postId, outcomes[0]), postId, outcomes[1..])
  }

  /** Any series of clicks by a signed-in user flips the bookmark once per successful click and
      changes nothing else. */
  lemma {:induction false} ClicksNetEffect(s: Store, postId: string, outcomes: seq<Outcome>)
    requires s.user.Some?
    ensures var t := Clicks(s, postId, outcomes);
            && t == s.(userBookmarks := t.userBookmarks)
            && (postId in t.userBookmarks <==> (postId in s.userBookmarks) != (SuccessCount(outcomes) % 2 == 1))
            && forall q :: q != postId ==> (q in t.userBookmarks <==> q in s.userBookmarks)
    decreases |outcomes|
  {
    if outcomes != [] {
      ClicksNetEffect(Clicked(s, postId, outcomes[0]), postId, outcomes[1..]);
    }
  }

  /** Without a user, no series of clicks changes anything. */
  lemma {:induction false} SignedOutClicksChangeNothing(s: Store, postId: string, outcomes: seq<Outcome>)
    requires s.user.None?
    ensures Clicks(s, postId, outcomes) == s
    decreases |outcomes|
  {
    if outcomes != [] {
      SignedOutClicksChangeNothing(s, postId, outcomes[1..]);
    }
  }

  /** `handleClick`: without a user only the alert; otherwise an unbookmark when bookmarked,
      a bookmark when not. */
  method HandleClick(p: PostsProvider, postId: string, outcome: Outcome) returns (sent: Option<Request>, alerted: bool)
    requires p.Valid()
    modifies p
    ensures p.Valid()
    ensures alerted <==> old(p.user).None?
    ensures old(p.user).None? ==> sent.None?
    ensures old(p.user).Some? ==>
              sent == Some(if postId in old(p.userBookmarks) then BookmarkDelete(postId, old(p.user).value.id)
                           else BookmarkInsert(postId, old(p.user).value.id))
    ensures p.State() == Clicked(old(p.State()), postId, outcome)
  {
    alerted := p.user.None?;
    if alerted {
      return None, true;
    }
    if postId in p.userBookmarks {
      sent := p.UnbookmarkPost(postId, outcome);
    } else {
      sent := p.BookmarkPost(postId, outcome);
    }
  }
}
