/** The like button of a post: what it shows and what a click does (`LikeButton`). */
module LikeButton {
  import opened Wrappers
  import opened Types
  import opened PostsContext

  /** What the button shows: whether the post is liked and its count. */
  datatype ButtonView = ButtonView(liked: bool, count: int)

  function Render(s: Store, postId: string): (v: ButtonView)
    ensures v.liked <==> postId in s.userLikes
    ensures postId !in s.likeCounts ==> v.count == 0
    ensures postId in s.likeCounts ==> v.count == s.likeCounts[postId]
  {
    ButtonView(IsPostLiked(s, postId), GetLikeCount(s, postId))
  }

  /** What a click asks for: the sign-in alert, an unlike or a like. */
  datatype Action = SignInAlert | Unlike | Like

  /** The decision of `handleClick`. */
  function ClickAction(s: Store, postId: string): (a: Action)
    ensures a.SignInAlert? <==> s.user.None?
    ensures a.Unlike? <==> s.user.Some? && postId in s.userLikes
    ensures a.Like? <==> s.user.Some? && postId !in s.userLikes
  {
    if s.user.None? then SignInAlert
    else if IsPostLiked(s, postId) then Unlike
    else Like
  }

  /** The provider's state after one click whose remote write had `outcome`. */
  function Clicked(s: Store, postId: string, outcome: Outcome): Store {
    match ClickAction(s, postId)
    case SignInAlert => s
    case Unlike => PostUnliked(s, postId, outcome)
    case Like => PostLiked(s, postId, outcome)
  }

  /** The provider's state after a series of clicks, one outcome per click. */
  function Clicks(s: Store, postId: string, outcomes: seq<Outcome>): Store
    decreases |outcomes|
  {
    if outcomes == [] then s else Clicks(Clicked(s, postId, outcomes[0]), postId, outcomes[1..])
  }

  /** The post's count is not negative, and at least one when the user likes it. */
  predicate Consistent(s: Store, postId: string) {
    LikeCount(s.likeCounts, postId) >= (if postId in s.userLikes then 1 else 0)
  }

  /** Any series of clicks by a signed-in user has exactly its net effect: the like flips once
      per successful click and nothing else changes. When the post's count agrees with the
      like, it keeps agreeing and moves with the like; when it does not, see
      `CountDriftsFromUncountedLike`. */
  lemma {:induction false} ClicksNetEffect(s: Store, postId: string, outcomes: seq<Outcome>)
    requires s.user.Some?
    ensures var t := Clicks(s, postId, outcomes);
            && t == s.(userLikes := t.userLikes, likeCounts := t.likeCounts)
            && (postId in t.userLikes <==> (postId in s.userLikes) != (SuccessCount(outcomes) % 2 == 1))
            && (forall q :: q != postId ==> (q in t.userLikes <==> q in s.userLikes)
                                            && LikeCount(t.likeCounts, q) == LikeCount(s.likeCounts, q))
            && (Consistent(s, postId) ==>
                  Consistent(t, postId)
                  && LikeCount(t.likeCounts, postId) ==
                       LikeCount(s.likeCounts, postId)
                       + (if SuccessCount(outcomes) % 2 == 0 then 0 else if postId in s.userLikes then -1 else 1))
    decreases |outcomes|
  {
    if outcomes != [] {
      var s1 := Clicked(s, postId, outcomes[0]);
      ClicksNetEffect(s1, postId, outcomes[1..]);
    }
  }

  /** Two successful clicks give back the original like, and the original count when the count
      agreed with the like. */
  lemma TwoClicksRestore(s: Store, postId: string)
    requires s.user.Some?
    ensures var t := Clicks(s, postId, [Success, Success]);
            t.userLikes == s.userLikes
            && (Consistent(s, postId) ==> LikeCount(t.likeCounts, postId) == LikeCount(s.likeCounts, postId))
  {
    var os := [Success, Success];
    ClicksNetEffect(s, postId, os);
    assert SuccessCount(os) == 2 by {
      assert os[1..] == [Success];
      assert os[1..][1..] == [];
    }
    var t := Clicks(s, postId, os);
    assert forall q :: q in t.userLikes <==> q in s.userLikes;
  }

  /** The count is not restored when it did not agree with the like: from a liked post whose
      count is 0, an unlike keeps 0 (the decrement is floored) and the like that follows makes
      it 1. */
  lemma CountDriftsFromUncountedLike(s: Store, postId: string)
    requires s.user.Some? && postId in s.userLikes && LikeCount(s.likeCounts, postId) == 0
    ensures var t := Clicks(s, postId, [Success, Success]);
            postId in t.userLikes && LikeCount(t.likeCounts, postId) == 1
  {
    var os := [Success, Success];
    assert os[1..] == [Success] && os[1..][1..] == [];
    var s1 := Clicked(s, postId, Success);
    assert postId !in s1.userLikes && LikeCount(s1.likeCounts, postId) == 0;
  }

  /** Such a state is reached at start-up when the user's likes load but the query of all likes
      fails: the post is liked and has no count. */
  lemma UncountedLikeReachable(u: User, row: PostRow)
    ensures var t := Initialized(InitialStore, Resolved(Some(u)), Some([row]), None, None, Some([row.id]), Some([]));
            t.user.Some? && row.id in t.userLikes && LikeCount(t.likeCounts, row.id) == 0
            && !Consistent(t, row.id)
  {
    var t := Initialized(InitialStore, Resolved(Some(u)), Some([row]), None, None, Some([row.id]), Some([]));
    assert row.id in IdSet([row.id]);
  }

  /** `handleClick`: without a user only the alert; otherwise an unlike when liked, a like when not. */
  method HandleClick(p: PostsProvider, postId: string, outcome: Outcome) returns (sent: Option<Request>, alerted: bool)
    requires p.Valid()
    modifies p
    ensures p.Valid()
    ensures alerted <==> old(p.user).None?
    ensures old(p.user).None? ==> sent.None?
    ensures old(p.user).Some? ==>
              sent == Some(if postId in old(p.userLikes) then LikeDelete(postId, old(p.user).value.id)
                           else LikeInsert(postId, old(p.user).value.id))
    ensures p.State() == Clicked(old(p.State()), postId, outcome)
  {
    alerted := p.user.None?;
    if alerted {
      return None, true;
    }
    if postId in p.userLikes {
      sent := p.UnlikePost(postId, outcome);
    } else {
      sent := p.LikePost(postId, outcome);
    }
  }
}
