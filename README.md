# Blog client store and views, in Dafny

This project models the client side of a small blogging application. At its centre is the
`PostsProvider` store, which mirrors the remote posts, likes, bookmarks and comments. Around
it sit the views that read the store and call it.

The store holds five local collections: the post list, the user's liked and bookmarked post ids,
the like count per post, and the comment list. Most mutating operations follow the same rule.
They do nothing when nobody is signed in. They send one remote write. Only when that write
succeeds do they change the local collections, and then by an exact amount: a prepend, a
replace-by-id, a filter-out-by-id, a set insert or removal, a count +1, or a count −1 floored at 0.
The exceptions, each modelled as written:

- `updatePost`, `deletePost` and `deleteComment` do not check for a signed-in user; they send
  their write whoever is signed in.
- `signOut` clears the liked and bookmarked ids whatever the sign-out call returns.
- `incrementViewCount` checks for no user either, and it changes no local state at all: it only
  sends the incremented count of a known post.

How it is modelled:

- Each remote call is a parameter that carries its outcome. `Outcome` is used for writes that
  return nothing. `Response<T>` (record, no record, or error) is used for writes followed by
  `.select().single()`. `Option<seq<…>>` is used for reads.
- Each mutating method returns the `Request` it sent. When the source throws, the method also
  returns the error as `thrown`.
- The class `PostsContext.PostsProvider` keeps the store's fields. Each method ensures
  `State() == Transition(old(State()), …)`, where `Transition` is a pure function over the
  `Store` value. Those functions carry what each operation promises. The class invariant
  `Valid()` says that like counts are never negative.
- The views are modelled in one module each:
  - `CommentSection`: threading, adding comments and replies, deleting, counting.
  - `LikeButton` and `BookmarkButton`: what the buttons show and what a click does.
  - `HomePage`: excerpts, the published feed and the comment badge.
  - `PostsPage`: the drafts, saved and all-posts listings.
  - `RightSidebar`: the capped drafts and saved lists.
  - `TopNav`: the search box.
  - `CreatePage`: the word count, generation, saving a draft and publishing.
  - `ImageUpload`: file checks, the stored file name and the preview.
- Shared helpers live in `Wrappers`, `Seqs` (`filter`, `slice`, `find`) and `Text`. `Text`
  covers `trim`, the tag-stripping regular expression, `toLowerCase`, `includes` and
  `split(/\s+/)`.

The like count is not always restored by an unlike and a like. At start-up the user's likes
and the like counts come from two separate queries. When the second one fails, a liked post can
show a count of 0. An unlike then keeps 0, because the decrement is floored, and the like that
follows makes it 1. `LikeButton.UncountedLikeReachable` and
`LikeButton.CountDriftsFromUncountedLike` state this; the net-effect lemmas state the count only
for a count that agrees with the like.

## Model

| member | source | states |
|---|---|---|
| PostsContext.LikeCount | src/context/PostsContext.tsx:289 | a post with no entry counts 0, otherwise its entry |
| PostsContext.GetPost | src/context/PostsContext.tsx:252-254 | none exactly when no post has the id; otherwise the first post with that id |
| PostsContext.GetLikeCount | src/context/PostsContext.tsx:289 | 0 for a post with no entry, never negative while counts are valid |
| PostsContext.GetComments | src/context/PostsContext.tsx:326-328 | exactly the comments of that post that are not replies, in list order and multiplicity (the ordered filter, see `Seqs.FilterIsSelection`) |
| PostsContext.GetBookmarkedPosts | src/context/PostsContext.tsx:370-372 | exactly the posts whose id is bookmarked, in list order and multiplicity (the ordered filter) |
| PostsContext.FlagsFollowWrites | src/context/PostsContext.tsx:257-390 | a successful like or bookmark sets `isPostLiked`/`isPostBookmarked`, a successful unlike or unbookmark clears it, signing out clears every flag |
| PostsContext.AddPostRequest | src/context/PostsContext.tsx:172-186 | no insert without a user; otherwise the user's id, the title and body, `is_draft` only when given true, the image URL only when truthy |
| PostsContext.PostAdded | src/context/PostsContext.tsx:188-205 | with a user and a returned row the new post is at index 0 with the row's id, title, body, image, date and author, view count 0 and the row's draft flag, and the old list follows; otherwise nothing changes; only `posts` ever changes |
| PostsContext.ReplaceById | src/context/PostsContext.tsx:237 | same length; entries with the id become the update, all others are unchanged |
| PostsContext.PostUpdated | src/context/PostsContext.tsx:220-238 | a returned row replaces exactly the posts with that id; the length and the other fields of the store are unchanged |
| PostsContext.PostDeleted | src/context/PostsContext.tsx:241-250 | on success exactly the posts with that id are gone and the others keep their order (the ordered filter); on failure nothing changes |
| PostsContext.PostLiked | src/context/PostsContext.tsx:257-268 | on success with a user the post joins the likes and its count rises by exactly 1, other counts unchanged; otherwise nothing changes; counts stay non-negative |
| PostsContext.DecrementFloored | src/context/PostsContext.tsx:284 | `max(n - 1, 0)` is never negative and is n - 1 from 1 upwards |
| PostsContext.PostUnliked | src/context/PostsContext.tsx:270-286 | on success with a user the post leaves the likes and its count becomes max(c - 1, 0), other counts unchanged; otherwise nothing changes |
| PostsContext.AddCommentRequest | src/context/PostsContext.tsx:292-306 | no insert without a user; otherwise the user's id, post and content, and the parent only when truthy |
| PostsContext.NewComment | src/context/PostsContext.tsx:309-322 | a comment is returned exactly when there is a user and a returned row; it copies the row's id, post id, author id, content, parent and date, and carries the user's e-mail |
| PostsContext.CommentAdded | src/context/PostsContext.tsx:309-323 | the returned comment is appended at the end; otherwise nothing changes |
| PostsContext.CommentDeleted | src/context/PostsContext.tsx:330-336 | on success only comments with that id go, in order, replies to it stay; on failure nothing changes |
| PostsContext.PostBookmarked | src/context/PostsContext.tsx:339-349 | on success with a user the id joins the bookmarks; otherwise nothing changes |
| PostsContext.PostUnbookmarked | src/context/PostsContext.tsx:351-366 | on success with a user the id leaves the bookmarks; otherwise nothing changes |
| PostsContext.SignedOut | src/context/PostsContext.tsx:386-390 | likes and bookmarks are cleared; posts, comments, counts, user and loading flag are untouched |
| PostsContext.IdSet | src/context/PostsContext.tsx:114-119 | the set holds exactly the fetched ids |
| PostsContext.EngagementFetched | src/context/PostsContext.tsx:108-120 | each set is replaced by the fetched ids when its query returned data, and is kept otherwise |
| PostsContext.AuthChanged | src/context/PostsContext.tsx:152-164 | the user becomes the session's and loading ends; no session clears likes and bookmarks; posts, comments and counts are untouched |
| PostsContext.LikeTallyCounts | src/context/PostsContext.tsx:79-83 | the aggregated count of a post equals the number of like rows carrying its id; only liked posts get an entry |
| PostsContext.LikeTallyPositive | src/context/PostsContext.tsx:79-83 | every aggregated count is at least 1 |
| PostsContext.AggregateLikeCounts | src/context/PostsContext.tsx:79-83 | the `forEach` loop computes the like tally |
| PostsContext.PostsFetched | src/context/PostsContext.tsx:51-105 | fetched rows replace the posts in order; likes and comments are replaced only when there is at least one post and their query returned data |
| PostsContext.Initialized | src/context/PostsContext.tsx:123-148 | loading always ends; a failed auth lookup changes nothing else; a resolved one stores the user, and the posts, like counts and comments are those `PostsFetched` gives; with a user the likes and bookmarks are those `EngagementFetched` gives, without one they stay |
| PostsContext.DeletedPostIsGone | src/context/PostsContext.tsx:241-254 | after a successful delete no post with that id is found |
| PostsContext.UpdatedPostIsFound | src/context/PostsContext.tsx:208-254 | after a successful update of a known post, the post found under that id is the server's record |
| PostsContext.PostsProvider.constructor | src/context/PostsContext.tsx:40-46 | the initial state: no posts, no user, loading, empty sets, counts and comments |
| PostsContext.PostsProvider.AddPost | src/context/PostsContext.tsx:171-206 | sends the insert request, throws the service's error, and moves to `PostAdded` |
| PostsContext.PostsProvider.UpdatePost | src/context/PostsContext.tsx:208-239 | sends only the supplied fields, throws the service's error, and moves to `PostUpdated` |
| PostsContext.PostsProvider.DeletePost | src/context/PostsContext.tsx:241-250 | sends the delete, throws on failure, and moves to `PostDeleted` |
| PostsContext.PostsProvider.LikePost | src/context/PostsContext.tsx:257-268 | sends a like insert only with a user, and moves to `PostLiked` |
| PostsContext.PostsProvider.UnlikePost | src/context/PostsContext.tsx:270-286 | sends a like delete only with a user, and moves to `PostUnliked` |
| PostsContext.PostsProvider.AddComment | src/context/PostsContext.tsx:292-324 | sends the insert, throws the service's error, returns `NewComment`, and moves to `CommentAdded` |
| PostsContext.PostsProvider.DeleteComment | src/context/PostsContext.tsx:330-336 | sends the delete, never throws, and moves to `CommentDeleted` |
| PostsContext.PostsProvider.BookmarkPost | src/context/PostsContext.tsx:339-349 | sends a bookmark insert only with a user, and moves to `PostBookmarked` |
| PostsContext.PostsProvider.UnbookmarkPost | src/context/PostsContext.tsx:351-366 | sends a bookmark delete only with a user, and moves to `PostUnbookmarked` |
| PostsContext.PostsProvider.IncrementViewCount | src/context/PostsContext.tsx:375-384 | sends the local count plus one exactly for a known post, and changes no local state |
| PostsContext.PostsProvider.SignOut | src/context/PostsContext.tsx:386-390 | moves to `SignedOut` |
| PostsContext.PostsProvider.FetchUserEngagement | src/context/PostsContext.tsx:108-120 | moves to `EngagementFetched` |
| PostsContext.PostsProvider.AuthStateChange | src/context/PostsContext.tsx:152-164 | moves to `AuthChanged` |
| PostsContext.PostsProvider.FetchPosts | src/context/PostsContext.tsx:51-105 | moves to `PostsFetched`, building the counts with the aggregation loop |
| PostsContext.PostsProvider.InitAuth | src/context/PostsContext.tsx:123-148 | moves to `Initialized` |
| CommentSection.DisplayEmail | src/components/CommentSection.tsx:43 | a missing or empty e-mail becomes "Anonymous" |
| CommentSection.WithEmails | src/components/CommentSection.tsx:36-44 | one comment per fetched row, in order, with the row's id, post, author, content, parent and date, and the display e-mail (`email || 'Anonymous'`) |
| CommentSection.TopLevel | src/components/CommentSection.tsx:47 | exactly the comments that are not replies, in fetch order and multiplicity (the ordered filter) |
| CommentSection.RepliesTo | src/components/CommentSection.tsx:49 | exactly the comments whose parent is the given id, in fetch order and multiplicity (the ordered filter) |
| CommentSection.ThreadsShape | src/components/CommentSection.tsx:47-50 | the view holds exactly the top-level comments, in fetch order; each one's replies are the comments naming it as parent, in fetch order |
| CommentSection.Threads | src/components/CommentSection.tsx:47-50 | one thread per top-level comment, in fetch order |
| CommentSection.Refreshed | src/components/CommentSection.tsx:33-53 | a failed fetch keeps the list; a successful one gives exactly the threaded view of the fetched comments with their display e-mails, one thread per top-level comment in fetch order |
| CommentSection.OrphanReplyHidden | src/components/CommentSection.tsx:47-50 | a reply whose parent is not a top-level comment appears nowhere |
| CommentSection.ReplyToReplyHidden | src/components/CommentSection.tsx:47-50 | with unique ids, a reply to a reply appears nowhere |
| CommentSection.BuildThreads | src/components/CommentSection.tsx:47-50 | the `forEach` loop builds the threaded view |
| CommentSection.AppendReply | src/components/CommentSection.tsx:81-89 | the reply goes at the end of its parent's replies; every other thread and every top-level comment is unchanged |
| CommentSection.ThreadCount | src/components/CommentSection.tsx:114 | the count is at least the number of threads; `ThreadCountIsShown` and `ThreadsCountAll` give its value |
| CommentSection.ThreadCountIsShown | src/components/CommentSection.tsx:114 | the heading's count is exactly the number of comments the view shows, each thread's comment and its replies |
| CommentSection.ShownSnoc | src/components/CommentSection.tsx:166-270 | a thread added at the end is shown after the others, its comment first and then its replies in order |
| CommentSection.DisplayedCount | src/components/CommentSection.tsx:114 | signed in, the count of every thread with its replies; 0 when nobody is signed in |
| CommentSection.AppendCommentCount | src/components/CommentSection.tsx:62-63 | a new top-level comment adds exactly 1 to the count |
| CommentSection.AppendReplyCount | src/components/CommentSection.tsx:81-89 | a reply adds 1 to the count for each thread whose id is the parent's |
| CommentSection.CountWithId | src/components/CommentSection.tsx:81-89 | at most one per thread, and 0 exactly when no thread starts with that id |
| CommentSection.ReplyAddsOne | src/components/CommentSection.tsx:81-89 | with unique ids, a reply to a shown top-level comment adds exactly 1 to the count |
| CommentSection.ThreadsCountAll | src/components/CommentSection.tsx:114 | with unique non-empty ids and every reply answering a top-level comment, the heading counts every comment of the list exactly once |
| CommentSection.Shown | src/components/CommentSection.tsx:166-270 | the comments the view shows: exactly the thread heads and their replies |
| CommentSection.DeleteControls | src/components/CommentSection.tsx:193-262 | none without a user; otherwise exactly the shown comments the user wrote |
| CommentSection.ShownOfView | src/components/CommentSection.tsx:166-270 | the view of a fetched list shows a comment exactly when it is top-level or replies to a top-level comment; an orphan reply is not shown |
| CommentSection.DeleteControlsOfView | src/components/CommentSection.tsx:193-262 | in the view of a fetched list, a comment has a delete control exactly when the signed-in user wrote it and it is top-level or replies to a top-level comment |
| CommentSection.Section.constructor | src/components/CommentSection.tsx:14-18 | the section starts empty |
| CommentSection.Section.FetchComments | src/components/CommentSection.tsx:25-54 | a successful fetch replaces the list with its threaded view; a failed one keeps it |
| CommentSection.Section.HandleAddComment | src/components/CommentSection.tsx:56-70 | a blank draft does nothing; otherwise the provider adds the comment; unless that throws, the draft is cleared and the comment appended, or the list re-fetched |
| CommentSection.Section.HandleReply | src/components/CommentSection.tsx:72-96 | a blank reply does nothing; otherwise the provider adds it; unless that throws, the reply form is reset and the reply appended to its parent, or the list re-fetched |
| CommentSection.Section.HandleDelete | src/components/CommentSection.tsx:98-107 | nothing unless confirmed; otherwise the provider deletes and the list is re-fetched |
| CommentSection.Section.StartReply | src/components/CommentSection.tsx:186 | opens the reply form under that comment |
| CommentSection.Section.CancelReply | src/components/CommentSection.tsx:223-226 | closes the reply form and drops its text |
| LikeButton.Render | src/components/LikeButton.tsx:13-14 | liked exactly when in the user's likes; the count is 0 for a post with no entry |
| LikeButton.ClickAction | src/components/LikeButton.tsx:20-29 | the alert exactly without a user; unlike exactly when liked; like exactly when not |
| LikeButton.ClicksNetEffect | src/components/LikeButton.tsx:25-28 | for any series of clicks by a signed-in user the like flips once per successful click and nothing else changes; when the count agrees with the like, it moves with the like |
| LikeButton.TwoClicksRestore | src/components/LikeButton.tsx:25-28 | two successful clicks restore the original like, and the original count when it agreed with the like |
| LikeButton.CountDriftsFromUncountedLike | src/components/LikeButton.tsx:25-28 | from a liked post whose count is 0, two successful clicks leave it liked with count 1 |
| LikeButton.UncountedLikeReachable | src/context/PostsContext.tsx:123-148 | start-up with the user's likes loaded but the like-count query failed gives a liked post with count 0 |
| LikeButton.HandleClick | src/components/LikeButton.tsx:16-30 | alerts exactly without a user; otherwise sends an unlike when liked and a like when not |
| BookmarkButton.Render | src/components/BookmarkButton.tsx:38-43 | "Saved" and "Remove bookmark" exactly when bookmarked, "Bookmark for later" exactly when not |
| BookmarkButton.ClicksNetEffect | src/components/BookmarkButton.tsx:24-28 | any series of clicks flips the bookmark once per successful click and changes nothing else |
| BookmarkButton.SignedOutClicksChangeNothing | src/components/BookmarkButton.tsx:19-22 | without a user no series of clicks changes the store |
| BookmarkButton.HandleClick | src/components/BookmarkButton.tsx:15-29 | alerts exactly without a user; otherwise sends an unbookmark when bookmarked and a bookmark when not |
| HomePage.GetExcerpt | src/app/page.tsx:15-20 | a short stripped text is returned unchanged; a longer one is the first `length` stripped characters with only their leading and trailing white space removed, followed by "..." |
| HomePage.ExcerptIsTagFree | src/app/page.tsx:15-20 | no excerpt holds a tag |
| HomePage.ShortExcerptIsWholeText | src/app/page.tsx:17-18 | a short tag-free text is its own excerpt |
| HomePage.PublishedPosts | src/app/page.tsx:23 | exactly the non-draft posts, in list order (the ordered filter) |
| HomePage.CommentBadge | src/app/page.tsx:78 | the number of positions of the comment list holding a top-level comment of that post |
| HomePage.ReplyLeavesBadge | src/app/page.tsx:78 | adding a reply never changes any post's badge |
| HomePage.CommentRaisesBadge | src/app/page.tsx:78 | a new top-level comment adds exactly 1 to its post's badge |
| HomePage.DraftStaysOffFeed | src/app/page.tsx:23 | adding a draft leaves the feed unchanged |
| HomePage.PublishedPostLeadsFeed | src/app/page.tsx:23 | adding a published post puts it at the top of the feed |
| HomePage.PublishingShowsPost | src/app/page.tsx:23 | publishing a known post through an update puts the server's record on the feed |
| PostsPage.UserDrafts | src/app/posts/page.tsx:26 | exactly the user's own drafts, in list order (the ordered filter) |
| PostsPage.Page | src/app/posts/page.tsx:21-31 | nothing without a user; otherwise, by filter, exactly the ordered listing of the user's drafts, of the bookmarked posts, or of the published posts, with the matching heading; any other value means all posts |
| PostsPage.LinkTarget | src/app/posts/page.tsx:91 | drafts link to the editor, everything else to the post |
| PostsPage.Snippet | src/app/posts/page.tsx:98 | at most n characters of the stripped body, always followed by "..." |
| PostsPage.CardExcerpt | src/app/posts/page.tsx:98 | at most 153 characters |
| PostsPage.ShortCardStillEllipsized | src/app/posts/page.tsx:98 | a short tag-free body still gets "..." on a card, unlike on the feed |
| PostsPage.SavedListsBookmarkedDrafts | src/app/posts/page.tsx:28-29 | the saved listing shows bookmarked drafts, which the all-posts listing hides |
| RightSidebar.MakeSection | src/components/RightSidebar.tsx:21-45 | no section for an empty list; otherwise the first five entries, and a "see all" total exactly above five |
| RightSidebar.Drafts | src/components/RightSidebar.tsx:13 | none without a user; otherwise the drafts listing of the posts page, the user's own drafts in list order |
| RightSidebar.Saved | src/components/RightSidebar.tsx:14 | none without a user; otherwise `getBookmarkedPosts()`, the bookmarked posts in list order |
| RightSidebar.View | src/components/RightSidebar.tsx:13-84 | nothing without a user; each section is the capped section of the drafts or saved listing; the message exactly when signed in with neither |
| RightSidebar.SidebarMessageAndCap | src/components/RightSidebar.tsx:28-84 | the message shows exactly to a signed-in user with no draft of their own and no bookmarked post in the list; a section lists at most five entries |
| RightSidebar.SectionsPreviewListings | src/components/RightSidebar.tsx:28-72 | each section begins the listing its "see all" link opens, and the link's total is that listing's length |
| TopNav.SearchResults | src/components/TopNav.tsx:16-30 | none for a blank query; otherwise the first at most five matches in order, each a post that matches |
| TopNav.LowerKeepsBlank | src/components/TopNav.tsx:17-20 | lower-casing keeps a query blank or non-blank |
| TopNav.QueryCaseIrrelevant | src/components/TopNav.tsx:19-20 | a query and its lower-cased form find the same posts |
| TopNav.PostCaseIrrelevant | src/components/TopNav.tsx:19-20 | a post matches exactly when its lower-cased title and body would: the post's case does not matter |
| TopNav.TitleHitIsFound | src/components/TopNav.tsx:18-24 | a post whose title holds the query is found when there are at most five matches |
| TopNav.UntrimmedQueryMisses | src/components/TopNav.tsx:17-20 | a leading space is part of the query, so " hello" misses "hello" |
| TopNav.ParagraphMatches | src/components/TopNav.tsx:18-22 | "<p" matches a post whose body is "<p>hi</p>" |
| TopNav.SingleMatchFound | src/components/TopNav.tsx:18-24 | a single matching post is its own result |
| TopNav.MarkupIsSearched | src/components/TopNav.tsx:20 | the raw body is searched, so "<p" finds "<p>hi</p>" |
| TopNav.ResultSnippet | src/components/TopNav.tsx:76 | at most 103 characters |
| TopNav.SearchBox.constructor | src/components/TopNav.tsx:10-12 | empty query, no results, hidden |
| TopNav.SearchBox.Shown | src/components/TopNav.tsx:60-89 | results while shown and non-empty; the no-results line while shown with a query and no result; hidden otherwise |
| TopNav.SearchBox.SetQuery | src/components/TopNav.tsx:46 | typing sets the query |
| TopNav.SearchBox.SearchEffect | src/components/TopNav.tsx:16-30 | the results are `SearchResults`; shown exactly for a non-blank query |
| TopNav.SearchBox.HandleClearSearch | src/components/TopNav.tsx:32-35 | the query is empty and the dropdown hidden |
| TopNav.SearchBox.HandleFocus | src/components/TopNav.tsx:47 | focus shows the dropdown when there is a query |
| TopNav.SearchBox.HandleResultClick | src/components/TopNav.tsx:66-69 | the dropdown is hidden and the query emptied |
| TopNav.SearchBox.HandleOverlayClick | src/components/TopNav.tsx:97 | the dropdown is hidden |
| CreatePage.WordCount | src/app/create/page.tsx:209 | 0 exactly when the stripped body is blank |
| CreatePage.WordCountJoin | src/app/create/page.tsx:209 | two tag-free texts joined by white space have the sum of their word counts |
| CreatePage.TagsAreNotWords | src/app/create/page.tsx:209 | "<p>hi</p>" is one word |
| CreatePage.Form.constructor | src/app/create/page.tsx:15-21 | all fields start empty |
| CreatePage.Form.Submission | src/app/create/page.tsx:73-79 | the submitted post carries the form's fields, the draft flag and the user's id |
| CreatePage.Form.HandleGenerate | src/app/create/page.tsx:38-63 | no request without a topic; the body is replaced only by returned content; errors are reported |
| CreatePage.Form.HandleSaveDraft | src/app/create/page.tsx:65-89 | nothing without title and body; otherwise a draft insert by the user; success leaves the feed unchanged |
| CreatePage.Form.HandlePublish | src/app/create/page.tsx:91-117 | nothing without title and body; otherwise a published insert by the user; the fields are cleared only when no error was thrown |
| ImageUpload.Extension | src/components/ImageUpload.tsx:23 | the text after the last '.', or the whole name when there is none |
| ImageUpload.ExtensionAfterDot | src/components/ImageUpload.tsx:23 | the extension of `prefix.ext` is `ext` when `ext` has no '.' |
| ImageUpload.DecimalString | src/components/ImageUpload.tsx:24 | a non-empty string of decimal digits with no leading zero |
| ImageUpload.DecimalStringValue | src/components/ImageUpload.tsx:24 | the digits denote the number |
| ImageUpload.StoredName | src/components/ImageUpload.tsx:24 | the name starts with the random part and '-' |
| ImageUpload.StoredNamesDiffer | src/components/ImageUpload.tsx:22-24 | for the same random part and file, different timestamps give different names |
| ImageUpload.StoredNameKeepsExtension | src/components/ImageUpload.tsx:23-24 | the stored name keeps the chosen file's extension |
| ImageUpload.Validate | src/components/ImageUpload.tsx:51-68 | no file does nothing; a non-"image/" type is refused first; above 5 MiB is refused; everything else is accepted |
| ImageUpload.SizeLimitIsInclusive | src/components/ImageUpload.tsx:62-65 | exactly 5 MiB is accepted, one byte more is refused |
| ImageUpload.RefusalAlert | src/components/ImageUpload.tsx:56-65 | an alert exactly for a refused file: the image-type text for a non-image, the size text for a file above 5 MiB |
| ImageUpload.Uploader.constructor | src/components/ImageUpload.tsx:14-15 | the preview starts as the current image when truthy |
| ImageUpload.Uploader.UploadImage | src/components/ImageUpload.tsx:18-49 | the file is stored under the fresh name; the preview and the parent get its URL only on success; uploading ends |
| ImageUpload.Uploader.HandleFileChange | src/components/ImageUpload.tsx:51-68 | a refused file changes nothing and uploads nothing; an accepted one is uploaded |
| ImageUpload.Uploader.HandleRemove | src/components/ImageUpload.tsx:70-75 | the preview is cleared and the parent is told when it asked to be |
| Text.TrimStart | src/components/CommentSection.tsx:57 | a suffix with no leading white space; everything dropped is white space, including the Unicode space separators |
| Text.TrimEnd | src/app/page.tsx:19 | a prefix with no trailing white space; everything dropped is white space, including the Unicode space separators |
| Text.Trim | src/app/page.tsx:19 | the text with its leading and trailing white space removed and nothing else |
| Text.TrimmedOfUnique | src/app/page.tsx:19 | a text has only one trimmed form |
| Text.BlankIffAllWhitespace | src/components/CommentSection.tsx:57 | a text is blank exactly when all of it is white space |
| Text.StripTags | src/app/page.tsx:17 | never longer than the input, and uses only its characters |
| Text.StripTagsIsTagFree | src/app/page.tsx:17 | no '<' of the result has a '>' after it |
| Text.StripTagsOfTagFree | src/app/page.tsx:17 | a tag-free text is left unchanged |
| Text.StripTagsIdempotent | src/app/page.tsx:17 | stripping twice is stripping once |
| Text.StripTagsSkipsTag | src/app/page.tsx:17 | a tag `<t>` is deleted and the text on both sides survives |
| Text.StripTagsPlainPrefix | src/app/page.tsx:17 | text without '<' is kept in front of whatever the rest strips to |
| Text.StripTagsWithoutOpen | src/app/page.tsx:17 | text without '<' is kept as it is |
| Text.Words | src/app/create/page.tsx:209 | every word is non-empty and free of white space, including the Unicode space separators |
| Text.NoWordsIffBlank | src/app/create/page.tsx:209 | a text has no words exactly when it is all white space |
| Text.WordsSplitAtWhitespace | src/app/create/page.tsx:209 | a white-space character separates the words of the two sides |
| Seqs.Filter | src/app/page.tsx:23 | exactly the kept elements, never more than the input |
| Seqs.FilterConcat | src/app/page.tsx:23 | filtering distributes over concatenation |
| Seqs.KeptIndices | src/app/page.tsx:23 | the positions of the kept elements, increasing, all of them |
| Seqs.FilterIsSelection | src/app/page.tsx:23 | the filter's k-th element is the element at the k-th kept position: order and multiplicity are kept |
| Seqs.FilterSubMultiset | src/app/page.tsx:23 | each element is taken at most as often as the input holds it |
| Seqs.FilterCountUnion | src/app/page.tsx:23 | when every element passes exactly one of two tests, the filters by each add up to the filter by either |
| Seqs.Take | src/components/RightSidebar.tsx:28 | the first n elements, or all when fewer |
| Seqs.Find | src/context/PostsContext.tsx:253 | found exactly when some element satisfies the test; then the first such element |

## Left out

- Remote calls: the data service, its auth and its storage are not modelled. Their results are
  parameters, as described above. SQL filters such as `.eq('post_id', postId)` are assumed
  already applied to those parameters.
- Concurrency: async interleaving is not modelled. This covers the 5-second loading timeout in
  `initAuth`, the un-awaited `fetchPosts`, `Promise.all`, and the auth subscription's lifetime.
  Every operation is atomic and sequential.
- The `isLoading`-style busy flags of the views (`isGenerating`, `isSaving`, `isPublishing`) are
  left out. Each is set and then reset in a `finally`, so it ends as it started.
  `ImageUpload.Uploader.uploading` is kept.
- Dates: `toLocaleDateString` and `toLocaleString` depend on the locale. `createdAt` is an
  opaque string.
- HomePage.GetExcerpt: lengths and cuts are counted in characters (Unicode code points), while
  JavaScript's `length` and `substring` count UTF-16 code units. A text with characters outside
  the Basic Multilingual Plane (emoji, for example) is cut later in the model than in the source.
- PostsPage.Snippet: counts characters rather than UTF-16 code units, as above.
- PostsPage.CardExcerpt: counts characters rather than UTF-16 code units, as above.
- TopNav.ResultSnippet: counts characters rather than UTF-16 code units, as above.
- TopNav.Matches: `toLowerCase` is modelled for ASCII letters only, not the full Unicode
  case mapping.
- ImageUpload.StoredName: `Math.random().toString(36).substring(2)` and `Date.now()` are
  parameters (`randomPart`, `timestamp`).
- ImageUpload.Uploader.UploadImage: the public URL that `getPublicUrl` gives is a function
  parameter of the stored path.
- CreatePage.Form.HandleGenerate: the generate endpoint is a parameter that carries its parsed
  reply. The endpoint itself and the language-model call behind it are not part of this model.
- The rich-text editor, the sign-in form, the layout, the navigation bars, the share button and
  the login page are not part of this model. Neither are rendering, CSS, `alert`/`confirm`
  dialogs and router navigation. Alerts and navigation are returned as values where a
  handler's outcome depends on them.
- The `Like` and `Bookmark` record types are not used by the modelled code beyond their
  `post_id`. They appear as the fetched id sequences.
- PostsContext.NewPost: the `viewCount` field, which `addPost` never reads, is left out.
- The feed's tab switch and its per-post author initials are presentation and are left out.
- Search results include drafts of every author, and the saved listing includes bookmarked
  drafts. This is stated as it is (`TopNav.SearchResults`, `PostsPage.SavedListsBookmarkedDrafts`);
  whether it is intended cannot be told from the code.
- The feed's comment badge counts only top-level comments, while the comment section's heading
  also counts replies. Both are modelled as written (`HomePage.CommentBadge`,
  `CommentSection.ThreadCount`).
