/** The shapes of the blog's records (`BlogPost`, `Comment`) and of the rows the remote data
    service returns for them. */
module Types {
  import opened Wrappers

  /** A post as the client holds it. `createdAt` is the already formatted date, kept as an
      opaque string. */
  datatype BlogPost = BlogPost(
    id: string,
    title: string,
    body: string,
    imageUrl: Option<string>,
    createdAt: string,
    viewCount: int,
    isDraft: bool,
    userId: string)

  /** A comment; a non-empty `parentCommentId` makes it a reply. */
  datatype Comment = Comment(
    id: string,
    postId: string,
    userId: string,
    content: string,
    parentCommentId: Option<string>,
    createdAt: string,
    userEmail: Option<string>)

  /** The signed-in user as the auth service reports it. */
  datatype User = User(id: string, email: Option<string>)

  /** A row of the `posts` table (`view_count` and `is_draft` may be null). */
  datatype PostRow = PostRow(
    id: string,
    title: string,
    body: string,
    imageUrl: Option<string>,
    createdAt: string,
    viewCount: Option<int>,
    isDraft: Option<bool>,
    userId: string)

  /** A row of the `comments` table. */
  datatype CommentRow = CommentRow(
    id: string,
    postId: string,
    userId: string,
    content: string,
    parentCommentId: Option<string>,
    createdAt: string)

  /** JavaScript truthiness of an optional string: `undefined`, `null` and `''` are falsy. */
  predicate Truthy(s: Option<string>) {
    s.Some? && s.value != ""
  }

  /** `s || null`. */
  function OrNull(s: Option<string>): (r: Option<string>)
    ensures r.Some? <==> Truthy(s)
    ensures r.Some? ==> r == s
  {
    if Truthy(s) then s else None
  }

  /** `b || false` for an optional boolean column. */
  function OrFalse(b: Option<bool>): bool {
    b == Some(true)
  }

  /** A comment is a reply exactly when its `parentCommentId` is truthy. */
  predicate IsReply(c: Comment) {
    Truthy(c.parentCommentId)
  }
}
