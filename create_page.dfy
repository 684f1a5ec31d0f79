/** The editor for a new story (`CreatePage`): the word count under the editor, the AI draft
    generator, and saving as draft or publishing through the provider. */
module CreatePage {
  import opened Wrappers
  import opened Types
  import opened Text
  import opened PostsContext
  import HomePage

  /** The word count: the non-empty white-space separated tokens of the tag-stripped body. */
  function WordCount(body: string): (n: nat)
    ensures n == 0 <==> IsBlank(StripTags(body))
  {
    var text := StripTags(body);
    NoWordsIffBlank(text);
    BlankIffAllWhitespace(text);
    |Words(text)|
  }

  /** Joining two tag-free texts with a white-space character adds their word counts. */
  lemma WordCountJoin(a: string, c: char, b: string)
    requires IsWhitespace(c) && TagFree(a + [c] + b)
    ensures WordCount(a + [c] + b) == WordCount(a) + WordCount(b)
  {
    var s := a + [c] + b;
    TagFreeSlice(s, 0, |a|);
    TagFreeSlice(s, |a| + 1, |s|);
    assert s[..|a|] == a && s[|a| + 1..] == b;
    StripTagsOfTagFree(s);
    StripTagsOfTagFree(a);
    StripTagsOfTagFree(b);
    WordsSplitAtWhitespace(a, c, b);
  }

  lemma WordsOfHi()
    ensures Words("hi") == ["hi"]
  {
    assert "hi"[1..] == "i" && "i"[1..] == [];
    assert RunLength("hi") == 2;
    assert "hi"[..2] == "hi" && "hi"[2..] == [];
  }

  /** Markup does not count: a word wrapped in a paragraph tag is one word. */
  lemma TagsAreNotWords()
    ensures WordCount("<p>hi</p>") == 1
  {
    StripParagraph();
    WordsOfHi();
  }

  /** The parsed reply of the generate endpoint, or a failed request or parse. */
  datatype GenerateReply = Json(content: Option<string>, error: Option<string>) | FetchFailed

  const DraftIncomplete := "Please add a title and content before saving as draft"
  const DraftSaved := "Draft saved successfully!"
  const DraftFailed := "Failed to save draft. Please try again."
  const PublishFailed := "Failed to create post. Please try again."
  const GenerateFailed := "Failed to generate content"

  /** The form's fields. The page shows its handlers only to a signed-in user. */
  class Form {
    var title: string
    var body: string
    var imageUrl: string
    var topic: string

    constructor ()
      ensures title == "" && body == "" && imageUrl == "" && topic == ""
    {
      title, body, imageUrl, topic := "", "", "", "";
    }

    /** The post a handler submits. */
    function Submission(isDraft: bool, user: User): (post: NewPost)
      reads this
      ensures post.title == title && post.body == body && post.isDraft == Some(isDraft)
      ensures post.imageUrl == Some(imageUrl) && post.userId == Some(user.id)
    {
      NewPost(title, body, Some(imageUrl), Some(isDraft), Some(user.id))
    }

    /** `handleGenerate`: nothing without a topic; otherwise the body becomes the returned
        content when there is some, and an error is reported otherwise. */
    method HandleGenerate(reply: GenerateReply) returns (requested: bool, alert: Option<string>)
      modifies this`body
      ensures requested <==> topic != ""
      ensures !requested ==> body == old(body) && alert.None?
      ensures requested && reply.Json? && Truthy(reply.content) ==> body == reply.content.value && alert.None?
      ensures requested && !(reply.Json? && Truthy(reply.content)) ==> body == old(body)
      ensures requested && reply.Json? && !Truthy(reply.content) ==>
                alert == (if Truthy(reply.error) then Some("Error: " + reply.error.value) else None)
      ensures requested && reply.FetchFailed? ==> alert == Some(GenerateFailed)
    {
      if topic == "" {
        return false, None;
      }
      requested := true;
      alert := None;
      match reply
      case FetchFailed =>
        alert := Some(GenerateFailed);
      case Json(content, error) =>
        if Truthy(content) {
          body := content.value;
        } else if Truthy(error) {
          alert := Some("Error: " + error.value);
        }
    }

    /** `handleSaveDraft`: with a title and a body, the provider adds the post as a draft,
        which leaves the feed as it was; the form keeps its fields. */
    method HandleSaveDraft(p: PostsProvider, response: Response<PostRow>)
      returns (sent: Option<Request>, alert: string, navigated: bool)
      requires p.Valid() && p.user.Some?
      modifies p
      ensures p.Valid()
      ensures title == "" || body == "" ==>
                sent.None? && alert == DraftIncomplete && !navigated && p.State() == old(p.State())
      ensures title != "" && body != "" ==>
                sent == AddPostRequest(old(p.State()), Submission(true, old(p.user.value)))
                && sent.Some? && sent.value.isDraft && sent.value.userId == old(p.user.value.id)
                && p.State() == PostAdded(old(p.State()), response)
                && (navigated <==> !response.Error?)
                && alert == (if response.Error? then DraftFailed else DraftSaved)
      ensures title != "" && body != "" && response.Data? && response.row.isDraft == Some(true) ==>
                HomePage.PublishedPosts(p.State()) == HomePage.PublishedPosts(old(p.State()))
    {
      if title == "" || body == "" {
        return None, DraftIncomplete, false;
      }
      var thrown;
      sent, thrown := p.AddPost(Submission(true, p.user.value), response);
      if thrown.Some? {
        return sent, DraftFailed, false;
      }
      if response.Data? && response.row.isDraft == Some(true) {
        HomePage.DraftStaysOffFeed(old(p.State()), response.row);
      }
      alert, navigated := DraftSaved, true;
    }

    /** `handlePublish`: with a title and a body, the provider adds the post as published;
        the fields are cleared only when that did not throw. */
    method HandlePublish(p: PostsProvider, response: Response<PostRow>)
      returns (sent: Option<Request>, alert: Option<string>, navigated: bool)
      requires p.Valid() && p.user.Some?
      modifies this`title, this`body, this`topic, this`imageUrl, p
      ensures p.Valid()
      ensures old(title) == "" || old(body) == "" ==>
                sent.None? && alert.None? && !navigated && p.State() == old(p.State())
                && title == old(title) && body == old(body) && topic == old(topic) && imageUrl == old(imageUrl)
      ensures old(title) != "" && old(body) != "" ==>
                sent == AddPostRequest(old(p.State()), old(Submission(false, p.user.value)))
                && sent.Some? && !sent.value.isDraft && sent.value.userId == old(p.user.value.id)
                && p.State() == PostAdded(old(p.State()), response)
      ensures old(title) != "" && old(body) != "" && response.Error? ==>
                alert == Some(PublishFailed) && !navigated
                && title == old(title) && body == old(body) && topic == old(topic) && imageUrl == old(imageUrl)
      ensures old(title) != "" && old(body) != "" && !response.Error? ==>
                alert.None? && navigated && title == "" && body == "" && topic == "" && imageUrl == ""
      ensures old(title) != "" && old(body) != "" && response.Data? && response.row.isDraft != Some(true) ==>
                HomePage.PublishedPosts(p.State()) == [InsertedPost(response.row)] + HomePage.PublishedPosts(old(p.State()))
    {
      if title == "" || body == "" {
        return None, None, false;
      }
      var thrown;
      sent, thrown := p.AddPost(Submission(false, p.user.value), response);
      if thrown.Some? {
        return sent, Some(PublishFailed), false;
      }
      if response.Data? && response.row.isDraft != Some(true) {
        HomePage.PublishedPostLeadsFeed(old(p.State()), response.row);
      }
      title, body, topic, imageUrl := "", "", "", "";
      alert, navigated := None, true;
    }
  }
}
