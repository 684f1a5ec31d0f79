/** The search box of the top bar (`TopNav`): a case-insensitive search of every post's title
    and raw body, showing at most five results. */
module TopNav {
  import opened Wrappers
  import opened Types
  import opened Text
  import Seqs
  import PostsPage

  /** How many results the dropdown lists. */
  const MaxResults: nat := 5

  /** A post matches when its title or its body, markup included, contains the query,
      all lower-cased; the query is used untrimmed. */
  predicate Matches(query: string, p: BlogPost) {
    Contains(Lower(p.title), Lower(query)) || Contains(Lower(p.body), Lower(query))
  }

  /** The filter's test for one query. */
  function MatchesQuery(query: string): BlogPost -> bool {
    (p: BlogPost) => Matches(query, p)
  }

  /** The effect's results: none for a blank query, otherwise the first five matching posts of
      the whole list, drafts of any author included. */
  function SearchResults(posts: seq<BlogPost>, query: string): (r: seq<BlogPost>)
    ensures |r| <= MaxResults
    ensures IsBlank(query) ==> r == []
    ensures forall p :: p in r ==> p in posts && Matches(query, p)
    ensures !IsBlank(query) ==>
              var all := Seqs.Filter(posts, MatchesQuery(query));
              |r| == (if |all| < MaxResults then |all| else MaxResults) && r == all[..|r|]
  {
    if IsBlank(query) then [] else Seqs.Take(Seqs.Filter(posts, MatchesQuery(query)), MaxResults)
  }

  /** Lower-casing is idempotent. */
  lemma LowerIdempotent(s: string)
    ensures Lower(Lower(s)) == Lower(s)
  {
  }

  /** Lower-casing neither makes nor unmakes white space, so it keeps a query blank or not. */
  lemma LowerKeepsBlank(s: string)
    ensures IsBlank(Lower(s)) <==> IsBlank(s)
  {
    BlankIffAllWhitespace(s);
    BlankIffAllWhitespace(Lower(s));
    forall i | 0 <= i < |s| ensures IsWhitespace(Lower(s)[i]) <==> IsWhitespace(s[i]) {
      LowerCharKeepsWhitespace(s[i]);
    }
  }

  /** No upper-case letter is white space, nor is its lower-case form. */
  lemma LowerCharKeepsWhitespace(c: char)
    ensures IsWhitespace(LowerChar(c)) <==> IsWhitespace(c)
  {
  }

  /** Matching ignores the case of the post as well: a post matches exactly when its
      lower-cased title and body would. */
  lemma PostCaseIrrelevant(query: string, p: BlogPost)
    ensures Matches(query, p) <==> Matches(query, p.(title := Lower(p.title), body := Lower(p.body)))
  {
    LowerIdempotent(p.title);
    LowerIdempotent(p.body);
  }

  /** The search ignores the case of the query: a query and its lower-cased form find the same posts. */
  lemma QueryCaseIrrelevant(posts: seq<BlogPost>, query: string)
    ensures SearchResults(posts, Lower(query)) == SearchResults(posts, query)
  {
    LowerIdempotent(query);
    LowerKeepsBlank(query);
    Seqs.FilterAgreeing(posts, MatchesQuery(Lower(query)), MatchesQuery(query));
  }

  /** A post whose title holds the query, in any case, is found when it is among the first matches. */
  lemma TitleHitIsFound(posts: seq<BlogPost>, query: string, p: BlogPost)
    requires !IsBlank(query) && p in posts && Contains(Lower(p.title), Lower(query))
    requires |Seqs.Filter(posts, MatchesQuery(query))| <= MaxResults
    ensures p in SearchResults(posts, query)
  {
    assert MatchesQuery(query)(p);
  }

  /** Leading or trailing spaces are part of the query: " hello" does not find a post whose
      title and body are both "hello". */
  lemma UntrimmedQueryMisses(p: BlogPost)
    requires p.title == "hello" && p.body == "hello"
    ensures !IsBlank(" hello")
    ensures SearchResults([p], " hello") == []
  {
    assert " hello"[1] == 'h';
    assert !Matches(" hello", p) by {
      assert |Lower(" hello")| == 6 && |Lower(p.title)| == 5;
    }
    assert [p][1..] == [];
  }

  /** A single matching post is its own result. */
  lemma SingleMatchFound(p: BlogPost, query: string)
    requires !IsBlank(query) && Matches(query, p)
    ensures SearchResults([p], query) == [p]
  {
    assert MatchesQuery(query)(p);
    assert [p][1..] == [];
  }

  /** "<p" occurs at the start of the lower-cased "<p>hi</p>". */
  lemma ParagraphMatches(p: BlogPost)
    requires p.body == "<p>hi</p>"
    ensures Matches("<p", p)
  {
    assert Lower("<p") == "<p";
    assert Lower(p.body)[0..2] == "<p";
    assert OccursAt(Lower(p.body), Lower("<p"), 0);
  }

  /** The search looks into the markup: "<p" finds a post whose body is "<p>hi</p>", though its
      visible text does not hold "<p". */
  lemma MarkupIsSearched(p: BlogPost)
    requires p.body == "<p>hi</p>"
    ensures !Contains(StripTags(p.body), "<p")
    ensures SearchResults([p], "<p") == [p]
  {
    ParagraphMatches(p);
    BlankIffAllWhitespace("<p");
    assert !IsWhitespace("<p"[0]);
    SingleMatchFound(p, "<p");
    StripParagraph();
  }

  /** The result snippet: 100 characters of the stripped body and "...". */
  function ResultSnippet(body: string): (r: string)
    ensures |r| <= 103
  {
    PostsPage.Snippet(body, 100)
  }

  /** What the dropdown shows. */
  datatype Dropdown = Hidden | Results(posts: seq<BlogPost>) | NoResults(query: string)

  /** The search box's state. */
  class SearchBox {
    var searchQuery: string
    var searchResults: seq<BlogPost>
    var showResults: bool

    constructor ()
      ensures searchQuery == "" && searchResults == [] && !showResults
    {
      searchQuery, searchResults, showResults := "", [], false;
    }

    /** The dropdown: the results while shown and non-empty, the no-results line while shown
        with a non-empty query and no result, nothing otherwise. */
    function Shown(): (d: Dropdown)
      reads this
      ensures d.Results? ==> showResults && d.posts == searchResults && searchResults != []
      ensures d.NoResults? ==> showResults && searchQuery != "" && searchResults == []
      ensures d.Hidden? <==> !showResults || (searchResults == [] && searchQuery == "")
    {
      if showResults && searchResults != [] then Results(searchResults)
      else if showResults && searchQuery != "" then NoResults(searchQuery)
      else Hidden
    }

    /** Typing into the box. */
    method SetQuery(query: string)
      modifies this`searchQuery
      ensures searchQuery == query
    {
      searchQuery := query;
    }

    /** The effect that runs whenever the query or the posts change. */
    method SearchEffect(posts: seq<BlogPost>)
      modifies this`searchResults, this`showResults
      ensures searchResults == SearchResults(posts, searchQuery)
      ensures showResults <==> !IsBlank(searchQuery)
    {
      if !IsBlank(searchQuery) {
        searchResults := Seqs.Take(Seqs.Filter(posts, MatchesQuery(searchQuery)), MaxResults);
        showResults := true;
      } else {
        searchResults := [];
        showResults := false;
      }
    }

    /** The clear button: empties the query and hides the dropdown; the results stay until the
        effect runs again. */
    method HandleClearSearch()
      modifies this`searchQuery, this`showResults
      ensures searchQuery == "" && !showResults
    {
      searchQuery, showResults := "", false;
    }

    /** Focusing the box shows the dropdown again when there is a query. */
    method HandleFocus()
      modifies this`showResults
      ensures showResults == (old(showResults) || searchQuery != "")
    {
      if searchQuery != "" {
        showResults := true;
      }
    }

    /** Choosing a result hides the dropdown and empties the query. */
    method HandleResultClick()
      modifies this`searchQuery, this`showResults
      ensures searchQuery == "" && !showResults
    {
      showResults, searchQuery := false, "";
    }

    /** Clicking outside hides the dropdown. */
    method HandleOverlayClick()
      modifies this`showResults
      ensures !showResults
    {
      showResults := false;
    }
  }
}
