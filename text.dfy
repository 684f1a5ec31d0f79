/** The string operations the views use: `trim`, the tag-stripping `replace(/<[^>]*>/g, '')`,
    `toLowerCase`, `includes`, `startsWith`, `substring(0, n)` and `split(/\s+/)`. */
module Text {

  /** The characters JavaScript's `trim` and `\s` treat as white space: the ASCII ones, the
      no-break space, the byte-order mark, the line and paragraph separators, and the other
      space separators of Unicode category Zs (U+1680, U+2000 to U+200A, U+202F, U+205F, U+3000). */
  predicate IsWhitespace(c: char) {
    c == ' ' || '\t' <= c <= '\r' || c == '\U{00A0}' || c == '\U{1680}' || '\U{2000}' <= c <= '\U{200A}'
    || '\U{2028}' <= c <= '\U{2029}' || c == '\U{202F}' || c == '\U{205F}' || c == '\U{3000}' || c == '\U{FEFF}'
  }

  /** `s` with its leading white space removed. */
  function TrimStart(s: string): (r: string)
    ensures |r| <= |s| && r == s[|s| - |r|..]
    ensures r == [] || !IsWhitespace(r[0])
    ensures forall i :: 0 <= i < |s| - |r| ==> IsWhitespace(s[i])
  {
    if s != [] && IsWhitespace(s[0]) then TrimStart(s[1..]) else s
  }

  /** `s` with its trailing white space removed. */
  function TrimEnd(s: string): (r: string)
    ensures |r| <= |s| && r == s[..|r|]
    ensures r == [] || !IsWhitespace(r[|r| - 1])
    ensures forall i :: |r| <= i < |s| ==> IsWhitespace(s[i])
  {
    if s != [] && IsWhitespace(s[|s| - 1]) then TrimEnd(s[..|s| - 1]) else s
  }

  /** How many white-space characters `s` starts with. */
  function LeadingSpace(s: string): (n: nat)
    ensures n <= |s|
    ensures forall i :: 0 <= i < n ==> IsWhitespace(s[i])
    ensures n < |s| ==> !IsWhitespace(s[n])
  {
    |s| - |TrimStart(s)|
  }

  /** `core` is `s` with its leading and trailing white space removed and nothing else: it is
      the piece of `s` that starts after the leading white space, everything after it is white
      space, and it neither starts nor ends with white space. */
  ghost predicate TrimmedOf(core: string, s: string) {
    var a := LeadingSpace(s);
    a + |core| <= |s| && core == s[a..a + |core|]
    && (forall i :: a + |core| <= i < |s| ==> IsWhitespace(s[i]))
    && (core == [] || (!IsWhitespace(core[0]) && !IsWhitespace(core[|core| - 1])))
  }

  /** A text has only one trimmed form. */
  lemma TrimmedOfUnique(x: string, y: string, s: string)
    requires TrimmedOf(x, s) && TrimmedOf(y, s)
    ensures x == y
  {
  }

  /** `s.trim()`. */
  function Trim(s: string): (r: string)
    ensures |r| <= |s|
    ensures r == [] || (!IsWhitespace(r[0]) && !IsWhitespace(r[|r| - 1]))
    ensures TrimmedOf(r, s)
  {
    TrimBothEnds(s);
    TrimEnd(TrimStart(s))
  }

  /** Trimming the end of the start-trimmed text gives the trimmed form of the text. */
  lemma TrimBothEnds(s: string)
    ensures TrimmedOf(TrimEnd(TrimStart(s)), s)
  {
    var t := TrimStart(s);
    var r := TrimEnd(t);
    var a := LeadingSpace(s);
    PrefixOfSuffix(s, t, r, a);
    TrailingOfSuffix(s, t, |r|, a);
  }

  /** A prefix `r` of the suffix `t` of `s` that starts at `a` is the slice of `s` from `a`. */
  lemma PrefixOfSuffix(s: string, t: string, r: string, a: nat)
    requires a + |t| == |s| && t == s[a..] && |r| <= |t| && r == t[..|r|]
    ensures r == s[a..a + |r|]
  {
  }

  /** White space after position `n` of the suffix `t` of `s` that starts at `a` is white
      space after position `a + n` of `s`. */
  lemma TrailingOfSuffix(s: string, t: string, n: nat, a: nat)
    requires a + |t| == |s| && t == s[a..] && n <= |t|
    requires forall i :: n <= i < |t| ==> IsWhitespace(t[i])
    ensures forall i :: a + n <= i < |s| ==> IsWhitespace(s[i])
  {
    forall i | a + n <= i < |s| ensures IsWhitespace(s[i]) {
      assert s[i] == t[i - a];
    }
  }

  /** `!s.trim()`: the string is empty once trimmed. */
  predicate IsBlank(s: string) {
    Trim(s) == []
  }

  /** A string is blank exactly when every character of it is white space. */
  lemma BlankIffAllWhitespace(s: string)
    ensures IsBlank(s) <==> forall i :: 0 <= i < |s| ==> IsWhitespace(s[i])
  {
    var t := TrimStart(s);
    if t != [] {
      assert !IsWhitespace(t[0]);
      assert TrimEnd(t) != [];
      assert !IsWhitespace(s[|s| - |t|]);
    }
  }

  /** `s.indexOf(c)` for a character that occurs in `s`. */
  function IndexOf(s: string, c: char): (k: nat)
    requires c in s
    ensures k < |s| && s[k] == c && c !in s[..k]
  {
    if s[0] == c then 0 else IndexOf(s[1..], c) + 1
  }

  /** `s.replace(/<[^>]*>/g, '')`: every '<' that has a '>' somewhere after it is deleted together
      with everything up to the first such '>'; a '<' with no '>' after it stays. */
  function StripTags(s: string): (r: string)
    ensures |r| <= |s|
    ensures forall c :: c in r ==> c in s
    decreases |s|
  {
    if s == [] then []
    else if s[0] == '<' && '>' in s[1..] then StripTags(s[1..][IndexOf(s[1..], '>') + 1..])
    else [s[0]] + StripTags(s[1..])
  }

  /** No tag is left: no '<' of the stripped text has a '>' after it. */
  predicate TagFree(s: string) {
    forall i, j :: 0 <= i < j < |s| && s[i] == '<' ==> s[j] != '>'
  }

  lemma {:induction false} StripTagsIsTagFree(s: string)
    ensures TagFree(StripTags(s))
    decreases |s|
  {
    if s == [] {
    } else if s[0] == '<' && '>' in s[1..] {
      StripTagsIsTagFree(s[1..][IndexOf(s[1..], '>') + 1..]);
    } else {
      var rest := StripTags(s[1..]);
      StripTagsIsTagFree(s[1..]);
      var r := [s[0]] + rest;
      forall i, j | 0 <= i < j < |r| && r[i] == '<'
        ensures r[j] != '>'
      {
        if i == 0 {
          assert r[j] in rest;
        } else {
          assert rest[i - 1] == '<' && r[j] == rest[j - 1];
        }
      }
    }
  }

  /** Stripping changes nothing in a text that holds no tag. */
  lemma {:induction false} StripTagsOfTagFree(s: string)
    requires TagFree(s)
    ensures StripTags(s) == s
  {
    if s != [] {
      if s[0] == '<' {
        assert '>' !in s[1..] by {
          forall k | 0 <= k < |s[1..]| ensures s[1..][k] != '>' {
            assert s[k + 1] == s[1..][k];
          }
        }
      }
      assert TagFree(s[1..]) by {
        forall i, j | 0 <= i < j < |s[1..]| && s[1..][i] == '<' ensures s[1..][j] != '>' {
          assert s[i + 1] == '<';
        }
      }
      StripTagsOfTagFree(s[1..]);
    }
  }

  /** Any piece of a tag-free text is tag-free. */
  lemma TagFreeSlice(s: string, i: nat, j: nat)
    requires TagFree(s) && i <= j <= |s|
    ensures TagFree(s[i..j])
  {
    forall a, b | 0 <= a < b < j - i && s[i..j][a] == '<' ensures s[i..j][b] != '>' {
      assert s[i + a] == '<' && s[i..j][b] == s[i + b];
    }
  }

  /** Trimming a tag-free text leaves it tag-free. */
  lemma TagFreeTrim(s: string)
    requires TagFree(s)
    ensures TagFree(Trim(s))
  {
    var t := TrimStart(s);
    TagFreeSlice(s, |s| - |t|, |s|);
    TagFreeSlice(t, 0, |TrimEnd(t)|);
  }

  /** Appending text with no angle brackets keeps a text tag-free. */
  lemma TagFreeAppend(a: string, b: string)
    requires TagFree(a) && '<' !in b && '>' !in b
    ensures TagFree(a + b)
  {
    var r := a + b;
    forall i, j | 0 <= i < j < |r| && r[i] == '<' ensures r[j] != '>' {
      if j >= |a| {
        assert r[j] == b[j - |a|];
      } else {
        assert r[i] == a[i] && r[j] == a[j];
      }
    }
  }

  /** Text without '<' is kept as it is. */
  lemma {:induction false} StripTagsWithoutOpen(x: string)
    requires '<' !in x
    ensures StripTags(x) == x
  {
    if x != [] {
      assert '<' !in x[1..];
      StripTagsWithoutOpen(x[1..]);
    }
  }

  /** A tag is deleted and the text on both sides of it survives: stripping `x<t>y`, where
      `x` opens no tag and `t` holds no '>', gives `x` followed by the stripped `y`. */
  lemma StripTagsSkipsTag(x: string, t: string, y: string)
    requires '<' !in x && '>' !in t
    ensures StripTags(x + "<" + t + ">" + y) == StripTags(x) + StripTags(y)
  {
    var tag := "<" + t + ">" + y;
    assert x + "<" + t + ">" + y == x + tag;
    StripTagsPlainPrefix(x, tag);
    StripLeadingTag(t, y);
    StripTagsWithoutOpen(x);
  }

  /** Text without '<' in front of anything is kept, and the rest is stripped on its own. */
  lemma {:induction false} StripTagsPlainPrefix(x: string, rest: string)
    requires '<' !in x
    ensures StripTags(x + rest) == x + StripTags(rest)
  {
    if x == [] {
      assert x + rest == rest;
    } else {
      assert x + rest == [x[0]] + (x[1..] + rest);
      StripPlainFirst(x[0], x[1..] + rest);
      assert '<' !in x[1..];
      StripTagsPlainPrefix(x[1..], rest);
      assert x == [x[0]] + x[1..];
    }
  }

  /** A first character other than '<' is kept. */
  lemma StripPlainFirst(c: char, rest: string)
    requires c != '<'
    ensures StripTags([c] + rest) == [c] + StripTags(rest)
  {
    assert ([c] + rest)[1..] == rest;
  }

  /** A leading tag is deleted. */
  lemma StripLeadingTag(t: string, y: string)
    requires '>' !in t
    ensures StripTags("<" + t + ">" + y) == StripTags(y)
  {
    var s := "<" + t + ">" + y;
    var rest := t + ">" + y;
    assert s[0] == '<' && s[1..] == rest;
    FirstCloseAfter(t, y);
    assert rest[|t| + 1..] == y;
  }

  /** The first '>' of `t>y`, when `t` holds none, is the one after `t`. */
  lemma FirstCloseAfter(t: string, y: string)
    requires '>' !in t
    ensures '>' in t + ">" + y && IndexOf(t + ">" + y, '>') == |t|
  {
    var rest := t + ">" + y;
    assert rest[|t|] == '>';
    assert rest[..|t|] == t;
  }

  /** Stripping twice is stripping once. */
  lemma StripTagsIdempotent(s: string)
    ensures StripTags(StripTags(s)) == StripTags(s)
  {
    StripTagsIsTagFree(s);
    StripTagsOfTagFree(StripTags(s));
  }

  /** Stripping "<p>hi</p>" leaves "hi". */
  lemma StripParagraph()
    ensures StripTags("<p>hi</p>") == "hi"
  {
    StripWordThenClose();
    assert "<p>hi</p>"[1..] == "p>hi</p>";
    assert IndexOf("p>hi</p>", '>') == 1 && "p>hi</p>"[2..] == "hi</p>";
  }

  lemma StripWordThenClose()
    ensures StripTags("hi</p>") == "hi"
  {
    StripClosingTag();
    assert "hi</p>"[1..] == "i</p>";
    assert "i</p>"[1..] == "</p>";
  }

  lemma StripClosingTag()
    ensures StripTags("</p>") == []
  {
    assert "</p>"[1..] == "/p>";
    assert IndexOf("/p>", '>') == 2 && "/p>"[3..] == [];
  }

  /** `toLowerCase` on one character, restricted to ASCII letters. */
  function LowerChar(c: char): char {
    if 'A' <= c <= 'Z' then (c as int + 32) as char else c
  }

  /** `s.toLowerCase()`, restricted to ASCII letters. */
  function Lower(s: string): (r: string)
    ensures |r| == |s|
  {
    seq(|s|, i requires 0 <= i < |s| => LowerChar(s[i]))
  }

  /** `needle` occurs in `haystack` starting at index `i`. */
  predicate OccursAt(haystack: string, needle: string, i: nat) {
    i + |needle| <= |haystack| && haystack[i..i + |needle|] == needle
  }

  /** `haystack.includes(needle)`. */
  predicate Contains(haystack: string, needle: string) {
    exists i: nat :: i <= |haystack| && OccursAt(haystack, needle, i)
  }

  /** `s.startsWith(prefix)`. */
  predicate StartsWith(s: string, prefix: string) {
    |prefix| <= |s| && s[..|prefix|] == prefix
  }

  /** `s.substring(0, n)`. */
  function Prefix(s: string, n: nat): (r: string)
    ensures |r| == if |s| < n then |s| else n
    ensures r == s[..|r|]
  {
    if |s| <= n then s else s[..n]
  }

  /** Length of the run of non-white-space characters that starts `s`. */
  function RunLength(s: string): (n: nat)
    ensures n <= |s|
    ensures forall i :: 0 <= i < n ==> !IsWhitespace(s[i])
    ensures n < |s| ==> IsWhitespace(s[n])
  {
    if s == [] || IsWhitespace(s[0]) then 0 else RunLength(s[1..]) + 1
  }

  /** `s.split(/\s+/).filter(w => w)`: the maximal runs of non-white-space characters. */
  function Words(s: string): (ws: seq<string>)
    ensures forall k :: 0 <= k < |ws| ==> ws[k] != [] && forall i :: 0 <= i < |ws[k]| ==> !IsWhitespace(ws[k][i])
    decreases |s|
  {
    if s == [] then []
    else if IsWhitespace(s[0]) then Words(s[1..])
    else
      var n := RunLength(s);
      [s[..n]] + Words(s[n..])
  }

  /** A text has no words exactly when it is blank. */
  lemma {:induction false} NoWordsIffBlank(s: string)
    ensures Words(s) == [] <==> forall i :: 0 <= i < |s| ==> IsWhitespace(s[i])
    decreases |s|
  {
    if s != [] && IsWhitespace(s[0]) {
      NoWordsIffBlank(s[1..]);
      assert forall i :: 1 <= i < |s| ==> s[i] == s[1..][i - 1];
    }
  }

  lemma RunLengthStopsAt(a: string, t: string)
    requires RunLength(a) < |a|
    ensures RunLength(a + t) == RunLength(a)
  {
    var n := RunLength(a);
    var m := RunLength(a + t);
    assert (a + t)[n] == a[n];
    if m < n {
      assert (a + t)[m] == a[m];
    }
  }

  lemma RunLengthWholeWord(a: string, c: char, b: string)
    requires RunLength(a) == |a| && IsWhitespace(c)
    ensures RunLength(a + [c] + b) == |a|
  {
    assert (a + [c] + b)[|a|] == c;
  }

  /** A white-space character separates words: the words of `a + c + b` are those of `a`
      followed by those of `b`. */
  lemma {:induction false} WordsSplitAtWhitespace(a: string, c: char, b: string)
    requires IsWhitespace(c)
    ensures Words(a + [c] + b) == Words(a) + Words(b)
    decreases |a|
  {
    if a == [] {
      WordsAfterSpace(c, b);
      assert a + [c] + b == [c] + b;
    } else if IsWhitespace(a[0]) {
      SpaceFirst(a, c, b);
      WordsSplitAtWhitespace(a[1..], c, b);
    } else if RunLength(a) == |a| {
      WholeWordThenSpace(a, c, b);
    } else {
      var n := RunLength(a);
      FirstWordThenRest(a, c, b);
      WordsSplitAtWhitespace(a[n..], c, b);
    }
  }

  /** White space at the start of `a` adds no word to `a` nor to `a + c + b`. */
  lemma SpaceFirst(a: string, c: char, b: string)
    requires a != [] && IsWhitespace(a[0])
    ensures Words(a + [c] + b) == Words(a[1..] + [c] + b)
    ensures Words(a) == Words(a[1..])
  {
    assert (a + [c] + b)[1..] == a[1..] + [c] + b;
  }

  /** A leading white-space character adds no word. */
  lemma WordsAfterSpace(c: char, b: string)
    requires IsWhitespace(c)
    ensures Words([c] + b) == Words(b)
  {
    assert ([c] + b)[1..] == b;
  }

  /** A word that fills `a` is the first word of `a + c + b`, and the only word of `a`. */
  lemma WholeWordThenSpace(a: string, c: char, b: string)
    requires a != [] && !IsWhitespace(a[0]) && RunLength(a) == |a| && IsWhitespace(c)
    ensures Words(a + [c] + b) == [a] + Words(b)
    ensures Words(a) == [a]
  {
    var s := a + [c] + b;
    RunLengthWholeWord(a, c, b);
    assert s[..|a|] == a;
    assert s[|a|..] == [c] + b;
    WordsAfterSpace(c, b);
    assert a[..|a|] == a && a[|a|..] == [];
  }

  /** A word that ends inside `a` is the first word of `a + c + b` too. */
  lemma FirstWordThenRest(a: string, c: char, b: string)
    requires a != [] && !IsWhitespace(a[0]) && RunLength(a) < |a|
    ensures Words(a + [c] + b) == [a[..RunLength(a)]] + Words(a[RunLength(a)..] + [c] + b)
    ensures Words(a) == [a[..RunLength(a)]] + Words(a[RunLength(a)..])
  {
    var s := a + [c] + b;
    var n := RunLength(a);
    RunLengthStopsAt(a, [c] + b);
    assert s == a + ([c] + b);
    assert s[..n] == a[..n];
    assert s[n..] == a[n..] + [c] + b;
  }
}
