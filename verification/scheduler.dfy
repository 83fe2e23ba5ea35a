/** The article scheduler: turning generated article text into a post (title
    and content split, automatic tags, post fields) and putting the posts
    into the worker script. */
module Scheduler {
  import opened Wrappers
  import Text
  import Seqs
  import opened PostStore
  import AutoTags

  // ---------------------------------------------------------------------------
  // The title and content split of generate_articles_from_keywords

  /** A line the title search stops at: not blank, and either a `#` heading
      or shorter than 100 characters once stripped. */
  predicate TitleLine(line: string) {
    IsTitle(line, Text.Strip(line))
  }

  /** The test of the loop, given the stripped line. */
  predicate IsTitle(line: string, stripped: string) {
    stripped != [] && (Text.StartsWith(line, "#") || |stripped| < 100)
  }

  /** The index of the first title line. */
  function TitleIndex(lines: seq<string>): Option<nat> {
    Seqs.FirstWhere(TitleLine, lines)
  }

  /** `line.replace('#', '').strip()` for a heading, `line.strip()` otherwise. */
  function TitleOf(line: string): string {
    if Text.StartsWith(line, "#") then Text.Strip(Seqs.Filter((c: char) => c != '#', line))
    else Text.Strip(line)
  }

  datatype Article = Article(title: string, content: string)

  /** The title and content of a generated article; the keyword is the
      title when no line qualifies. */
  function ArticleParts(text: string, keyword: string): Article {
    PartsOf(Text.Split(text, '\n'), keyword)
  }

  /** The same on the lines of the article. */
  function PartsOf(lines: seq<string>, keyword: string): Article {
    match TitleIndex(lines)
    case None => Article(keyword, Text.Strip(Text.Join(lines, "\n")))
    case Some(j) => Article(TitleOf(lines[j]), Text.Strip(Text.Join(lines[j + 1..], "\n")))
  }

  /** The loop of `generate_articles_from_keywords` that finds the title. */
  method SplitArticle(text: string, keyword: string) returns (title: string, content: string)
    ensures Article(title, content) == ArticleParts(text, keyword)
  {
    var lines := Text.Split(text, '\n');
    title := keyword;
    var contentStart := 0;
    var j := 0;
    while j < |lines|
      invariant 0 <= j <= |lines|
      invariant forall k :: 0 <= k < j ==> !TitleLine(lines[k])
      invariant title == keyword && contentStart == 0
      decreases |lines| - j
    {
      var line := lines[j];
      var stripped := Text.Strip(line);
      if stripped != [] {
        if Text.StartsWith(line, "#") {
          title := Text.Strip(Seqs.Filter((c: char) => c != '#', line));
          contentStart := j + 1;
          TitleFound(lines, keyword, j, title);
          break;
        } else if |stripped| < 100 {
          title := stripped;
          contentStart := j + 1;
          TitleFound(lines, keyword, j, title);
          break;
        }
      }
      assert !IsTitle(line, stripped);
      j := j + 1;
    }
    if j == |lines| {
      PartsWithoutTitle(lines, keyword);
      assert lines[contentStart..] == lines;
    }
    content := Text.Strip(Text.Join(lines[contentStart..], "\n"));
  }

  /** The loop stops at line `j` with the title it takes from it. */
  lemma TitleFound(lines: seq<string>, keyword: string, j: nat, title: string)
    requires j < |lines| && TitleLine(lines[j]) && title == TitleOf(lines[j])
    requires forall k :: 0 <= k < j ==> !TitleLine(lines[k])
    ensures PartsOf(lines, keyword) == Article(title, Text.Strip(Text.Join(lines[j + 1..], "\n")))
  {
    PartsAtTitle(lines, keyword, j);
  }

  /** When line `j` is the first title line (non-blank, and a `#` heading or
      shorter than 100 characters once stripped), the title comes from that
      line and the content is the lines after it, joined and stripped. */
  lemma PartsAtTitle(lines: seq<string>, keyword: string, j: nat)
    requires j < |lines| && TitleLine(lines[j])
    requires forall k :: 0 <= k < j ==> !TitleLine(lines[k])
    ensures PartsOf(lines, keyword) == Article(TitleOf(lines[j]), Text.Strip(Text.Join(lines[j + 1..], "\n")))
  {
    Seqs.FirstWhereIs(TitleLine, lines, j);
    var a := PartsOf(lines, keyword);
    assert a.title == TitleOf(lines[j]) by { TitleAt(lines, keyword, j); }
    assert a.content == Text.Strip(Text.Join(lines[j + 1..], "\n")) by { ContentAfter(lines, keyword, j); }
  }

  lemma TitleAt(lines: seq<string>, keyword: string, j: nat)
    requires j < |lines| && TitleIndex(lines) == Some(j)
    ensures PartsOf(lines, keyword).title == TitleOf(lines[j])
  {
  }

  lemma ContentAfter(lines: seq<string>, keyword: string, j: nat)
    requires j < |lines| && TitleIndex(lines) == Some(j)
    ensures PartsOf(lines, keyword).content == Text.Strip(Text.Join(lines[j + 1..], "\n"))
  {
    var content := Text.Strip(Text.Join(lines[j + 1..], "\n"));
    assert PartsOf(lines, keyword) == Article(TitleOf(lines[j]), content);
  }

  /** Without a title line, the keyword is the title and every line is
      content. */
  lemma PartsWithoutTitle(lines: seq<string>, keyword: string)
    requires forall k :: 0 <= k < |lines| ==> !TitleLine(lines[k])
    ensures PartsOf(lines, keyword) == Article(keyword, Text.Strip(Text.Join(lines, "\n")))
  {
    assert TitleIndex(lines) == None;
  }

  /** Without a title line the title is the keyword and the content is the
      whole article, stripped. */
  lemma NoTitleLine(text: string, keyword: string)
    requires forall k :: 0 <= k < |Text.Split(text, '\n')| ==> !TitleLine(Text.Split(text, '\n')[k])
    ensures ArticleParts(text, keyword) == Article(keyword, Text.Strip(text))
  {
    var lines := Text.Split(text, '\n');
    assert TitleIndex(lines).None?;
    Text.SplitJoin(text, '\n');
  }

  /** A heading's title has no `#` and no surrounding whitespace. */
  lemma HeadingTitle(line: string)
    requires Text.StartsWith(line, "#")
    ensures var t := TitleOf(line);
      && '#' !in t
      && (t == [] || (!Text.IsSpace(t[0]) && !Text.IsSpace(t[|t| - 1])))
  {
    var f := Seqs.Filter((c: char) => c != '#', line);
    assert '#' !in f;
    Text.StripChars(f);
  }

  /** Any other title line gives its stripped text, non-empty and shorter
      than 100 characters. */
  lemma PlainTitle(line: string)
    requires TitleLine(line) && !Text.StartsWith(line, "#")
    ensures var t := TitleOf(line);
      && 1 <= |t| < 100
      && !Text.IsSpace(t[0]) && !Text.IsSpace(t[|t| - 1])
  {
  }

  // ---------------------------------------------------------------------------
  // The generated post

  const ScheduledBy: string := "AI_Scheduled"

  /** The post dictionary built for a generated article. The id and excerpt
      come from `generate_post_id` and `extract_excerpt_from_content`, the
      date and time from the clock: all are parameters here. */
  function NewPost(a: Article, keyword: string, category: string, id: string, excerpt: string,
                   date: string, now: string): Post
  {
    Post(id, a.title, "AI Scheduler", date, excerpt, a.content, Some(category),
         Some(AutoTags.AutoTags(keyword, a.title, category)), Some(ScheduledBy), Some(now))
  }

  /** A generated post carries the given id, excerpt and date, the
      scheduler's author and marker, the chosen category, and the automatic
      tags of its keyword, title and category: at most five, the first being
      the category in lower case. */
  lemma NewPostFields(a: Article, keyword: string, category: string, id: string, excerpt: string,
                      date: string, now: string)
    ensures var p := NewPost(a, keyword, category, id, excerpt, date, now);
      && p.author == "AI Scheduler" && p.generatedBy == Some(ScheduledBy) && p.category == Some(category)
      && p.id == id && p.excerpt == excerpt && p.date == date
      && p.title == a.title && p.content == a.content && p.scheduledAt == Some(now)
      && p.tags == Some(AutoTags.AutoTags(keyword, a.title, category))
      && 1 <= |p.tags.value| <= 5 && p.tags.value[0] == Text.Lower(category)
  {
    AutoTags.AutoTagsShape(keyword, a.title, category);
  }

  /** The posts for the keywords whose article text came back truthy, in
      keyword order. */
  function GeneratedPosts(keywords: seq<string>, articles: seq<Option<string>>, category: string,
                          idOf: string -> string, excerptOf: string -> string,
                          date: string, now: string): (r: seq<Post>)
    requires |articles| == |keywords|
    ensures |r| <= |keywords|
    decreases |keywords|
  {
    if keywords == [] then []
    else
      var n := |keywords| - 1;
      var earlier := GeneratedPosts(keywords[..n], articles[..n], category, idOf, excerptOf, date, now);
      if articles[n].Some? && articles[n].value != [] then
        earlier + [PostFor(articles[n].value, keywords[n], category, idOf, excerptOf, date, now)]
      else earlier
  }

  /** The post generated from one article text. */
  function PostFor(text: string, keyword: string, category: string,
                   idOf: string -> string, excerptOf: string -> string,
                   date: string, now: string): Post
  {
    var a := ArticleParts(text, keyword);
    NewPost(a, keyword, category, idOf(a.title), excerptOf(a.content), date, now)
  }

  lemma PostForMarked(text: string, keyword: string, category: string,
                      idOf: string -> string, excerptOf: string -> string,
                      date: string, now: string)
    ensures var p := PostFor(text, keyword, category, idOf, excerptOf, date, now);
      p.generatedBy == Some(ScheduledBy) && p.category == Some(category) && p.author == "AI Scheduler"
  {
  }

  /** `generate_articles_from_keywords`: the article texts are the results of
      the generator for each keyword, None where it failed. */
  method GenerateArticles(keywords: seq<string>, articles: seq<Option<string>>, category: string,
                          idOf: string -> string, excerptOf: string -> string,
                          date: string, now: string) returns (generated: seq<Post>)
    requires |articles| == |keywords|
    ensures generated == GeneratedPosts(keywords, articles, category, idOf, excerptOf, date, now)
  {
    generated := [];
    for i := 0 to |keywords|
      invariant generated == GeneratedPosts(keywords[..i], articles[..i], category, idOf, excerptOf, date, now)
    {
      GeneratedPostsPrefix(keywords, articles, i, category, idOf, excerptOf, date, now);
      var articleContent := articles[i];
      if articleContent.Some? && articleContent.value != [] {
        var title, content := SplitArticle(articleContent.value, keywords[i]);
        var post := NewPost(Article(title, content), keywords[i], category, idOf(title), excerptOf(content), date, now);
        assert post == PostFor(articleContent.value, keywords[i], category, idOf, excerptOf, date, now);
        generated := generated + [post];
      }
      assert generated == GeneratedPosts(keywords[..i + 1], articles[..i + 1], category, idOf, excerptOf, date, now);
    }
    assert keywords[..|keywords|] == keywords && articles[..|articles|] == articles;
  }

  /** One more keyword adds at most its own post. */
  lemma GeneratedPostsPrefix(keywords: seq<string>, articles: seq<Option<string>>, i: nat, category: string,
                             idOf: string -> string, excerptOf: string -> string,
                             date: string, now: string)
    requires |articles| == |keywords| && i < |keywords|
    ensures GeneratedPosts(keywords[..i + 1], articles[..i + 1], category, idOf, excerptOf, date, now)
         == GeneratedPosts(keywords[..i], articles[..i], category, idOf, excerptOf, date, now)
          + (if articles[i].Some? && articles[i].value != []
             then [PostFor(articles[i].value, keywords[i], category, idOf, excerptOf, date, now)] else [])
  {
    assert keywords[..i + 1][..i] == keywords[..i] && articles[..i + 1][..i] == articles[..i];
  }

  /** Every generated post is marked as scheduled and filed under the chosen
      category. */
  lemma {:induction false} GeneratedPostsMarked(keywords: seq<string>, articles: seq<Option<string>>, category: string,
                                                idOf: string -> string, excerptOf: string -> string,
                                                date: string, now: string)
    requires |articles| == |keywords|
    ensures forall p :: p in GeneratedPosts(keywords, articles, category, idOf, excerptOf, date, now) ==>
      p.generatedBy == Some(ScheduledBy) && p.category == Some(category) && p.author == "AI Scheduler"
    decreases |keywords|
  {
    if keywords != [] {
      var n := |keywords| - 1;
      GeneratedPostsMarked(keywords[..n], articles[..n], category, idOf, excerptOf, date, now);
      if articles[n].Some? && articles[n].value != [] {
        PostForMarked(articles[n].value, keywords[n], category, idOf, excerptOf, date, now);
      }
    }
  }

  // ---------------------------------------------------------------------------
  // Putting the posts into the worker script

  const PostsPlaceholder: string := "{{POSTS_DATA}}"

  /** The script with every `{{POSTS_DATA}}` replaced by the posts JSON; None
      where the script has no placeholder and the regular-expression branch
      would run instead. */
  function WithPosts(script: string, postsJson: string): Option<string> {
    if Text.IndexOf(script, PostsPlaceholder).Some? then Some(Text.ReplaceAll(script, PostsPlaceholder, postsJson))
    else None
  }

  /** No proper suffix of the placeholder is a prefix of it, so an occurrence
      cannot start inside text that has none and end inside the placeholder. */
  lemma PlaceholderHasNoBorder(d: nat)
    requires 1 <= d < |PostsPlaceholder|
    ensures PostsPlaceholder[d..] != PostsPlaceholder[..|PostsPlaceholder| - d]
  {
    var p := PostsPlaceholder;
    if d == 1 {
      assert p[d..][1] != p[..|p| - d][1];
    } else {
      assert p[d..][0] != p[..|p| - d][0];
    }
  }

  /** A script with one placeholder gets the JSON in its place and is
      otherwise unchanged. */
  lemma OnePlaceholder(before: string, after: string, postsJson: string)
    requires !Text.Contains(before, PostsPlaceholder) && !Text.Contains(after, PostsPlaceholder)
    ensures WithPosts(before + PostsPlaceholder + after, postsJson) == Some(before + postsJson + after)
  {
    var p := PostsPlaceholder;
    var s := before + p + after;
    assert Text.OccursAt(s, p, |before|) by {
      assert s[|before|..|before| + |p|] == p;
    }
    forall j: nat | j < |before|
      ensures !Text.OccursAt(s, p, j)
    {
      if j + |p| <= |before| {
        assert before[j..j + |p|] == s[j..j + |p|];
        assert !Text.OccursAt(before, p, j);
      } else if j + |p| <= |s| {
        var d := |before| - j;
        PlaceholderHasNoBorder(d);
        assert s[j..j + |p|][d..] == p[..|p| - d];
      }
    }
    var i := Text.IndexOf(s, p);
    assert i == Some(|before|);
    assert s[|before| + |p|..] == after;
    assert s[..|before|] == before;
  }
}
