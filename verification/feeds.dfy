/** The three machine-readable documents the template workers serve besides
    HTML: the sitemap (Sitemaps protocol 0.9, one `<url>` element with `<loc>`,
    `<lastmod>`, `<changefreq>` and `<priority>` per entry), the RSS 2.0 feed
    (one `<item>` per post) and `robots.txt` (RFC 9309). Each is modelled as
    the sequence of entries the XML or text is printed from. */
module Feeds {
  import opened Wrappers
  import Text
  import Uri
  import opened PostStore

  /** `new URL(request.url).hostname || BLOG_CONFIG.domain`. */
  function SiteDomain(hostname: string, configured: string): string {
    if hostname != [] then hostname else configured
  }

  function Origin(domain: string): string {
    "https://" + domain
  }

  // ---------------------------------------------------------------------------
  // Sitemap

  datatype UrlEntry = UrlEntry(loc: string, lastmod: string, changefreq: string, priority: string)

  /** The home page; `today` stands for `new Date().toISOString().split('T')[0]`. */
  function HomeEntry(domain: string, today: string): UrlEntry {
    UrlEntry(Origin(domain) + "/", today, "daily", "1.0")
  }

  function CategoryEntry(domain: string, today: string, category: string): UrlEntry {
    UrlEntry(Origin(domain) + "/category/" + Uri.Encode(category), today, "weekly", "0.8")
  }

  function TagEntry(domain: string, today: string, tag: string): UrlEntry {
    UrlEntry(Origin(domain) + "/tag/" + Uri.Encode(tag), today, "weekly", "0.6")
  }

  function PostEntry(domain: string, p: Post): UrlEntry {
    UrlEntry(Origin(domain) + "/" + p.id, p.date, "monthly", "0.9")
  }

  function CategoryEntries(domain: string, today: string, cats: seq<string>): seq<UrlEntry> {
    seq(|cats|, k requires 0 <= k < |cats| => CategoryEntry(domain, today, cats[k]))
  }

  function TagEntries(domain: string, today: string, tags: seq<string>): seq<UrlEntry> {
    seq(|tags|, k requires 0 <= k < |tags| => TagEntry(domain, today, tags[k]))
  }

  function PostEntries(domain: string, posts: seq<Post>): seq<UrlEntry> {
    seq(|posts|, k requires 0 <= k < |posts| => PostEntry(domain, posts[k]))
  }

  /** The entries of the sitemap: the home page, then the distinct truthy
      categories, then the distinct tags, then every post. */
  function SitemapUrls(posts: seq<Post>, domain: string, today: string): seq<UrlEntry> {
    Layout(domain, today, DistinctCategories(posts), DistinctTags(posts), posts)
  }

  function Layout(domain: string, today: string, cats: seq<string>, tags: seq<string>,
                  posts: seq<Post>): seq<UrlEntry>
  {
    [HomeEntry(domain, today)]
    + CategoryEntries(domain, today, cats)
    + TagEntries(domain, today, tags)
    + PostEntries(domain, posts)
  }

  lemma LayoutOrder(domain: string, today: string, cats: seq<string>, tags: seq<string>,
                    posts: seq<Post>)
    ensures var u := Layout(domain, today, cats, tags, posts);
      var c, t := |cats|, |tags|;
      && |u| == 1 + c + t + |posts|
      && u[0] == HomeEntry(domain, today)
      && (forall k :: 0 <= k < c ==> u[1 + k] == CategoryEntry(domain, today, cats[k]))
      && (forall k :: 0 <= k < t ==> u[1 + c + k] == TagEntry(domain, today, tags[k]))
      && (forall k :: 0 <= k < |posts| ==> u[1 + c + t + k] == PostEntry(domain, posts[k]))
  {
  }

  lemma CategoryEntriesStep(domain: string, today: string, cats: seq<string>, k: nat)
    requires k < |cats|
    ensures CategoryEntries(domain, today, cats[..k + 1])
            == CategoryEntries(domain, today, cats[..k]) + [CategoryEntry(domain, today, cats[k])]
  {
    assert cats[..k + 1] == cats[..k] + [cats[k]];
  }

  lemma TagEntriesStep(domain: string, today: string, tags: seq<string>, k: nat)
    requires k < |tags|
    ensures TagEntries(domain, today, tags[..k + 1])
            == TagEntries(domain, today, tags[..k]) + [TagEntry(domain, today, tags[k])]
  {
    assert tags[..k + 1] == tags[..k] + [tags[k]];
  }

  lemma PostEntriesStep(domain: string, posts: seq<Post>, k: nat)
    requires k < |posts|
    ensures PostEntries(domain, posts[..k + 1])
            == PostEntries(domain, posts[..k]) + [PostEntry(domain, posts[k])]
  {
    assert posts[..k + 1] == posts[..k] + [posts[k]];
  }

  /** `getSitemap`: starts from the home entry and pushes one entry per
      category, per tag and per post, in that order. */
  method BuildSitemap(posts: seq<Post>, domain: string, today: string) returns (urls: seq<UrlEntry>)
    ensures urls == SitemapUrls(posts, domain, today)
  {
    urls := [HomeEntry(domain, today)];
    var categories := DistinctCategories(posts);
    for k := 0 to |categories|
      invariant urls == [HomeEntry(domain, today)] + CategoryEntries(domain, today, categories[..k])
    {
      CategoryEntriesStep(domain, today, categories, k);
      urls := urls + [CategoryEntry(domain, today, categories[k])];
    }
    assert categories[..|categories|] == categories;
    ghost var head := urls;
    var uniqueTags := DistinctTags(posts);
    for k := 0 to |uniqueTags|
      invariant urls == head + TagEntries(domain, today, uniqueTags[..k])
    {
      TagEntriesStep(domain, today, uniqueTags, k);
      urls := urls + [TagEntry(domain, today, uniqueTags[k])];
    }
    assert uniqueTags[..|uniqueTags|] == uniqueTags;
    head := urls;
    for k := 0 to |posts|
      invariant urls == head + PostEntries(domain, posts[..k])
    {
      PostEntriesStep(domain, posts, k);
      urls := urls + [PostEntry(domain, posts[k])];
    }
    assert posts[..|posts|] == posts;
  }

  /** The sitemap lists the home page, then one entry per distinct category,
      then one per distinct tag, then one per post, in that order. */
  lemma SitemapOrder(posts: seq<Post>, domain: string, today: string)
    ensures var u := SitemapUrls(posts, domain, today);
      var cats, tags := DistinctCategories(posts), DistinctTags(posts);
      var c, t := |cats|, |tags|;
      && |u| == 1 + c + t + |posts|
      && u[0] == HomeEntry(domain, today)
      && (forall k :: 0 <= k < c ==> u[1 + k] == CategoryEntry(domain, today, cats[k]))
      && (forall k :: 0 <= k < t ==> u[1 + c + k] == TagEntry(domain, today, tags[k]))
      && (forall k :: 0 <= k < |posts| ==> u[1 + c + t + k] == PostEntry(domain, posts[k]))
  {
    LayoutOrder(domain, today, DistinctCategories(posts), DistinctTags(posts), posts);
  }

  /** The home entry leads the sitemap with priority 1.0, changed daily. */
  lemma SitemapHomeEntry(posts: seq<Post>, domain: string, today: string)
    ensures var u := SitemapUrls(posts, domain, today);
      |u| > 0 && u[0].loc == Origin(domain) + "/" && u[0].lastmod == today
      && u[0].priority == "1.0" && u[0].changefreq == "daily"
  {
    SitemapOrder(posts, domain, today);
  }

  /** Each category entry has priority 0.8, changes weekly, and its location
      is the percent-encoded category name. */
  lemma SitemapCategoryEntries(posts: seq<Post>, domain: string, today: string)
    ensures var u := SitemapUrls(posts, domain, today);
      var cats := DistinctCategories(posts);
      |u| > |cats| &&
      forall k :: 0 <= k < |cats| ==>
        u[1 + k].loc == Origin(domain) + "/category/" + Uri.Encode(cats[k])
        && u[1 + k].priority == "0.8" && u[1 + k].changefreq == "weekly"
  {
    SitemapOrder(posts, domain, today);
  }

  /** Each tag entry has priority 0.6, changes weekly, and its location is
      the percent-encoded tag. */
  lemma SitemapTagEntries(posts: seq<Post>, domain: string, today: string)
    ensures var u := SitemapUrls(posts, domain, today);
      var c, tags := |DistinctCategories(posts)|, DistinctTags(posts);
      |u| > c + |tags| &&
      forall k :: 0 <= k < |tags| ==>
        u[1 + c + k].loc == Origin(domain) + "/tag/" + Uri.Encode(tags[k])
        && u[1 + c + k].priority == "0.6" && u[1 + c + k].changefreq == "weekly"
  {
    SitemapOrder(posts, domain, today);
  }

  /** Each post entry has priority 0.9, changes monthly, is located at the
      post's id and carries the post's date as `lastmod`. */
  lemma SitemapPostEntries(posts: seq<Post>, domain: string, today: string)
    ensures var u := SitemapUrls(posts, domain, today);
      var c, t := |DistinctCategories(posts)|, |DistinctTags(posts)|;
      |u| == 1 + c + t + |posts| &&
      forall k :: 0 <= k < |posts| ==>
        u[1 + c + t + k].loc == Origin(domain) + "/" + posts[k].id
        && u[1 + c + t + k].lastmod == posts[k].date
        && u[1 + c + t + k].priority == "0.9" && u[1 + c + t + k].changefreq == "monthly"
  {
    SitemapOrder(posts, domain, today);
  }


  // ---------------------------------------------------------------------------
  // RSS 2.0 feed

  /** One `<item>`; `pubDate` holds the post's date string, whose conversion
      by `toUTCString` is not modelled. */
  datatype FeedItem = FeedItem(
    title: string, link: string, guid: string, description: string,
    pubDate: string, author: string, category: Option<string>)

  datatype Channel = Channel(
    title: string, description: string, link: string, selfLink: string,
    language: string, items: seq<FeedItem>)

  function ItemOf(domain: string, p: Post): FeedItem {
    FeedItem(p.title, Origin(domain) + "/" + p.id, Origin(domain) + "/" + p.id,
             p.excerpt, p.date, p.author,
             if Truthy(p.category) then p.category else None)
  }

  /** `getRSSFeed`: the channel with one item per post, in list order. */
  function RssFeed(title: string, description: string, language: string,
                   domain: string, posts: seq<Post>): Channel
  {
    Channel(title, description, Origin(domain), Origin(domain) + "/feed.xml", language,
            seq(|posts|, k requires 0 <= k < |posts| => ItemOf(domain, posts[k])))
  }

  /** One item per post in list order; its link and guid are the post's URL,
      and it carries a `<category>` exactly when the post's category is truthy. */
  lemma FeedShape(title: string, description: string, language: string,
                  domain: string, posts: seq<Post>)
    ensures var ch := RssFeed(title, description, language, domain, posts);
      && |ch.items| == |posts|
      && ch.language == language
      && ch.selfLink == "https://" + domain + "/feed.xml"
      && forall k :: 0 <= k < |posts| ==>
           && ch.items[k].link == "https://" + domain + "/" + posts[k].id
           && ch.items[k].guid == ch.items[k].link
           && ch.items[k].title == posts[k].title
           && (ch.items[k].category.Some? <==> Truthy(posts[k].category))
           && (ch.items[k].category.Some? ==> ch.items[k].category == posts[k].category)
  {
  }

  // ---------------------------------------------------------------------------
  // robots.txt

  /** `getRobotsTxt`: one group for every crawler allowing everything, and a
      `Sitemap:` line, an "other record" in the sense of section 2.2.4 of
      RFC 9309. */
  function RobotsTxt(domain: string): string {
    "User-agent: *\nAllow: /\n\nSitemap: https://" + domain + "/sitemap.xml"
  }

  lemma FourLines(a: string, b: string, c: string, e: string, d: char)
    requires Text.NoChar(a, d) && Text.NoChar(b, d) && Text.NoChar(c, d) && Text.NoChar(e, d)
    ensures Text.Split(a + [d] + (b + [d] + (c + [d] + e)), d) == [a, b, c, e]
  {
    var s3 := c + [d] + e;
    var s2 := b + [d] + s3;
    Text.SplitNoSep(e, d);
    Text.SplitConcat(c, d, e);
    assert Text.Split(s3, d) == [c, e];
    Text.SplitConcat(b, d, s3);
    assert Text.Split(s2, d) == [b, c, e];
    Text.SplitConcat(a, d, s2);
  }

  /** The last line of `robots.txt`. */
  function SitemapRecord(domain: string): string {
    "Sitemap: https://" + domain + "/sitemap.xml"
  }

  lemma RobotsTxtParts(domain: string)
    ensures RobotsTxt(domain)
            == "User-agent: *" + ['\n'] + ("Allow: /" + ['\n'] + ("" + ['\n'] + SitemapRecord(domain)))
  {
  }

  lemma SitemapRecordOneLine(domain: string)
    requires Text.NoChar(domain, '\n')
    ensures Text.NoChar(SitemapRecord(domain), '\n')
  {
    var last := SitemapRecord(domain);
    forall i | 0 <= i < |last| ensures last[i] != '\n' {
      if 17 <= i < 17 + |domain| {
        assert last[i] == domain[i - 17];
      }
    }
  }

  /** The file has exactly four lines: the user-agent line, the allow rule, a
      blank line and the sitemap record pointing at this host's sitemap. */
  lemma RobotsLines(domain: string)
    requires Text.NoChar(domain, '\n')
    ensures Text.Split(RobotsTxt(domain), '\n')
            == ["User-agent: *", "Allow: /", "", "Sitemap: https://" + domain + "/sitemap.xml"]
  {
    RobotsTxtParts(domain);
    SitemapRecordOneLine(domain);
    FourLines("User-agent: *", "Allow: /", "", SitemapRecord(domain), '\n');
  }
}
