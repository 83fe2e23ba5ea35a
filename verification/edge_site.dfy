/** The page composition shared by the tech, minimal, business, modern and
    corporate template workers. The five workers are one program with
    different wording and list sizes; a `Site` record holds what differs, and
    `Handle` is `handleRequest` with the page functions it calls
    (`getHomePage`, `getPostPage`, `getCategoryPage`, `getTagPage`,
    `getRSSFeed`, `getSitemap`, `getRobotsTxt`). */
module EdgeSite {
  import opened Wrappers
  import Text
  import Uri
  import opened PostStore
  import opened Feeds
  import opened Pages
  import opened EdgeRouter

  /** A list of cards on the home page: `posts.slice(from, to)` (to the end
      when `to` is None), with the excerpt cut and the tag rule of that list. */
  datatype ListSpec = ListSpec(from: nat, to: Option<nat>, limit: Option<nat>, chips: Chips)

  /** The home page: category links (with post counts or not), up to three
      card lists, and the first `tagCloud` distinct tags (0: no tag cloud). */
  datatype HomeLayout = HomeLayout(
    countedCategories: bool,
    featured: Option<ListSpec>,
    recent: ListSpec,
    tagCloud: nat,
    sidebar: Option<ListSpec>)

  /** The meta data of an archive page for a category or tag `x`: the title
      `titlePrefix + x + titleSuffix + site title`, the description
      `descPrefix + x + descSuffix` (with `x.toLowerCase()` where
      `lowerInDescription`), the keywords `x + keywordsInfix + site keywords`. */
  datatype ArchiveWording = ArchiveWording(
    titlePrefix: string, titleSuffix: string,
    descPrefix: string, lowerInDescription: bool, descSuffix: string,
    keywordsInfix: string)

  /** How an archive page shows its posts. */
  datatype ArchiveList = ArchiveList(limit: Option<nat>, chips: Chips)

  /** One template: `BLOG_CONFIG` and the per-template choices. `keywords` is
      None for the templates whose shell has no `{{keywords}}` placeholder;
      `placeholder` says whether an empty archive shows a "no posts" notice. */
  datatype Site = Site(
    title: string,
    description: string,
    keywords: Option<string>,
    domain: string,
    language: string,
    servesRobots: bool,
    home: HomeLayout,
    postTitleSeparator: string,
    notFound: string,
    category: ArchiveWording,
    categoryList: ArchiveList,
    tag: ArchiveWording,
    tagList: ArchiveList,
    placeholder: bool)

  /** The body type of `new Response(text)` without a `Content-Type` header. */
  const TextPlainUtf8: string := "text/plain;charset=UTF-8"

  // ---------------------------------------------------------------------------
  // Pages

  function Pick(posts: seq<Post>, l: ListSpec): seq<Card> {
    Cards(Text.Slice(posts, l.from, if l.to.Some? then l.to.value else |posts|), l.limit, l.chips)
  }

  function HomeViewOf(site: Site, posts: seq<Post>): View {
    var h := site.home;
    HomeView(CategoryLinks(posts, h.countedCategories),
             if h.featured.Some? then Pick(posts, h.featured.value) else [],
             Pick(posts, h.recent),
             Text.Take(DistinctTags(posts), h.tagCloud),
             if h.sidebar.Some? then Pick(posts, h.sidebar.value) else [],
             [])
  }

  /** `getHomePage`. */
  function HomePage(site: Site, posts: seq<Post>, domain: string): Response {
    HtmlPage(Meta(site.title, site.description, site.keywords, Origin(domain)), HomeViewOf(site, posts))
  }

  /** `${post.tags ? post.tags.join(', ') : ''}, ${BLOG_CONFIG.keywords}`. */
  function PostKeywords(site: Site, p: Post): Option<string> {
    if site.keywords.None? then None
    else Some((if p.tags.Some? then Text.Join(p.tags.value, ", ") else "") + ", " + site.keywords.value)
  }

  /** `getPostPage`: the article, or a 404 text response for an unknown id. */
  function PostPage(site: Site, posts: seq<Post>, id: string, domain: string): Response {
    match FindById(posts, id)
    case None => Response(404, TextPlainUtf8, PlainText(site.notFound))
    case Some(p) =>
      HtmlPage(Meta(p.title + site.postTitleSeparator + site.title, p.excerpt,
                    PostKeywords(site, p), Origin(domain) + "/" + id),
               ArticleView(p))
  }

  function ArchiveMeta(site: Site, w: ArchiveWording, name: string, canonical: string): Meta {
    Meta(w.titlePrefix + name + w.titleSuffix + site.title,
         w.descPrefix + (if w.lowerInDescription then Text.Lower(name) else name) + w.descSuffix,
         if site.keywords.Some? then Some(name + w.keywordsInfix + site.keywords.value) else None,
         canonical)
  }

  function ArchivePage(site: Site, w: ArchiveWording, list: ArchiveList, name: string,
                       matches: seq<Post>, canonical: string): Response
  {
    var cards := Cards(matches, list.limit, list.chips);
    HtmlPage(ArchiveMeta(site, w, name, canonical),
             ArchiveView(name, cards, site.placeholder && cards == []))
  }

  /** `getCategoryPage`. */
  function CategoryPageOf(site: Site, posts: seq<Post>, name: string, domain: string): Response {
    ArchivePage(site, site.category, site.categoryList, name, FilterByCategory(posts, name),
                Origin(domain) + "/category/" + Uri.Encode(name))
  }

  /** `getTagPage`. */
  function TagPageOf(site: Site, posts: seq<Post>, name: string, domain: string): Response {
    ArchivePage(site, site.tag, site.tagList, name, FilterByTag(posts, name),
                Origin(domain) + "/tag/" + Uri.Encode(name))
  }

  function Respond(site: Site, intent: Intent, posts: seq<Post>, domain: string, today: string): Response {
    match intent
    case Home => HomePage(site, posts, domain)
    case PostPage(id) => PostPage(site, posts, id, domain)
    case CategoryPage(name) => CategoryPageOf(site, posts, name, domain)
    case TagPage(name) => TagPageOf(site, posts, name, domain)
    case ApiPosts => Response(200, "application/json", PostsJson(posts))
    case Feed =>
      Response(200, "application/rss+xml; charset=UTF-8",
               Rss(RssFeed(site.title, site.description, site.language, domain, posts)))
    case Sitemap => Response(200, "application/xml; charset=UTF-8", Urlset(SitemapUrls(posts, domain, today)))
    case Robots => Response(200, "text/plain", PlainText(RobotsTxt(domain)))
  }

  /** `handleRequest` for a request to `https://<hostname><path>`; `today` is
      the date the sitemap stamps on its non-post entries. */
  function Handle(site: Site, path: string, posts: seq<Post>, hostname: string, today: string)
    : Result<Response, Fault>
  {
    match Route(path, posts, site.servesRobots)
    case Err(e) => Err(e)
    case Ok(intent) => Ok(Respond(site, intent, posts, SiteDomain(hostname, site.domain), today))
  }

  // ---------------------------------------------------------------------------
  // Properties

  /** The worker never answers 404: the router only chooses a post page for
      an id it has found, so `getPostPage`'s "not found" branch is dead; it
      fails only where decoding a category or tag segment throws. */
  lemma HandleNeverNotFound(site: Site, path: string, posts: seq<Post>, hostname: string, today: string)
    ensures Handle(site, path, posts, hostname, today).Ok? ==>
              Handle(site, path, posts, hostname, today).value.status == 200
    ensures Handle(site, path, posts, hostname, today).Err? <==>
              Route(path, posts, site.servesRobots).Err?
  {
    var route := Route(path, posts, site.servesRobots);
    if route.Ok? {
      var domain := SiteDomain(hostname, site.domain);
      assert Handle(site, path, posts, hostname, today) == Ok(Respond(site, route.value, posts, domain, today));
      assert route.value.PostPage? ==> FindById(posts, route.value.id).Some? by {
        RouteOutcomes(path, posts, site.servesRobots);
      }
      RespondOk(site, route.value, posts, domain, today);
    }
  }

  /** Every intent the router can choose is answered with 200. */
  lemma RespondOk(site: Site, intent: Intent, posts: seq<Post>, domain: string, today: string)
    requires intent.PostPage? ==> FindById(posts, intent.id).Some?
    ensures Respond(site, intent, posts, domain, today).status == 200
  {
    if intent.PostPage? {
      assert PostPage(site, posts, intent.id, domain).status == 200;
    }
  }

  /** Called directly with an unknown id, `getPostPage` answers 404 with the
      template's text; with a known id, an HTML page. */
  lemma PostPageStatus(site: Site, posts: seq<Post>, id: string, domain: string)
    ensures PostPage(site, posts, id, domain).status == 404
            <==> forall j :: 0 <= j < |posts| ==> posts[j].id != id
    ensures PostPage(site, posts, id, domain).status == 404 ==>
              PostPage(site, posts, id, domain).body == PlainText(site.notFound)
  {
  }

  /** The parts of the home page, as the layout chooses them. */
  lemma HomeParts(site: Site, posts: seq<Post>, domain: string)
    ensures var v := HomePage(site, posts, domain).body.view;
      var h := site.home;
      && v.categories == CategoryLinks(posts, h.countedCategories)
      && v.featured == (if h.featured.Some? then Pick(posts, h.featured.value) else [])
      && v.recent == Pick(posts, h.recent)
      && v.tagCloud == Text.Take(DistinctTags(posts), h.tagCloud)
      && v.sidebar == (if h.sidebar.Some? then Pick(posts, h.sidebar.value) else [])
      && v.ticker == []
  {
  }

  /** A home-page list shows the posts `from` up to `to` (clamped to the
      list), in order, one card each. */
  lemma PickShape(posts: seq<Post>, l: ListSpec)
    ensures var hi := if l.to.Some? && l.to.value < |posts| then l.to.value else |posts|;
      var cs := Pick(posts, l);
      && |cs| == (if l.from < hi then hi - l.from else 0)
      && forall k :: 0 <= k < |cs| ==> cs[k] == CardOf(posts[l.from + k], l.limit, l.chips)
  {
  }

  /** The fields of each card of a home-page list, rule by rule. */
  lemma PickFields(posts: seq<Post>, l: ListSpec)
    ensures var hi := if l.to.Some? && l.to.value < |posts| then l.to.value else |posts|;
      var cs := Pick(posts, l);
      && |cs| == (if l.from < hi then hi - l.from else 0)
      && forall k :: 0 <= k < |cs| ==>
           && cs[k].id == posts[l.from + k].id
           && cs[k].excerpt == (if l.limit.Some? then Excerpt(posts[l.from + k].excerpt, l.limit.value)
                                else posts[l.from + k].excerpt)
           && (l.chips.TagsUpTo? ==>
                 cs[k].chips == if posts[l.from + k].tags.Some?
                                then Some(Text.Take(posts[l.from + k].tags.value, l.chips.n)) else None)
           && (l.chips == NoChips ==> cs[k].chips.None?)
           && (l.chips == AllTags ==> cs[k].chips == posts[l.from + k].tags)
  {
    var cs := Pick(posts, l);
    PickShape(posts, l);
    forall k | 0 <= k < |cs|
      ensures && cs[k].id == posts[l.from + k].id
              && cs[k].excerpt == (if l.limit.Some? then Excerpt(posts[l.from + k].excerpt, l.limit.value)
                                   else posts[l.from + k].excerpt)
              && (l.chips.TagsUpTo? ==>
                    cs[k].chips == if posts[l.from + k].tags.Some?
                                   then Some(Text.Take(posts[l.from + k].tags.value, l.chips.n)) else None)
              && (l.chips == NoChips ==> cs[k].chips.None?)
              && (l.chips == AllTags ==> cs[k].chips == posts[l.from + k].tags)
    {
      CardFields(posts[l.from + k], l.limit, l.chips);
    }
  }

  /** The article page's meta data: its title is the post's title and the
      site's title, its description the excerpt, its canonical URL the post's
      URL; without tags the keywords start with an empty tag list and ", ". */
  lemma PostMeta(site: Site, posts: seq<Post>, id: string, domain: string)
    requires FindById(posts, id).Some?
    ensures var p := FindById(posts, id).value;
      var r := PostPage(site, posts, id, domain);
      && r.status == 200 && r.body.Html?
      && r.body.meta.title == p.title + site.postTitleSeparator + site.title
      && r.body.meta.description == p.excerpt
      && r.body.meta.canonical == "https://" + domain + "/" + id
      && (r.body.meta.keywords.Some? <==> site.keywords.Some?)
      && (site.keywords.Some? && p.tags.None? ==> r.body.meta.keywords.value == ", " + site.keywords.value)
      && r.body.view == ArticleView(p)
  {
  }

  /** An archive page lists exactly the matching posts, in list order, and
      shows the placeholder exactly when the template has one and nothing
      matches. */
  lemma CategoryPageLists(site: Site, posts: seq<Post>, name: string, domain: string)
    ensures var r := CategoryPageOf(site, posts, name, domain);
      && r.status == 200 && r.body.Html? && r.body.view.ArchiveView?
      && |r.body.view.cards| == |FilterByCategory(posts, name)|
      && (forall k :: 0 <= k < |r.body.view.cards| ==>
            r.body.view.cards[k] == CardOf(FilterByCategory(posts, name)[k], site.categoryList.limit, site.categoryList.chips))
      && (forall p :: p in FilterByCategory(posts, name) <==> p in posts && InCategory(p, name))
      && (r.body.view.placeholder <==> site.placeholder && forall p :: p in posts ==> !InCategory(p, name))
      && r.body.meta.canonical == "https://" + domain + "/category/" + Uri.Encode(name)
  {
    var m := FilterByCategory(posts, name);
    if m != [] {
      assert m[0] in m;
    }
  }

  lemma TagPageLists(site: Site, posts: seq<Post>, name: string, domain: string)
    ensures var r := TagPageOf(site, posts, name, domain);
      && r.status == 200 && r.body.Html? && r.body.view.ArchiveView?
      && |r.body.view.cards| == |FilterByTag(posts, name)|
      && (forall k :: 0 <= k < |r.body.view.cards| ==>
            r.body.view.cards[k] == CardOf(FilterByTag(posts, name)[k], site.tagList.limit, site.tagList.chips))
      && (forall p :: p in FilterByTag(posts, name) <==> p in posts && HasTag(p, name))
      && (r.body.view.placeholder <==> site.placeholder && forall p :: p in posts ==> !HasTag(p, name))
      && r.body.meta.canonical == "https://" + domain + "/tag/" + Uri.Encode(name)
  {
    var m := FilterByTag(posts, name);
    if m != [] {
      assert m[0] in m;
    }
  }

  /** Following a category link of the home page opens that category's page,
      which lists at least as many posts as the link's count. */
  lemma HomeCategoryLinkLeadsToArchive(site: Site, posts: seq<Post>, hostname: string, today: string, k: nat)
    requires site.home.countedCategories
    requires k < |CategoryLinks(posts, true)|
    ensures var link := CategoryLinks(posts, true)[k];
      var h := Handle(site, "/category/" + Uri.Encode(link.name), posts, hostname, today);
      && h == Ok(CategoryPageOf(site, posts, link.name, SiteDomain(hostname, site.domain)))
      && link.count.value <= |h.value.body.view.cards|
  {
    CategoryLinksShape(posts, true);
    var link := CategoryLinks(posts, true)[k];
    CategoryLinkRoundTrip(link.name, [], posts, site.servesRobots);
    assert "/category/" + Uri.Encode(link.name) + [] == "/category/" + Uri.Encode(link.name);
    CountAtMostArchive(posts, link.name);
  }

  /** The same for a tag of the tag cloud: its page lists every post carrying it. */
  lemma TagCloudLeadsToArchive(site: Site, posts: seq<Post>, hostname: string, today: string, k: nat)
    requires k < |Text.Take(DistinctTags(posts), site.home.tagCloud)|
    ensures var tag := Text.Take(DistinctTags(posts), site.home.tagCloud)[k];
      && Handle(site, "/tag/" + Uri.Encode(tag), posts, hostname, today)
           == Ok(TagPageOf(site, posts, tag, SiteDomain(hostname, site.domain)))
      && forall p :: p in posts && p.tags.Some? && tag in p.tags.value ==> p in FilterByTag(posts, tag)
  {
    var tag := Text.Take(DistinctTags(posts), site.home.tagCloud)[k];
    TagLinkRoundTrip(tag, [], posts, site.servesRobots);
    assert "/tag/" + Uri.Encode(tag) + [] == "/tag/" + Uri.Encode(tag);
  }

  /** `/feed.xml` and `/rss.xml` both serve the RSS channel of the posts. */
  lemma FeedResponse(site: Site, posts: seq<Post>, hostname: string, today: string)
    ensures Handle(site, "/feed.xml", posts, hostname, today) == Handle(site, "/rss.xml", posts, hostname, today)
    ensures Handle(site, "/feed.xml", posts, hostname, today)
            == Ok(Response(200, "application/rss+xml; charset=UTF-8",
                           Rss(RssFeed(site.title, site.description, site.language,
                                       SiteDomain(hostname, site.domain), posts))))
  {
    FixedPaths(posts, site.servesRobots);
  }

  /** `/sitemap.xml` serves the sitemap entries of the posts. */
  lemma SitemapResponse(site: Site, posts: seq<Post>, hostname: string, today: string)
    ensures Handle(site, "/sitemap.xml", posts, hostname, today)
            == Ok(Response(200, "application/xml; charset=UTF-8",
                           Urlset(SitemapUrls(posts, SiteDomain(hostname, site.domain), today))))
  {
    FixedPaths(posts, site.servesRobots);
  }

  /** `/robots.txt` is the robots file exactly in the templates that route it. */
  lemma RobotsResponse(site: Site, posts: seq<Post>, hostname: string, today: string)
    ensures (Handle(site, "/robots.txt", posts, hostname, today)
             == Ok(Response(200, "text/plain", PlainText(RobotsTxt(SiteDomain(hostname, site.domain))))))
            <==> site.servesRobots
  {
    RobotsPath(posts);
  }
}
