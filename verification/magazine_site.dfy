/** The magazine template worker ("News Magazine"). Its `handleRequest` tests
    `path.startsWith('/')` right after the home page, and every URL path
    starts with `/`, so every other request is answered by `getPostPage` with
    the third `/`-separated segment as the id. The category, tag, API, feed
    and sitemap branches after it are never reached. */
module MagazineSite {
  import opened Wrappers
  import Text
  import opened PostStore
  import opened Feeds
  import opened Pages
  import EdgeRouter
  import Uri

  const Title: string := "News Magazine"
  const Description: string := "Portal berita dengan gaya magazine modern"
  const Domain: string := "example.com"

  /** The branches of the magazine worker's `handleRequest`, in order: the
      home page, the post page for `path.split('/')[2]` (None for
      `undefined`, when the path has fewer than three segments), the
      category and tag pages, the posts API, the feed and the sitemap. */
  datatype Intent =
    | Home
    | Article(id: Option<string>)
    | CategoryPage(name: string)
    | TagPage(name: string)
    | ApiPosts
    | Feed
    | Sitemap

  function ThirdSegment(path: string): Option<string> {
    var segments := Text.Split(path, '/');
    if |segments| >= 3 then Some(segments[2]) else None
  }

  /** `handleRequest`, up to the choice of page: the source's whole chain of
      tests, in its order. */
  function Route(path: string): Result<Intent, EdgeRouter.Fault> {
    if path == "/" then Ok(Home)
    else if Text.StartsWith(path, "/") then Ok(Article(ThirdSegment(path)))
    else if Text.StartsWith(path, "/category/") then
      match Uri.Decode(EdgeRouter.ThirdSegment(path))
      case None => Err(EdgeRouter.UriError)
      case Some(name) => Ok(CategoryPage(name))
    else if Text.StartsWith(path, "/tag/") then
      match Uri.Decode(EdgeRouter.ThirdSegment(path))
      case None => Err(EdgeRouter.UriError)
      case Some(name) => Ok(TagPage(name))
    else if path == "/api/posts" then Ok(ApiPosts)
    else if path == "/feed.xml" || path == "/rss.xml" then Ok(Feed)
    else if path == "/sitemap.xml" then Ok(Sitemap)
    else Ok(Home)
  }

  /** `getHomePage`: the latest post in full, the others with the excerpt cut
      to 150 characters, and a ticker with the titles of the first three. */
  function HomeViewOf(posts: seq<Post>): View {
    HomeView(CategoryLinks(posts, true),
             if posts != [] then [CardOf(posts[0], None, AllTags)] else [],
             Cards(Text.Slice(posts, 1, |posts|), Some(150), NoChips),
             [],
             [],
             seq(|Text.Slice(posts, 0, 3)|, k requires 0 <= k < |Text.Slice(posts, 0, 3)| =>
               Text.Slice(posts, 0, 3)[k].title))
  }

  function HomePage(posts: seq<Post>, domain: string): Response {
    HtmlPage(Meta(Title, Description, None, Origin(domain)), HomeViewOf(posts))
  }

  /** `getPostPage`; `posts.find(p => p.id === undefined)` finds nothing. */
  function PostPage(posts: seq<Post>, id: Option<string>, domain: string): Response {
    var found := if id.Some? then FindById(posts, id.value) else None;
    match found
    case None => Response(404, "text/plain;charset=UTF-8", PlainText("Post tidak ditemukan"))
    case Some(p) =>
      HtmlPage(Meta(p.title + " - " + Title, p.excerpt, None, Origin(domain) + "/" + id.value),
               ArticleView(p))
  }

  /** The pages behind the branches after the post lookup are never
      composed: `EveryOtherPathIsALookup` shows those branches unreachable. */
  function Handle(path: string, posts: seq<Post>, hostname: string): Response {
    var domain := SiteDomain(hostname, Domain);
    EveryOtherPathIsALookup(path);
    match Route(path)
    case Ok(Home) => HomePage(posts, domain)
    case Ok(Article(id)) => PostPage(posts, id, domain)
    case _ => assert false; HomePage(posts, domain)
  }

  // ---------------------------------------------------------------------------
  // Properties

  /** The home page shows the first post in full, every other post in the
      grid with a cut excerpt, and the first three titles in the ticker. */
  lemma HomeSelection(posts: seq<Post>, domain: string)
    ensures var v := HomePage(posts, domain).body.view;
      && |v.featured| + |v.recent| == |posts|
      && (posts != [] ==> v.featured == [CardOf(posts[0], None, AllTags)])
      && (forall k :: 0 <= k < |v.recent| ==>
            v.recent[k].id == posts[k + 1].id && v.recent[k].excerpt == Excerpt(posts[k + 1].excerpt, 150))
      && |v.ticker| == (if |posts| < 3 then |posts| else 3)
      && (forall k :: 0 <= k < |v.ticker| ==> v.ticker[k] == posts[k].title)
  {
    var v := HomePage(posts, domain).body.view;
    if posts != [] {
      assert Text.Slice(posts, 1, |posts|) == posts[1..];
    }
    CardsShape(Text.Slice(posts, 1, |posts|), Some(150), NoChips);
  }

  /** Every path is answered by the home page or by a post lookup: the home
      page for `/` (and for a path not starting with `/`, which a URL's path
      never is), a lookup of the third segment for every other path. The
      category, tag, API, feed and sitemap branches are never taken, and
      `decodeURIComponent` is never called, so no path fails. */
  lemma EveryOtherPathIsALookup(path: string)
    ensures Route(path).Ok?
    ensures Route(path).value.Home? || Route(path).value.Article?
    ensures Route(path).value.Article? <==> path != "/" && |path| >= 1 && path[0] == '/'
    ensures Route(path).value.Article? ==> Route(path).value.id == ThirdSegment(path)
  {
    if !Text.StartsWith(path, "/") {
      assert !Text.StartsWith(path, "/category/") && !Text.StartsWith(path, "/tag/") by {
        if |path| >= 1 { assert path[..1] != "/"; }
      }
      assert path != "/api/posts" && path != "/feed.xml" && path != "/rss.xml" && path != "/sitemap.xml" by {
        if |path| >= 1 { assert path[..1] != "/"; }
      }
    } else {
      assert path[..1] == "/";
    }
  }

  /** A one-segment path has no third segment. */
  lemma OneSegment(id: string)
    requires Text.NoChar(id, '/')
    ensures Text.Split("/" + id, '/') == ["", id]
  {
    Text.SplitNoSep(id, '/');
    Text.SplitConcat("", '/', id);
    assert "/" + id == "" + ['/'] + id;
  }

  /** So the post links of the home page, `/<id>`, answer 404 for every id
      that has no `/`, and so do `/feed.xml`, `/rss.xml` and `/sitemap.xml`. */
  lemma PostLinksAreNotFound(posts: seq<Post>, id: string, hostname: string)
    requires Text.NoChar(id, '/') && id != []
    ensures Handle("/" + id, posts, hostname).status == 404
    ensures Handle("/" + id, posts, hostname).body == PlainText("Post tidak ditemukan")
  {
    OneSegment(id);
    assert ("/" + id)[0] == '/' && "/" + id != "/";
  }

  lemma FeedAndSitemapAreNotFound(posts: seq<Post>, hostname: string)
    ensures Handle("/feed.xml", posts, hostname).status == 404
    ensures Handle("/rss.xml", posts, hostname).status == 404
    ensures Handle("/sitemap.xml", posts, hostname).status == 404
  {
    assert "/feed.xml" == "/" + "feed.xml";
    PostLinksAreNotFound(posts, "feed.xml", hostname);
    assert "/rss.xml" == "/" + "rss.xml";
    PostLinksAreNotFound(posts, "rss.xml", hostname);
    assert "/sitemap.xml" == "/" + "sitemap.xml";
    PostLinksAreNotFound(posts, "sitemap.xml", hostname);
  }

  /** `/<any>/<id>` opens the post with that id. */
  lemma TwoSegmentPathOpensPost(posts: seq<Post>, first: string, id: string, hostname: string)
    requires Text.NoChar(first, '/') && Text.NoChar(id, '/')
    requires FindById(posts, id).Some?
    ensures Handle("/" + first + "/" + id, posts, hostname).status == 200
    ensures Handle("/" + first + "/" + id, posts, hostname).body.view == ArticleView(FindById(posts, id).value)
  {
    var path := "/" + first + "/" + id;
    EdgeRouter.SegmentsAfterPrefix(first, id);
    Text.SplitNoSep(id, '/');
    assert Text.Split(path, '/') == ["", first, id];
    ArticleShownIff(posts, path, hostname, FindById(posts, id).value);
  }

  /** A longer path `/<any>/<id>/<more>` opens the same post: only the third
      segment is read. */
  lemma LongerPathOpensPost(posts: seq<Post>, first: string, id: string, more: string, hostname: string)
    requires Text.NoChar(first, '/') && Text.NoChar(id, '/')
    requires FindById(posts, id).Some?
    ensures Handle("/" + first + "/" + id + "/" + more, posts, hostname).status == 200
    ensures Handle("/" + first + "/" + id + "/" + more, posts, hostname).body.view
            == ArticleView(FindById(posts, id).value)
  {
    var path := "/" + first + "/" + id + "/" + more;
    assert path == "/" + first + "/" + (id + "/" + more);
    EdgeRouter.SegmentsAfterPrefix(first, id + "/" + more);
    Text.SplitConcat(id, '/', more);
    assert id + "/" + more == id + ['/'] + more;
    assert ThirdSegment(path) == Some(id);
    ArticleShownIff(posts, path, hostname, FindById(posts, id).value);
  }

  /** The page of a post `p` is shown exactly when the path is not `/`,
      starts with `/`, and its third segment is an id whose first post is
      `p`; whatever the segments before and after it are. */
  lemma ArticleShownIff(posts: seq<Post>, path: string, hostname: string, p: Post)
    ensures var r := Handle(path, posts, hostname);
      (r.status == 200 && r.body.Html? && r.body.view == ArticleView(p))
      <==> (path != "/" && |path| >= 1 && path[0] == '/'
            && ThirdSegment(path).Some? && FindById(posts, ThirdSegment(path).value) == Some(p))
  {
    EveryOtherPathIsALookup(path);
  }
}
