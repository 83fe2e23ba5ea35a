/** The request dispatch shared by the tech, minimal, business, modern and
    corporate template workers (`handleRequest`): an ordered first-match chain
    of equality and prefix tests on the URL path. Category and tag names are
    the third `/`-separated segment, percent-decoded; any other path is tried
    as a post id and otherwise falls back to the home page. Only the tech,
    minimal and business templates have the `/robots.txt` branch. */
module EdgeRouter {
  import opened Wrappers
  import Text
  import Uri
  import opened PostStore

  /** What the worker decides to render. */
  datatype Intent =
    | Home
    | PostPage(id: string)
    | CategoryPage(name: string)
    | TagPage(name: string)
    | ApiPosts
    | Feed
    | Sitemap
    | Robots

  /** `decodeURIComponent` threw a `URIError`; the handler does not catch it. */
  datatype Fault = UriError

  /** The segments of `/<name>/<rest>` are the empty segment before the first
      slash, `name`, and the segments of `rest`. */
  lemma SegmentsAfterPrefix(name: string, rest: string)
    requires Text.NoChar(name, '/')
    ensures Text.Split("/" + name + "/" + rest, '/') == ["", name] + Text.Split(rest, '/')
  {
    Text.SplitConcat(name, '/', rest);
    Text.SplitConcat("", '/', name + "/" + rest);
    assert "/" + name + "/" + rest == "" + ['/'] + (name + ['/'] + rest);
  }

  lemma PrefixSegments(path: string, name: string)
    requires Text.NoChar(name, '/')
    requires Text.StartsWith(path, "/" + name + "/")
    ensures |Text.Split(path, '/')| >= 3
    ensures Text.Split(path, '/')[2] == Text.Split(path[|name| + 2..], '/')[0]
  {
    var rest := path[|name| + 2..];
    assert path == "/" + name + "/" + rest;
    SegmentsAfterPrefix(name, rest);
  }

  /** `path.split('/')[2]` for a path under `/category/` or `/tag/`. */
  function ThirdSegment(path: string): string
    requires Text.StartsWith(path, "/category/") || Text.StartsWith(path, "/tag/")
  {
    if Text.StartsWith(path, "/category/") then
      PrefixSegments(path, "category");
      Text.Split(path, '/')[2]
    else
      PrefixSegments(path, "tag");
      Text.Split(path, '/')[2]
  }

  /** `path.substring(1)`. */
  function Slug(path: string): string {
    if path == [] then [] else path[1..]
  }

  /** `handleRequest`, up to the choice of page. */
  function Route(path: string, posts: seq<Post>, servesRobots: bool): Result<Intent, Fault> {
    if path == "/" then Ok(Home)
    else if Text.StartsWith(path, "/category/") then
      match Uri.Decode(ThirdSegment(path))
      case None => Err(UriError)
      case Some(name) => Ok(CategoryPage(name))
    else if Text.StartsWith(path, "/tag/") then
      match Uri.Decode(ThirdSegment(path))
      case None => Err(UriError)
      case Some(name) => Ok(TagPage(name))
    else if path == "/api/posts" then Ok(ApiPosts)
    else if path == "/feed.xml" || path == "/rss.xml" then Ok(Feed)
    else if path == "/sitemap.xml" then Ok(Sitemap)
    else if servesRobots && path == "/robots.txt" then Ok(Robots)
    else if FindById(posts, Slug(path)).Some? then Ok(PostPage(Slug(path)))
    else Ok(Home)
  }

  // ---------------------------------------------------------------------------
  // Properties of the dispatch

  /** The router only picks a post page for an id it has just found, so the
      "not found" branch of `getPostPage` is unreachable from it; and the only
      failure is a malformed escape in a category or tag segment. */
  lemma RouteOutcomes(path: string, posts: seq<Post>, servesRobots: bool)
    ensures Route(path, posts, servesRobots) == Ok(PostPage(Slug(path))) ==> FindById(posts, Slug(path)).Some?
    ensures forall id :: Route(path, posts, servesRobots) == Ok(PostPage(id)) ==> FindById(posts, id).Some?
    ensures Route(path, posts, servesRobots).Err? ==>
      (Text.StartsWith(path, "/category/") || Text.StartsWith(path, "/tag/"))
      && Uri.Decode(ThirdSegment(path)) == None
  {
  }

  /** The paths the chain answers before the post fallback. */
  predicate Reserved(path: string, servesRobots: bool) {
    path == "/" || Text.StartsWith(path, "/category/") || Text.StartsWith(path, "/tag/")
    || path == "/api/posts" || path == "/feed.xml" || path == "/rss.xml" || path == "/sitemap.xml"
    || (servesRobots && path == "/robots.txt")
  }

  /** An unknown slug yields the home page, never a 404. */
  lemma UnknownSlugIsHome(path: string, posts: seq<Post>, servesRobots: bool)
    requires !Reserved(path, servesRobots)
    requires FindById(posts, Slug(path)).None?
    ensures Route(path, posts, servesRobots) == Ok(Home)
  {
  }

  /** `/<id>` opens the post exactly when a post has that id and the path is
      not answered earlier in the chain; a post whose id makes `/<id>` a
      reserved path (`feed.xml`, `category/x`, ...) is never served. */
  lemma PostPathIff(id: string, posts: seq<Post>, servesRobots: bool)
    ensures Route("/" + id, posts, servesRobots) == Ok(PostPage(id))
            <==> FindById(posts, id).Some? && !Reserved("/" + id, servesRobots)
  {
    assert Slug("/" + id) == id;
  }

  /** A post page is reached only through the path `/<id>`. */
  lemma PostPageOnlyFromItsPath(path: string, posts: seq<Post>, servesRobots: bool, id: string)
    requires |path| >= 1 && path[0] == '/'
    requires Route(path, posts, servesRobots) == Ok(PostPage(id))
    ensures path == "/" + id
  {
    assert path == [path[0]] + path[1..];
  }

  /** The fixed paths reach their branches whatever the posts are. */
  lemma FixedPaths(posts: seq<Post>, servesRobots: bool)
    ensures Route("/", posts, servesRobots) == Ok(Home)
    ensures Route("/api/posts", posts, servesRobots) == Ok(ApiPosts)
    ensures Route("/feed.xml", posts, servesRobots) == Ok(Feed)
    ensures Route("/rss.xml", posts, servesRobots) == Ok(Feed)
    ensures Route("/sitemap.xml", posts, servesRobots) == Ok(Sitemap)
  {
    assert "/api/posts"[..10][1] == 'a' && "/api/posts"[..5][1] == 'a';
    assert "/feed.xml"[..5][1] == 'f' && !Text.StartsWith("/feed.xml", "/category/");
    assert "/rss.xml"[..5][1] == 'r' && !Text.StartsWith("/rss.xml", "/category/");
    assert "/sitemap.xml"[..10][1] == 's' && "/sitemap.xml"[..5][1] == 's';
  }

  /** `/robots.txt` is answered by the robots branch only where it exists;
      elsewhere it is the slug `robots.txt` and gives the home page unless a
      post has that id. */
  lemma RobotsPath(posts: seq<Post>)
    ensures Route("/robots.txt", posts, true) == Ok(Robots)
    ensures Route("/robots.txt", posts, false)
            == if FindById(posts, "robots.txt").Some? then Ok(PostPage("robots.txt")) else Ok(Home)
  {
    assert "/robots.txt"[..10][1] == 'r' && "/category/"[1] == 'c';
    assert "/robots.txt"[..5][1] == 'r' && "/tag/"[1] == 't';
    assert Slug("/robots.txt") == "robots.txt";
  }

/** The first `/`-separated segment of `seg + tail`, where `seg` has no `/`
      and `tail` is empty or starts a new segment, is `seg`. */
  lemma FirstSegment(seg: string, tail: string)
    requires Text.NoChar(seg, '/')
    requires tail == [] || tail[0] == '/'
    ensures Text.Split(seg + tail, '/')[0] == seg
  {
    if tail == [] {
      assert seg + tail == seg;
      Text.SplitNoSep(seg, '/');
    } else {
      assert seg + tail == seg + ['/'] + tail[1..];
      Text.SplitConcat(seg, '/', tail[1..]);
    }
  }

  /** Under `/category/` the router decodes the first segment of the rest. */
  lemma RouteUnderCategory(rest: string, posts: seq<Post>, servesRobots: bool)
    ensures Route("/category/" + rest, posts, servesRobots) ==
      match Uri.Decode(Text.Split(rest, '/')[0])
      case None => Err(UriError)
      case Some(name) => Ok(CategoryPage(name))
  {
    var path := "/category/" + rest;
    assert path[..10] == "/category/";
    assert ThirdSegment(path) == Text.Split(rest, '/')[0] by {
      PrefixSegments(path, "category");
      assert path[10..] == rest;
    }
  }

  /** Under `/tag/` the router decodes the first segment of the rest. */
  lemma RouteUnderTag(rest: string, posts: seq<Post>, servesRobots: bool)
    ensures Route("/tag/" + rest, posts, servesRobots) ==
      match Uri.Decode(Text.Split(rest, '/')[0])
      case None => Err(UriError)
      case Some(name) => Ok(TagPage(name))
  {
    var path := "/tag/" + rest;
    assert path[..5] == "/tag/";
    assert !Text.StartsWith(path, "/category/") by {
      assert path[1] == 't';
    }
    assert ThirdSegment(path) == Text.Split(rest, '/')[0] by {
      PrefixSegments(path, "tag");
      assert path[5..] == rest;
    }
  }

  /** The link `/category/<encodeURIComponent(name)>` that the pages and the
      sitemap emit leads back to the category page of `name`, and any further
      segments are ignored (`/category/a/b` selects `a`). */
  lemma CategoryLinkRoundTrip(name: string, tail: string, posts: seq<Post>, servesRobots: bool)
    requires tail == [] || tail[0] == '/'
    ensures Route("/category/" + Uri.Encode(name) + tail, posts, servesRobots) == Ok(CategoryPage(name))
  {
    var rest := Uri.Encode(name) + tail;
    var seg := Text.Split(rest, '/')[0];
    assert seg == Uri.Encode(name) by {
      Uri.EncodeHasNoSlash(name);
      FirstSegment(Uri.Encode(name), tail);
    }
    assert Uri.Decode(seg) == Some(name) by {
      Uri.DecodeEncode(name);
    }
    assert Route("/category/" + rest, posts, servesRobots) == Ok(CategoryPage(name)) by {
      RouteUnderCategory(rest, posts, servesRobots);
    }
    assert "/category/" + Uri.Encode(name) + tail == "/category/" + rest;
  }

  /** The same for `/tag/<encodeURIComponent(name)>`. */
  lemma TagLinkRoundTrip(name: string, tail: string, posts: seq<Post>, servesRobots: bool)
    requires tail == [] || tail[0] == '/'
    ensures Route("/tag/" + Uri.Encode(name) + tail, posts, servesRobots) == Ok(TagPage(name))
  {
    var rest := Uri.Encode(name) + tail;
    var seg := Text.Split(rest, '/')[0];
    assert seg == Uri.Encode(name) by {
      Uri.EncodeHasNoSlash(name);
      FirstSegment(Uri.Encode(name), tail);
    }
    assert Uri.Decode(seg) == Some(name) by {
      Uri.DecodeEncode(name);
    }
    assert Route("/tag/" + rest, posts, servesRobots) == Ok(TagPage(name)) by {
      RouteUnderTag(rest, posts, servesRobots);
    }
    assert "/tag/" + Uri.Encode(name) + tail == "/tag/" + rest;
  }

  /** A malformed escape in the category segment makes the handler fail. */
  lemma MalformedCategoryFails(segment: string, tail: string, posts: seq<Post>, servesRobots: bool)
    requires Text.NoChar(segment, '/')
    requires tail == [] || tail[0] == '/'
    requires Uri.Decode(segment) == None
    ensures Route("/category/" + segment + tail, posts, servesRobots) == Err(UriError)
  {
    var rest := segment + tail;
    assert "/category/" + segment + tail == "/category/" + rest;
    RouteUnderCategory(rest, posts, servesRobots);
    FirstSegment(segment, tail);
  }
}
