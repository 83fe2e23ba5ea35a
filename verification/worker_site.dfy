/** The stand-alone blog worker (`worker.js`, "My Blog"). The file declares
    `handleRequest` twice; the second declaration is the one in force, and it
    is the one modelled. Posts live under `/post/<id>`; category and tag names
    are the rest of the path, not decoded; unknown paths answer 404; the home
    page throws when a post has no category. */
module WorkerSite {
  import opened Wrappers
  import Text
  import Seqs
  import Shell
  import Uri
  import opened PostStore
  import opened Pages

  const Title: string := "My Blog"
  const Subtitle: string := "Berbagi pemikiran dan pengalaman"
  const Description: string := "Blog pribadi yang membahas teknologi, tutorial, dan pengalaman sehari-hari"
  /** The fixed origin the page shell's `{{url}}` is filled with. */
  const SiteUrl: string := "https://yourdomain.workers.dev"

  datatype Request = Request(verb: string, path: string)

  /** `undefined.toLowerCase()` thrown while building the home page. */
  datatype Fault = TypeError

  /** `getReadingTime`: `Math.ceil(content.split(' ').length / 200)`. */
  function ReadingTime(content: string): nat {
    (|Text.Split(content, ' ')| + 199) / 200
  }

  /** The reading time is the number of 200-word minutes, rounded up, where a
      word is what lies between two spaces; it is at least one minute. */
  lemma ReadingTimeBounds(content: string)
    ensures var m := ReadingTime(content);
      var words := Text.CountChar(content, ' ') + 1;
      && m >= 1
      && (m - 1) * 200 < words <= m * 200
  {
    Text.SplitCount(content, ' ');
  }

  predicate AllCategorised(posts: seq<Post>) {
    forall k :: 0 <= k < |posts| ==> posts[k].category.Some?
  }

  /** `[...new Set(posts.map(post => post.category))]`, without the truthiness
      filter of the templates: an empty category is listed too. */
  function Categories(posts: seq<Post>): (r: seq<string>)
    requires AllCategorised(posts)
    ensures Seqs.NoDuplicates(r)
    ensures forall c :: c in r <==> exists p :: p in posts && p.category == Some(c)
  {
    var values := seq(|posts|, k requires 0 <= k < |posts| => posts[k].category.value);
    assert forall p :: p in posts ==> p.category.value in values by {
      forall p | p in posts ensures p.category.value in values {
        var k :| 0 <= k < |posts| && posts[k] == p;
        assert values[k] == p.category.value;
      }
    }
    Seqs.Distinct(values)
  }

  /** `getHomePage`: the category filter with exact counts, every post with
      its reading time, and the post, category and tag counts. */
  function HomePage(posts: seq<Post>): Result<Response, Fault> {
    if !AllCategorised(posts) then Err(TypeError)
    else
      var cats := Categories(posts);
      Ok(Response(200, "text/html", Html(
        Meta(Title + " - " + Subtitle, Description, None, SiteUrl),
        StatsHomeView(
          seq(|cats|, k requires 0 <= k < |cats| => CategoryLink(cats[k], Some(CountInCategory(posts, cats[k])))),
          Cards(posts, None, AllTags),
          seq(|posts|, k requires 0 <= k < |posts| => ReadingTime(posts[k].content)),
          |posts|, |cats|, |DistinctTags(posts)|))))
  }

  /** `getPostPage`: an unknown id still gives an ordinary page, titled as a
      "not found" page. */
  function PostPage(posts: seq<Post>, id: string): Response {
    match FindById(posts, id)
    case None =>
      Response(200, "text/html", Html(Meta("404 - Tidak Ditemukan", "Halaman tidak ditemukan", None, SiteUrl),
                                      NotFoundView))
    case Some(p) =>
      Response(200, "text/html", Html(Meta(p.title + " - " + Title, p.excerpt, None, SiteUrl + "/" + p.id),
                                      ArticleView(p)))
  }

  function CategoryPage(posts: seq<Post>, name: string): Response {
    var matches := FilterByCategory(posts, name);
    Response(200, "text/html", Html(
      Meta("Kategori " + name + " - " + Title, "Artikel dalam kategori " + name, None, SiteUrl + "/category/" + name),
      ArchiveView(name, Cards(matches, None, NoChips), matches == [])))
  }

  function TagPage(posts: seq<Post>, name: string): Response {
    var matches := FilterByTag(posts, name);
    Response(200, "text/html", Html(
      Meta("Tag " + name + " - " + Title, "Artikel dengan tag " + name, None, SiteUrl + "/tag/" + name),
      ArchiveView(name, Cards(matches, None, NoChips), matches == [])))
  }

  /** `handleRequest`; the names after `/post/`, `/category/` and `/tag/` are
      taken with `path.replace(prefix, '')`. */
  function Handle(req: Request, posts: seq<Post>): Result<Response, Fault> {
    var path := req.path;
    if req.verb == "OPTIONS" then Ok(Response(200, "", NoBody))
    else if path == "/" then HomePage(posts)
    else if Text.StartsWith(path, "/post/") then Ok(PostPage(posts, Shell.ReplaceFirst(path, "/post/", "")))
    else if Text.StartsWith(path, "/category/") then Ok(CategoryPage(posts, Shell.ReplaceFirst(path, "/category/", "")))
    else if Text.StartsWith(path, "/tag/") then Ok(TagPage(posts, Shell.ReplaceFirst(path, "/tag/", "")))
    else if path == "/api/posts" then Ok(Response(200, "application/json", PostsJson(posts)))
    else Ok(Response(404, "text/html", PlainText("404 Not Found")))
  }

  // ---------------------------------------------------------------------------
  // Properties

  /** `path.replace(prefix, '')` on a path that starts with the prefix drops
      exactly the prefix. */
  lemma ReplacePrefix(path: string, prefix: string)
    requires |prefix| > 0 && Text.StartsWith(path, prefix)
    ensures Shell.ReplaceFirst(path, prefix, "") == path[|prefix|..]
  {
    assert Text.OccursAt(path, prefix, 0);
    var i := Text.IndexOf(path, prefix);
    assert i == Some(0);
    Shell.ReplaceFirstLiteral(path, prefix, "", 0);
  }

  /** `/post/<id>` opens the page of `id`. */
  lemma PostPath(verb: string, id: string, posts: seq<Post>)
    requires verb != "OPTIONS"
    ensures Handle(Request(verb, "/post/" + id), posts) == Ok(PostPage(posts, id))
  {
    var path := "/post/" + id;
    assert Text.StartsWith(path, "/post/");
    ReplacePrefix(path, "/post/");
    assert path[6..] == id;
  }

  /** An unknown post id gives status 200 and a page titled "404 - Tidak
      Ditemukan", not a 404 response. */
  lemma MissingPostIsSoft404(verb: string, id: string, posts: seq<Post>)
    requires verb != "OPTIONS"
    requires forall p :: p in posts ==> p.id != id
    ensures var r := Handle(Request(verb, "/post/" + id), posts);
      && r.Ok? && r.value.status == 200
      && r.value.body == Html(Meta("404 - Tidak Ditemukan", "Halaman tidak ditemukan", None, SiteUrl), NotFoundView)
  {
    PostPath(verb, id, posts);
    assert FindById(posts, id).None? by {
      if FindById(posts, id).Some? {
        assert FindById(posts, id).value in posts;
      }
    }
  }

  /** The home page and the post pages link posts as `/<id>`, which this
      worker does not route: for an id without `/` the answer is 404. */
  lemma PostLinksAreNotFound(verb: string, id: string, posts: seq<Post>)
    requires verb != "OPTIONS"
    requires id != [] && Text.NoChar(id, '/')
    ensures Handle(Request(verb, "/" + id), posts) == Ok(Response(404, "text/html", PlainText("404 Not Found")))
  {
    var path := "/" + id;
    assert path != "/" by { assert |path| >= 2; }
    assert !Text.StartsWith(path, "/post/") by {
      if |path| >= 6 { assert path[5] == id[4]; }
    }
    assert !Text.StartsWith(path, "/category/") by {
      if |path| >= 10 { assert path[9] == id[8]; }
    }
    assert !Text.StartsWith(path, "/tag/") by {
      if |path| >= 5 { assert path[4] == id[3]; }
    }
    assert path != "/api/posts" by {
      if |path| == 10 { assert path[4] == id[3]; }
    }
  }

  /** The empty preflight answer goes to every `OPTIONS` request, whatever
      its path (a `/post/<id>` of a listed post included), and to no other
      request: every other answer that succeeds carries a body. */
  lemma Preflight(req: Request, posts: seq<Post>)
    ensures (Handle(req, posts).Ok? && Handle(req, posts).value.body == NoBody) <==> req.verb == "OPTIONS"
    ensures req.verb == "OPTIONS" ==> Handle(req, posts) == Ok(Response(200, "", NoBody))
  {
  }

  /** The home page fails exactly when some post has no category. */
  lemma HomeFailsOnMissingCategory(posts: seq<Post>)
    ensures HomePage(posts).Err? <==> exists k :: 0 <= k < |posts| && posts[k].category.None?
  {
  }

  /** The home statistics: the number of posts, of distinct categories and of
      distinct tags; each category is listed once with its exact count; every
      post shows a reading time of at least one minute. */
  lemma HomeStats(posts: seq<Post>)
    requires AllCategorised(posts)
    ensures var v := HomePage(posts).value.body.view;
      && v.postCount == |posts|
      && v.categoryCount == |v.categories| == |Categories(posts)|
      && (forall k :: 0 <= k < |v.categories| ==>
            v.categories[k].name == Categories(posts)[k]
            && v.categories[k].count == Some(CountInCategory(posts, Categories(posts)[k])))
      && v.tagCount == |DistinctTags(posts)|
      && |v.readingMinutes| == |posts|
      && (forall k :: 0 <= k < |posts| ==> v.readingMinutes[k] >= 1)
  {
    forall k | 0 <= k < |posts|
      ensures ReadingTime(posts[k].content) >= 1
    {
      ReadingTimeBounds(posts[k].content);
    }
  }

  /** The home page links a category as `/category/<lower-cased name>`; that
      page matches ignoring case, so it lists every post filed under the
      category, provided the name is not empty and the URL parser hands the
      link's path over unchanged: only characters `encodeURIComponent` leaves
      alone, and not a `.` or `..` segment. */
  lemma CategoryLinkFindsItsPosts(verb: string, posts: seq<Post>, cat: string)
    requires verb != "OPTIONS"
    requires cat != []
    requires forall c :: c in Text.Lower(cat) ==> Uri.IsUnreserved(c)
    requires Text.Lower(cat) != "." && Text.Lower(cat) != ".."
    ensures Handle(Request(verb, "/category/" + Text.Lower(cat)), posts)
            == Ok(CategoryPage(posts, Text.Lower(cat)))
    ensures forall p :: p in posts && p.category == Some(cat) ==> p in FilterByCategory(posts, Text.Lower(cat))
  {
    var path := "/category/" + Text.Lower(cat);
    assert Text.StartsWith(path, "/category/");
    assert !Text.StartsWith(path, "/post/") by { assert path[1] == 'c'; }
    ReplacePrefix(path, "/category/");
    assert path[10..] == Text.Lower(cat);
    Text.LowerIdempotent(cat);
  }

  /** A post filed under the empty category is linked as `/category/`; that
      page lists nothing, since the filter asks for a truthy category. */
  lemma EmptyCategoryLinkListsNothing(verb: string, posts: seq<Post>)
    requires verb != "OPTIONS"
    ensures Handle(Request(verb, "/category/" + Text.Lower("")), posts) == Ok(CategoryPage(posts, ""))
    ensures FilterByCategory(posts, "") == []
    ensures CategoryPage(posts, "").body.view.cards == [] && CategoryPage(posts, "").body.view.placeholder
  {
    var path := "/category/" + Text.Lower("");
    assert path == "/category/";
    assert Text.StartsWith(path, "/category/");
    assert !Text.StartsWith(path, "/post/") by { assert path[1] == 'c'; }
    ReplacePrefix(path, "/category/");
    assert path[10..] == "";
    forall p | p in posts
      ensures !InCategory(p, "")
    {
    }
    Seqs.FilterNone(p => InCategory(p, ""), posts);
  }
}
