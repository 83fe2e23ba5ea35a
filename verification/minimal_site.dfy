/** The minimal template worker ("Minimal Portfolio"): one list of the ten
    latest posts on the home page, em-dash titles, and the `/robots.txt`
    route. */
module MinimalSite {
  import opened Wrappers
  import opened PostStore
  import opened Pages
  import opened EdgeSite

  const Keywords: string := "design, portfolio, minimal, creative, writing, blog"

  const Home: HomeLayout := HomeLayout(
    true,
    None,
    ListSpec(0, Some(10), None, TagsUpTo(3)),
    0,
    None)

  const Config: Site := Site(
    "Minimal Portfolio",
    "A minimal portfolio blog showcasing clean design, typography, and creative content",
    Some(Keywords),
    "example.com",
    "en-US",
    true,
    Home,
    " \U{2014} ",
    "Post not found",
    ArchiveWording("", " \U{2014} ", "Posts about ", true, "", ", "),
    ArchiveList(None, TagsUpTo(3)),
    ArchiveWording("", " \U{2014} ", "Posts tagged with ", false, "", ", "),
    ArchiveList(None, NoChips),
    false)

  /** The home page lists the first ten posts with their whole excerpt and
      their first three tags, next to the category list with counts; it has no
      featured list and no tag cloud. */
  lemma HomeSelection(posts: seq<Post>, domain: string)
    ensures var v := HomePage(Config, posts, domain).body.view;
      var n := if |posts| < 10 then |posts| else 10;
      && |v.recent| == n
      && (forall k :: 0 <= k < n ==>
            && v.recent[k].id == posts[k].id
            && v.recent[k].excerpt == posts[k].excerpt
            && v.recent[k].chips == if posts[k].tags.Some? then Some(Text.Take(posts[k].tags.value, 3)) else None)
      && v.featured == [] && v.tagCloud == [] && v.sidebar == []
      && v.categories == CategoryLinks(posts, true)
  {
    HomeSelectionOf(Config, posts, domain);
  }

  /** The same for any site with this home layout. */
  lemma HomeSelectionOf(site: Site, posts: seq<Post>, domain: string)
    requires site.home == Home
    ensures var v := HomePage(site, posts, domain).body.view;
      var n := if |posts| < 10 then |posts| else 10;
      && |v.recent| == n
      && (forall k :: 0 <= k < n ==>
            && v.recent[k].id == posts[k].id
            && v.recent[k].excerpt == posts[k].excerpt
            && v.recent[k].chips == if posts[k].tags.Some? then Some(Text.Take(posts[k].tags.value, 3)) else None)
      && v.featured == [] && v.tagCloud == [] && v.sidebar == []
      && v.categories == CategoryLinks(posts, true)
  {
    var v := HomePage(site, posts, domain).body.view;
    var recent := ListSpec(0, Some(10), None, TagsUpTo(3));
    assert v.recent == Pick(posts, recent) && v.featured == [] && v.tagCloud == [] && v.sidebar == []
        && v.categories == CategoryLinks(posts, true) by {
      HomeParts(site, posts, domain);
    }
    var n := if |posts| < 10 then |posts| else 10;
    assert |v.recent| == n && forall k :: 0 <= k < n ==> v.recent[k] == CardOf(posts[k], None, TagsUpTo(3)) by {
      PickShape(posts, recent);
    }
    forall k | 0 <= k < n
      ensures && v.recent[k].id == posts[k].id
              && v.recent[k].excerpt == posts[k].excerpt
              && v.recent[k].chips == if posts[k].tags.Some? then Some(Text.Take(posts[k].tags.value, 3)) else None
    {
      CardFields(posts[k], None, TagsUpTo(3));
    }
  }
}
