/** The tech template worker ("TechInsights Blog"): English wording, a
    featured list and a latest list on the home page, a tag cloud, and the
    `/robots.txt` route. */
module TechSite {
  import opened Wrappers
  import Text
  import opened PostStore
  import opened Pages
  import opened EdgeSite

  const Keywords: string := "programming, web development, technology, coding, AI, javascript, python"

  const Home: HomeLayout := HomeLayout(
    true,
    Some(ListSpec(0, Some(3), None, TagsUpTo(3))),
    ListSpec(3, Some(12), Some(100), NoChips),
    10,
    None)

  const Config: Site := Site(
    "TechInsights Blog",
    "Modern tech blog covering programming, web development, AI, and latest technology trends",
    Some(Keywords),
    "example.com",
    "en-US",
    true,
    Home,
    " - ",
    "Post not found",
    ArchiveWording("", " - ", "Learn ", true, " with our comprehensive guides and tutorials",
                   ", programming, tutorial, "),
    ArchiveList(None, TagsUpTo(3)),
    ArchiveWording("#", " - ", "Articles about ", false, "", ", "),
    ArchiveList(None, NoChips),
    false)

  /** The home page features the first three posts with their whole excerpt
      and their first three tags, then lists posts 4 to 12 with the excerpt
      cut to 100 characters and "...", and shows the first ten distinct tags
      (all of them when there are fewer). */
  lemma HomeSelection(posts: seq<Post>, domain: string)
    ensures var v := HomePage(Config, posts, domain).body.view;
      var nf := if |posts| < 3 then |posts| else 3;
      var nr := if |posts| < 12 then |posts| else 12;
      && |v.featured| == nf
      && (forall k :: 0 <= k < nf ==>
            && v.featured[k].id == posts[k].id
            && v.featured[k].excerpt == posts[k].excerpt
            && v.featured[k].chips == if posts[k].tags.Some? then Some(Text.Take(posts[k].tags.value, 3)) else None)
      && |v.recent| == nr - nf
      && (forall k :: 0 <= k < nr - nf ==>
            && v.recent[k].id == posts[3 + k].id
            && v.recent[k].excerpt == Excerpt(posts[3 + k].excerpt, 100)
            && v.recent[k].chips.None?)
      && |v.tagCloud| == (if |DistinctTags(posts)| < 10 then |DistinctTags(posts)| else 10)
      && v.tagCloud == DistinctTags(posts)[..|v.tagCloud|]
      && v.sidebar == [] && v.categories == CategoryLinks(posts, true)
  {
    HomeSelectionOf(Config, posts, domain);
  }

  /** The same for any site with this home layout. */
  lemma HomeSelectionOf(site: Site, posts: seq<Post>, domain: string)
    requires site.home == Home
    ensures var v := HomePage(site, posts, domain).body.view;
      var nf := if |posts| < 3 then |posts| else 3;
      var nr := if |posts| < 12 then |posts| else 12;
      && |v.featured| == nf
      && (forall k :: 0 <= k < nf ==>
            && v.featured[k].id == posts[k].id
            && v.featured[k].excerpt == posts[k].excerpt
            && v.featured[k].chips == if posts[k].tags.Some? then Some(Text.Take(posts[k].tags.value, 3)) else None)
      && |v.recent| == nr - nf
      && (forall k :: 0 <= k < nr - nf ==>
            && v.recent[k].id == posts[3 + k].id
            && v.recent[k].excerpt == Excerpt(posts[3 + k].excerpt, 100)
            && v.recent[k].chips.None?)
      && |v.tagCloud| == (if |DistinctTags(posts)| < 10 then |DistinctTags(posts)| else 10)
      && v.tagCloud == DistinctTags(posts)[..|v.tagCloud|]
      && v.sidebar == [] && v.categories == CategoryLinks(posts, true)
  {
    var v := HomePage(site, posts, domain).body.view;
    assert && |v.tagCloud| == (if |DistinctTags(posts)| < 10 then |DistinctTags(posts)| else 10)
           && v.tagCloud == DistinctTags(posts)[..|v.tagCloud|]
           && v.sidebar == [] && v.categories == CategoryLinks(posts, true) by {
      HomeParts(site, posts, domain);
      assert v.tagCloud == Text.Take(DistinctTags(posts), 10);
    }
    FeaturedCards(site, posts, domain);
    RecentCards(site, posts, domain);
  }

  lemma FeaturedCards(site: Site, posts: seq<Post>, domain: string)
    requires site.home == Home
    ensures var v := HomePage(site, posts, domain).body.view;
      var nf := if |posts| < 3 then |posts| else 3;
      && |v.featured| == nf
      && (forall k :: 0 <= k < nf ==>
            && v.featured[k].id == posts[k].id
            && v.featured[k].excerpt == posts[k].excerpt
            && v.featured[k].chips == if posts[k].tags.Some? then Some(Text.Take(posts[k].tags.value, 3)) else None)
  {
    var v := HomePage(site, posts, domain).body.view;
    var featured := ListSpec(0, Some(3), None, TagsUpTo(3));
    assert v.featured == Pick(posts, featured) by {
      HomeParts(site, posts, domain);
    }
    PickFields(posts, featured);
  }

  lemma RecentCards(site: Site, posts: seq<Post>, domain: string)
    requires site.home == Home
    ensures var v := HomePage(site, posts, domain).body.view;
      var nf := if |posts| < 3 then |posts| else 3;
      var nr := if |posts| < 12 then |posts| else 12;
      && |v.recent| == nr - nf
      && (forall k :: 0 <= k < nr - nf ==>
            && v.recent[k].id == posts[3 + k].id
            && v.recent[k].excerpt == Excerpt(posts[3 + k].excerpt, 100)
            && v.recent[k].chips.None?)
  {
    var v := HomePage(site, posts, domain).body.view;
    var recent := ListSpec(3, Some(12), Some(100), NoChips);
    assert v.recent == Pick(posts, recent) by {
      HomeParts(site, posts, domain);
    }
    PickFields(posts, recent);
  }
}
