/** The business template worker ("Business Solutions Blog"): a services list
    of categories without counts, featured and recent lists, cut excerpts on
    the archive pages, and the `/robots.txt` route. */
module BusinessSite {
  import opened Wrappers
  import opened PostStore
  import opened Pages
  import opened EdgeSite

  const Keywords: string := "business, consulting, growth, strategy, insights"

  const Home: HomeLayout := HomeLayout(
    false,
    Some(ListSpec(0, Some(3), None, NoChips)),
    ListSpec(3, Some(9), Some(120), NoChips),
    0,
    None)

  const Config: Site := Site(
    "Business Solutions Blog",
    "Professional business blog with expert insights, growth strategies, and industry analysis",
    Some(Keywords),
    "example.com",
    "en-US",
    true,
    Home,
    " - ",
    "Post not found",
    ArchiveWording("", " Solutions - ", "Professional ", true, " solutions and strategies",
                   ", business, consulting, "),
    ArchiveList(Some(150), NoChips),
    ArchiveWording("", " - ", "Resources and articles about ", false, "", ", "),
    ArchiveList(Some(150), NoChips),
    false)

  /** The home page features the first three posts with their whole excerpt,
      then posts 4 to 9 with the excerpt cut to 120 characters; the services
      list is the category links without counts. */
  lemma HomeSelection(posts: seq<Post>, domain: string)
    ensures var v := HomePage(Config, posts, domain).body.view;
      var nf := if |posts| < 3 then |posts| else 3;
      var nr := if |posts| < 9 then |posts| else 9;
      && |v.featured| == nf
      && (forall k :: 0 <= k < nf ==>
            v.featured[k].id == posts[k].id && v.featured[k].excerpt == posts[k].excerpt)
      && |v.recent| == nr - nf
      && (forall k :: 0 <= k < nr - nf ==>
            v.recent[k].id == posts[3 + k].id && v.recent[k].excerpt == Excerpt(posts[3 + k].excerpt, 120))
      && v.categories == CategoryLinks(posts, false)
      && v.tagCloud == [] && v.sidebar == []
  {
    HomeSelectionOf(Config, posts, domain);
  }

  /** The same for any site with this home layout. */
  lemma HomeSelectionOf(site: Site, posts: seq<Post>, domain: string)
    requires site.home == Home
    ensures var v := HomePage(site, posts, domain).body.view;
      var nf := if |posts| < 3 then |posts| else 3;
      var nr := if |posts| < 9 then |posts| else 9;
      && |v.featured| == nf
      && (forall k :: 0 <= k < nf ==>
            v.featured[k].id == posts[k].id && v.featured[k].excerpt == posts[k].excerpt)
      && |v.recent| == nr - nf
      && (forall k :: 0 <= k < nr - nf ==>
            v.recent[k].id == posts[3 + k].id && v.recent[k].excerpt == Excerpt(posts[3 + k].excerpt, 120))
      && v.categories == CategoryLinks(posts, false)
      && v.tagCloud == [] && v.sidebar == []
  {
    var v := HomePage(site, posts, domain).body.view;
    assert v.tagCloud == [] && v.sidebar == [] && v.categories == CategoryLinks(posts, false) by {
      HomeParts(site, posts, domain);
    }
    FeaturedCards(site, posts, domain);
    RecentCards(site, posts, domain);
  }

  lemma FeaturedCards(site: Site, posts: seq<Post>, domain: string)
    requires site.home == Home
    ensures var v := HomePage(site, posts, domain).body.view;
      var nf := if |posts| < 3 then |posts| else 3;
      && |v.featured| == nf
      && (forall k :: 0 <= k < nf ==>
            v.featured[k].id == posts[k].id && v.featured[k].excerpt == posts[k].excerpt)
  {
    var v := HomePage(site, posts, domain).body.view;
    var featured := ListSpec(0, Some(3), None, NoChips);
    assert v.featured == Pick(posts, featured) by {
      HomeParts(site, posts, domain);
    }
    PickFields(posts, featured);
  }

  lemma RecentCards(site: Site, posts: seq<Post>, domain: string)
    requires site.home == Home
    ensures var v := HomePage(site, posts, domain).body.view;
      var nf := if |posts| < 3 then |posts| else 3;
      var nr := if |posts| < 9 then |posts| else 9;
      && |v.recent| == nr - nf
      && (forall k :: 0 <= k < nr - nf ==>
            v.recent[k].id == posts[3 + k].id && v.recent[k].excerpt == Excerpt(posts[3 + k].excerpt, 120))
  {
    var v := HomePage(site, posts, domain).body.view;
    var recent := ListSpec(3, Some(9), Some(120), NoChips);
    assert v.recent == Pick(posts, recent) by {
      HomeParts(site, posts, domain);
    }
    PickFields(posts, recent);
  }

  /** The archive pages list the matching posts in order, each with its
      excerpt cut to 150 characters and "...". */
  lemma ArchiveExcerpts(posts: seq<Post>, name: string, domain: string)
    ensures var cards := CategoryPageOf(Config, posts, name, domain).body.view.cards;
      && |cards| == |FilterByCategory(posts, name)|
      && forall k :: 0 <= k < |cards| ==>
           && cards[k].id == FilterByCategory(posts, name)[k].id
           && cards[k].excerpt == Excerpt(FilterByCategory(posts, name)[k].excerpt, 150)
           && |cards[k].excerpt| <= 153
    ensures var cards := TagPageOf(Config, posts, name, domain).body.view.cards;
      && |cards| == |FilterByTag(posts, name)|
      && forall k :: 0 <= k < |cards| ==>
           && cards[k].id == FilterByTag(posts, name)[k].id
           && cards[k].excerpt == Excerpt(FilterByTag(posts, name)[k].excerpt, 150)
           && |cards[k].excerpt| <= 153
  {
    CategoryPageLists(Config, posts, name, domain);
    TagPageLists(Config, posts, name, domain);
    CardsShape(FilterByCategory(posts, name), Some(150), NoChips);
    CardsShape(FilterByTag(posts, name), Some(150), NoChips);
  }
}
