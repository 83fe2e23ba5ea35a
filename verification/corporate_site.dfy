/** The corporate template worker ("Corporate Blog"): Indonesian feed
    language, six recent posts with all their tags on the home page, cut
    excerpts on the archive pages, no keywords placeholder and no
    `/robots.txt` route. */
module CorporateSite {
  import opened Wrappers
  import opened PostStore
  import opened Pages
  import opened EdgeSite

  const Home: HomeLayout := HomeLayout(
    true,
    None,
    ListSpec(0, Some(6), None, AllTags),
    0,
    None)

  const Config: Site := Site(
    "Corporate Blog",
    "Professional insights dan knowledge sharing",
    None,
    "example.com",
    "id-ID",
    false,
    Home,
    " - ",
    "Post tidak ditemukan",
    ArchiveWording("", " - ", "Professional insights in ", false, "", ", "),
    ArchiveList(Some(150), AllTags),
    ArchiveWording("", " - ", "Articles about ", false, "", ", "),
    ArchiveList(Some(150), NoChips),
    false)

  /** The home page lists the first six posts with their whole excerpt and
      all their tags. */
  lemma HomeSelection(posts: seq<Post>, domain: string)
    ensures var v := HomePage(Config, posts, domain).body.view;
      var n := if |posts| < 6 then |posts| else 6;
      && |v.recent| == n
      && (forall k :: 0 <= k < n ==>
            && v.recent[k].id == posts[k].id
            && v.recent[k].excerpt == posts[k].excerpt
            && v.recent[k].chips == posts[k].tags)
      && v.featured == [] && v.tagCloud == [] && v.sidebar == []
      && v.categories == CategoryLinks(posts, true)
  {
    assert Config.home == Home;
    var v := HomePage(Config, posts, domain).body.view;
    PickShape(posts, Home.recent);
    assert v.recent == Pick(posts, Home.recent);
    var n := if |posts| < 6 then |posts| else 6;
    assert |v.recent| == n;
  }

  /** A category page shows each matching post with all its tags and its
      excerpt cut to 150 characters and "..."; a tag page shows the same
      cut excerpts without tags; an empty archive shows no notice. */
  lemma CategoryCards(posts: seq<Post>, name: string, domain: string)
    ensures var r := CategoryPageOf(Config, posts, name, domain);
      && !r.body.view.placeholder
      && |r.body.view.cards| == |FilterByCategory(posts, name)|
      && forall k :: 0 <= k < |r.body.view.cards| ==>
           && r.body.view.cards[k].id == FilterByCategory(posts, name)[k].id
           && r.body.view.cards[k].chips == FilterByCategory(posts, name)[k].tags
           && r.body.view.cards[k].excerpt == Excerpt(FilterByCategory(posts, name)[k].excerpt, 150)
           && |r.body.view.cards[k].excerpt| <= 153
    ensures var r := TagPageOf(Config, posts, name, domain);
      && !r.body.view.placeholder
      && |r.body.view.cards| == |FilterByTag(posts, name)|
      && forall k :: 0 <= k < |r.body.view.cards| ==>
           && r.body.view.cards[k].id == FilterByTag(posts, name)[k].id
           && r.body.view.cards[k].chips.None?
           && r.body.view.cards[k].excerpt == Excerpt(FilterByTag(posts, name)[k].excerpt, 150)
           && |r.body.view.cards[k].excerpt| <= 153
  {
    CategoryPageLists(Config, posts, name, domain);
    TagPageLists(Config, posts, name, domain);
    CardsShape(FilterByCategory(posts, name), Some(150), AllTags);
    CardsShape(FilterByTag(posts, name), Some(150), NoChips);
  }
}
