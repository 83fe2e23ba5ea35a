/** The modern template worker ("My Modern Blog"): Indonesian wording, every
    post on the home page with a sidebar, archive pages with a "no posts"
    notice, no keywords placeholder and no `/robots.txt` route. */
module ModernSite {
  import opened Wrappers
  import Text
  import opened PostStore
  import opened Pages
  import opened EdgeSite

  const Home: HomeLayout := HomeLayout(
    true,
    None,
    ListSpec(0, None, None, NonEmptyTags),
    10,
    Some(ListSpec(0, Some(5), None, NoChips)))

  const Config: Site := Site(
    "My Modern Blog",
    "Blog modern dengan design clean dan minimalis",
    None,
    "example.com",
    "id-ID",
    false,
    Home,
    " - ",
    "Post tidak ditemukan",
    ArchiveWording("Kategori ", " - ", "Artikel dalam kategori ", false, "", ", "),
    ArchiveList(None, NonEmptyTags),
    ArchiveWording("Tag ", " - ", "Artikel dengan tag ", false, "", ", "),
    ArchiveList(None, NoChips),
    true)

  /** The home page shows every post with its whole excerpt, and all its tags
      when it has at least one. */
  lemma HomeSelection(posts: seq<Post>, domain: string)
    ensures var v := HomePage(Config, posts, domain).body.view;
      && |v.recent| == |posts|
      && (forall k :: 0 <= k < |posts| ==>
            && v.recent[k].id == posts[k].id
            && v.recent[k].excerpt == posts[k].excerpt
            && v.recent[k].chips == if posts[k].tags.Some? && |posts[k].tags.value| > 0 then posts[k].tags else None)
      && v.featured == []
  {
    assert Config.home == Home;
    var v := HomePage(Config, posts, domain).body.view;
    assert Text.Slice(posts, 0, |posts|) == posts;
    assert v.recent == Cards(posts, None, NonEmptyTags);
    CardsShape(posts, None, NonEmptyTags);
  }

  /** The sidebar lists the first five posts and the first ten distinct tags
      (all of them when there are fewer). */
  lemma Sidebar(posts: seq<Post>, domain: string)
    ensures var v := HomePage(Config, posts, domain).body.view;
      && |v.sidebar| == (if |posts| < 5 then |posts| else 5)
      && (forall k :: 0 <= k < |v.sidebar| ==> v.sidebar[k].id == posts[k].id)
      && |v.tagCloud| == (if |DistinctTags(posts)| < 10 then |DistinctTags(posts)| else 10)
      && v.tagCloud == DistinctTags(posts)[..|v.tagCloud|]
  {
    assert Config.home == Home;
    var v := HomePage(Config, posts, domain).body.view;
    PickShape(posts, Home.sidebar.value);
    assert v.sidebar == Pick(posts, Home.sidebar.value);
    assert |v.sidebar| == (if |posts| < 5 then |posts| else 5);
  }

  /** An archive page with no matching post shows the notice instead of a
      list, and only then; the pages carry no keywords. */
  lemma EmptyArchiveNotice(posts: seq<Post>, name: string, domain: string)
    ensures var r := CategoryPageOf(Config, posts, name, domain);
      && (r.body.view.placeholder <==> forall p :: p in posts ==> !InCategory(p, name))
      && r.body.meta.keywords.None?
    ensures var r := TagPageOf(Config, posts, name, domain);
      && (r.body.view.placeholder <==> forall p :: p in posts ==> !HasTag(p, name))
      && r.body.meta.keywords.None?
  {
    CategoryPageLists(Config, posts, name, domain);
    TagPageLists(Config, posts, name, domain);
  }
}
