/** What a worker response carries, in place of the HTML text: the page's
    meta data (the values the shell's placeholders are filled with) and a
    structured view of the lists the page shows. The shared card and
    category-list builders live here. */
module Pages {
  import opened Wrappers
  import Text
  import opened PostStore
  import Feeds

  /** How a list shows a post's tags. */
  datatype Chips =
    | NoChips          // the list shows no tags
    | TagsUpTo(n: nat) // `post.tags ? post.tags.slice(0, n) : ''`
    | AllTags          // `post.tags ? post.tags : ''`
    | NonEmptyTags     // `post.tags && post.tags.length > 0 ? post.tags : ''`

  /** A post as a list shows it. */
  datatype Card = Card(id: string, title: string, excerpt: string, chips: Option<seq<string>>)

  /** A category link, with the `(n)` post count where the page shows one. */
  datatype CategoryLink = CategoryLink(name: string, count: Option<nat>)

  datatype Meta = Meta(title: string, description: string, keywords: Option<string>, canonical: string)

  datatype View =
    | HomeView(categories: seq<CategoryLink>, featured: seq<Card>, recent: seq<Card>,
               tagCloud: seq<string>, sidebar: seq<Card>, ticker: seq<string>)
    | StatsHomeView(categories: seq<CategoryLink>, cards: seq<Card>, readingMinutes: seq<nat>,
                    postCount: nat, categoryCount: nat, tagCount: nat)
    | ArticleView(post: Post)
    | ArchiveView(name: string, cards: seq<Card>, placeholder: bool)
    | NotFoundView

  datatype Body =
    | Html(meta: Meta, view: View)
    | PlainText(text: string)
    | PostsJson(posts: seq<Post>)
    | Rss(channel: Feeds.Channel)
    | Urlset(urls: seq<Feeds.UrlEntry>)
    | NoBody

  datatype Response = Response(status: nat, contentType: string, body: Body)

  function ChipsOf(p: Post, rule: Chips): Option<seq<string>> {
    match rule
    case NoChips => None
    case TagsUpTo(n) => if p.tags.Some? then Some(Text.Take(p.tags.value, n)) else None
    case AllTags => p.tags
    case NonEmptyTags => if p.tags.Some? && |p.tags.value| > 0 then p.tags else None
  }

  /** A card; `limit` is the excerpt cut (`excerpt.substring(0, k) + '...'`),
      None where the list shows the whole excerpt. */
  function CardOf(p: Post, limit: Option<nat>, rule: Chips): Card {
    Card(p.id, p.title,
         if limit.Some? then Excerpt(p.excerpt, limit.value) else p.excerpt,
         ChipsOf(p, rule))
  }

  /** The fields of one card, rule by rule. */
  lemma CardFields(p: Post, limit: Option<nat>, rule: Chips)
    ensures var c := CardOf(p, limit, rule);
      && c.id == p.id && c.title == p.title
      && c.excerpt == (if limit.Some? then Excerpt(p.excerpt, limit.value) else p.excerpt)
      && (rule.TagsUpTo? ==> c.chips == if p.tags.Some? then Some(Text.Take(p.tags.value, rule.n)) else None)
      && (rule == NoChips ==> c.chips.None?)
      && (rule == AllTags ==> c.chips == p.tags)
      && (rule == NonEmptyTags ==> c.chips == if p.tags.Some? && |p.tags.value| > 0 then p.tags else None)
  {
  }

  function Cards(ps: seq<Post>, limit: Option<nat>, rule: Chips): seq<Card> {
    seq(|ps|, k requires 0 <= k < |ps| => CardOf(ps[k], limit, rule))
  }

  /** One card per post in order, with the post's id and title. A cut
      excerpt is `Excerpt` of the post's excerpt: its first k characters and
      "...". Chips limited to n are the post's first n tags (all of them
      when it has fewer), and a post without tags shows none; NonEmptyTags
      shows every tag of a post with at least one; AllTags shows the tags as
      they are. */
  lemma CardsShape(ps: seq<Post>, limit: Option<nat>, rule: Chips)
    ensures var cs := Cards(ps, limit, rule);
      && |cs| == |ps|
      && forall k :: 0 <= k < |ps| ==>
           && cs[k].id == ps[k].id && cs[k].title == ps[k].title
           && (limit.None? ==> cs[k].excerpt == ps[k].excerpt)
           && (limit.Some? ==> && cs[k].excerpt == Excerpt(ps[k].excerpt, limit.value)
                               && |cs[k].excerpt| <= limit.value + 3
                               && cs[k].excerpt[..|cs[k].excerpt| - 3] == ps[k].excerpt[..|cs[k].excerpt| - 3]
                               && cs[k].excerpt[|cs[k].excerpt| - 3..] == "...")
           && (rule == NoChips ==> cs[k].chips.None?)
           && (rule.TagsUpTo? ==> (cs[k].chips.Some? <==> ps[k].tags.Some?))
           && (rule.TagsUpTo? && ps[k].tags.Some? ==>
                 && |cs[k].chips.value| == (if rule.n < |ps[k].tags.value| then rule.n else |ps[k].tags.value|)
                 && cs[k].chips.value == ps[k].tags.value[..|cs[k].chips.value|])
           && (rule == AllTags ==> cs[k].chips == ps[k].tags)
           && (rule == NonEmptyTags ==> cs[k].chips == if ps[k].tags.Some? && |ps[k].tags.value| > 0 then ps[k].tags else None)
  {
    forall k | 0 <= k < |ps| && limit.Some?
      ensures |Cards(ps, limit, rule)[k].excerpt| <= limit.value + 3
    {
      ExcerptShape(ps[k].excerpt, limit.value);
    }
  }

  /** Category links for the distinct truthy categories, each with the exact
      count `posts.filter(p => p.category === cat).length` when `counted`. */
  function CategoryLinks(posts: seq<Post>, counted: bool): seq<CategoryLink> {
    var cats := DistinctCategories(posts);
    seq(|cats|, k requires 0 <= k < |cats| =>
      CategoryLink(cats[k], if counted then Some(CountInCategory(posts, cats[k])) else None))
  }

  /** One link per distinct truthy category, in first-appearance order, and
      each count is the exact-match count. */
  lemma CategoryLinksShape(posts: seq<Post>, counted: bool)
    ensures var ls := CategoryLinks(posts, counted);
      && |ls| == |DistinctCategories(posts)|
      && forall k :: 0 <= k < |ls| ==>
           && ls[k].name == DistinctCategories(posts)[k]
           && ls[k].name != []
           && (ls[k].count.Some? <==> counted)
           && (counted ==> ls[k].count.value == CountInCategory(posts, ls[k].name))
  {
    var cats := DistinctCategories(posts);
    forall k | 0 <= k < |cats|
      ensures cats[k] != []
    {
      assert cats[k] in cats;
    }
  }

  function HtmlPage(meta: Meta, view: View): Response {
    Response(200, "text/html", Html(meta, view))
  }
}
