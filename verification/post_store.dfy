/** The in-memory post list every worker serves (`const posts = [...]`) and the
    queries the workers run over it: lookup by id, the category and tag
    filters, category counts, and the distinct categories and tags. */
module PostStore {
  import opened Wrappers
  import Text
  import Seqs

  /** One blog post. `category` and `tags` may be absent in the JSON, and the
      two scheduler fields are present only on generated posts. */
  datatype Post = Post(
    id: string,
    title: string,
    author: string,
    date: string,
    excerpt: string,
    content: string,
    category: Option<string>,
    tags: Option<seq<string>>,
    generatedBy: Option<string>,
    scheduledAt: Option<string>)

  /** JavaScript truthiness of an optional string: present and non-empty. */
  predicate Truthy(o: Option<string>) {
    o.Some? && o.value != []
  }

  /** `p.tags || []`. */
  function TagsOrEmpty(p: Post): seq<string> {
    if p.tags.Some? then p.tags.value else []
  }

  // ---------------------------------------------------------------------------
  // posts.find(p => p.id === id)

  function FindIndex(posts: seq<Post>, id: string): (r: Option<nat>)
    ensures r.Some? ==> r.value < |posts| && posts[r.value].id == id
    ensures r.Some? ==> forall j :: 0 <= j < r.value ==> posts[j].id != id
    ensures r.None? ==> forall j :: 0 <= j < |posts| ==> posts[j].id != id
  {
    if posts == [] then None
    else if posts[0].id == id then Some(0)
    else
      match FindIndex(posts[1..], id)
      case None => None
      case Some(k) => Some(k + 1)
  }

  /** `posts.find(p => p.id === id)`: the first post with that id, if any. */
  function FindById(posts: seq<Post>, id: string): (r: Option<Post>)
    ensures r.Some? <==> exists j :: 0 <= j < |posts| && posts[j].id == id
    ensures r.Some? ==> r.value in posts && r.value.id == id
  {
    match FindIndex(posts, id)
    case None => None
    case Some(k) => Some(posts[k])
  }

  /** Ids are unique in the list the dashboard manages. */
  predicate UniqueIds(posts: seq<Post>) {
    forall i, j :: 0 <= i < j < |posts| ==> posts[i].id != posts[j].id
  }

  /** With unique ids, looking a post up by its own id finds that post. */
  lemma FindOwnId(posts: seq<Post>, k: nat)
    requires UniqueIds(posts) && k < |posts|
    ensures FindById(posts, posts[k].id) == Some(posts[k])
  {
    var r := FindIndex(posts, posts[k].id);
    assert r.Some?;
    assert r.value == k;
  }

  // ---------------------------------------------------------------------------
  // Category and tag filters of the archive pages

  /** `post.category && post.category.toLowerCase() === name.toLowerCase()`. */
  predicate InCategory(p: Post, name: string) {
    Truthy(p.category) && Text.Lower(p.category.value) == Text.Lower(name)
  }

  /** `post.tags && post.tags.some(t => t.toLowerCase() === tag.toLowerCase())`. */
  predicate HasTag(p: Post, tag: string) {
    p.tags.Some? && exists t :: t in p.tags.value && Text.Lower(t) == Text.Lower(tag)
  }

  function FilterByCategory(posts: seq<Post>, name: string): (r: seq<Post>)
    ensures forall p :: p in r <==> p in posts && InCategory(p, name)
  {
    Seqs.Filter(p => InCategory(p, name), posts)
  }

  function FilterByTag(posts: seq<Post>, tag: string): (r: seq<Post>)
    ensures forall p :: p in r <==> p in posts && HasTag(p, tag)
  {
    Seqs.Filter(p => HasTag(p, tag), posts)
  }

  /** The archive filters keep list order: filtering a concatenation is the
      concatenation of the filtered parts, and one post is kept exactly when
      it matches. */
  lemma ArchiveFiltersOrdered(a: seq<Post>, b: seq<Post>, p: Post, name: string)
    ensures FilterByCategory(a + b, name) == FilterByCategory(a, name) + FilterByCategory(b, name)
    ensures FilterByTag(a + b, name) == FilterByTag(a, name) + FilterByTag(b, name)
    ensures FilterByCategory([p], name) == (if InCategory(p, name) then [p] else [])
    ensures FilterByTag([p], name) == (if HasTag(p, name) then [p] else [])
  {
    Seqs.FilterConcat(p => InCategory(p, name), a, b);
    Seqs.FilterConcat(p => HasTag(p, name), a, b);
    Seqs.FilterSingle(p => InCategory(p, name), p);
    Seqs.FilterSingle(p => HasTag(p, name), p);
  }

  // ---------------------------------------------------------------------------
  // Category counts: `posts.filter(p => p.category === cat).length`

  /** `p.category === cat`: exact, case-sensitive equality. */
  predicate FiledUnder(p: Post, cat: string) {
    p.category == Some(cat)
  }

  function CountInCategory(posts: seq<Post>, cat: string): (n: nat)
    ensures n <= |posts|
  {
    |Seqs.Filter(p => FiledUnder(p, cat), posts)|
  }

  /** `posts.map(p => p.category)`, with None for a post without one. */
  function CategoryColumn(posts: seq<Post>): (r: seq<Option<string>>)
    ensures |r| == |posts| && forall k :: 0 <= k < |posts| ==> r[k] == posts[k].category
  {
    seq(|posts|, k requires 0 <= k < |posts| => posts[k].category)
  }

  /** The count is how often `cat` itself occurs among the posts'
      categories: no other spelling and no missing category adds to it. */
  lemma {:induction false} CountInCategoryIs(posts: seq<Post>, cat: string)
    ensures CountInCategory(posts, cat) == multiset(CategoryColumn(posts))[Some(cat)]
    decreases |posts|
  {
    if posts != [] {
      var q := posts[..|posts| - 1];
      var last := posts[|posts| - 1];
      CountInCategoryIs(q, cat);
      assert posts == q + [last];
      assert CategoryColumn(posts) == CategoryColumn(q) + [last.category];
      Seqs.FilterConcat(p => FiledUnder(p, cat), q, [last]);
      Seqs.FilterSingle(p => FiledUnder(p, cat), last);
    }
  }

  /** The exact count of a home-page category card never exceeds the number of
      posts on that category's page, which matches ignoring case. */
  lemma {:induction false} CountAtMostArchive(posts: seq<Post>, cat: string)
    requires cat != []
    ensures CountInCategory(posts, cat) <= |FilterByCategory(posts, cat)|
    decreases |posts|
  {
    if posts != [] {
      var q := posts[..|posts| - 1];
      var last := posts[|posts| - 1];
      CountAtMostArchive(q, cat);
      assert posts == q + [last];
      ArchiveFiltersOrdered(q, [last], last, cat);
      Seqs.FilterConcat(p => FiledUnder(p, cat), q, [last]);
      Seqs.FilterSingle(p => FiledUnder(p, cat), last);
    }
  }

  /** ... and it can be strictly smaller: a post filed under "ai" is on the
      "AI" page but not counted on the "AI" card. */
  lemma CountCanMissCaseVariants(p: Post)
    requires p.category == Some("ai")
    ensures CountInCategory([p], "AI") == 0
    ensures FilterByCategory([p], "AI") == [p]
  {
    Seqs.FilterSingle(p => FiledUnder(p, "AI"), p);
    Seqs.FilterSingle(p => InCategory(p, "AI"), p);
    assert Text.Lower("ai") == Text.Lower("AI");
  }

  // ---------------------------------------------------------------------------
  // Distinct categories and tags in first-appearance order

  /** `posts.map(p => p.category).filter(Boolean)`. */
  function TruthyCategories(posts: seq<Post>): (r: seq<string>)
    ensures forall c :: c in r <==> c != [] && exists p :: p in posts && p.category == Some(c)
    decreases |posts|
  {
    if posts == [] then []
    else
      var q := posts[..|posts| - 1];
      var last := posts[|posts| - 1];
      assert posts == q + [last];
      TruthyCategories(q) + (if Truthy(last.category) then [last.category.value] else [])
  }

  /** `posts.flatMap(p => p.tags || [])`. */
  function AllTags(posts: seq<Post>): (r: seq<string>)
    ensures forall t :: t in r <==> exists p :: p in posts && t in TagsOrEmpty(p)
    decreases |posts|
  {
    if posts == [] then []
    else
      var q := posts[..|posts| - 1];
      var last := posts[|posts| - 1];
      assert posts == q + [last];
      AllTags(q) + TagsOrEmpty(last)
  }

  /** `[...new Set(posts.map(p => p.category).filter(Boolean))]`. */
  function DistinctCategories(posts: seq<Post>): (r: seq<string>)
    ensures Seqs.NoDuplicates(r)
    ensures forall c :: c in r <==> c != [] && exists p :: p in posts && p.category == Some(c)
  {
    Seqs.Distinct(TruthyCategories(posts))
  }

  /** `[...new Set(posts.flatMap(p => p.tags || []))]`, `getAllTags()`. */
  function DistinctTags(posts: seq<Post>): (r: seq<string>)
    ensures Seqs.NoDuplicates(r)
    ensures forall t :: t in r <==> exists p :: p in posts && t in TagsOrEmpty(p)
  {
    Seqs.Distinct(AllTags(posts))
  }

  /** Distinct categories and tags come in the order of their first appearance
      in the post list. */
  lemma DistinctFirstAppearance(posts: seq<Post>, i: nat, j: nat)
    ensures i < j < |DistinctCategories(posts)| ==>
      Seqs.FirstIndex(TruthyCategories(posts), DistinctCategories(posts)[i])
        < Seqs.FirstIndex(TruthyCategories(posts), DistinctCategories(posts)[j])
    ensures i < j < |DistinctTags(posts)| ==>
      Seqs.FirstIndex(AllTags(posts), DistinctTags(posts)[i])
        < Seqs.FirstIndex(AllTags(posts), DistinctTags(posts)[j])
  {
    if i < j < |DistinctCategories(posts)| {
      Seqs.DistinctOrder(TruthyCategories(posts), i, j);
    }
    if i < j < |DistinctTags(posts)| {
      Seqs.DistinctOrder(AllTags(posts), i, j);
    }
  }

  // ---------------------------------------------------------------------------
  // Excerpts: `text.substring(0, k) + "..."`

  /** The first k characters followed by "...", appended even when the text is
      shorter than k. */
  function Excerpt(text: string, k: nat): string {
    Text.Take(text, k) + "..."
  }

  /** An excerpt is the first k characters (all of a shorter text) followed
      by `...`, which is appended even when nothing was cut. */
  lemma ExcerptShape(text: string, k: nat)
    ensures var r := Excerpt(text, k);
      && |r| == (if |text| < k then |text| else k) + 3
      && r[..|r| - 3] == text[..|r| - 3]
      && r[|r| - 3..] == "..."
  {
    var t := Text.Take(text, k);
    assert Excerpt(text, k)[..|t|] == t;
  }
}
