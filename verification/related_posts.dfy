/** The post-page helpers of the Python site builder: related articles ranked
    by a category and shared-tag score, previous/next navigation, and the two
    HTML sections built from them. */
module RelatedPosts {
  import opened Wrappers
  import Text
  import Seqs
  import opened PostStore

  // ---------------------------------------------------------------------------
  // Scores

  /** `current_post.get('category', '')`. */
  function CurrentCategory(cur: Post): string {
    if cur.category.Some? then cur.category.value else ""
  }

  /** `set(current_tags) & set(post_tags)`. */
  function CommonTags(cur: Post, post: Post): set<string> {
    set t | t in TagsOrEmpty(cur) && t in TagsOrEmpty(post)
  }

  /** 3 for the current post's category (`post.get('category')` is None when
      absent, so it never equals the default ''), plus one per shared tag. */
  function Score(post: Post, cur: Post): nat {
    (if post.category == Some(CurrentCategory(cur)) then 3 else 0) + |CommonTags(cur, post)|
  }

  datatype Scored = Scored(post: Post, score: nat)

  /** The `related_posts` list before sorting: every post other than the
      current one with a positive score, in list order. */
  function Candidates(posts: seq<Post>, cur: Post, currentId: string): (r: seq<Scored>)
    ensures forall x :: x in r ==>
      x.post in posts && x.post.id != currentId && x.score == Score(x.post, cur) && x.score > 0
    ensures forall p :: p in posts && p.id != currentId && Score(p, cur) > 0 ==>
      Scored(p, Score(p, cur)) in r
    decreases |posts|
  {
    if posts == [] then []
    else
      var q := posts[..|posts| - 1];
      var p := posts[|posts| - 1];
      assert posts == q + [p];
      assert forall y :: y in posts ==> y in q || y == p;
      Candidates(q, cur, currentId)
        + (if p.id != currentId && Score(p, cur) > 0 then [Scored(p, Score(p, cur))] else [])
  }

  /** One more post adds at most its own scored entry. */
  lemma CandidatesPrefix(posts: seq<Post>, k: nat, cur: Post, currentId: string)
    requires k < |posts|
    ensures Candidates(posts[..k + 1], cur, currentId)
         == Candidates(posts[..k], cur, currentId)
          + (if posts[k].id != currentId && Score(posts[k], cur) > 0
             then [Scored(posts[k], Score(posts[k], cur))] else [])
  {
    assert posts[..k + 1][..k] == posts[..k];
  }

  // ---------------------------------------------------------------------------
  // The stable sort by descending score

  function HasScore(s: nat): Scored -> bool {
    (x: Scored) => x.score == s
  }

  function MaxScore(xs: seq<Scored>): (m: nat)
    ensures forall x :: x in xs ==> x.score <= m
  {
    if xs == [] then 0
    else
      var m := MaxScore(xs[1..]);
      assert forall x :: x in xs ==> x == xs[0] || x in xs[1..];
      if xs[0].score > m then xs[0].score else m
  }

  /** The items of score `top`, then those of `top - 1`, ... down to 1, each
      group in its original order. */
  function Buckets(xs: seq<Scored>, top: nat): seq<Scored>
    decreases top
  {
    if top == 0 then [] else Seqs.Filter(HasScore(top), xs) + Buckets(xs, top - 1)
  }

  /** `related_posts.sort(key=lambda x: x['score'], reverse=True)`: Python's
      sort is stable, also in reverse, so equal scores keep their order. */
  function SortByScore(xs: seq<Scored>): seq<Scored> {
    Buckets(xs, MaxScore(xs))
  }

  lemma {:induction false} BucketsSorted(xs: seq<Scored>, top: nat)
    ensures forall x :: x in Buckets(xs, top) ==> 1 <= x.score <= top
    ensures forall i, j :: 0 <= i < j < |Buckets(xs, top)| ==> Buckets(xs, top)[i].score >= Buckets(xs, top)[j].score
    decreases top
  {
    if top > 0 {
      BucketsSorted(xs, top - 1);
      ScoreGroup(xs, top);
      ConcatSorted(Seqs.Filter(HasScore(top), xs), Buckets(xs, top - 1), top);
    }
  }

  /** The group of one score holds only items of that score. */
  lemma ScoreGroup(xs: seq<Scored>, s: nat)
    ensures forall x :: x in Seqs.Filter(HasScore(s), xs) ==> x.score == s
  {
  }

  /** A block of score `top` followed by a sorted list of lower scores is sorted. */
  lemma ConcatSorted(a: seq<Scored>, b: seq<Scored>, top: nat)
    requires 1 <= top
    requires forall x :: x in a ==> x.score == top
    requires forall x :: x in b ==> 1 <= x.score <= top - 1
    requires forall i, j :: 0 <= i < j < |b| ==> b[i].score >= b[j].score
    ensures forall x :: x in a + b ==> 1 <= x.score <= top
    ensures forall i, j :: 0 <= i < j < |a + b| ==> (a + b)[i].score >= (a + b)[j].score
  {
    forall i, j | 0 <= i < j < |a + b|
      ensures (a + b)[i].score >= (a + b)[j].score
    {
      if j < |a| {
        assert (a + b)[i] in a && (a + b)[j] in a;
      } else if i < |a| {
        assert (a + b)[i] in a && (a + b)[j] in b;
      } else {
        assert (a + b)[i] == b[i - |a|] && (a + b)[j] == b[j - |a|];
      }
    }
  }

  /** The items of one score come out in their input order. */
  lemma {:induction false} BucketsStable(xs: seq<Scored>, top: nat, s: nat)
    ensures Seqs.Filter(HasScore(s), Buckets(xs, top))
            == if 1 <= s <= top then Seqs.Filter(HasScore(s), xs) else []
    decreases top
  {
    if top > 0 {
      BucketsStable(xs, top - 1, s);
      Seqs.FilterConcat(HasScore(s), Seqs.Filter(HasScore(top), xs), Buckets(xs, top - 1));
      RegroupScore(xs, top, s);
    }
  }

  /** Grouping a score group again keeps all of it or nothing. */
  lemma RegroupScore(xs: seq<Scored>, top: nat, s: nat)
    ensures Seqs.Filter(HasScore(s), Seqs.Filter(HasScore(top), xs))
            == if s == top then Seqs.Filter(HasScore(top), xs) else []
  {
    var a := Seqs.Filter(HasScore(top), xs);
    ScoreGroup(xs, top);
    if s == top {
      Seqs.FilterAll(HasScore(s), a);
    } else {
      Seqs.FilterNone(HasScore(s), a);
    }
  }

  /** Every item of a score between 1 and `top` is kept, as often as it occurs. */
  lemma {:induction false} BucketsCount(xs: seq<Scored>, top: nat, x: Scored)
    ensures multiset(Buckets(xs, top))[x] == if 1 <= x.score <= top then multiset(xs)[x] else 0
    decreases top
  {
    if top > 0 {
      BucketsCount(xs, top - 1, x);
      Seqs.FilterMultiplicity(HasScore(top), xs, x);
    }
  }

  /** The sort returns a permutation of its positive-score input, ordered by
      non-increasing score, with equal scores in input order. */
  lemma SortByScoreCorrect(xs: seq<Scored>)
    requires forall x :: x in xs ==> x.score > 0
    ensures multiset(SortByScore(xs)) == multiset(xs)
    ensures forall i, j :: 0 <= i < j < |SortByScore(xs)| ==> SortByScore(xs)[i].score >= SortByScore(xs)[j].score
    ensures forall s: nat :: Seqs.Filter(HasScore(s), SortByScore(xs)) == Seqs.Filter(HasScore(s), xs)
  {
    var top := MaxScore(xs);
    BucketsSorted(xs, top);
    forall x
      ensures multiset(SortByScore(xs))[x] == multiset(xs)[x]
    {
      BucketsCount(xs, top, x);
      if x in xs {
        assert 1 <= x.score <= top;
      }
    }
    forall s: nat
      ensures Seqs.Filter(HasScore(s), SortByScore(xs)) == Seqs.Filter(HasScore(s), xs)
    {
      BucketsStable(xs, top, s);
      if !(1 <= s <= top) {
        Seqs.FilterNone(HasScore(s), xs);
      }
    }
  }

  // ---------------------------------------------------------------------------
  // get_related_articles

  function PostsOf(xs: seq<Scored>): (r: seq<Post>)
    ensures |r| == |xs| && forall k :: 0 <= k < |xs| ==> r[k] == xs[k].post
  {
    seq(|xs|, k requires 0 <= k < |xs| => xs[k].post)
  }

  /** The candidates of the post `cur`, sorted. */
  function Ranked(posts: seq<Post>, cur: Post, currentId: string): seq<Scored> {
    SortByScore(Candidates(posts, cur, currentId))
  }

  /** What the ranking keeps of each candidate: it is a candidate, in the
      list, not the current post, and scored; and scores do not increase. */
  lemma RankedFacts(posts: seq<Post>, cur: Post, currentId: string)
    ensures var r := Ranked(posts, cur, currentId);
      && (forall y :: y in r ==>
            y.post in posts && y.post.id != currentId && y.score == Score(y.post, cur) && y.score > 0)
      && (forall i, j :: 0 <= i < j < |r| ==> r[i].score >= r[j].score)
      && (forall y :: y in Candidates(posts, cur, currentId) ==> y in r)
  {
    var c := Candidates(posts, cur, currentId);
    SortByScoreCorrect(c);
    forall y | y in SortByScore(c) ensures y in c {
      assert multiset(SortByScore(c))[y] > 0;
    }
    forall y | y in c ensures y in SortByScore(c) {
      assert multiset(c)[y] > 0;
    }
  }

  /** The ranked related posts: the first `maxRelated` candidates after the sort. */
  function Related(posts: seq<Post>, currentId: string, maxRelated: nat): seq<Post> {
    match FindById(posts, currentId)
    case None => []
    case Some(cur) => PostsOf(Text.Take(Ranked(posts, cur, currentId), maxRelated))
  }

  /** The first loop of `get_related_articles`: the first post with the id. */
  method FindCurrent(posts: seq<Post>, currentId: string) returns (current: Option<Post>)
    ensures current == FindById(posts, currentId)
  {
    current := None;
    var i := 0;
    while i < |posts|
      invariant 0 <= i <= |posts|
      invariant forall j :: 0 <= j < i ==> posts[j].id != currentId
      decreases |posts| - i
    {
      if posts[i].id == currentId {
        current := Some(posts[i]);
        assert FindIndex(posts, currentId) == Some(i);
        return;
      }
      i := i + 1;
    }
  }

  /** `get_related_articles`. */
  method RelatedArticles(posts: seq<Post>, currentId: string, maxRelated: nat) returns (result: seq<Post>)
    ensures result == Related(posts, currentId, maxRelated)
  {
    var current := FindCurrent(posts, currentId);
    if current.None? {
      return [];
    }
    var cur := current.value;
    var related: seq<Scored> := [];
    for k := 0 to |posts|
      invariant related == Candidates(posts[..k], cur, currentId)
    {
      CandidatesPrefix(posts, k, cur, currentId);
      var post := posts[k];
      if post.id == currentId {
        continue;
      }
      var score := 0;
      if post.category == Some(CurrentCategory(cur)) {
        score := score + 3;
      }
      var common := set t | t in TagsOrEmpty(cur) && t in TagsOrEmpty(post);
      score := score + |common|;
      assert score == Score(post, cur);
      if score > 0 {
        related := related + [Scored(post, score)];
      }
    }
    assert posts[..|posts|] == posts;
    related := SortByScore(related);
    result := PostsOf(Text.Take(related, maxRelated));
  }

  /** No related posts for an unknown id; otherwise at most `maxRelated`
      posts of the list, never the current one. */
  lemma RelatedShape(posts: seq<Post>, currentId: string, maxRelated: nat)
    ensures var r := Related(posts, currentId, maxRelated);
      && (r != [] ==> exists k :: 0 <= k < |posts| && posts[k].id == currentId)
      && |r| <= maxRelated
      && forall p :: p in r ==> p in posts && p.id != currentId
  {
    match FindById(posts, currentId)
    case None =>
    case Some(cur) =>
      RankedFacts(posts, cur, currentId);
      var t := Text.Take(Ranked(posts, cur, currentId), maxRelated);
      var r := PostsOf(t);
      forall p | p in r ensures p in posts && p.id != currentId {
        var k :| 0 <= k < |r| && r[k] == p;
        assert t[k] in Ranked(posts, cur, currentId);
      }
  }

  /** Every related post scores above zero against the current post, and the
      scores do not increase along the result. */
  lemma RelatedRanked(posts: seq<Post>, currentId: string, maxRelated: nat)
    requires FindById(posts, currentId).Some?
    ensures var cur := FindById(posts, currentId).value;
      var r := Related(posts, currentId, maxRelated);
      && (forall k :: 0 <= k < |r| ==> Score(r[k], cur) > 0)
      && (forall i, j :: 0 <= i < j < |r| ==> Score(r[i], cur) >= Score(r[j], cur))
  {
    var cur := FindById(posts, currentId).value;
    RankedFacts(posts, cur, currentId);
    var ranked := Ranked(posts, cur, currentId);
    var t := Text.Take(ranked, maxRelated);
    var r := PostsOf(t);
    forall k | 0 <= k < |r| ensures Score(r[k], cur) > 0 {
      assert t[k] == ranked[k] && ranked[k] in ranked;
    }
    forall i, j | 0 <= i < j < |r| ensures Score(r[i], cur) >= Score(r[j], cur) {
      assert t[i] == ranked[i] && t[j] == ranked[j];
      assert ranked[i] in ranked && ranked[j] in ranked;
    }
  }

  /** Taking a prefix of a list sorted by score: an item left out means the
      prefix is full and scores at least as much. */
  lemma CrowdedOut(ranked: seq<Scored>, m: nat, x: Scored)
    requires forall i, j :: 0 <= i < j < |ranked| ==> ranked[i].score >= ranked[j].score
    requires x in ranked && x.post !in PostsOf(Text.Take(ranked, m))
    ensures |Text.Take(ranked, m)| == m
    ensures forall k :: 0 <= k < m ==> ranked[k].score >= x.score
  {
    var t := Text.Take(ranked, m);
    var r := PostsOf(t);
    var j :| 0 <= j < |ranked| && ranked[j] == x;
    forall k | 0 <= k < |t| ensures t[k] != x {
      assert r[k] in r;
    }
    assert j >= |t|;
  }

  /** A post that qualifies (another post of the list, scoring above zero)
      but is left out of the result was crowded out: the result is full and
      every post in it scores at least as much. */
  lemma RelatedKeepsTheBest(posts: seq<Post>, cur: Post, currentId: string, maxRelated: nat, p: Post)
    requires FindById(posts, currentId) == Some(cur)
    requires p in posts && p.id != currentId && Score(p, cur) > 0
    requires p !in Related(posts, currentId, maxRelated)
    ensures |Related(posts, currentId, maxRelated)| == maxRelated
    ensures forall k :: 0 <= k < maxRelated ==> Score(Related(posts, currentId, maxRelated)[k], cur) >= Score(p, cur)
  {
    RankedFacts(posts, cur, currentId);
    var x := Scored(p, Score(p, cur));
    var ranked := Ranked(posts, cur, currentId);
    var r := PostsOf(Text.Take(ranked, maxRelated));
    assert r == Related(posts, currentId, maxRelated);
    CrowdedOut(ranked, maxRelated, x);
    forall k | 0 <= k < maxRelated
      ensures Score(r[k], cur) >= x.score
    {
      assert ranked[k] in ranked;
    }
  }

  /** Ties keep list order: the related posts of one score appear in the
      order of the candidates, which is list order. */
  lemma RelatedTiesInListOrder(posts: seq<Post>, cur: Post, currentId: string, s: nat)
    ensures Seqs.Filter(HasScore(s), Ranked(posts, cur, currentId))
            == Seqs.Filter(HasScore(s), Candidates(posts, cur, currentId))
  {
    SortByScoreCorrect(Candidates(posts, cur, currentId));
  }

  // ---------------------------------------------------------------------------
  // get_navigation_posts

  datatype Navigation = Navigation(next: Option<Post>, previous: Option<Post>)

  /** The neighbours of the first post with the id. */
  function Neighbours(posts: seq<Post>, id: string): Navigation {
    match FindIndex(posts, id)
    case None => Navigation(None, None)
    case Some(i) =>
      Navigation(if i + 1 < |posts| then Some(posts[i + 1]) else None,
                 if i > 0 then Some(posts[i - 1]) else None)
  }

  /** `get_navigation_posts`. */
  method NavigationPosts(posts: seq<Post>, currentId: string) returns (nav: Navigation)
    ensures nav == Neighbours(posts, currentId)
  {
    var currentIndex := -1;
    var i := 0;
    while i < |posts|
      invariant 0 <= i <= |posts|
      invariant currentIndex == -1
      invariant forall j :: 0 <= j < i ==> posts[j].id != currentId
      decreases |posts| - i
    {
      if posts[i].id == currentId {
        currentIndex := i;
        break;
      }
      i := i + 1;
    }
    if currentIndex == -1 {
      return Navigation(None, None);
    }
    assert FindIndex(posts, currentId) == Some(currentIndex);
    var next := if currentIndex + 1 < |posts| then Some(posts[currentIndex + 1]) else None;
    var previous := if currentIndex > 0 then Some(posts[currentIndex - 1]) else None;
    nav := Navigation(next, previous);
  }

  /** With unique ids the navigation links chain: the next post of `posts[i]`
      is `posts[i + 1]`, whose previous post is `posts[i]`; an id not in the
      list has no neighbours. */
  lemma NavigationChains(posts: seq<Post>, i: nat, id: string)
    requires UniqueIds(posts)
    ensures i + 1 < |posts| ==>
      Neighbours(posts, posts[i].id).next == Some(posts[i + 1])
      && Neighbours(posts, posts[i + 1].id).previous == Some(posts[i])
    ensures (forall k :: 0 <= k < |posts| ==> posts[k].id != id) ==> Neighbours(posts, id) == Navigation(None, None)
  {
    if i + 1 < |posts| {
      var a := FindIndex(posts, posts[i].id);
      assert a.Some? && a.value == i;
      var b := FindIndex(posts, posts[i + 1].id);
      assert b.Some? && b.value == i + 1;
    }
  }

  // ---------------------------------------------------------------------------
  // The HTML sections (markup abbreviated to its structure)

  const RelatedOpen: string := "<div class=\"related-articles\"><h3>Artikel Terkait</h3><div class=\"related-grid\">"
  const RelatedClose: string := "</div></div>"

  /** One related item: the `/post/<id>` link, the first 100 characters of the
      excerpt and "...", the date and the category or "Umum". */
  function RelatedItemHtml(p: Post): string {
    "<div class=\"related-item\"><h4><a href=\"/post/" + p.id + "\">" + p.title + "</a></h4>"
    + "<p class=\"related-excerpt\">" + Excerpt(p.excerpt, 100) + "</p>"
    + "<span class=\"date\">" + p.date + "</span>"
    + "<span class=\"category\">" + (if p.category.Some? then p.category.value else "Umum") + "</span></div>"
  }

  function ItemsHtml(ps: seq<Post>): string
    decreases |ps|
  {
    if ps == [] then "" else ItemsHtml(ps[..|ps| - 1]) + RelatedItemHtml(ps[|ps| - 1])
  }

  lemma ItemsStep(ps: seq<Post>, k: nat)
    requires k < |ps|
    ensures ItemsHtml(ps[..k + 1]) == ItemsHtml(ps[..k]) + RelatedItemHtml(ps[k])
  {
    var q := ps[..k + 1];
    assert q[..|q| - 1] == ps[..k] && q[|q| - 1] == ps[k];
  }

  /** `generate_related_articles_html`: `html +=` one item per post. */
  method RelatedArticlesHtml(related: seq<Post>) returns (html: string)
    ensures related == [] ==> html == ""
    ensures related != [] ==> html == RelatedOpen + ItemsHtml(related) + RelatedClose
  {
    if related == [] {
      return "";
    }
    var items := "";
    for k := 0 to |related|
      invariant items == ItemsHtml(related[..k])
    {
      ItemsStep(related, k);
      items := items + RelatedItemHtml(related[k]);
    }
    assert related[..|related|] == related;
    html := RelatedOpen + items;
    html := html + RelatedClose;
  }

  /** `generate_navigation_html`. */
  function NavigationHtml(nav: Navigation): (html: string)
    ensures html == "" <==> nav.next.None? && nav.previous.None?
  {
    if nav.next.None? && nav.previous.None? then ""
    else
      "<div class=\"post-navigation\"><div class=\"nav-container\">"
      + (if nav.previous.Some?
         then "<div class=\"nav-previous\"><a href=\"/post/" + nav.previous.value.id + "\">" + nav.previous.value.title + "</a></div>"
         else "<div class=\"nav-previous\"></div>")
      + (if nav.next.Some?
         then "<div class=\"nav-next\"><a href=\"/post/" + nav.next.value.id + "\">" + nav.next.value.title + "</a></div>"
         else "<div class=\"nav-next\"></div>")
      + "</div></div>"
  }
}
