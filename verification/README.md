# Edge blog workers and content helpers, modelled in Dafny

The system is a blog generator. A Streamlit dashboard and a scheduler write
articles, with help from the Gemini API. The articles are published as a
Cloudflare Worker script with the posts baked in. This project models the logic
of that system that does not depend on the network, the clock or the screen.

- **The template workers** are `templates/*_template.js` and `worker.js`.
  - Each worker maps a URL path and the in-memory post list to one response.
  - The modelled parts are:
    - path dispatch (`EdgeRouter`, plus a router of its own for the magazine worker and for `worker.js`);
    - percent-decoding of category and tag names (`Uri`);
    - the post-store queries (`PostStore`) and the ad-slot resolver (`Ads`);
    - the placeholder fill of the page shell (`Shell`) and the card lists (`Pages`);
    - the sitemap, RSS feed and robots file (`Feeds`);
    - the pages of each variant (`EdgeSite` with `TechSite`, `MinimalSite`, `BusinessSite`, `ModernSite`, `CorporateSite`; `MagazineSite`; `WorkerSite`).
  - A page is a `Response(status, contentType, body)`. Its body is a typed view model holding what the HTML is printed from: lists of cards, links, titles and meta data.
- **The Python helpers** are:
  - related-article ranking and prev/next navigation, from `templates.py` (`RelatedPosts`);
  - automatic tags, from `streamlit_dashboard.py` and `scheduler.py` (`AutoTags`);
  - from `streamlit_dashboard.py` (`Dashboard`):
    - the account-name slugger;
    - image insertion into generated content;
    - the post-list filters;
  - from `scheduler.py` (`Scheduler`):
    - the title/content split of a generated article;
    - the generated post record;
    - the script placeholder replacement;
  - from `scheduler_manager.py` (`SchedulerManager`):
    - the keyword list and its 50-keyword limit;
    - the cron-expression builders;
    - the configuration forms;
    - the status list of the most recent scheduled posts;
  - API-key assembly and round-robin rotation, from `gemini.py` (`Gemini`).

`Text`, `Seqs` and `Wrappers` hold the string and sequence operations the
sources use. These are Python's `strip`/`split`/`lower`, JavaScript's
`split`/`slice`/`toLowerCase`, `filter` and de-duplication through `Set` or
`dict.fromkeys`, and `Option`/`Result`.

Code that updates state step by step is modelled as methods with loops. Each
method is proved equal to a specification function, and the properties are
proved about that function. This applies to:

- `getSitemap`'s pushes;
- `get_related_articles` and `get_navigation_posts`;
- the `html +=` loop of `generate_related_articles_html`;
- `generate_auto_tags`;
- `insert_images_to_content`;
- the title loop of the scheduler.

The objects whose fields the source updates are classes: the scheduler
configuration dict and the `GeminiScraper`.

## Model

| member | source | states |
|---|---|---|
| EdgeRouter.RouteOutcomes | templates/tech_template.js:11-36 | dispatch is the first-match chain `/`, `/category/`, `/tag/`, `/api/posts`, feed, sitemap, robots (where served), slug; a post page is chosen only for an existing id; the only failure is a malformed escape in a category or tag segment |
| EdgeRouter.FixedPaths | templates/tech_template.js:11-28 | `/`, `/api/posts`, `/feed.xml`, `/rss.xml` and `/sitemap.xml` reach their branches whatever the posts are |
| EdgeRouter.UnknownSlugIsHome | templates/tech_template.js:29-35 | a path that is no route and no post id yields the home page, never a 404 |
| EdgeRouter.PostPathIff | templates/tech_template.js:30-33 | `/<id>` opens the post page of an existing id whose path is not taken by an earlier branch |
| EdgeRouter.PostPageOnlyFromItsPath | templates/tech_template.js:30-33 | a post page is reached only through the path `/<id>` |
| EdgeRouter.RobotsPath | templates/modern_template.js:12-36 | `/robots.txt` is the robots route in tech, minimal and business; in modern and corporate it is the slug `robots.txt`, home unless such a post exists |
| EdgeRouter.CategoryLinkRoundTrip | templates/tech_template.js:13-15 | the link `/category/<encodeURIComponent(name)>` routes back to the category `name`; later segments are ignored |
| EdgeRouter.TagLinkRoundTrip | templates/tech_template.js:16-18 | the same for `/tag/<encodeURIComponent(name)>` |
| EdgeRouter.MalformedCategoryFails | templates/tech_template.js:14 | a `%` not followed by two hex digits in segment 2 makes `decodeURIComponent` throw and the handler fail |
| Uri.Encode | templates/tech_template.js:123 | `encodeURIComponent` output consists only of unreserved characters and `%XY` escapes |
| Uri.EncodeHasNoSlash | templates/tech_template.js:123 | an encoded name is one path segment |
| Uri.DecodeEncode | templates/tech_template.js:14 | decoding an encoded component gives the component back, including multi-byte UTF-8 |
| Uri.DecodeWithoutPercent | templates/tech_template.js:14 | a segment without `%` decodes to itself |
| Uri.MalformedEscapeFails | templates/tech_template.js:14 | a malformed escape makes decoding fail (the thrown URIError) |
| PostStore.FindById | templates/tech_template.js:31 | `posts.find` finds something exactly when some post has the id, and what it finds is a post of the list with that id |
| PostStore.FindOwnId | templates/tech_template.js:291 | with unique ids, looking a post up by its own id finds that post |
| PostStore.FilterByCategory | templates/tech_template.js:344-346 | the category page holds exactly the posts whose category equals the name ignoring case |
| PostStore.FilterByTag | templates/tech_template.js:395-397 | the tag page holds exactly the posts with a tag equal to the name ignoring case |
| PostStore.ArchiveFiltersOrdered | templates/minimal_template.js:304-306 | both filters keep list order: a concatenation filters to the concatenation of the filtered parts |
| PostStore.CountInCategoryIs | templates/minimal_template.js:189 | the `(n)` of a category link is how often `cat` itself occurs among the posts' categories: other spellings and missing categories do not count |
| PostStore.CountAtMostArchive | templates/corporate_template.js:181 | a card's exact, case-sensitive count never exceeds the number of posts its case-insensitive archive page lists |
| PostStore.CountCanMissCaseVariants | templates/corporate_template.js:271-273 | the count can be smaller: a post filed under `ai` is on the `AI` page but not counted on the `AI` card |
| PostStore.TruthyCategories | templates/tech_template.js:120 | the truthy categories are exactly the non-empty categories of the posts |
| PostStore.AllTags | templates/tech_template.js:130 | `flatMap(p => p.tags \|\| [])` holds exactly the tags of the posts |
| PostStore.DistinctCategories | templates/tech_template.js:120 | distinct truthy categories, no duplicates, each non-empty and used by some post |
| PostStore.DistinctTags | templates/tech_template.js:131 | distinct tags, no duplicates, each carried by some post |
| PostStore.DistinctFirstAppearance | templates/tech_template.js:173-174 | distinct categories and tags come in the order of their first appearance |
| PostStore.ExcerptShape | templates/business_template.js:228 | the first k characters followed by `...`, appended even when the text is shorter |
| Ads.GetAdCode | templates/tech_template.js:42-47 | the code is returned verbatim exactly when config, slot, `enabled` and `code` are all truthy; otherwise `""` |
| Shell.ReplaceFirstLiteral | templates/tech_template.js:260-265 | a `$`-free value replaces the first occurrence of the placeholder and keeps everything around it |
| Shell.ReplaceFirstOnlyFirst | templates/tech_template.js:260-265 | every later occurrence of the placeholder survives, shifted by the change in length |
| Shell.ReplaceFirstAbsent | templates/tech_template.js:260-265 | without the placeholder the text is unchanged |
| Shell.DollarAmpersandEchoes | templates/tech_template.js:330 | `$&` in a value, such as a post titled `$&`, echoes the placeholder itself |
| Shell.RepeatedPlaceholderSurvivesFirstStep | templates/tech_template.js:260-265 | filling a shell whose placeholder repeats leaves the repeat literal in the page |
| Pages.CardsShape | templates/minimal_template.js:211 | one card per post in order with its id and title; a cut excerpt is its first k characters and `...`; chips limited to n are the post's first n tags (all when fewer), non-empty-only chips are all the tags of a post with at least one, and a post without tags shows none |
| Pages.CategoryLinksShape | templates/minimal_template.js:187-190 | one link per distinct truthy category in first-appearance order, each count the exact-match count |
| Feeds.BuildSitemap | templates/tech_template.js:108-148 | the loop of pushes yields the home entry, then categories, tags and posts |
| Feeds.SitemapOrder | templates/tech_template.js:111-148 | 1 + C + T + N entries in the order home, categories, tags, posts |
| Feeds.SitemapHomeEntry | templates/business_template.js:112-119 | the first entry is the site root with `lastmod` today, changefreq daily and priority 1.0 |
| Feeds.SitemapCategoryEntries | templates/business_template.js:121-129 | each category entry is `/category/<encoded name>` with changefreq weekly and priority 0.8 |
| Feeds.SitemapTagEntries | templates/business_template.js:131-140 | each tag entry is `/tag/<encoded tag>` with changefreq weekly and priority 0.6 |
| Feeds.SitemapPostEntries | templates/business_template.js:142-149 | each post entry is `/<id>` with `lastmod` the post's date, changefreq monthly and priority 0.9 |
| Feeds.FeedShape | templates/minimal_template.js:74-84 | one RSS item per post in list order, link and guid the post URL, `<category>` exactly when the category is truthy |
| Feeds.RobotsLines | templates/minimal_template.js:58-68 | four lines: `User-agent: *`, `Allow: /`, a blank line, `Sitemap: https://<host>/sitemap.xml` |
| EdgeSite.HandleNeverNotFound | templates/tech_template.js:30-35 | the router never produces the 404 of `getPostPage`; the handler fails only where decoding throws |
| EdgeSite.PostPageStatus | templates/tech_template.js:289-294 | called directly with an unknown id `getPostPage` answers 404 with the template's text, with a known id an HTML page |
| EdgeSite.PickShape | templates/tech_template.js:171-172 | a home list shows posts `from` up to `to`, clamped, in order, one card each |
| EdgeSite.PostMeta | templates/minimal_template.js:292 | a post page's title, description, canonical URL and keywords; without tags the keywords start with `", "` |
| EdgeSite.CategoryPageLists | templates/tech_template.js:342-391 | the category page lists the matching posts in order, with its meta data; with no match the list is empty or a notice |
| EdgeSite.TagPageLists | templates/tech_template.js:393-397 | the same for the tag page |
| EdgeSite.HomeCategoryLinkLeadsToArchive | templates/minimal_template.js:187-190 | the path of a home category link opens a page listing at least the link's count of posts (the path as the router receives it; see Left out for `.` and `..`) |
| EdgeSite.TagCloudLeadsToArchive | templates/tech_template.js:252-254 | the path of a tag-cloud link opens a page listing every post with that tag (the path as the router receives it; see Left out for `.` and `..`) |
| EdgeSite.FeedResponse | templates/tech_template.js:23-24 | `/feed.xml` and `/rss.xml` serve the same RSS channel |
| EdgeSite.SitemapResponse | templates/tech_template.js:25-26 | `/sitemap.xml` serves the sitemap entries |
| EdgeSite.RobotsResponse | templates/tech_template.js:27-28 | `/robots.txt` is the robots file exactly in the templates that route it |
| TechSite.HomeSelection | templates/tech_template.js:171-174 | featured `posts[0..3)` with whole excerpts and their first 3 tags, recent `posts[3..12)` with 100-character excerpts and no tags, and the tag cloud exactly the first ten distinct tags (all of them when fewer) |
| MinimalSite.HomeSelection | templates/minimal_template.js:171-172 | the home page lists `posts[0..10)` with whole excerpts and each post's first 3 tags (none without tags), next to the category links with counts |
| BusinessSite.HomeSelection | templates/business_template.js:172-174 | featured `posts[0..3)`, recent `posts[3..9)` with 120-character excerpts, one service card per distinct category |
| BusinessSite.ArchiveExcerpts | templates/business_template.js:318-360 | category and tag archive cards list the matching posts in order, each excerpt the first 150 characters and `...` |
| ModernSite.HomeSelection | templates/modern_template.js:161-173 | the home page shows every post with its whole excerpt, and all its tags when it has at least one |
| ModernSite.Sidebar | templates/modern_template.js:186 | the sidebar lists the first 5 posts, and exactly the first 10 distinct tags (all of them when fewer) |
| ModernSite.EmptyArchiveNotice | templates/modern_template.js:330-346 | an archive page with no match shows the notice instead of a list, and only then |
| CorporateSite.HomeSelection | templates/corporate_template.js:163 | the home page lists `posts[0..6)` |
| CorporateSite.CategoryCards | templates/corporate_template.js:290-334 | category cards show all the post's tags and the first 150 characters of its excerpt with `...`; tag cards the same excerpt without tags; an empty archive shows no notice |
| MagazineSite.EveryOtherPathIsALookup | templates/magazine_template.js:11-32 | every path gives the home page (`/`) or a post lookup of its third segment; the category, tag, API, feed and sitemap branches are never taken, and no path fails |
| MagazineSite.OneSegment | templates/magazine_template.js:14 | `/slug` has no third segment |
| MagazineSite.PostLinksAreNotFound | templates/magazine_template.js:231-234 | the `/<id>` links of the home page answer 404 `Post tidak ditemukan` |
| MagazineSite.FeedAndSitemapAreNotFound | templates/magazine_template.js:19-28 | `/feed.xml`, `/rss.xml` and `/sitemap.xml` answer 404 |
| MagazineSite.TwoSegmentPathOpensPost | templates/magazine_template.js:13-15 | `/<any>/<id>` opens the post with that id |
| MagazineSite.LongerPathOpensPost | templates/magazine_template.js:13-15 | `/<any>/<id>/<more>` opens the same post, since only the third segment is read |
| MagazineSite.ArticleShownIff | templates/magazine_template.js:11-15 | a post's page is shown exactly when the path is not `/` and its third segment is an id whose first post it is |
| MagazineSite.HomeSelection | templates/magazine_template.js:156-162 | featured `posts[0]`, the grid `posts.slice(1)`, no featured block for an empty list, the ticker the first 3 titles |
| WorkerSite.ReadingTimeBounds | worker.js:81-85 | reading time is ⌈pieces/200⌉ and at least 1, even for `""` |
| WorkerSite.Categories | worker.js:982 | home categories are distinct, without the truthiness filter |
| WorkerSite.ReplacePrefix | worker.js:925 | `path.replace('/post/', '')` drops exactly the prefix |
| WorkerSite.PostPath | worker.js:925-926 | `/post/<id>` opens the page of `id` |
| WorkerSite.MissingPostIsSoft404 | worker.js:1100-1114 | an unknown id gives status 200 and the page titled `404 - Tidak Ditemukan`, not a 404 response |
| WorkerSite.PostLinksAreNotFound | worker.js:965-968 | `/<id>` answers 404 `404 Not Found` |
| WorkerSite.Preflight | worker.js:906-914 | the empty preflight answer goes to every `OPTIONS` request, on any path, and to no other request |
| WorkerSite.HomeFailsOnMissingCategory | worker.js:1021 | the home page throws exactly when some post has no category |
| WorkerSite.HomeStats | worker.js:982-990 | the home page counts the posts, lists the distinct categories with their exact counts, counts the distinct tags, and shows a reading time of at least one minute per post |
| WorkerSite.CategoryLinkFindsItsPosts | worker.js:1160-1162 | for a non-empty category whose lower-cased name the URL parser passes through unchanged (only characters `encodeURIComponent` leaves alone, not `.` or `..`), its link `/category/<lower-cased name>` opens a page listing every post of that category |
| WorkerSite.EmptyCategoryLinkListsNothing | worker.js:1160-1162 | a post filed under the empty category is linked as `/category/`, and that page lists nothing and shows the empty notice |
| RelatedPosts.Candidates | templates.py:16-35 | exactly the other posts of the list whose score (3 for the same category plus the number of shared distinct tags) is above 0, each with that score: every candidate qualifies and every qualifying post is a candidate |
| RelatedPosts.SortByScoreCorrect | templates.py:38 | the sort is a permutation, non-increasing in score, stable on ties |
| RelatedPosts.FindCurrent | templates.py:3-7 | the lookup loop finds the first post with the id, and nothing when no post has it |
| RelatedPosts.RelatedArticles | templates.py:1-39 | the loop computes the ranked, cut list of related posts |
| RelatedPosts.RelatedShape | templates.py:9-10 | `[]` for an unknown id; otherwise at most `max_related` posts of the list, never the current one |
| RelatedPosts.RelatedRanked | templates.py:20-34 | every result post scores above 0 against the current post, and scores do not increase along the result |
| RelatedPosts.RelatedKeepsTheBest | templates.py:16-39 | any other post of the list scoring above 0 that is left out means the result is full (`maxRelated` posts) and each of them scores at least as much |
| RelatedPosts.RelatedTiesInListOrder | templates.py:38 | posts of equal score keep list order |
| RelatedPosts.NavigationPosts | templates.py:41-59 | the scan gives the neighbours of the first post with the id |
| RelatedPosts.NavigationChains | templates.py:43-59 | with unique ids, the next of `posts[i]` is `posts[i+1]` and the previous of `posts[i+1]` is `posts[i]`; an unknown id gives both None |
| RelatedPosts.RelatedArticlesHtml | templates.py:61-88 | `""` for no posts, otherwise the opening, one item per post in order, and the closing |
| RelatedPosts.NavigationHtml | templates.py:90-128 | `""` exactly when both neighbours are None |
| AutoTags.GenerateAutoTags | scheduler.py:217-238 | the loops compute the tag list of the specification |
| AutoTags.AutoTagsShape | streamlit_dashboard.py:1266-1287 | at most 5 distinct tags, the first the lower-cased category, the others keyword words over 3 or title words over 4 characters |
| AutoTags.AutoTagsLowerCase | scheduler.py:222-234 | every tag is lower case |
| AutoTags.AutoTagsComplete | scheduler.py:225-234 | when the distinct candidates number at most 5, every keyword word over 3 and every title word over 4 characters is a tag |
| AutoTags.TitleTags | scheduler.py:231-234 | title words over 4 characters are appended unless already present |
| Dashboard.FormatAccountNameShape | streamlit_dashboard.py:122-152 | None for falsy input, otherwise 1..63 characters from `[a-z0-9-]`, no `--`, no leading `-`, `user` when the cleanup is empty |
| Dashboard.OnlyBeforeAtMatters | streamlit_dashboard.py:132-133 | only the text before the first `@` counts |
| Dashboard.LabelShape | streamlit_dashboard.py:139-145 | the cleaned label has only `[a-z0-9-]`, no double dash and no dash at either end |
| Dashboard.CollapseDashes | streamlit_dashboard.py:142 | the result has no double dash, is no longer than the input, starts with the input's first character and uses only characters of the input |
| Dashboard.CollapseKeepsClean | streamlit_dashboard.py:142 | a string without a double dash is left unchanged |
| Dashboard.CollapseRun | streamlit_dashboard.py:142 | shortening a run of two or more dashes by one does not change the result, so every run of dashes gives the same single dash |
| Dashboard.CollapseKeepsNonDashes | streamlit_dashboard.py:142 | collapsing dash runs keeps every other character, in order: only dashes are removed |
| Dashboard.StripKeepsNonDashes | streamlit_dashboard.py:142 | `strip('-')` removes only dashes |
| Dashboard.LabelLetters | streamlit_dashboard.py:131-145 | with the dashes taken out, the label is exactly the letters and digits of the part before `@` (without `'s?account`), lower-cased and in order |
| Dashboard.FormatAccountNameContent | streamlit_dashboard.py:131-152 | `user` whenever no letter or digit survives; otherwise the first `min(63, length)` characters of that label |
| Dashboard.CleanLabelKept | streamlit_dashboard.py:122-152 | a name that already is a valid label (1 to 63 characters of `[a-z0-9-]`, no `--`, no dash at either end) is returned unchanged, e.g. `john-doe` |
| Dashboard.RemoveAccountWithoutApostrophe | streamlit_dashboard.py:136 | a name without an apostrophe loses nothing to the `'s?account` removal |
| Dashboard.InsertImagesToContent | streamlit_dashboard.py:1289-1315 | the loop computes the specified insertion |
| Dashboard.ScanRecovers | streamlit_dashboard.py:1301-1313 | deleting the inserted lines gives back the original lines; the inserted lines are the triples `""`, `<img>`, `""` for images 0, 1, … in order, at most one per URL |
| Dashboard.NoImagesNoChange | streamlit_dashboard.py:1291-1292 | without images the content is unchanged |
| Dashboard.FilterPostsSelects | streamlit_dashboard.py:886-895 | the list is the subsequence of posts with the exact category, the tag among their tags and the query in the title ignoring case |
| Scheduler.SplitArticle | scheduler.py:160-176 | the loop yields the title and content of the specification |
| Scheduler.PartsAtTitle | scheduler.py:165-176 | when line j is the first non-blank line that is a `#` heading or shorter than 100 characters, the title comes from it and the content is the later lines joined and stripped |
| Scheduler.NoTitleLine | scheduler.py:161-162 | without a title line the title is the keyword and the content the whole text stripped |
| Scheduler.HeadingTitle | scheduler.py:167-168 | a `#` heading's title has no `#` and no surrounding whitespace |
| Scheduler.PlainTitle | scheduler.py:171-172 | another title line gives its stripped text, non-empty and under 100 characters |
| Scheduler.NewPostFields | scheduler.py:183-196 | the given id, excerpt and date, author `AI Scheduler`, `generated_by` `AI_Scheduled`, the given category, the parsed title and content, and tags exactly `generate_auto_tags(keyword, title, category)`: 1 to 5 of them, the first the lower-cased category |
| Scheduler.GenerateArticles | scheduler.py:151-198 | one post per keyword whose article came back truthy, in keyword order |
| Scheduler.GeneratedPostsMarked | scheduler.py:190-192 | every generated post is marked scheduled and filed under the category |
| Scheduler.OnePlaceholder | scheduler.py:113-114 | a script with one placeholder gets the JSON in its place and is otherwise unchanged |
| SchedulerManager.KeywordListClean | scheduler_manager.py:128 | every keyword is non-blank, stripped and on one line |
| SchedulerManager.KeywordListRoundTrip | scheduler_manager.py:128 | saving clean keywords one per line gives the same list back |
| SchedulerManager.KeywordListResubmitted | scheduler_manager.py:128 | resaving the shown keywords changes nothing |
| SchedulerManager.Config.constructor | scheduler_manager.py:37-52 | the default config: no keywords, cron `0 9 * * *`, the default language, category and style |
| SchedulerManager.Config.SubmitKeywords | scheduler_manager.py:127-137 | more than 50 keywords is rejected with nothing changed; otherwise keywords and settings are replaced and nothing else |
| SchedulerManager.Config.SubmitSchedule | scheduler_manager.py:201-206 | the schedule is replaced by the built one, nothing else |
| SchedulerManager.Config.SubmitDeployConfig | scheduler_manager.py:249-252 | the three Cloudflare settings are replaced, nothing else |
| SchedulerManager.Config.TestKeywords | scheduler_manager.py:290 | a test run uses the first keyword, or `teknologi AI` |
| SchedulerManager.DeployReadiness | scheduler_manager.py:262 | a fresh configuration is not ready to deploy; after an accepted keywords form it is ready exactly when the list is not empty, because the default schedule has a cron expression |
| SchedulerManager.CronDay | scheduler_manager.py:167-174 | Senin…Sabtu map to 1…6 and Minggu to 0 |
| SchedulerManager.CronDayInjective | scheduler_manager.py:167-168 | different days get different cron numbers |
| SchedulerManager.Pad2 | scheduler_manager.py:164 | `{n:02d}` is the decimal digits of `n` (they read back as `n`), at least two of them and exactly two below 100 |
| SchedulerManager.CronFields | scheduler_manager.py:160-183 | daily `m h * * *`, weekly `m h * * d`, monthly `m h dom * *`, five fields that read back as the chosen numbers |
| SchedulerManager.CronInRange | scheduler_manager.py:161-181 | with the slider ranges every field is within cron's range, the day of the month in 1..28 |
| SchedulerManager.SortNewestCorrect | scheduler_manager.py:346 | the sort by `scheduled_at` descending is a permutation, latest first, stable on ties |
| SchedulerManager.RecentScheduledShape | scheduler_manager.py:340-346 | at most 5 scheduled posts of the list, latest first; no scheduled post left out is more recent; all shown when 5 or fewer |
| SchedulerManager.GeneratedPostsListed | scheduler_manager.py:340 | the posts the scheduler generates appear in the status list's input |
| Gemini.FileKeysFromLines | gemini.py:33 | a key comes from the file exactly when some kept line strips to it; keys are non-empty and stripped |
| Gemini.IndentedCommentKept | gemini.py:33 | the `#` test looks at the unstripped line: a line whose first character is whitespace and whose second is `#` is kept and its stripped text becomes a key |
| Gemini.KeyListMembers | gemini.py:47-54 | the list holds the file keys and the truthy explicit and environment keys, nothing else |
| Gemini.KeyListNoDuplicates | gemini.py:48-53 | insertion adds no duplicates |
| Gemini.KeyListOrder | gemini.py:47-54 | the file keys keep their order at the end, with at most two keys before them; a set environment key the file does not list comes first; otherwise (no environment key, or one the file lists) a set explicit key the file does not list comes first |
| Gemini.KeyListEmpty | gemini.py:56-60 | start-up fails exactly when no key is found anywhere |
| Gemini.GeminiScraper.constructor | gemini.py:19-24 | the explicit key, no keys, index 0 |
| Gemini.GeminiScraper.SetupGemini | gemini.py:40-65 | the key list is assembled; an empty list is the ValueError; otherwise `api_key` is the first key |
| Gemini.GeminiScraper.RotateApiKey | gemini.py:90-104 | with ≤ 1 key `False` and no change; otherwise index (i+1) mod n, key `api_keys[index]`, result the configure outcome, the move standing either way |
| Gemini.NextIndex | gemini.py:95 | the next index is below n |
| Gemini.FullCycle | gemini.py:95-96 | n rotations return to the start |
| Gemini.RotationReaches | gemini.py:95-96 | every key is reached within n rotations |
| Gemini.GeminiScraper.CurrentKeyInfo | gemini.py:106-112 | reports the index, the number of keys and the preview |
| Gemini.KeyPreviewHides | gemini.py:111 | the preview is `...` and at most the last 6 characters of the key, or `None` |

## Left out

- HTML and CSS are left out. This covers the template literals, the `HTML_TEMPLATE` shells and the client-side popup script. Pages are view models, and the shell is modelled only through its placeholder fill.
- Dates and the clock are left out. `toUTCString`, `toISOString`, `formatDate` and `datetime.now()` are parameters or opaque strings.
- Randomness is left out: the `Math.random` view and comment counts in `worker.js`.
- Response headers, `addEventListener` and `new URL(...)` are left out. The hostname is an input, and the response is a status, a content type and a body.
- The network is left out:
  - Cloudflare REST calls, the deploy and route helpers;
  - the Gemini and Bing calls, and `generate_article` with its retry recursion;
  - `genai.configure` is a parameter of `RotateApiKey` (success or failure).
- File I/O is left out: `apikey.txt`, `posts.json`, the config file, `scheduler.log` and the template loaders.
  - `apikey.txt` is a parameter holding the lines or nothing.
  - The environment variable is a parameter.
  - A `save_config` failure is not modelled. The config dict is updated before the save in any case.
  - The log-tail display is not modelled.
- `json.dumps`, `JSON.stringify` and Markdown conversion are left out. The posts JSON is an opaque string.
- The regular-expression branch of the script update in `scheduler.py` (the non-greedy DOTALL `re.sub`) is left out. `Scheduler.WithPosts` returns None there.
- Unicode case folding is left out. Lower-casing is ASCII-only, and `split()` and `strip()` use Python's whitespace set on code points.
- JavaScript strings are sequences of code points, not UTF-16 units. Encoding cannot meet a lone surrogate.
- Ad placement in the pages and `getCategoryIcon` are left out. Only `getAdCode` is modelled.
- In the magazine worker, the category, tag, feed and sitemap composers are only reachable by dead code, and they are not modelled as pages.
- The first `handleRequest` of `worker.js` is shadowed by the second and is not modelled.
- `utils.py` is not part of this model. `generate_post_id` and `extract_excerpt_from_content` are function parameters of `Scheduler.GenerateArticles`.
- The `keyword` and `language` fields of a generated post are not in the post record. No modelled code reads them.
- Exceptions raised inside the generation loop of `generate_articles_from_keywords` are left out. A failed generation is modelled as a None article.
- A `scheduled_at` of JSON null in the status sort is left out. A missing key sorts as `""`.
- A JSON `"category": null` in the related-articles scoring is left out. The model treats it like a missing key, as None. In Python, `.get('category', '')` gives None for null but `""` for a missing key. So when the current post's category is null, Python gives +3 to every post without a category, and the model gives it to none.
- A JSON `"tags": null` in the related-articles scoring is left out. The model reads it as no tags and scores the post on its category alone. In Python, `.get('tags', [])` gives None for null, `set(None)` raises `TypeError` (templates.py:14, 27-28) and `get_related_articles` fails.
- RelatedPosts.RelatedItemHtml: a JSON `"category": null` prints `Umum`, like a missing key. In Python, `post.get('category', 'Umum')` (templates.py:79) gives None for null, so the page prints `None`.
- EdgeRouter.CategoryLinkRoundTrip, EdgeRouter.TagLinkRoundTrip, EdgeSite.HomeCategoryLinkLeadsToArchive, EdgeSite.TagCloudLeadsToArchive: they state the route for the link's path as the worker receives it. URL parsing is not modelled. For a category or tag named `.` or `..`, `encodeURIComponent` keeps the dots and `new URL(request.url).pathname` resolves the dot segment, so the browser's request reaches `/category/`, `/tag/` or `/` and not the archive.
- WorkerSite.CategoryLinkFindsItsPosts: covers only category names that reach the router unchanged. URL parsing is not modelled. For another name, the path the worker reads (`url.pathname`, worker.js:903) is percent-encoded or has its dot segments resolved, and worker.js:935-936 does not decode it. Such a link then lists no post, and the model does not state that.
- Dashboard.ScanRecovers: the positions of the images, after the paragraph ends numbered 1, 3, 6, 9, …, are defined in the loop step but not restated as a lemma.
- The Streamlit widgets are left out. The forms are modelled as the values they submit.
