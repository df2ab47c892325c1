# Heavy Status: the news app's logic, modelled and proved in Dafny

Heavy Status is a Next.js news app over a WordPress GraphQL backend, with push
notifications sent through OneSignal. This project models its deterministic core and
proves what that core promises. Nothing is fetched: every remote service is a
function parameter, and every handler returns a record of the calls it would make
and the answer it would give.

The core, module by module:

- `WordPress` (lib/wordpress.ts). The content adapter:
  - how a GraphQL reply is judged: a non-ok status fails; an `errors` field fails, even an empty one; otherwise `data` is returned;
  - `transformPost`'s defaults;
  - the page-type switch of `getPosts` and the request it builds;
  - the `count > 0` category filter;
  - `stripHtml`: tags deleted, then seven entities decoded in a fixed order, then trimmed;
  - the minute/hour/day bucketing of `formatDate`, `readingTime` and `getImageUrl`.
- `CheckNewPosts` (app/api/check-new-posts/route.ts). The polling handler:
  - an inclusive ten-minute window over the recent posts;
  - a ledger of the URLs OneSignal has already pushed, empty on any failure;
  - de-duplication by canonical URL;
  - one push per new post, in order.
- `Notify` (app/api/notify/route.ts). The webhook:
  - the shared-secret check comes before the configuration check;
  - each field prefers the WordPress name and falls back to the short one;
  - one push, and the mapping of OneSignal's reply to the answer.
- `OneSignal`. What the two push handlers each write out identically:
  - their own `stripHtml` (tags deleted, each `&…;` run made one space, trimmed);
  - the 200-character message, the canonical article URL and the payload with its optional image fields;
  - the `os_v2_` key sniff that picks endpoint and Authorization scheme.
- `MasonryGrid` (components/MasonryGrid.tsx). The round-robin deal of children into columns. Child i goes to column i mod n, at position i / n; order and the multiset of items are kept; column lengths differ by at most one.
- `Sitemap` and `Feed` (app/sitemap.xml/route.ts, app/feed.xml/route.ts). The two XML builders, as loops that append to a string:
  - the sitemap is a Sitemaps 0.9 document with the Google News extension;
  - the feed is an RSS 2.0 channel capped at twenty items.
- `Xml`. What the sitemap and feed share:
  - the base URL;
  - the article link;
  - the append loop, proved once for any entry renderer;
  - the `&`-first title escaping, proved to yield character data as section 2.4 of XML 1.0 requires, with an unescaping that gives the title back.
- `Text`. The JavaScript string operations the code uses, each written as an explicit scan:
  - literal global replace;
  - `<[^>]*>` removal;
  - `trim`;
  - `split(/\s+/)`;
  - `substring(0, n)`;
  - number-to-string.
- `Wrappers`. Option, Result, and the subsequence relation.

## Behaviour worth noting

- The webhook reads no status field, so it has no "skipped" answer.
- No handler classifies zero recipients.
- No last-seen timestamp is kept anywhere.
- In the polling handler, a push whose reply cannot be read (fetch or `response.json()` throws) ends the whole run with a 500. The posts after it are not attempted. A non-ok reply that parses is recorded like any other.
- The webhook reads only `featured_image`/`image`, not a thumbnail field.

## Model

| member | source | states |
|---|---|---|
| Text.ReplaceAllAbsent | lib/wordpress.ts:252 | a global replace of a pattern that does not occur leaves the text unchanged |
| Text.ReplaceOneChar | app/sitemap.xml/route.ts:29 | a global replace of a one-character pattern substitutes every occurrence of that character |
| Text.FirstIndex | lib/wordpress.ts:252 | the index found holds the character and no earlier position does (where `[^>]*>` ends) |
| Text.RemoveTags | lib/wordpress.ts:252 | deleting `<…>` spans adds no character |
| Text.FirstIndexAt | lib/wordpress.ts:252 | an occurrence with none before it is the first, where `[^>]*>` ends |
| Text.RemoveTagsSubsequence | lib/wordpress.ts:252 | the result is the input with some characters deleted, the rest in their order |
| Text.RemoveTagsKeepsText | lib/wordpress.ts:252 | text before the first `<` is kept verbatim |
| Text.RemoveTagsDropsTag | lib/wordpress.ts:252 | a `<`, text without `>`, and a `>` are deleted together and nothing after them |
| Text.RemoveTagsOfTextThenTag | lib/wordpress.ts:252 | text, a tag, more: the text is kept, the tag deleted, the rest scanned on |
| Text.RemoveTagsLeavesNoTag | lib/wordpress.ts:252 | no `<` followed later by `>` is left after the deletion |
| Text.RemoveTagsNoAngle | lib/wordpress.ts:252 | text without `<` has no tag to delete |
| Text.TrimStart | lib/wordpress.ts:252 | the result does not start with whitespace and is no longer than the input |
| Text.TrimStartDropsWhitespace | lib/wordpress.ts:252 | the result is a suffix of the input and what it drops is all whitespace |
| Text.TrimEnd | lib/wordpress.ts:252 | the result does not end with whitespace and is no longer than the input |
| Text.TrimEndDropsWhitespace | lib/wordpress.ts:252 | the result is a prefix of the input and what it drops is all whitespace |
| Text.Trim | lib/wordpress.ts:252 | the result has whitespace at neither end |
| Text.TrimIsSlice | lib/wordpress.ts:252 | trim returns a slice of its input with only whitespace before and after it |
| Text.TrimKeepsCharacters | app/api/check-new-posts/route.ts:15 | trim adds no character |
| Text.TrimStartOfTrimmed | lib/wordpress.ts:252 | text not starting with whitespace keeps its start |
| Text.TrimEndOfTrimmed | lib/wordpress.ts:252 | text not ending with whitespace keeps its end |
| Text.TrimIdempotent | lib/wordpress.ts:252 | trimming twice is trimming once |
| Text.TrimAllWhitespace | lib/wordpress.ts:252 | all-whitespace text trims to "" |
| Text.SkipWhitespace | lib/wordpress.ts:271 | drops exactly the leading whitespace run |
| Text.SplitWhitespace | lib/wordpress.ts:271 | a split always has at least one piece |
| Text.LeadingWhitespace | lib/wordpress.ts:271 | the run the skip drops: all whitespace, non-empty when the text starts with whitespace, and with the rest it gives the text |
| Text.SplitRoundTrip | lib/wordpress.ts:271 | the pieces are separated by non-empty whitespace runs, one fewer than the pieces, and pieces and runs glued back in turn give the text |
| Text.SplitPiecesHaveNoWhitespace | lib/wordpress.ts:271 | no piece of a split contains whitespace |
| Text.SplitFirstPiece | lib/wordpress.ts:271 | on text not starting with whitespace, the first piece is empty only for "" |
| Text.SplitInnerPiecesNonEmpty | lib/wordpress.ts:271 | on text not ending with whitespace, every piece after the first is non-empty |
| Text.SplitTrimmedIntoWords | lib/wordpress.ts:271 | non-empty trimmed text splits into non-empty whitespace-free words |
| Text.Take | app/api/notify/route.ts:34 | `substring(0, n)`: the first min(n, length) characters |
| Text.DigitChar | lib/wordpress.ts:264 | the digit character of a value below ten |
| Text.NatToString | lib/wordpress.ts:264 | a number is written as at least one digit, with no leading zero unless it is 0 |
| Text.NatToStringRoundTrip | lib/wordpress.ts:273 | reading the digits back gives the number |
| Text.NatToStringInjective | lib/wordpress.ts:273 | different numbers are written differently |
| Text.IntToString | lib/wordpress.ts:61 | written as at least one character, with a leading '-' exactly when negative |
| WordPress.ErrorMessage | lib/wordpress.ts:47-54 | a non-ok reply's message is "GraphQL request failed: " + status text; a query error's message is its own |
| WordPress.FirstErrorMessage | lib/wordpress.ts:53 | the first error's message when non-empty, else "GraphQL error"; never empty |
| WordPress.GraphqlRequest | lib/wordpress.ts:39-57 | three outcomes: a non-ok status fails with the status text; a present `errors` fails with the first message; otherwise `data` is returned, exactly when neither applies |
| WordPress.EmptyErrorsStillFail | lib/wordpress.ts:52-53 | an empty `errors` array still fails, with "GraphQL error" |
| WordPress.Terms | lib/wordpress.ts:71-72 | the term nodes when present, else [] |
| WordPress.TransformPost | lib/wordpress.ts:59-78 | id from databaseId (else id); absent text fields become ""; categories and tags are the term nodes, [] when absent; featuredImage and author exist exactly when their `node` does, with its URL and alt text, its name, and its avatar URL or "" without an avatar |
| WordPress.TransformPostFixesNormalised | lib/wordpress.ts:59-78 | normalising an already normalised post changes nothing |
| WordPress.TransformAll | lib/wordpress.ts:157 | `map(transformPost)`: same length, post by post |
| WordPress.CategoryFor | lib/wordpress.ts:116-132 | only 'featured', 'highlights' and 'live' map to a category |
| WordPress.PostsFrom | lib/wordpress.ts:156-157 | a transport failure propagates; success exactly when `data.posts.nodes` is present, giving their transforms |
| WordPress.GetPosts | lib/wordpress.ts:115-158 | the variables always carry `count` and carry `category` exactly when the type maps to one: featured→breaking-news, highlights→highlights, live→community-news; every other type gets the unfiltered query |
| WordPress.NonEmptyCategories | lib/wordpress.ts:200 | keeps exactly the categories with a positive count, in their order, and everything when all qualify |
| WordPress.NonEmptyCategoriesCounts | lib/wordpress.ts:200 | every copy of a category with posts is kept, no copy of one without |
| WordPress.GetCategories | lib/wordpress.ts:186-201 | a transport failure propagates; success exactly when `data.categories.nodes` is present, giving those nodes filtered |
| WordPress.StripHtml | lib/wordpress.ts:251-253 | the result has whitespace at neither end |
| WordPress.StripHtmlPlainText | lib/wordpress.ts:252 | trimmed text without `<` or `&` is returned unchanged |
| WordPress.ReplaceAbsentChar | lib/wordpress.ts:252 | a replace whose pattern's first character is absent changes nothing |
| WordPress.DecodeWithoutAmpersand | lib/wordpress.ts:252 | the seven entity replaces leave text without `&` unchanged |
| WordPress.DecodeAmpLt | lib/wordpress.ts:252 | decoding in the source's order turns "&amp;lt;" into "<" |
| WordPress.StripHtmlDecodeOrder | lib/wordpress.ts:252 | stripHtml("&amp;lt;") is "<": `&amp;` is decoded before `&lt;` |
| WordPress.AgeOf | lib/wordpress.ts:258-266 | floor-division buckets: under a minute (future included) is just now, then minutes under 60, hours under 24, days under 7, with the count bounding the age |
| WordPress.FormatDate | lib/wordpress.ts:255-268 | 'Just now', 'Nm ago', 'Nh ago', 'Nd ago' by bucket, with N in range; the locale date from a week on; "Invalid Date" for an unparseable date |
| WordPress.MinutesFor | lib/wordpress.ts:272 | max(1, ceil(words / 200)): at least 1 and the least m with words ≤ 200m |
| WordPress.ReadingMinutes | lib/wordpress.ts:270-272 | the same bound on the word count of the stripped content |
| WordPress.WordsAreWords | lib/wordpress.ts:271 | the count is one more than the stripped text's whitespace gaps; the words and the non-empty gaps glued in turn give that text; in non-empty text each word is non-empty and whitespace-free; stripped-empty content counts as one word |
| WordPress.ReadingTimeAtLeastOne | lib/wordpress.ts:270-274 | the text is digits for a number of at least one, then " min read" |
| WordPress.GetImageUrl | lib/wordpress.ts:276-278 | the featured image's non-empty URL, else '/images/placeholder.svg' |
| WordPress.ImageUrlOfNode | lib/wordpress.ts:67-70 | on a transformed node: the node's non-empty image URL, else the placeholder |
| OneSignal.ReplaceEntityRuns | app/api/check-new-posts/route.ts:14 | replacing `&[^;]+;` runs adds only spaces |
| OneSignal.EntityRunsKeepText | app/api/check-new-posts/route.ts:14 | text before the first `&` is kept verbatim |
| OneSignal.EntityRunBecomesSpace | app/api/check-new-posts/route.ts:14 | `&`, one or more characters other than `;`, and `;` become one space, and the scan resumes after the `;` |
| OneSignal.EntityRunsOfTextThenRun | app/api/check-new-posts/route.ts:14 | text, a run, more: the text is kept, the run made a space, the rest scanned on |
| OneSignal.EntityRunsNeedSemicolon | app/api/check-new-posts/route.ts:14 | text without `;` has no run to replace |
| OneSignal.NoEntityRunSurvives | app/api/check-new-posts/route.ts:14 | no `&[^;]+;` run is left in the result |
| OneSignal.RouteStripHtml | app/api/check-new-posts/route.ts:11-16 | the result has whitespace at neither end |
| OneSignal.RouteStripHtmlCharacters | app/api/check-new-posts/route.ts:11-16 | it keeps input characters and adds only spaces, so it never introduces `<` or `>` |
| OneSignal.RouteStripHtmlNoEntityRun | app/api/check-new-posts/route.ts:13-14 | after both replaces no `&…;` run remains |
| OneSignal.RouteStripHtmlOfPlain | app/api/check-new-posts/route.ts:11-16 | text without `<` or `;` and not padded with whitespace is unchanged |
| OneSignal.DefaultTitleIsPlain | app/api/check-new-posts/route.ts:92 | the default title strips to itself |
| OneSignal.Heading | app/api/check-new-posts/route.ts:92-103 | the stripped title, or the default title for an empty one; always trimmed |
| OneSignal.HeadingIsStrippedTitle | app/api/check-new-posts/route.ts:103 | the heading is stripHtml(title or default) |
| OneSignal.MessageFor | app/api/check-new-posts/route.ts:93-95 | at most 200 characters; the default message for an empty excerpt; otherwise a prefix of the stripped excerpt, all of it when shorter |
| OneSignal.MarkupOnlyExcerpt | app/api/notify/route.ts:33-35 | an excerpt of markup only gives "", not the default |
| OneSignal.ArticleUrl | app/api/check-new-posts/route.ts:96 | site + "/article/" + slug for a slug, the bare site otherwise |
| OneSignal.ArticleUrlInjective | app/api/check-new-posts/route.ts:156-160 | different slugs get different URLs, so the ledger tells posts apart |
| OneSignal.PayloadOf | app/api/check-new-posts/route.ts:99-111 | channel "push", segment "Subscribed Users", the given fields, and both image fields set, to the image, exactly when there is one |
| OneSignal.BuildPayload | app/api/notify/route.ts:41-53 | building the literal and then adding the image fields gives that payload |
| OneSignal.VersionOf | app/api/check-new-posts/route.ts:113 | v2 exactly when the key starts with "os_v2_" |
| OneSignal.PushRequestFor | app/api/check-new-posts/route.ts:113-128 | a v2 key posts to api.onesignal.com with "Key "; any other to onesignal.com/api/v1 with "Basic " |
| OneSignal.BodyOf | app/api/check-new-posts/route.ts:130 | the parsed reply of a push that did not throw |
| CheckNewPosts.SiteUrl | app/api/check-new-posts/route.ts:7 | SITE_URL when set, else https://heavy-status.com |
| CheckNewPosts.Cutoff | app/api/check-new-posts/route.ts:19 | now minus 600000 ms |
| CheckNewPosts.WithinWindow | app/api/check-new-posts/route.ts:59-61 | keeps exactly the posts dated at or after the cutoff, in order |
| CheckNewPosts.WithinWindowCounts | app/api/check-new-posts/route.ts:59-61 | every copy of a post in the window is kept, no copy of one outside it |
| CheckNewPosts.RecentPosts | app/api/check-new-posts/route.ts:47-61 | a throw, non-ok reply or unreadable body fails with its message; missing nodes give []; otherwise the window filter of the nodes |
| CheckNewPosts.WindowScenario | app/api/check-new-posts/route.ts:59-61 | the boundary is inclusive: a post exactly ten minutes old is kept, an older one dropped |
| CheckNewPosts.LedgerRequestFor | app/api/check-new-posts/route.ts:65-71 | a v2 key reads https://api.onesignal.com/notifications?app_id=…&limit=20 with "Key "; any other reads https://onesignal.com/api/v1/notifications?app_id=…&limit=20 with "Basic " |
| CheckNewPosts.LedgerMatchesPush | app/api/check-new-posts/route.ts:65-71 | the history fetch and every push make the same key choice: the same header, and the push endpoint with the query appended |
| CheckNewPosts.UrlsMembers | app/api/check-new-posts/route.ts:82-84 | a URL is in the ledger exactly when it is non-empty and some record carries it |
| CheckNewPosts.Ledger | app/api/check-new-posts/route.ts:73-88 | a throw, non-ok status, unreadable body or missing list gives the empty set; otherwise the records' non-empty urls |
| CheckNewPosts.AlreadySentUrls | app/api/check-new-posts/route.ts:78-85 | the loop over the records builds the ledger |
| CheckNewPosts.Unsent | app/api/check-new-posts/route.ts:156-161 | keeps exactly the posts whose URL the ledger lacks, in order; all of them when the ledger holds none |
| CheckNewPosts.UnsentCounts | app/api/check-new-posts/route.ts:156-161 | every copy of an unsent post is kept, no copy of a sent one |
| CheckNewPosts.PushFor | app/api/check-new-posts/route.ts:91-128 | the push for a post carries its heading, message, URL and image, to the sniffed endpoint |
| CheckNewPosts.BuildNotification | app/api/check-new-posts/route.ts:92-119 | building step by step gives that push |
| CheckNewPosts.SendCalls | app/api/check-new-posts/route.ts:172-173 | one push per post, in order |
| CheckNewPosts.Records | app/api/check-new-posts/route.ts:171-175 | one record per post carrying its title, slug and reply |
| CheckNewPosts.FirstThrow | app/api/check-new-posts/route.ts:172-173 | every push before it gets a readable reply, and the one at it does not |
| CheckNewPosts.Status | app/api/check-new-posts/route.ts:137-188 | 500 exactly for missing configuration and failures, else 200 |
| CheckNewPosts.SendEach | app/api/check-new-posts/route.ts:171-175 | the loop sends pushes in order and stops at the first throw, as the send phase specifies |
| CheckNewPosts.Get | app/api/check-new-posts/route.ts:135-189 | the handler's answer and calls are those of a run |
| CheckNewPosts.SendPhaseSendsPrefix | app/api/check-new-posts/route.ts:171-175 | the pushes are those of a prefix of the new posts, in order |
| CheckNewPosts.PushUrl | app/api/check-new-posts/route.ts:96 | a post's push targets its canonical URL, the one the ledger is checked against |
| CheckNewPosts.UnconfiguredDoesNothing | app/api/check-new-posts/route.ts:137-142 | without key or app id: 500 and no call at all |
| CheckNewPosts.DispatchOnlyPushesUnsent | app/api/check-new-posts/route.ts:156-175 | every push is for a recent post whose URL is not in the ledger |
| CheckNewPosts.RunCalls | app/api/check-new-posts/route.ts:144-181 | a configured run fetches posts and ledger first, then dispatches, or fails after the fetches |
| CheckNewPosts.NothingToSend | app/api/check-new-posts/route.ts:149-169 | no recent post: "no new posts", no push; all already notified: the recent count, no push |
| CheckNewPosts.RunCallShape | app/api/check-new-posts/route.ts:144-175 | a configured run fetches the posts since now − 10 minutes and the ledger, and then only pushes |
| CheckNewPosts.NeverResends | app/api/check-new-posts/route.ts:156-175 | no run pushes to a URL in the ledger; every push is for a post of the window |
| CheckNewPosts.SendPhaseDeliversAll | app/api/check-new-posts/route.ts:171-181 | when no push of these posts throws, every post is pushed and recorded |
| CheckNewPosts.SendsEveryNewPost | app/api/check-new-posts/route.ts:156-181 | when no push for an unsent recent post throws, each such post is pushed once, in order, and notified equals their number |
| Notify.NoticeOf | app/api/notify/route.ts:28-31 | post_title over title, post_excerpt over excerpt, post_name over slug, featured_image over image |
| Notify.NotifyPayload | app/api/notify/route.ts:28-53 | app id, heading of the chosen title, message of at most 200 characters, canonical URL on SITE_URL or the default site, image fields exactly when there is an image |
| Notify.Status | app/api/notify/route.ts:16-91 | 200 exactly for success, 401 exactly for a bad secret, else 500 |
| Notify.Answer | app/api/notify/route.ts:72-91 | an unreadable reply is an internal error; non-ok gives the failure with the reply as details; ok gives id and recipients |
| Notify.Post | app/api/notify/route.ts:10-94 | 401 exactly when a secret is set and the header is not "Bearer " + secret; then the configuration check; then the body; exactly one push only past all three |
| Notify.DeliveredMeansAccepted | app/api/notify/route.ts:74-86 | 200 exactly when the service answered ok with a readable body |
| Notify.TitlePrecedence | app/api/notify/route.ts:28 | with post_title set, the short title changes nothing |
| Notify.UntitledGetsDefaultHeading | app/api/notify/route.ts:28 | with no title at all the heading is the default title |
| Notify.MessageDefaults | app/api/notify/route.ts:29-35 | no excerpt gives the default message; a markup-only one gives "" |
| MasonryGrid.Items | components/MasonryGrid.tsx:8 | a lone child is a one-item list |
| MasonryGrid.Distribute | components/MasonryGrid.tsx:7-13 | exactly `columns` columns, each holding what the round-robin deal puts there |
| MasonryGrid.SingleChild | components/MasonryGrid.tsx:8-13 | a lone child fills the first column only |
| MasonryGrid.ColumnLengthIs | components/MasonryGrid.tsx:11-13 | column c holds as many items as there are indices congruent to c |
| MasonryGrid.ColumnContents | components/MasonryGrid.tsx:11-13 | column c holds items c, c + n, c + 2n, … in order |
| MasonryGrid.ItemPlacement | components/MasonryGrid.tsx:11-13 | item i is at position i / n of column i mod n |
| MasonryGrid.Balanced | components/MasonryGrid.tsx:11-13 | column lengths differ by at most one, and an earlier column is never shorter |
| MasonryGrid.DealPreservesItems | components/MasonryGrid.tsx:11-13 | together the columns hold the same multiset of items |
| MasonryGrid.TotalCount | components/MasonryGrid.tsx:11-13 | the column lengths add up to the number of items |
| Xml.BaseUrl | app/sitemap.xml/route.ts:6 | SITE_URL when set, else the request's origin |
| Xml.ArticleLink | app/sitemap.xml/route.ts:19 | base, then "/article/", then the slug |
| Xml.ArticleLinkInjective | app/sitemap.xml/route.ts:19 | different slugs give different links |
| Xml.AppendAll | app/sitemap.xml/route.ts:17-32 | the loop succeeds exactly when every element can be written, and then appends their renderings in order |
| Xml.AllWritableEach | app/sitemap.xml/route.ts:17-32 | the loop's scan holds exactly when each element can be written |
| Xml.RenderAllSplit | app/sitemap.xml/route.ts:17-32 | element i's rendering sits between those before and after it |
| Xml.ReferencesHaveNoAngles | app/sitemap.xml/route.ts:29 | the inserted references hold no `<` or `>` for a later replace to meet |
| Xml.ChainedSubstOne | app/sitemap.xml/route.ts:29 | on one character the three replaces give its escape |
| Xml.SubstitutionsEscape | app/sitemap.xml/route.ts:29 | the three replaces, `&` first, escape character by character |
| Xml.EscapeTitleIsPerCharacter | app/sitemap.xml/route.ts:29 | the `&` of an inserted `&lt;` or `&gt;` is never escaped again |
| Xml.EscapeTextWellEscaped | app/sitemap.xml/route.ts:29 | the escaped text has no raw `<` or `>`, and each `&` begins `&amp;`, `&lt;` or `&gt;` |
| Xml.EscapedTitleIsWellEscaped | app/sitemap.xml/route.ts:29 | the same of a title escaped by the chain |
| Xml.UnescapeEscapeChar | app/sitemap.xml/route.ts:29 | a reader undoes one escaped character |
| Xml.UnescapeEscapeText | app/sitemap.xml/route.ts:29 | a reader gets the text back |
| Xml.EscapeTitleRoundTrip | app/sitemap.xml/route.ts:29 | a reader gets the title back exactly |
| Xml.EscapeTitleInjective | app/feed.xml/route.ts:19 | different titles are never written alike |
| Sitemap.StaticEntries | app/sitemap.xml/route.ts:12-15 | /, /featured, /explore, /live with changefreq hourly/hourly/daily/always and priorities 1.0/0.9/0.8/0.9 |
| Sitemap.PostEntry | app/sitemap.xml/route.ts:18-31 | loc is the article link, lastmod the ISO date, weekly, 0.7, and the news part has the date and the escaped title |
| Sitemap.Get | app/sitemap.xml/route.ts:3-42 | 200 application/xml with the document exactly when the posts came and each has a convertible date and a title; else 500 "Error generating sitemap" |
| Sitemap.DocumentLayout | app/sitemap.xml/route.ts:8-34 | the document opens with the declaration, the urlset with both namespaces and the four pages, and ends with `</urlset>` |
| Sitemap.PostInPlace | app/sitemap.xml/route.ts:17-32 | one element per post, in input order |
| Sitemap.PostEntryFields | app/sitemap.xml/route.ts:19-29 | a post's element: article link, priority 0.7, lastmod equal to the publication date, and a well-escaped title that reads back as the post's |
| Sitemap.SameLocSameSlug | app/sitemap.xml/route.ts:19 | two entries share a location only when their posts share a slug |
| Feed.FeedUrl | app/feed.xml/route.ts:15 | base followed by "/feed.xml", the atom:link href |
| Feed.Listed | app/feed.xml/route.ts:17 | `slice(0, 20)`: the first min(20, n) posts |
| Feed.ItemOf | app/feed.xml/route.ts:18-23 | link and guid are both the article link; the date is the UTC string; the title is escaped |
| Feed.Get | app/feed.xml/route.ts:3-34 | 200 application/rss+xml with the document when the posts came and each listed one has a title; else 500 "Error generating feed" |
| Feed.DocumentLayout | app/feed.xml/route.ts:8-26 | the document opens with the channel header and ends with `</channel>`, `</rss>` |
| Feed.LaterPostsIgnored | app/feed.xml/route.ts:17 | posts after the twentieth change neither the document nor whether it is made |
| Feed.ItemInPlace | app/feed.xml/route.ts:17-24 | item i is post i's, between the items before and after it |
| Feed.ItemFields | app/feed.xml/route.ts:19-21 | a titled post's item: link and guid both the article link, a well-escaped title without `<` or `>` that reads back as the post's |
| Feed.SameLinkSameSlug | app/feed.xml/route.ts:20 | two items share a link only when their posts share a slug |

## Left out

- Network and runtime plumbing: `fetch`, `NextResponse`/`Response`, `cache`/`revalidate`, `console.error`. Replies are inputs; requests and answers are datatypes, not JSON text.
- The GraphQL query documents (their text, `POST_FIELDS`, `first: 100`, `first: 10` and the server-side `dateQuery`). The query is named by a constructor, and the server's answer is a parameter.
- getPostBySlug, getPostsByCategory, searchContent and getAllPostsForSitemap: fetch wrappers with no decision of their own. The sitemap and feed take what getAllPostsForSitemap yields, or its error, as an input.
- Clocks and date conversion are parameters:
  - `Date.now()` is `nowMs`;
  - `new Date(post.date)` is an instant in milliseconds, None when invalid;
  - `toISOString` is `iso`, None where it throws;
  - `toUTCString` is `utc`;
  - `toLocaleDateString` is `localeDate`.
- Text.Take: counts Unicode scalar values, where JavaScript's `substring` counts UTF-16 code units; they differ only for characters outside the Basic Multilingual Plane.
- OneSignal.PushRequestFor: the JSON body encoding and the Content-Type header are not modelled; the request carries the payload itself.
- Promise.all: the two fetches of the polling handler are modelled as made in order. Their replies do not depend on each other.
- The webhook's GET answers a fixed usage message; it has no logic to prove.
- WordPress.GetPosts: the default `count = 6` (lib/wordpress.ts:115) is not modelled; every caller passes the count explicitly.
- MasonryGrid.Distribute: the default `columns = 3` (components/MasonryGrid.tsx:7) is not modelled; every use passes `columns` explicitly. It requires `columns >= 1`; with 0 columns and a child the component throws, since `cols[NaN]` is undefined. Non-integer columns and the JSX markup are not modelled.
- Sitemap.PostEntry: a null slug, which JavaScript writes as "null", is modelled as a string slug.
- Presentational components, PullToRefresh, OneSignalInit, push-to-github.mjs, next.config.js and robots.txt are not part of this model.
