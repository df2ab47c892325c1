/** The route app/sitemap.xml/route.ts: a Sitemaps 0.9 document with the Google News
    extension, four fixed pages first and then one entry per post. */
module Sitemap {
  import opened Wrappers
  import opened Text
  import opened Xml

  /** The Google News part of a post's entry. */
  datatype NewsEntry = NewsEntry(publicationDate: string, title: string)

  /** One `<url>` element. */
  datatype UrlEntry = UrlEntry(
    loc: string, lastmod: Option<string>, changefreq: string, priority: string, news: Option<NewsEntry>)

  /** The `<urlset>` start tag with both namespaces, after the declaration. */
  const UrlsetOpen: string := "<urlset xmlns=\"http://www.sitemaps.org/schemas/sitemap/0.9\"\n"
  const NewsNamespace: string := "        xmlns:news=\"http://www.google.com/schemas/sitemap-news/0.9\">\n"
  const Header: string := Declaration + UrlsetOpen + NewsNamespace

  const Footer: string := "</urlset>"

  const ErrorText: string := "Error generating sitemap"

  function NewsLines(n: NewsEntry): seq<string>
  {
    [ "    <news:news>\n",
      "      <news:publication>\n",
      "        <news:name>Heavy Status</news:name>\n",
      "        <news:language>en</news:language>\n",
      "      </news:publication>\n",
      "      <news:publication_date>" + n.publicationDate + "</news:publication_date>\n",
      "      <news:title>" + n.title + "</news:title>\n",
      "    </news:news>\n" ]
  }

  /** The lines of one `<url>` element, as the route appends them. */
  function Lines(e: UrlEntry): seq<string>
  {
    [ "  <url>\n", "    <loc>" + e.loc + "</loc>\n" ]
    + (if e.lastmod.Some? then ["    <lastmod>" + e.lastmod.value + "</lastmod>\n"] else [])
    + [ "    <changefreq>" + e.changefreq + "</changefreq>\n", "    <priority>" + e.priority + "</priority>\n" ]
    + (if e.news.Some? then NewsLines(e.news.value) else [])
    + [ "  </url>\n" ]
  }

  function Render(e: UrlEntry): string
  {
    Join(Lines(e))
  }

  /** The four fixed pages. */
  function StaticEntries(base: string): (es: seq<UrlEntry>)
    ensures |es| == 4
    ensures es[0].loc == base + "/" && es[0].changefreq == "hourly" && es[0].priority == "1.0"
    ensures es[1].loc == base + "/featured" && es[1].changefreq == "hourly" && es[1].priority == "0.9"
    ensures es[2].loc == base + "/explore" && es[2].changefreq == "daily" && es[2].priority == "0.8"
    ensures es[3].loc == base + "/live" && es[3].changefreq == "always" && es[3].priority == "0.9"
    ensures forall k :: 0 <= k < 4 ==> es[k].lastmod.None? && es[k].news.None?
  {
    [ UrlEntry(base + "/", None, "hourly", "1.0", None),
      UrlEntry(base + "/featured", None, "hourly", "0.9", None),
      UrlEntry(base + "/explore", None, "daily", "0.8", None),
      UrlEntry(base + "/live", None, "always", "0.9", None) ]
  }

  /** The four fixed pages' elements, in order. */
  function StaticBlock(base: string): string
  {
    var es := StaticEntries(base);
    Render(es[0]) + Render(es[1]) + Render(es[2]) + Render(es[3])
  }

  /** A post can be written: its date converts (`toISOString` throws on an invalid
      date) and its title is not null. `iso` is `new Date(date).toISOString()`. */
  predicate Renderable(iso: string -> Option<string>, p: SitemapPost)
  {
    iso(p.date).Some? && p.title.Some?
  }

  /** The entry for one post. Its Google News part exists when the post can be
      written; a post that cannot be written is never rendered. */
  function PostEntry(base: string, iso: string -> Option<string>, p: SitemapPost): (e: UrlEntry)
    ensures e.loc == ArticleLink(base, p.slug)
    ensures e.lastmod == iso(p.date) && e.changefreq == "weekly" && e.priority == "0.7"
    ensures Renderable(iso, p) ==> e.news == Some(NewsEntry(iso(p.date).value, EscapeTitle(p.title.value)))
  {
    var news := if Renderable(iso, p) then Some(NewsEntry(iso(p.date).value, EscapeTitle(p.title.value))) else None;
    UrlEntry(ArticleLink(base, p.slug), iso(p.date), "weekly", "0.7", news)
  }

  function EntryOf(base: string, iso: string -> Option<string>): SitemapPost -> UrlEntry
  {
    p => PostEntry(base, iso, p)
  }

  function RenderableBy(iso: string -> Option<string>): SitemapPost -> bool
  {
    p => Renderable(iso, p)
  }

  /** The posts' elements, in order. */
  function PostBlock(base: string, iso: string -> Option<string>, posts: seq<SitemapPost>): string
  {
    RenderAll(Render, EntryOf(base, iso), posts)
  }

  /** The whole document: the front matter, one element per post in order, the end tag. */
  function Document(base: string, iso: string -> Option<string>, posts: seq<SitemapPost>): string
  {
    Header + StaticBlock(base) + PostBlock(base, iso, posts) + Footer
  }

  /** The handler succeeds exactly when the posts were fetched and each can be written. */
  predicate Generated(iso: string -> Option<string>, posts: Result<seq<SitemapPost>, string>)
  {
    posts.Success? && forall i :: 0 <= i < |posts.value| ==> Renderable(iso, posts.value[i])
  }

  /** GET: `posts` is what `getAllPostsForSitemap` yields or the message it throws;
      `siteUrl` is SITE_URL ("" when unset) and `origin` the request URL's origin. */
  method Get(siteUrl: string, origin: string, posts: Result<seq<SitemapPost>, string>,
             iso: string -> Option<string>)
    returns (response: TextResponse)
    ensures Generated(iso, posts) ==>
              response == TextResponse(200, "application/xml", Document(BaseUrl(siteUrl, origin), iso, posts.value))
    ensures !Generated(iso, posts) ==> response == TextResponse(500, PlainText, ErrorText)
  {
    if posts.Failure? {
      return TextResponse(500, PlainText, ErrorText);
    }
    var base := BaseUrl(siteUrl, origin);
    var xml := Declaration;
    xml := xml + UrlsetOpen;
    xml := xml + NewsNamespace;
    var statics := StaticEntries(base);
    xml := xml + Render(statics[0]);
    xml := xml + Render(statics[1]);
    xml := xml + Render(statics[2]);
    xml := xml + Render(statics[3]);
    AppendFour(Header, Render(statics[0]), Render(statics[1]), Render(statics[2]), Render(statics[3]));
    var ok;
    ok, xml := AppendAll(xml, posts.value, RenderableBy(iso), EntryOf(base, iso), Render);
    AllWritableEach(RenderableBy(iso), posts.value);
    if !ok {
      return TextResponse(500, PlainText, ErrorText);
    }
    xml := xml + "</urlset>";
    return TextResponse(200, "application/xml", xml);
  }

  // ---------------------------------------------------------------------------
  // What the document promises

  /** The document opens with the declaration, the `<urlset>` tag and the four fixed
      pages, and closes the `<urlset>`. */
  lemma DocumentLayout(base: string, iso: string -> Option<string>, posts: seq<SitemapPost>)
    ensures StartsWith(Document(base, iso, posts), Header + StaticBlock(base))
    ensures var doc := Document(base, iso, posts);
            |doc| >= |Footer| && doc[|doc| - |Footer|..] == Footer
  {
    Framed(Header + StaticBlock(base), PostBlock(base, iso, posts), Footer);
  }

  /** Post i's element comes after those of the posts before it and before those of
      the posts after it: the entries keep the order WordPress returned. */
  lemma PostInPlace(base: string, iso: string -> Option<string>, posts: seq<SitemapPost>, i: nat)
    requires i < |posts|
    ensures PostBlock(base, iso, posts)
            == PostBlock(base, iso, posts[..i]) + Render(PostEntry(base, iso, posts[i]))
               + PostBlock(base, iso, posts[i + 1..])
  {
    RenderAllSplit(Render, EntryOf(base, iso), posts, i);
  }

  /** A post's entry: its article link, priority 0.7, the date both as `<lastmod>` and
      as the publication date, and its title written so that a reader gets back
      exactly the post's title. */
  lemma PostEntryFields(base: string, iso: string -> Option<string>, p: SitemapPost)
    requires Renderable(iso, p)
    ensures var e := PostEntry(base, iso, p);
            && e.loc == ArticleLink(base, p.slug)
            && e.priority == "0.7"
            && e.news.Some? && e.lastmod == Some(e.news.value.publicationDate)
            && WellEscaped(e.news.value.title)
            && Unescape(e.news.value.title) == p.title.value
  {
    var t := p.title.value;
    EscapedTitleIsWellEscaped(t);
    EscapeTitleRoundTrip(t);
  }

  /** Two posts share a location only when they share a slug. */
  lemma SameLocSameSlug(base: string, iso: string -> Option<string>, p: SitemapPost, q: SitemapPost)
    ensures PostEntry(base, iso, p).loc == PostEntry(base, iso, q).loc ==> p.slug == q.slug
  {
    if PostEntry(base, iso, p).loc == PostEntry(base, iso, q).loc {
      ArticleLinkInjective(base, p.slug, q.slug);
    }
  }
}
