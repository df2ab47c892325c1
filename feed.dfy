/** The route app/feed.xml/route.ts: an RSS 2.0 channel with the Atom namespace,
    holding one `<item>` for each of the first twenty posts. */
module Feed {
  import opened Wrappers
  import opened Text
  import opened Xml

  /** One `<item>` element. */
  datatype RssItem = RssItem(title: string, link: string, guid: string, pubDate: string)

  const RssOpen: string := "<rss version=\"2.0\" xmlns:atom=\"http://www.w3.org/2005/Atom\">\n"
  const ChannelOpen: string := "<channel>\n"
  const ChannelTitle: string := "  <title>Heavy Status</title>\n"
  const Description: string := "  <description>Breaking news, community stories, and live coverage</description>\n"
  const Language: string := "  <language>en-us</language>\n"

  const Footer: string := "</channel>\n</rss>"
  const ErrorText: string := "Error generating feed"
  const RssType: string := "application/rss+xml"

  /** `posts.slice(0, 20)`. */
  const MaxItems: nat := 20

  function ChannelLink(base: string): string
  {
    "  <link>" + base + "</link>\n"
  }

  /** The channel's link to itself: the feed's own URL, as RSS. */
  function SelfLink(base: string): string
  {
    "  <atom:link href=\"" + FeedUrl(base) + "\" rel=\"self\" type=\"" + RssType + "\" />\n"
  }

  /** Where the feed itself lives. */
  function FeedUrl(base: string): (url: string)
    ensures StartsWith(url, base) && url[|base|..] == "/feed.xml"
  {
    base + "/feed.xml"
  }

  /** The declaration, the `<rss>` and `<channel>` start tags and the channel's fixed
      elements, in the order the route appends them. */
  function Header(base: string): string
  {
    Declaration + RssOpen + ChannelOpen + ChannelTitle + ChannelLink(base) + Description + Language + SelfLink(base)
  }

  /** The lines of one `<item>`, as the route appends them. */
  function ItemLines(item: RssItem): seq<string>
  {
    [ "  <item>\n",
      "    <title>" + item.title + "</title>\n",
      "    <link>" + item.link + "</link>\n",
      "    <guid isPermaLink=\"true\">" + item.guid + "</guid>\n",
      "    <pubDate>" + item.pubDate + "</pubDate>\n",
      "  </item>\n" ]
  }

  function RenderItem(item: RssItem): string
  {
    Join(ItemLines(item))
  }

  /** The posts the feed lists: the first twenty, in the order WordPress sent them. */
  function Listed(posts: seq<SitemapPost>): (listed: seq<SitemapPost>)
    ensures |listed| <= MaxItems
    ensures |listed| == if |posts| < MaxItems then |posts| else MaxItems
    ensures listed == posts[..|listed|]
  {
    if |posts| < MaxItems then posts else posts[..MaxItems]
  }

  /** A post can be written: its title is not null (`.replace` on null throws). The
      date never stops the route: `toUTCString` of an invalid date is "Invalid Date". */
  predicate Titled(p: SitemapPost)
  {
    p.title.Some?
  }

  function TitledPost(): SitemapPost -> bool
  {
    p => Titled(p)
  }

  /** The item for one post; `utc` is `new Date(date).toUTCString()`. An untitled post
      is never rendered, so its title here is only a placeholder. */
  function ItemOf(base: string, utc: string -> string, p: SitemapPost): (item: RssItem)
    ensures item.link == ArticleLink(base, p.slug) && item.guid == item.link
    ensures item.pubDate == utc(p.date)
    ensures Titled(p) ==> item.title == EscapeTitle(p.title.value)
  {
    var link := ArticleLink(base, p.slug);
    RssItem(if Titled(p) then EscapeTitle(p.title.value) else "", link, link, utc(p.date))
  }

  function ItemFor(base: string, utc: string -> string): SitemapPost -> RssItem
  {
    p => ItemOf(base, utc, p)
  }

  /** The listed posts' items, in order. */
  function ItemBlock(base: string, utc: string -> string, posts: seq<SitemapPost>): string
  {
    RenderAll(RenderItem, ItemFor(base, utc), Listed(posts))
  }

  /** The whole document: the channel header, the items, the end tags. */
  function Document(base: string, utc: string -> string, posts: seq<SitemapPost>): string
  {
    Header(base) + ItemBlock(base, utc, posts) + Footer
  }

  /** The handler succeeds exactly when the posts were fetched and each listed one
      has a title: a post past the twentieth cannot make it fail. */
  predicate Generated(posts: Result<seq<SitemapPost>, string>)
  {
    posts.Success? && forall i :: 0 <= i < |Listed(posts.value)| ==> Titled(Listed(posts.value)[i])
  }

  /** GET: `posts` is what `getAllPostsForSitemap` yields or the message it throws;
      `siteUrl` is SITE_URL ("" when unset) and `origin` the request URL's origin. */
  method Get(siteUrl: string, origin: string, posts: Result<seq<SitemapPost>, string>, utc: string -> string)
    returns (response: TextResponse)
    ensures Generated(posts) ==>
              response == TextResponse(200, RssType, Document(BaseUrl(siteUrl, origin), utc, posts.value))
    ensures !Generated(posts) ==> response == TextResponse(500, PlainText, ErrorText)
  {
    if posts.Failure? {
      return TextResponse(500, PlainText, ErrorText);
    }
    var base := BaseUrl(siteUrl, origin);
    var xml := Declaration;
    xml := xml + RssOpen;
    xml := xml + ChannelOpen;
    xml := xml + ChannelTitle;
    xml := xml + ChannelLink(base);
    xml := xml + Description;
    xml := xml + Language;
    xml := xml + SelfLink(base);
    var listed := Listed(posts.value);
    var ok;
    ok, xml := AppendAll(xml, listed, TitledPost(), ItemFor(base, utc), RenderItem);
    AllWritableEach(TitledPost(), listed);
    if !ok {
      return TextResponse(500, PlainText, ErrorText);
    }
    xml := xml + "</channel>\n</rss>";
    return TextResponse(200, "application/rss+xml", xml);
  }

  // ---------------------------------------------------------------------------
  // What the feed promises

  /** The document opens with the channel header and closes the channel and the feed. */
  lemma DocumentLayout(base: string, utc: string -> string, posts: seq<SitemapPost>)
    ensures StartsWith(Document(base, utc, posts), Header(base))
    ensures var doc := Document(base, utc, posts);
            |doc| >= |Footer| && doc[|doc| - |Footer|..] == Footer
  {
    Framed(Header(base), ItemBlock(base, utc, posts), Footer);
  }

  /** Posts after the twentieth change neither the document nor whether it is made. */
  lemma LaterPostsIgnored(base: string, utc: string -> string, posts: seq<SitemapPost>, more: seq<SitemapPost>)
    requires |posts| >= MaxItems
    ensures Listed(posts + more) == Listed(posts)
    ensures Document(base, utc, posts + more) == Document(base, utc, posts)
    ensures Generated(Success(posts + more)) <==> Generated(Success(posts))
  {
    assert (posts + more)[..MaxItems] == posts[..MaxItems];
  }

  /** Item i of the feed is post i's, after the items of the posts before it and
      before those of the listed posts after it. */
  lemma ItemInPlace(base: string, utc: string -> string, posts: seq<SitemapPost>, i: nat)
    requires i < |Listed(posts)|
    ensures ItemBlock(base, utc, posts)
            == RenderAll(RenderItem, ItemFor(base, utc), posts[..i]) + RenderItem(ItemOf(base, utc, posts[i]))
               + RenderAll(RenderItem, ItemFor(base, utc), Listed(posts)[i + 1..])
  {
    var listed := Listed(posts);
    RenderAllSplit(RenderItem, ItemFor(base, utc), listed, i);
    assert listed[..i] == posts[..i];
  }

  /** A titled post's item: link and guid are both its article link, and its title is
      written so that a reader gets back exactly the post's title. */
  lemma ItemFields(base: string, utc: string -> string, p: SitemapPost)
    requires Titled(p)
    ensures var item := ItemOf(base, utc, p);
            && item.link == ArticleLink(base, p.slug) && item.guid == item.link
            && WellEscaped(item.title) && '<' !in item.title && '>' !in item.title
            && Unescape(item.title) == p.title.value
  {
    EscapedTitleIsWellEscaped(p.title.value);
    EscapeTitleRoundTrip(p.title.value);
  }

  /** Two items share a link only when their posts share a slug. */
  lemma SameLinkSameSlug(base: string, utc: string -> string, p: SitemapPost, q: SitemapPost)
    ensures ItemOf(base, utc, p).link == ItemOf(base, utc, q).link ==> p.slug == q.slug
  {
    if ItemOf(base, utc, p).link == ItemOf(base, utc, q).link {
      ArticleLinkInjective(base, p.slug, q.slug);
    }
  }
}
