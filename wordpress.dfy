/** The content adapter of lib/wordpress.ts: classification of GraphQL replies,
    normalisation of post nodes, the page-type to category mapping, the category
    filter, and the text helpers the cards use (stripHtml, formatDate, readingTime,
    getImageUrl). The GraphQL endpoint is a function parameter; nothing is fetched. */
module WordPress {
  import opened Wrappers
  import opened Text

  // ---------------------------------------------------------------------------
  // GraphQL transport

  datatype GqlValue = IntValue(i: int) | StrValue(s: string)

  /** The query documents the adapter sends (their text is not modelled). */
  datatype QueryName = PostsQuery | CategoryPostsQuery | CategoriesQuery

  /** `{query, variables}`; `variables` is None when the caller passes none
      (JSON.stringify then omits the field). */
  datatype GqlRequest = GqlRequest(query: QueryName, variables: Option<map<string, GqlValue>>)

  /** An entry of the `errors` array; its message is "" when absent. */
  datatype GqlError = GqlError(message: string)

  /** The parsed reply body `{data, errors?}`; `data` may be null. */
  datatype GqlBody<D> = GqlBody(data: Option<D>, errors: Option<seq<GqlError>>)

  /** What `fetch` yields: it throws (network error), or gives a status, a status
      text and a body that parses as JSON or makes `response.json()` throw. */
  datatype GqlResponse<D> =
    | Threw(reason: string)
    | Http(ok: bool, statusText: string, body: Result<GqlBody<D>, string>)

  datatype Failure =
    | TransportFailed(reason: string)
    | RequestFailed(statusText: string)
    | InvalidJson(reason: string)
    | QueryFailed(message: string)
    | MissingField   // a TypeError from reading a field of null, such as `data.posts.nodes`

  /** The message of the Error the adapter throws. */
  function ErrorMessage(f: Failure): (m: string)
    ensures f.RequestFailed? ==> m == "GraphQL request failed: " + f.statusText
    ensures f.QueryFailed? ==> m == f.message
  {
    match f
    case TransportFailed(r) => r
    case RequestFailed(t) => "GraphQL request failed: " + t
    case InvalidJson(r) => r
    case QueryFailed(m) => m
    case MissingField => "Cannot read properties of null"
  }

  /** `json.errors[0]?.message || 'GraphQL error'`. */
  function FirstErrorMessage(errors: seq<GqlError>): (m: string)
    ensures m != ""
    ensures |errors| > 0 && errors[0].message != "" ==> m == errors[0].message
    ensures |errors| == 0 ==> m == "GraphQL error"
  {
    if |errors| > 0 then Or(errors[0].message, "GraphQL error") else "GraphQL error"
  }

  /** graphqlRequest's decision on a reply: a non-ok status fails with its status
      text; a present `errors` field fails, even when it is an empty array (which
      JavaScript treats as truthy); otherwise `data` (possibly null) is returned. */
  function GraphqlRequest<D>(resp: GqlResponse<D>): (r: Result<Option<D>, Failure>)
    ensures resp.Http? && !resp.ok <==> r.Failure? && r.error.RequestFailed?
    ensures resp.Http? && !resp.ok ==> r == Failure(RequestFailed(resp.statusText))
    ensures resp.Http? && resp.ok && resp.body.Success? && resp.body.value.errors.Some? ==>
              r == Failure(QueryFailed(FirstErrorMessage(resp.body.value.errors.value)))
    ensures r.Success? <==>
              resp.Http? && resp.ok && resp.body.Success? && resp.body.value.errors.None?
    ensures r.Success? ==> r.value == resp.body.value.data
  {
    match resp
    case Threw(reason) => Failure(TransportFailed(reason))
    case Http(ok, statusText, body) =>
      if !ok then Failure(RequestFailed(statusText))
      else match body
        case Failure(reason) => Failure(InvalidJson(reason))
        case Success(json) =>
          if json.errors.Some? then Failure(QueryFailed(FirstErrorMessage(json.errors.value)))
          else Success(json.data)
  }

  /** An empty `errors` array still fails, with the generic message. */
  lemma EmptyErrorsStillFail<D>(statusText: string, data: Option<D>)
    ensures GraphqlRequest(Http(true, statusText, Success(GqlBody(data, Some([]))))) ==
            Failure(QueryFailed("GraphQL error"))
  {
  }

  // ---------------------------------------------------------------------------
  // Post normalisation (transformPost)

  datatype Term = Term(name: string, slug: string)
  datatype RawImage = RawImage(sourceUrl: string, altText: string)
  datatype RawImageEdge = RawImageEdge(node: Option<RawImage>)
  datatype RawTerms = RawTerms(nodes: Option<seq<Term>>)
  datatype RawAvatar = RawAvatar(url: string)
  datatype RawAuthor = RawAuthor(name: string, avatar: Option<RawAvatar>)
  datatype RawAuthorEdge = RawAuthorEdge(node: Option<RawAuthor>)

  /** A post node as the endpoint returns it. Text fields are "" when absent or null;
      nested objects are None when absent or null. */
  datatype RawPost = RawPost(
    databaseId: Option<int>, id: string, title: string, slug: string, date: string,
    excerpt: string, content: string, featuredImage: Option<RawImageEdge>,
    categories: Option<RawTerms>, tags: Option<RawTerms>, author: Option<RawAuthorEdge>)

  datatype Image = Image(sourceUrl: string, altText: string)
  datatype Author = Author(name: string, avatar: string)

  /** WPPost: every field populated; featuredImage and author may be missing. */
  datatype Post = Post(
    id: string, title: string, slug: string, date: string, excerpt: string, content: string,
    featuredImage: Option<Image>, categories: seq<Term>, tags: seq<Term>, author: Option<Author>)

  function Terms(t: Option<RawTerms>): (r: seq<Term>)
    ensures t.Some? && t.value.nodes.Some? ==> r == t.value.nodes.value
    ensures t.None? || t.value.nodes.None? ==> r == []
  {
    if t.Some? && t.value.nodes.Some? then t.value.nodes.value else []
  }

  /** transformPost: absent fields become "" or [], the image and author objects
      exist exactly when their `node` does. */
  function TransformPost(node: RawPost): (p: Post)
    ensures node.databaseId.Some? ==> p.id == IntToString(node.databaseId.value) && p.id != ""
    ensures node.databaseId.None? ==> p.id == node.id
    ensures p.title == node.title && p.slug == node.slug && p.date == node.date
    ensures p.excerpt == node.excerpt && p.content == node.content
    ensures p.featuredImage.Some? <==> node.featuredImage.Some? && node.featuredImage.value.node.Some?
    ensures p.featuredImage.Some? ==>
              p.featuredImage.value.sourceUrl == node.featuredImage.value.node.value.sourceUrl
    ensures p.author.Some? <==> node.author.Some? && node.author.value.node.Some?
    ensures p.featuredImage.Some? ==>
              p.featuredImage.value.altText == node.featuredImage.value.node.value.altText
    ensures p.author.Some? ==> p.author.value.name == node.author.value.node.value.name
    ensures p.author.Some? && node.author.value.node.value.avatar.Some? ==>
              p.author.value.avatar == node.author.value.node.value.avatar.value.url
    ensures p.author.Some? && node.author.value.node.value.avatar.None? ==> p.author.value.avatar == ""
    ensures p.categories == Terms(node.categories) && p.tags == Terms(node.tags)
    ensures node.categories.None? ==> p.categories == []
    ensures node.tags.None? ==> p.tags == []
  {
    Post(
      id := if node.databaseId.Some? then IntToString(node.databaseId.value) else Or(node.id, ""),
      title := Or(node.title, ""),
      slug := Or(node.slug, ""),
      date := Or(node.date, ""),
      excerpt := Or(node.excerpt, ""),
      content := Or(node.content, ""),
      featuredImage :=
        if node.featuredImage.Some? && node.featuredImage.value.node.Some? then
          var img := node.featuredImage.value.node.value;
          Some(Image(Or(img.sourceUrl, ""), Or(img.altText, "")))
        else None,
      categories := Terms(node.categories),
      tags := Terms(node.tags),
      author :=
        if node.author.Some? && node.author.value.node.Some? then
          var a := node.author.value.node.value;
          Some(Author(Or(a.name, ""), if a.avatar.Some? then Or(a.avatar.value.url, "") else ""))
        else None)
  }

  /** A normalised post written back as a node (no databaseId, every field present). */
  function AsNode(p: Post): RawPost
  {
    RawPost(
      None, p.id, p.title, p.slug, p.date, p.excerpt, p.content,
      Some(RawImageEdge(if p.featuredImage.Some? then
        Some(RawImage(p.featuredImage.value.sourceUrl, p.featuredImage.value.altText)) else None)),
      Some(RawTerms(Some(p.categories))), Some(RawTerms(Some(p.tags))),
      Some(RawAuthorEdge(if p.author.Some? then
        Some(RawAuthor(p.author.value.name, Some(RawAvatar(p.author.value.avatar)))) else None)))
  }

  /** Normalisation is a no-op on already normalised data. */
  lemma TransformPostFixesNormalised(p: Post)
    ensures TransformPost(AsNode(p)) == p
  {
  }

  function TransformAll(nodes: seq<RawPost>): (ps: seq<Post>)
    ensures |ps| == |nodes|
    ensures forall i :: 0 <= i < |nodes| ==> ps[i] == TransformPost(nodes[i])
  {
    if nodes == [] then [] else [TransformPost(nodes[0])] + TransformAll(nodes[1..])
  }

  // ---------------------------------------------------------------------------
  // getPosts: page type to category, request, reply

  /** `data` of the two posts queries: `posts.nodes`, None when `posts` or `nodes` is null. */
  datatype PostsData = PostsData(nodes: Option<seq<RawPost>>)

  /** The category slug the switch in getPosts assigns. */
  function CategoryFor(kind: string): (slug: Option<string>)
    ensures slug.Some? <==> kind == "featured" || kind == "highlights" || kind == "live"
  {
    if kind == "featured" then Some("breaking-news")
    else if kind == "highlights" then Some("highlights")
    else if kind == "live" then Some("community-news")
    else None
  }

  /** `data.posts.nodes.map(transformPost)`, failing where the source reads a field of null. */
  function PostsFrom(resp: GqlResponse<PostsData>): (r: Result<seq<Post>, Failure>)
    ensures GraphqlRequest(resp).Failure? ==> r == Failure(GraphqlRequest(resp).error)
    ensures r.Success? <==> GraphqlRequest(resp).Success? && GraphqlRequest(resp).value.Some?
                            && GraphqlRequest(resp).value.value.nodes.Some?
    ensures r.Success? ==> r.value == TransformAll(resp.body.value.data.value.nodes.value)
  {
    match GraphqlRequest(resp)
    case Failure(f) => Failure(f)
    case Success(data) =>
      if data.Some? && data.value.nodes.Some? then Success(TransformAll(data.value.nodes.value))
      else Failure(MissingField)
  }

  /** getPosts(type, count): the switch picks a category slug, which selects the
      query and adds the `category` variable; then the reply is normalised. */
  method GetPosts(kind: string, count: int, fetch: GqlRequest -> GqlResponse<PostsData>)
    returns (request: GqlRequest, posts: Result<seq<Post>, Failure>)
    ensures request.variables.Some?
    ensures request.variables.value.Keys <= {"count", "category"}
    ensures "count" in request.variables.value && request.variables.value["count"] == IntValue(count)
    ensures "category" in request.variables.value <==> CategoryFor(kind).Some?
    ensures kind == "featured" ==> request == GqlRequest(CategoryPostsQuery,
              Some(map["count" := IntValue(count), "category" := StrValue("breaking-news")]))
    ensures kind == "highlights" ==> request == GqlRequest(CategoryPostsQuery,
              Some(map["count" := IntValue(count), "category" := StrValue("highlights")]))
    ensures kind == "live" ==> request == GqlRequest(CategoryPostsQuery,
              Some(map["count" := IntValue(count), "category" := StrValue("community-news")]))
    ensures CategoryFor(kind).None? ==> request == GqlRequest(PostsQuery, Some(map["count" := IntValue(count)]))
    ensures posts == PostsFrom(fetch(request))
  {
    var categorySlug: Option<string> := None;
    if kind == "featured" {
      categorySlug := Some("breaking-news");
    } else if kind == "highlights" {
      categorySlug := Some("highlights");
    } else if kind == "live" {
      categorySlug := Some("community-news");
    }

    var query: QueryName;
    var variables: map<string, GqlValue> := map["count" := IntValue(count)];
    if categorySlug.Some? && categorySlug.value != "" {
      query := CategoryPostsQuery;
      variables := variables["category" := StrValue(categorySlug.value)];
    } else {
      query := PostsQuery;
    }

    request := GqlRequest(query, Some(variables));
    posts := PostsFrom(fetch(request));
  }

  // ---------------------------------------------------------------------------
  // getCategories

  /** A category node; `count` is null for a category without posts. */
  datatype Category = Category(name: string, slug: string, count: Option<int>)

  datatype CategoriesData = CategoriesData(nodes: Option<seq<Category>>)

  const CategoriesRequest: GqlRequest := GqlRequest(CategoriesQuery, None)

  predicate HasPosts(c: Category)
  {
    c.count.Some? && c.count.value > 0
  }

  /** `nodes.filter(c => c.count > 0)` (a null count compares false). */
  function NonEmptyCategories(cs: seq<Category>): (r: seq<Category>)
    ensures forall c :: c in r <==> c in cs && HasPosts(c)
    ensures IsSubsequence(r, cs)
    ensures (forall i :: 0 <= i < |cs| ==> HasPosts(cs[i])) ==> r == cs
    decreases |cs|
  {
    if cs == [] then []
    else if HasPosts(cs[0]) then [cs[0]] + NonEmptyCategories(cs[1..])
    else NonEmptyCategories(cs[1..])
  }

  /** The filter keeps every copy of a category with posts and no copy of one without. */
  lemma {:induction false} NonEmptyCategoriesCounts(cs: seq<Category>)
    ensures forall c :: multiset(NonEmptyCategories(cs))[c] ==
              if HasPosts(c) then multiset(cs)[c] else 0
  {
    if cs != [] {
      assert cs == [cs[0]] + cs[1..];
      NonEmptyCategoriesCounts(cs[1..]);
    }
  }

  /** getCategories on the endpoint's reply to CategoriesRequest. */
  function GetCategories(resp: GqlResponse<CategoriesData>): (r: Result<seq<Category>, Failure>)
    ensures GraphqlRequest(resp).Failure? ==> r == Failure(GraphqlRequest(resp).error)
    ensures r.Success? <==> GraphqlRequest(resp).Success? && GraphqlRequest(resp).value.Some?
                            && GraphqlRequest(resp).value.value.nodes.Some?
    ensures r.Success? ==> exists nodes :: resp.body.value.data == Some(CategoriesData(Some(nodes)))
                                          && r.value == NonEmptyCategories(nodes)
    ensures r.Success? ==> r.value == NonEmptyCategories(resp.body.value.data.value.nodes.value)
  {
    match GraphqlRequest(resp)
    case Failure(f) => Failure(f)
    case Success(data) =>
      if data.Some? && data.value.nodes.Some? then Success(NonEmptyCategories(data.value.nodes.value))
      else Failure(MissingField)
  }

  // ---------------------------------------------------------------------------
  // stripHtml

  /** The seven entity replacements, in the source's order: &hellip; &amp; &lt; &gt;
      &#8217; &#8220; &#8221;. */
  function DecodeEntities(s: string): string
  {
    var s1 := ReplaceAll(s, "&hellip;", "...");
    var s2 := ReplaceAll(s1, "&amp;", "&");
    var s3 := ReplaceAll(s2, "&lt;", "<");
    var s4 := ReplaceAll(s3, "&gt;", ">");
    var s5 := ReplaceAll(s4, "&#8217;", "'");
    var s6 := ReplaceAll(s5, "&#8220;", "\"");
    ReplaceAll(s6, "&#8221;", "\"")
  }

  /** stripHtml: delete tags, then decode entities, then trim. */
  function StripHtml(html: string): (r: string)
    ensures IsTrimmed(r)
  {
    Trim(DecodeEntities(RemoveTags(html)))
  }

  lemma {:induction false} AbsentFirstChar(s: string, pat: string)
    requires pat != [] && pat[0] !in s
    ensures !Contains(s, pat)
    decreases |s|
  {
    if s != [] {
      AbsentFirstChar(s[1..], pat);
    }
  }

  /** Text without markup or entities, already trimmed, is returned as it is. */
  lemma StripHtmlPlainText(s: string)
    requires '<' !in s && '&' !in s && IsTrimmed(s)
    ensures StripHtml(s) == s
  {
    RemoveTagsNoAngle(s);
    DecodeWithoutAmpersand(s);
    TrimStartOfTrimmed(s);
    TrimEndOfTrimmed(s);
  }

  /** Replacing in a string that has none of the pattern's first character. */
  lemma ReplaceAbsentChar(s: string, pat: string, rep: string)
    requires pat != [] && pat[0] !in s
    ensures ReplaceAll(s, pat, rep) == s
  {
    AbsentFirstChar(s, pat);
    ReplaceAllAbsent(s, pat, rep);
  }

  /** Decoding the entities of a string free of `&` changes nothing. */
  lemma DecodeWithoutAmpersand(s: string)
    requires '&' !in s
    ensures DecodeEntities(s) == s
  {
    ReplaceAbsentChar(s, "&hellip;", "...");
    ReplaceAbsentChar(s, "&amp;", "&");
    ReplaceAbsentChar(s, "&lt;", "<");
    ReplaceAbsentChar(s, "&gt;", ">");
    ReplaceAbsentChar(s, "&#8217;", "'");
    ReplaceAbsentChar(s, "&#8220;", "\"");
    ReplaceAbsentChar(s, "&#8221;", "\"");
  }

  /** `&amp;` is decoded before `&lt;`, so "&amp;lt;" decodes twice, to "<". */
  lemma DecodeAmpLt(s: string)
    requires s == "&amp;lt;"
    ensures DecodeEntities(s) == "<"
  {
    assert ReplaceAll(s, "&hellip;", "...") == s by {
      DiffersAt(s, "&hellip;", 1);
      AbsentFirstChar(s[1..], "&hellip;");
      ReplaceAllAbsent(s, "&hellip;", "...");
    }
    assert ReplaceAll(s, "&amp;", "&") == "&lt;" by {
      assert StartsWith(s, "&amp;") && s[5..] == "lt;";
      ReplaceAbsentChar("lt;", "&amp;", "&");
    }
    var lt := "&lt;";
    assert ReplaceAll(lt, "&lt;", "<") == "<" by {
      assert StartsWith(lt, "&lt;") && lt[4..] == [];
    }
    var r := "<";
    ReplaceAbsentChar(r, "&gt;", ">");
    ReplaceAbsentChar(r, "&#8217;", "'");
    ReplaceAbsentChar(r, "&#8220;", "\"");
    ReplaceAbsentChar(r, "&#8221;", "\"");
  }

  /** Decoding runs after tag removal and `&amp;` before `&lt;`: the double-escaped
      "&amp;lt;" comes out as "<". */
  lemma StripHtmlDecodeOrder(s: string)
    requires s == "&amp;lt;"
    ensures StripHtml(s) == "<"
  {
    RemoveTagsNoAngle(s);
    DecodeAmpLt(s);
    var r := "<";
    TrimStartOfTrimmed(r);
    TrimEndOfTrimmed(r);
  }

  // ---------------------------------------------------------------------------
  // formatDate

  const MinuteMs: int := 60000
  const HourMs: int := 3600000
  const DayMs: int := 86400000

  /** The bucket formatDate picks for an age of `diffMs` milliseconds. */
  datatype Age = JustNow | MinutesAgo(n: nat) | HoursAgo(n: nat) | DaysAgo(n: nat) | Older

  /** Floor division of the difference into minutes, hours and days (Dafny's `/` with a
      positive divisor is floor division, as Math.floor of the quotient is). */
  function AgeOf(diffMs: int): (a: Age)
    ensures a == JustNow <==> diffMs < MinuteMs
    ensures a.MinutesAgo? <==> MinuteMs <= diffMs < HourMs
    ensures a.HoursAgo? <==> HourMs <= diffMs < DayMs
    ensures a.DaysAgo? <==> DayMs <= diffMs < 7 * DayMs
    ensures a == Older <==> 7 * DayMs <= diffMs
    ensures a.MinutesAgo? ==> a.n * MinuteMs <= diffMs < (a.n + 1) * MinuteMs
    ensures a.HoursAgo? ==> a.n * HourMs <= diffMs < (a.n + 1) * HourMs
    ensures a.DaysAgo? ==> a.n * DayMs <= diffMs < (a.n + 1) * DayMs
  {
    var mins := diffMs / MinuteMs;
    var hours := diffMs / HourMs;
    var days := diffMs / DayMs;
    if mins < 1 then JustNow
    else if mins < 60 then MinutesAgo(mins)
    else if hours < 24 then HoursAgo(hours)
    else if days < 7 then DaysAgo(days)
    else Older
  }

  /** formatDate for a date that parsed to `date` (None: an invalid date string, on which
      every comparison with NaN is false) read at time `now`; `localeDate` stands for
      toLocaleDateString('en-US', ...). */
  function FormatDate(date: Option<int>, now: int, localeDate: int -> string): (r: string)
    ensures date.Some? && date.value + MinuteMs > now ==> r == "Just now"
    ensures date.Some? && AgeOf(now - date.value).MinutesAgo? ==>
              r == NatToString(AgeOf(now - date.value).n) + "m ago" && 1 <= AgeOf(now - date.value).n < 60
    ensures date.Some? && AgeOf(now - date.value).HoursAgo? ==>
              r == NatToString(AgeOf(now - date.value).n) + "h ago" && 1 <= AgeOf(now - date.value).n < 24
    ensures date.Some? && AgeOf(now - date.value).DaysAgo? ==>
              r == NatToString(AgeOf(now - date.value).n) + "d ago" && 1 <= AgeOf(now - date.value).n < 7
    ensures date.Some? && AgeOf(now - date.value).Older? ==> r == localeDate(date.value)
    ensures date.None? ==> r == "Invalid Date"
  {
    if date.None? then "Invalid Date"
    else match AgeOf(now - date.value)
      case JustNow => "Just now"
      case MinutesAgo(n) => NatToString(n) + "m ago"
      case HoursAgo(n) => NatToString(n) + "h ago"
      case DaysAgo(n) => NatToString(n) + "d ago"
      case Older => localeDate(date.value)
  }

  // ---------------------------------------------------------------------------
  // readingTime

  /** `stripHtml(content).split(/\s+/).length`. */
  function WordCount(content: string): nat
  {
    |SplitWhitespace(StripHtml(content))|
  }

  function Max(a: int, b: int): int
  {
    if a < b then b else a
  }

  /** `Math.max(1, Math.ceil(words / 200))` for a positive word count. */
  function MinutesFor(words: nat): (m: nat)
    requires words >= 1
    ensures m >= 1
    ensures (m - 1) * 200 < words <= m * 200
  {
    Max(1, (words + 199) / 200)
  }

  function ReadingMinutes(content: string): (m: nat)
    ensures m >= 1
    ensures (m - 1) * 200 < WordCount(content) <= m * 200
  {
    MinutesFor(WordCount(content))
  }

  /** readingTime: "N min read". */
  function ReadingTime(content: string): string
  {
    NatToString(ReadingMinutes(content)) + " min read"
  }

  /** The count is of the stripped text's words: one more than its whitespace gaps,
      each gap a non-empty whitespace run, the words and gaps together making up the
      whole text; in non-empty text every word is a non-empty run without whitespace,
      and empty text counts as one word. */
  lemma WordsAreWords(content: string)
    ensures var text := StripHtml(content);
            WordCount(content) == |Separators(text)| + 1 == |SplitWhitespace(text)|
    ensures var text := StripHtml(content);
            forall k :: 0 <= k < |Separators(text)| ==>
              Separators(text)[k] != "" && AllWhitespace(Separators(text)[k])
    ensures var text := StripHtml(content);
            |Separators(text)| + 1 == |SplitWhitespace(text)| &&
            Interleave(SplitWhitespace(text), Separators(text)) == text
    ensures StripHtml(content) == "" ==> WordCount(content) == 1
    ensures StripHtml(content) != "" ==>
              forall k :: 0 <= k < |SplitWhitespace(StripHtml(content))| ==>
                SplitWhitespace(StripHtml(content))[k] != "" &&
                NoWhitespace(SplitWhitespace(StripHtml(content))[k])
  {
    SplitRoundTrip(StripHtml(content));
    if StripHtml(content) != "" {
      SplitTrimmedIntoWords(StripHtml(content));
    }
  }

  /** readingTime renders a number of at least one, followed by " min read". */
  lemma ReadingTimeAtLeastOne(content: string)
    ensures var r := ReadingTime(content);
            |r| > 9 && r[|r| - 9..] == " min read" && IsDigits(r[..|r| - 9])
            && ParseDigits(r[..|r| - 9]) == ReadingMinutes(content) >= 1
  {
    var r := ReadingTime(content);
    assert r[..|r| - 9] == NatToString(ReadingMinutes(content));
    NatToStringRoundTrip(ReadingMinutes(content));
  }

  // ---------------------------------------------------------------------------
  // getImageUrl

  const Placeholder: string := "/images/placeholder.svg"

  function GetImageUrl(post: Post): (r: string)
    ensures r != ""
    ensures post.featuredImage.Some? && post.featuredImage.value.sourceUrl != "" ==>
              r == post.featuredImage.value.sourceUrl
    ensures post.featuredImage.None? || post.featuredImage.value.sourceUrl == "" ==> r == Placeholder
  {
    if post.featuredImage.Some? then Or(post.featuredImage.value.sourceUrl, Placeholder) else Placeholder
  }

  /** On a transformed node: the node's image URL if it has a non-empty one, else the placeholder. */
  lemma ImageUrlOfNode(node: RawPost)
    ensures var url := GetImageUrl(TransformPost(node));
            if node.featuredImage.Some? && node.featuredImage.value.node.Some?
               && node.featuredImage.value.node.value.sourceUrl != ""
            then url == node.featuredImage.value.node.value.sourceUrl
            else url == Placeholder
  {
  }
}
