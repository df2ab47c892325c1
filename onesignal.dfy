/** What the two push handlers (app/api/check-new-posts/route.ts and
    app/api/notify/route.ts) share, code they each repeat word for word: their own
    `stripHtml`, the excerpt-to-message rule, the canonical article URL, the
    payload they build, and the API-version sniff on the key. */
module OneSignal {
  import opened Wrappers
  import opened Text

  const DefaultSiteUrl: string := "https://heavy-status.com"
  const DefaultTitle: string := "New Post on Heavy Status"
  const DefaultMessage: string := "Check out the latest news on Heavy Status!"
  const MessageLimit: nat := 200

  // ---------------------------------------------------------------------------
  // The handlers' stripHtml: `replace(/<[^>]*>/g, "").replace(/&[^;]+;/g, " ").trim()`

  /** A match of `&[^;]+;` starts at i: an `&`, at least one character that is not
      `;`, and a `;` somewhere after it. */
  predicate EntityRunAt(s: string, i: int)
  {
    0 <= i && i + 1 < |s| && s[i] == '&' && s[i + 1] != ';' && ';' in s[i + 2..]
  }

  /** Replaces each `&…;` run, up to the first `;`, by one space. */
  function ReplaceEntityRuns(s: string): (r: string)
    ensures forall c :: c in r ==> c in s || c == ' '
    decreases |s|
  {
    if s == [] then []
    else if EntityRunAt(s, 0) then
      var k := FirstIndex(s[2..], ';') + 2;
      " " + ReplaceEntityRuns(s[k + 1..])
    else [s[0]] + ReplaceEntityRuns(s[1..])
  }

  /** Without a `;` there is nothing to replace. */
  lemma {:induction false} EntityRunsNeedSemicolon(s: string)
    requires ';' !in s
    ensures ReplaceEntityRuns(s) == s
    decreases |s|
  {
    if s != [] {
      assert ';' !in s[1..];
      EntityRunsNeedSemicolon(s[1..]);
    }
  }

  /** Text before the first `&` is kept verbatim. */
  lemma {:induction false} EntityRunsKeepText(p: string, q: string)
    requires '&' !in p
    ensures ReplaceEntityRuns(p + q) == p + ReplaceEntityRuns(q)
    decreases |p|
  {
    if p != [] {
      assert (p + q)[0] == p[0] && p[0] != '&';
      assert (p + q)[1..] == p[1..] + q;
      assert '&' !in p[1..];
      EntityRunsKeepText(p[1..], q);
      calc {
        ReplaceEntityRuns(p + q);
        [p[0]] + ReplaceEntityRuns(p[1..] + q);
        [p[0]] + (p[1..] + ReplaceEntityRuns(q));
        { assert p == [p[0]] + p[1..]; }
        p + ReplaceEntityRuns(q);
      }
    } else {
      assert p + q == q;
    }
  }

  /** A run `&`, one or more characters other than `;`, then `;` becomes exactly one
      space, and the scan goes on right after that `;`. */
  lemma EntityRunBecomesSpace(t: string, q: string)
    requires t != [] && ';' !in t
    ensures ReplaceEntityRuns("&" + t + ";" + q) == " " + ReplaceEntityRuns(q)
  {
    var s := "&" + t + ";" + q;
    assert s[1] == t[0];
    assert s[2..][|t| - 1] == ';';
    assert s[2..][..|t| - 1] == t[1..];
    FirstIndexAt(s[2..], ';', |t| - 1);
    assert s[|t| + 2..] == q;
  }

  /** Text, then a run, then more: the text stays, the run becomes a space, the
      rest is scanned again. */
  lemma EntityRunsOfTextThenRun(p: string, t: string, q: string)
    requires '&' !in p && t != [] && ';' !in t
    ensures ReplaceEntityRuns(p + "&" + t + ";" + q) == p + " " + ReplaceEntityRuns(q)
  {
    assert p + "&" + t + ";" + q == p + ("&" + t + ";" + q);
    EntityRunsKeepText(p, "&" + t + ";" + q);
    EntityRunBecomesSpace(t, q);
  }

  /** No `&…;` run survives the replacement. */
  lemma {:induction false} NoEntityRunSurvives(s: string)
    ensures forall i :: !EntityRunAt(ReplaceEntityRuns(s), i)
    decreases |s|
  {
    if s == [] {
    } else {
      var r := ReplaceEntityRuns(s);
      var t: string;
      if EntityRunAt(s, 0) {
        var k := FirstIndex(s[2..], ';') + 2;
        t := ReplaceEntityRuns(s[k + 1..]);
        NoEntityRunSurvives(s[k + 1..]);
      } else {
        t := ReplaceEntityRuns(s[1..]);
        NoEntityRunSurvives(s[1..]);
        if s[0] == '&' && |s| > 1 {
          if s[1] == ';' {
            assert t[0] == ';';
          } else {
            assert ';' !in s[1..];
            EntityRunsNeedSemicolon(s[1..]);
          }
        }
      }
      assert r == [r[0]] + t;
      assert r[1..] == t;
      forall i | 0 < i && i + 1 < |r|
        ensures !EntityRunAt(r, i)
      {
        assert r[i] == t[i - 1] && r[i + 1] == t[i];
        assert r[i + 2..] == t[i + 1..];
        assert !EntityRunAt(t, i - 1);
      }
    }
  }

  /** The handlers' stripHtml. */
  function RouteStripHtml(html: string): (r: string)
    ensures IsTrimmed(r)
  {
    Trim(ReplaceEntityRuns(RemoveTags(html)))
  }

  /** The result keeps characters of the input and adds only spaces; in particular it
      never introduces a `<` or a `>`. */
  lemma RouteStripHtmlCharacters(html: string)
    ensures forall c :: c in RouteStripHtml(html) ==> c in html || c == ' '
    ensures '<' in RouteStripHtml(html) ==> '<' in html
    ensures '>' in RouteStripHtml(html) ==> '>' in html
  {
    var a := RemoveTags(html);
    var b := ReplaceEntityRuns(a);
    TrimKeepsCharacters(b);
  }

  /** After tag removal and run replacement no `&…;` run is left, so entities never
      reach the notification as text. */
  lemma RouteStripHtmlNoEntityRun(html: string)
    ensures forall i :: !EntityRunAt(ReplaceEntityRuns(RemoveTags(html)), i)
  {
    NoEntityRunSurvives(RemoveTags(html));
  }

  /** Text with no `<`, no `;` and no whitespace at its ends passes through unchanged. */
  lemma RouteStripHtmlOfPlain(s: string)
    requires '<' !in s && ';' !in s
    requires s == [] || (!IsWhitespace(s[0]) && !IsWhitespace(s[|s| - 1]))
    ensures RouteStripHtml(s) == s
  {
    RemoveTagsNoAngle(s);
    EntityRunsNeedSemicolon(s);
    TrimStartOfTrimmed(s);
    TrimEndOfTrimmed(s);
  }

  /** The default title is such plain text. */
  lemma DefaultTitleIsPlain()
    ensures RouteStripHtml(DefaultTitle) == DefaultTitle
  {
    RouteStripHtmlOfPlain(DefaultTitle);
  }

  /** The `headings.en` of a push: the stripped title, or the default title. */
  function Heading(title: string): (h: string)
    ensures IsTrimmed(h)
    ensures title != "" ==> h == RouteStripHtml(title)
    ensures title == "" ==> h == DefaultTitle
  {
    assert IsTrimmed(DefaultTitle) by { DefaultTitleIsPlain(); }
    if title != "" then RouteStripHtml(title) else DefaultTitle
  }

  /** Heading is `stripHtml(title || "New Post on Heavy Status")`. */
  lemma HeadingIsStrippedTitle(title: string)
    ensures Heading(title) == RouteStripHtml(Or(title, DefaultTitle))
  {
    if title == "" {
      DefaultTitleIsPlain();
    }
  }

  // ---------------------------------------------------------------------------
  // Message, URL and payload

  /** `excerpt ? stripHtml(excerpt).substring(0, 200) : DefaultMessage`. */
  function MessageFor(excerpt: string): (m: string)
    ensures |m| <= MessageLimit
    ensures excerpt == "" ==> m == DefaultMessage
    ensures excerpt != "" ==> StartsWith(RouteStripHtml(excerpt), m)
    ensures excerpt != "" && |m| < MessageLimit ==> m == RouteStripHtml(excerpt)
  {
    if excerpt != "" then
      var plain := RouteStripHtml(excerpt);
      Take(plain, MessageLimit)
    else DefaultMessage
  }

  /** A non-empty excerpt whose markup strips to nothing gives an empty message,
      not the default one. */
  lemma MarkupOnlyExcerpt()
    ensures MessageFor("<p></p>") == ""
  {
    var s := "<p></p>";
    assert s[0] == '<' && s[2] == '>' && '>' in s[1..];
    assert FirstIndex(s, '>') == 2;
    var t := s[3..];
    assert t == "</p>";
    assert t[0] == '<' && t[3] == '>' && '>' in t[1..];
    assert FirstIndex(t, '>') == 3;
    assert RemoveTags(t) == RemoveTags(t[4..]);
    assert RemoveTags(s) == "";
  }

  /** `slug ? site + "/article/" + slug : site`. */
  function ArticleUrl(site: string, slug: string): (url: string)
    ensures slug != "" ==> url == site + "/article/" + slug
    ensures slug == "" ==> url == site
  {
    if slug != "" then site + "/article/" + slug else site
  }

  /** Distinct slugs on one site give distinct URLs. */
  lemma ArticleUrlInjective(site: string, s1: string, s2: string)
    requires s1 != "" && s2 != "" && ArticleUrl(site, s1) == ArticleUrl(site, s2)
    ensures s1 == s2
  {
    var p := site + "/article/";
    assert ArticleUrl(site, s1)[|p|..] == s1;
    assert ArticleUrl(site, s2)[|p|..] == s2;
  }

  /** The notification body both handlers send. The image fields are set exactly
      when there is an image (`if (imageUrl) { payload.big_picture = ...; ... }`). */
  datatype Payload = Payload(
    appId: string, targetChannel: string, includedSegments: seq<string>,
    heading: string, contents: string, url: string,
    bigPicture: Option<string>, chromeWebImage: Option<string>)

  /** The payload as the handlers finally send it. */
  function PayloadOf(appId: string, heading: string, contents: string, url: string, imageUrl: string): (p: Payload)
    ensures p.targetChannel == "push" && p.includedSegments == ["Subscribed Users"]
    ensures p.appId == appId && p.heading == heading && p.contents == contents && p.url == url
    ensures p.bigPicture.Some? <==> imageUrl != ""
    ensures p.chromeWebImage == p.bigPicture
    ensures p.bigPicture.Some? ==> p.bigPicture.value == imageUrl
  {
    Payload(appId, "push", ["Subscribed Users"], heading, contents, url,
            if imageUrl != "" then Some(imageUrl) else None,
            if imageUrl != "" then Some(imageUrl) else None)
  }

  /** The object literal without image fields, then the two fields added when there is an image. */
  method BuildPayload(appId: string, heading: string, contents: string, url: string, imageUrl: string)
    returns (payload: Payload)
    ensures payload == PayloadOf(appId, heading, contents, url, imageUrl)
  {
    payload := Payload(appId, "push", ["Subscribed Users"], heading, contents, url, None, None);
    if imageUrl != "" {
      payload := payload.(bigPicture := Some(imageUrl));
      payload := payload.(chromeWebImage := Some(imageUrl));
    }
  }

  // ---------------------------------------------------------------------------
  // API version sniff

  /** A key starting "os_v2_" is a v2 key; any other key is a legacy v1 key. */
  datatype ApiVersion = V1 | V2

  function VersionOf(apiKey: string): (v: ApiVersion)
    ensures v == V2 <==> StartsWith(apiKey, "os_v2_")
  {
    if StartsWith(apiKey, "os_v2_") then V2 else V1
  }

  function NotificationsEndpoint(v: ApiVersion): string
  {
    match v
    case V2 => "https://api.onesignal.com/notifications"
    case V1 => "https://onesignal.com/api/v1/notifications"
  }

  function AuthHeader(v: ApiVersion, apiKey: string): string
  {
    match v
    case V2 => "Key " + apiKey
    case V1 => "Basic " + apiKey
  }

  /** The POST to the notifications endpoint: URL, Authorization header, JSON body. */
  datatype PushRequest = PushRequest(endpoint: string, authorization: string, payload: Payload)

  function PushRequestFor(apiKey: string, payload: Payload): (req: PushRequest)
    ensures StartsWith(apiKey, "os_v2_") ==>
              req.endpoint == "https://api.onesignal.com/notifications" && req.authorization == "Key " + apiKey
    ensures !StartsWith(apiKey, "os_v2_") ==>
              req.endpoint == "https://onesignal.com/api/v1/notifications" && req.authorization == "Basic " + apiKey
    ensures req.payload == payload
  {
    var v := VersionOf(apiKey);
    PushRequest(NotificationsEndpoint(v), AuthHeader(v, apiKey), payload)
  }

  /** The fields of the service's JSON reply that the handlers read. */
  datatype PushBody = PushBody(id: Option<string>, recipients: Option<int>)

  /** What the POST yields: `fetch` throws, or a status and a body that parses as
      JSON or makes `response.json()` throw. */
  datatype PushReply = PushThrew(reason: string) | PushHttp(ok: bool, body: Result<PushBody, string>)

  /** The reply makes the handler throw. */
  predicate Throws(reply: PushReply)
  {
    reply.PushThrew? || reply.body.Failure?
  }

  function ThrowReason(reply: PushReply): string
    requires Throws(reply)
  {
    if reply.PushThrew? then reply.reason else reply.body.error
  }

  /** The parsed JSON of a reply that did not throw (an empty body otherwise). */
  function BodyOf(reply: PushReply): (b: PushBody)
    ensures !Throws(reply) ==> b == reply.body.value
  {
    if reply.PushHttp? && reply.body.Success? then reply.body.value else PushBody(None, None)
  }
}
