/** The webhook route app/api/notify/route.ts: WordPress (or anyone holding the
    shared secret) POSTs a post's fields and the route sends one push for it. */
module Notify {
  import opened Wrappers
  import opened Text
  import opened OneSignal

  /** The environment the handler reads, with "" for a variable that is unset. */
  datatype NotifyEnv = NotifyEnv(appId: string, apiKey: string, siteUrl: string, webhookSecret: string)

  /** The JSON body's fields, "" when absent: WordPress names and short names. */
  datatype WebhookBody = WebhookBody(
    postTitle: string, title: string, postExcerpt: string, excerpt: string,
    postName: string, slug: string, featuredImage: string, image: string)

  /** What the handler takes from the body once the two spellings are merged. */
  datatype Notice = Notice(title: string, excerpt: string, slug: string, imageUrl: string)

  /** Each field prefers the WordPress spelling and falls back to the short one. */
  function NoticeOf(b: WebhookBody): (n: Notice)
    ensures n.title == (if b.postTitle != "" then b.postTitle else b.title)
    ensures n.excerpt == (if b.postExcerpt != "" then b.postExcerpt else b.excerpt)
    ensures n.slug == (if b.postName != "" then b.postName else b.slug)
    ensures n.imageUrl == (if b.featuredImage != "" then b.featuredImage else b.image)
  {
    Notice(Or(b.postTitle, b.title), Or(b.postExcerpt, b.excerpt), Or(b.postName, b.slug),
           Or(b.featuredImage, b.image))
  }

  function SiteUrl(env: NotifyEnv): string
  {
    Or(env.siteUrl, DefaultSiteUrl)
  }

  /** The notification payload the handler sends. */
  function NotifyPayload(env: NotifyEnv, b: WebhookBody): (p: Payload)
    ensures p.appId == env.appId
    ensures p.heading == Heading(NoticeOf(b).title)
    ensures p.contents == MessageFor(NoticeOf(b).excerpt) && |p.contents| <= MessageLimit
    ensures p.url == ArticleUrl(SiteUrl(env), NoticeOf(b).slug)
    ensures p.bigPicture.Some? <==> NoticeOf(b).imageUrl != ""
  {
    var n := NoticeOf(b);
    PayloadOf(env.appId, Heading(n.title), MessageFor(n.excerpt), ArticleUrl(SiteUrl(env), n.slug), n.imageUrl)
  }

  /** The shared-secret check: with a secret set, only `Bearer <secret>` passes. */
  predicate Authorized(env: NotifyEnv, authorization: Option<string>)
  {
    env.webhookSecret == "" || authorization == Some("Bearer " + env.webhookSecret)
  }

  predicate Configured(env: NotifyEnv)
  {
    env.apiKey != "" && env.appId != ""
  }

  /** The JSON the POST handler answers with. */
  datatype Response =
    | Unauthorized                                               // 401
    | NotConfigured                                              // 500 "OneSignal not configured"
    | InternalError(message: string)                             // 500 "Internal server error"
    | SendFailed(details: PushBody)                              // 500 "Failed to send notification"
    | Delivered(notificationId: Option<string>, recipients: Option<int>)  // 200, success: true

  function Status(r: Response): (code: int)
    ensures code == 200 <==> r.Delivered?
    ensures code == 401 <==> r.Unauthorized?
    ensures code == 200 || code == 401 || code == 500
  {
    match r
    case Unauthorized => 401
    case Delivered(_, _) => 200
    case _ => 500
  }

  /** How the service's reply becomes the handler's answer. */
  function Answer(reply: PushReply): (r: Response)
    ensures Throws(reply) ==> r == InternalError(ThrowReason(reply))
    ensures !Throws(reply) && !reply.ok ==> r == SendFailed(reply.body.value)
    ensures !Throws(reply) && reply.ok ==>
              r == Delivered(reply.body.value.id, reply.body.value.recipients)
  {
    match reply
    case PushThrew(reason) => InternalError(reason)
    case PushHttp(ok, body) =>
      match body
      case Failure(e) => InternalError(e)
      case Success(result) =>
        if !ok then SendFailed(result) else Delivered(result.id, result.recipients)
  }

  /** POST: `authorization` is the request's Authorization header (None when absent);
      `body` is what `request.json()` yields, or the message it throws. */
  method Post(env: NotifyEnv, authorization: Option<string>, body: Result<WebhookBody, string>,
              push: PushRequest -> PushReply)
    returns (response: Response, sent: seq<PushRequest>)
    ensures response.Unauthorized? <==> !Authorized(env, authorization)
    ensures !Authorized(env, authorization) ==> sent == []
    ensures Authorized(env, authorization) && !Configured(env) ==> response == NotConfigured && sent == []
    ensures Authorized(env, authorization) && Configured(env) && body.Failure? ==>
              response == InternalError(body.error) && sent == []
    ensures Authorized(env, authorization) && Configured(env) && body.Success? ==>
              sent == [PushRequestFor(env.apiKey, NotifyPayload(env, body.value))]
              && response == Answer(push(sent[0]))
  {
    if env.webhookSecret != "" && authorization != Some("Bearer " + env.webhookSecret) {
      return Unauthorized, [];
    }
    if env.apiKey == "" || env.appId == "" {
      return NotConfigured, [];
    }
    if body.Failure? {
      return InternalError(body.error), [];
    }
    var n := NoticeOf(body.value);
    var message := MessageFor(n.excerpt);
    var url := ArticleUrl(SiteUrl(env), n.slug);
    var payload := BuildPayload(env.appId, Heading(n.title), message, url, n.imageUrl);
    var req := PushRequestFor(env.apiKey, payload);
    sent := [req];
    var reply := push(req);
    if Throws(reply) {
      return InternalError(ThrowReason(reply)), sent;
    }
    var result := reply.body.value;
    if !reply.ok {
      return SendFailed(result), sent;
    }
    return Delivered(result.id, result.recipients), sent;
  }

  /** A 200 answer means the one push was made and the service accepted it. */
  lemma DeliveredMeansAccepted(env: NotifyEnv, authorization: Option<string>, body: Result<WebhookBody, string>,
                               push: PushRequest -> PushReply, response: Response, sent: seq<PushRequest>)
    requires Authorized(env, authorization) && Configured(env) && body.Success?
    requires sent == [PushRequestFor(env.apiKey, NotifyPayload(env, body.value))]
    requires response == Answer(push(sent[0]))
    ensures Status(response) == 200 <==> push(sent[0]).PushHttp? && push(sent[0]).ok && push(sent[0]).body.Success?
  {
  }

  /** Only the WordPress title matters when it is set; the short one is a fallback. */
  lemma TitlePrecedence(env: NotifyEnv, b: WebhookBody, shortTitle: string)
    requires b.postTitle != ""
    ensures NotifyPayload(env, b.(title := shortTitle)) == NotifyPayload(env, b)
  {
  }

  /** A body with no title at all gets the default heading. */
  lemma UntitledGetsDefaultHeading(env: NotifyEnv, b: WebhookBody)
    requires b.postTitle == "" && b.title == ""
    ensures NotifyPayload(env, b).heading == DefaultTitle
  {
  }

  /** A body with no excerpt gets the default message; one whose excerpt is only
      markup gets an empty message. */
  lemma MessageDefaults(env: NotifyEnv, b: WebhookBody)
    ensures b.postExcerpt == "" && b.excerpt == "" ==> NotifyPayload(env, b).contents == DefaultMessage
    ensures b.postExcerpt == "<p></p>" ==> NotifyPayload(env, b).contents == ""
  {
    MarkupOnlyExcerpt();
  }
}
