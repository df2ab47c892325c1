/** The polling route app/api/check-new-posts/route.ts: every run it asks
    WordPress for the posts of the last ten minutes, asks OneSignal which article
    URLs it has already pushed, and sends one push for each recent post whose URL
    is not among them. */
module CheckNewPosts {
  import opened Wrappers
  import opened Text
  import opened OneSignal

  const WindowMinutes: int := 10
  const WindowMs: int := WindowMinutes * 60 * 1000

  /** The environment the route reads once, with "" for a variable that is unset. */
  datatype Env = Env(appId: string, apiKey: string, siteUrl: string)

  function SiteUrl(env: Env): (url: string)
    ensures env.siteUrl != "" ==> url == env.siteUrl
    ensures env.siteUrl == "" ==> url == DefaultSiteUrl
  {
    Or(env.siteUrl, DefaultSiteUrl)
  }

  predicate Configured(env: Env)
  {
    env.apiKey != "" && env.appId != ""
  }

  /** The start of the window: now minus ten minutes. */
  function Cutoff(nowMs: int): (cutoff: int)
    ensures cutoff == nowMs - 600000
  {
    nowMs - WindowMs
  }

  // ---------------------------------------------------------------------------
  // Recent posts

  /** One node of the RecentPosts query. `date` is the instant `new Date(post.date)`
      denotes, None when that is an invalid date; absent strings are "". */
  datatype RecentPost = RecentPost(title: string, slug: string, date: Option<int>, excerpt: string, imageUrl: string)

  /** The GraphQL reply: `fetch` throws, or a status and a body that parses as JSON
      (its `data.posts.nodes`, None when missing) or makes `response.json()` throw. */
  datatype PostsReply =
    | PostsThrew(reason: string)
    | PostsHttp(ok: bool, body: Result<Option<seq<RecentPost>>, string>)

  /** `new Date(post.date) >= cutoff`; an invalid date compares false. */
  predicate InWindow(p: RecentPost, cutoff: int)
  {
    p.date.Some? && p.date.value >= cutoff
  }

  function WithinWindow(posts: seq<RecentPost>, cutoff: int): (r: seq<RecentPost>)
    ensures forall p :: p in r <==> p in posts && InWindow(p, cutoff)
    ensures IsSubsequence(r, posts)
  {
    if posts == [] then []
    else if InWindow(posts[0], cutoff) then [posts[0]] + WithinWindow(posts[1..], cutoff)
    else WithinWindow(posts[1..], cutoff)
  }

  /** The window keeps every copy of a post in it and no copy of one outside it. */
  lemma {:induction false} WithinWindowCounts(posts: seq<RecentPost>, cutoff: int)
    ensures forall p :: multiset(WithinWindow(posts, cutoff))[p] ==
              if InWindow(p, cutoff) then multiset(posts)[p] else 0
  {
    if posts != [] {
      assert posts == [posts[0]] + posts[1..];
      WithinWindowCounts(posts[1..], cutoff);
    }
  }

  /** getRecentPosts: a failure carries the message the route reports. */
  function RecentPosts(reply: PostsReply, cutoff: int): (r: Result<seq<RecentPost>, string>)
    ensures reply.PostsThrew? ==> r == Failure(reply.reason)
    ensures reply.PostsHttp? && !reply.ok ==> r == Failure("Failed to fetch posts from WordPress")
    ensures reply.PostsHttp? && reply.ok && reply.body.Failure? ==> r == Failure(reply.body.error)
    ensures r.Success? <==> reply.PostsHttp? && reply.ok && reply.body.Success?
    ensures r.Success? && reply.body.value.None? ==> r.value == []
    ensures r.Success? && reply.body.value.Some? ==>
              forall p :: p in r.value <==> p in reply.body.value.value && InWindow(p, cutoff)
    ensures r.Success? && reply.body.value.Some? ==> r.value == WithinWindow(reply.body.value.value, cutoff)
  {
    match reply
    case PostsThrew(reason) => Failure(reason)
    case PostsHttp(ok, body) =>
      if !ok then Failure("Failed to fetch posts from WordPress")
      else match body
        case Failure(e) => Failure(e)
        case Success(nodes) =>
          match nodes
          case None => Success([])
          case Some(ns) => Success(WithinWindow(ns, cutoff))
  }

  /** The window is inclusive at its start: with "now" at minute 20, a post of
      minute 17 is kept, one of minute 5 is dropped, and one exactly ten minutes old
      is kept. */
  lemma WindowScenario(old3: RecentPost, old15: RecentPost, old10: RecentPost)
    requires old3.date == Some(17 * 60000) && old15.date == Some(5 * 60000)
    requires old10.date == Some(10 * 60000)
    ensures WithinWindow([old3, old15, old10], Cutoff(20 * 60000)) == [old3, old10]
  {
    var cutoff := Cutoff(20 * 60000);
    assert InWindow(old3, cutoff) && !InWindow(old15, cutoff) && InWindow(old10, cutoff);
    assert [old10][1..] == [];
    assert WithinWindow([old10], cutoff) == [old10];
    assert [old15, old10][1..] == [old10];
    assert WithinWindow([old15, old10], cutoff) == [old10];
    assert [old3, old15, old10][1..] == [old15, old10];
  }

  // ---------------------------------------------------------------------------
  // The ledger of notifications already sent

  /** A record of the notification history; "" when it has no url. */
  datatype SentNotification = SentNotification(id: string, url: string)

  /** The history reply: `fetch` throws, or a status and a body that gives the
      `notifications` list (None when missing) or makes the route throw. */
  datatype LedgerReply =
    | LedgerThrew(reason: string)
    | LedgerHttp(ok: bool, body: Result<Option<seq<SentNotification>>, string>)

  datatype LedgerRequest = LedgerRequest(url: string, authorization: string)

  function LedgerRequestFor(env: Env): (req: LedgerRequest)
    ensures StartsWith(env.apiKey, "os_v2_") ==> req == LedgerRequest(
              "https://api.onesignal.com/notifications?app_id=" + env.appId + "&limit=20", "Key " + env.apiKey)
    ensures !StartsWith(env.apiKey, "os_v2_") ==> req == LedgerRequest(
              "https://onesignal.com/api/v1/notifications?app_id=" + env.appId + "&limit=20", "Basic " + env.apiKey)
  {
    var v := VersionOf(env.apiKey);
    LedgerRequest(NotificationsEndpoint(v) + "?app_id=" + env.appId + "&limit=20", AuthHeader(v, env.apiKey))
  }

  /** The non-empty urls of the records, gathered front to back. */
  function Urls(ns: seq<SentNotification>): set<string>
  {
    if ns == [] then {}
    else
      var last := ns[|ns| - 1];
      Urls(ns[..|ns| - 1]) + (if last.url != "" then {last.url} else {})
  }

  /** A url is in the ledger exactly when some record carries it. */
  lemma {:induction false} UrlsMembers(ns: seq<SentNotification>, u: string)
    ensures u in Urls(ns) <==> u != "" && exists i :: 0 <= i < |ns| && ns[i].url == u
  {
    if ns != [] {
      var init := ns[..|ns| - 1];
      UrlsMembers(init, u);
      if u in Urls(init) {
        var i :| 0 <= i < |init| && init[i].url == u;
        assert ns[i].url == u;
      }
      if u != "" && (exists i :: 0 <= i < |ns| && ns[i].url == u) {
        var i :| 0 <= i < |ns| && ns[i].url == u;
        if i < |init| { assert init[i].url == u; }
      }
    }
  }

  /** getAlreadySentIds: any failure gives the empty set. */
  function Ledger(reply: LedgerReply): (urls: set<string>)
    ensures reply.LedgerThrew? || !reply.ok || reply.body.Failure? ==> urls == {}
    ensures reply.LedgerHttp? && reply.ok && reply.body.Success? && reply.body.value.None? ==> urls == {}
    ensures reply.LedgerHttp? && reply.ok && reply.body.Success? && reply.body.value.Some? ==>
              urls == Urls(reply.body.value.value)
  {
    match reply
    case LedgerThrew(_) => {}
    case LedgerHttp(ok, body) =>
      if !ok then {}
      else match body
        case Failure(_) => {}
        case Success(records) =>
          match records
          case None => {}
          case Some(ns) => Urls(ns)
  }

  /** The loop of getAlreadySentIds over the records. */
  method AlreadySentUrls(reply: LedgerReply) returns (urls: set<string>)
    ensures urls == Ledger(reply)
  {
    urls := {};
    if reply.LedgerThrew? || !reply.ok || reply.body.Failure? || reply.body.value.None? {
      return;
    }
    var ns := reply.body.value.value;
    var i := 0;
    while i < |ns|
      invariant 0 <= i <= |ns|
      invariant urls == Urls(ns[..i])
    {
      assert ns[..i + 1][..i] == ns[..i];
      if ns[i].url != "" {
        urls := urls + {ns[i].url};
      }
      i := i + 1;
    }
    assert ns[..i] == ns;
  }

  // ---------------------------------------------------------------------------
  // Deduplication and sending

  function PostUrl(env: Env, p: RecentPost): string
  {
    ArticleUrl(SiteUrl(env), p.slug)
  }

  /** The recent posts whose canonical URL the ledger does not hold, in order. */
  function Unsent(env: Env, posts: seq<RecentPost>, ledger: set<string>): (r: seq<RecentPost>)
    ensures forall p :: p in r <==> p in posts && PostUrl(env, p) !in ledger
    ensures IsSubsequence(r, posts)
    ensures (forall p :: p in posts ==> PostUrl(env, p) !in ledger) ==> r == posts
  {
    if posts == [] then []
    else if PostUrl(env, posts[0]) !in ledger then [posts[0]] + Unsent(env, posts[1..], ledger)
    else Unsent(env, posts[1..], ledger)
  }

  /** Every copy of an unsent post is kept, and no copy of a sent one. */
  lemma {:induction false} UnsentCounts(env: Env, posts: seq<RecentPost>, ledger: set<string>)
    ensures forall p :: multiset(Unsent(env, posts, ledger))[p] ==
              if PostUrl(env, p) !in ledger then multiset(posts)[p] else 0
  {
    if posts != [] {
      assert posts == [posts[0]] + posts[1..];
      UnsentCounts(env, posts[1..], ledger);
    }
  }

  /** The history fetch makes the same key choice as every push: the same
      Authorization header, and the same endpoint with the query appended. */
  lemma LedgerMatchesPush(env: Env, p: RecentPost)
    ensures LedgerRequestFor(env).authorization == PushFor(env, p).authorization
    ensures LedgerRequestFor(env).url == PushFor(env, p).endpoint + "?app_id=" + env.appId + "&limit=20"
  {
  }

  /** The push sendNotification makes for one post. */
  function PushFor(env: Env, p: RecentPost): (req: PushRequest)
    ensures req == PushRequestFor(env.apiKey, req.payload)
    ensures req.payload.appId == env.appId && req.payload.url == PostUrl(env, p)
    ensures req.payload.heading == Heading(p.title) && req.payload.contents == MessageFor(p.excerpt)
    ensures req.payload.bigPicture.Some? <==> p.imageUrl != ""
  {
    PushRequestFor(env.apiKey,
      PayloadOf(env.appId, Heading(p.title), MessageFor(p.excerpt), PostUrl(env, p), p.imageUrl))
  }

  /** sendNotification up to the POST: title, message, URL and image of the post,
      the payload, then endpoint and header by key version. */
  method BuildNotification(env: Env, p: RecentPost) returns (req: PushRequest)
    ensures req == PushFor(env, p)
  {
    var message := MessageFor(p.excerpt);
    var url := ArticleUrl(SiteUrl(env), p.slug);
    var payload := BuildPayload(env.appId, Heading(p.title), message, url, p.imageUrl);
    req := PushRequestFor(env.apiKey, payload);
  }

  /** The request-building step of sendNotification as a value: the send loop is
      stated for any such step and then used with this one. */
  function Builder(env: Env): RecentPost -> PushRequest
  {
    p => PushFor(env, p)
  }

  /** Each outbound call the route makes. */
  datatype Call = FetchPosts(cutoffMs: int) | FetchLedger(history: LedgerRequest) | Send(push: PushRequest)

  function SendCalls(build: RecentPost -> PushRequest, posts: seq<RecentPost>): (calls: seq<Call>)
    ensures |calls| == |posts|
    ensures forall j :: 0 <= j < |posts| ==> calls[j] == Send(build(posts[j]))
  {
    if posts == [] then []
    else SendCalls(build, posts[..|posts| - 1]) + [Send(build(posts[|posts| - 1]))]
  }

  /** The push made for `p` gets a reply the handler can read. */
  predicate Delivers(build: RecentPost -> PushRequest, push: PushRequest -> PushReply, p: RecentPost)
  {
    !Throws(push(build(p)))
  }

  /** One entry of the `notifications` list in the reply. */
  datatype SentRecord = SentRecord(title: string, slug: string, result: PushBody)

  function Records(build: RecentPost -> PushRequest, posts: seq<RecentPost>, push: PushRequest -> PushReply)
    : (rs: seq<SentRecord>)
    ensures |rs| == |posts|
    ensures forall j :: 0 <= j < |posts| ==>
              rs[j] == SentRecord(posts[j].title, posts[j].slug, BodyOf(push(build(posts[j]))))
  {
    if posts == [] then []
    else
      var last := posts[|posts| - 1];
      Records(build, posts[..|posts| - 1], push) + [SentRecord(last.title, last.slug, BodyOf(push(build(last))))]
  }

  /** The index of the first post whose push throws, or |posts| when none does. */
  function FirstThrow(build: RecentPost -> PushRequest, posts: seq<RecentPost>, push: PushRequest -> PushReply)
    : (k: nat)
    ensures k <= |posts|
    ensures forall j :: 0 <= j < k ==> Delivers(build, push, posts[j])
    ensures k < |posts| ==> !Delivers(build, push, posts[k])
  {
    if posts == [] then 0
    else if Throws(push(build(posts[0]))) then 0
    else 1 + FirstThrow(build, posts[1..], push)
  }

  // ---------------------------------------------------------------------------
  // The GET handler

  /** The JSON the handler answers with. */
  datatype Outcome =
    | NotConfigured                         // 500 "OneSignal not configured"
    | Failed(message: string)               // 500 "Failed to check for new posts"
    | NoRecentPosts                         // "No new posts in the last 10 minutes", notified 0
    | AlreadyNotified(recentCount: nat)     // "Recent posts already notified", notified 0
    | Notified(notifications: seq<SentRecord>)  // "Sent n notification(s)", notified n

  function Status(o: Outcome): (code: int)
    ensures code == 500 <==> o.NotConfigured? || o.Failed?
    ensures code != 500 ==> code == 200
  {
    if o.NotConfigured? || o.Failed? then 500 else 200
  }

  function NotifiedCount(o: Outcome): nat
  {
    if o.Notified? then |o.notifications| else 0
  }

  /** The send loop's answer and its pushes: it stops at the first push that throws. */
  function SendPhase(build: RecentPost -> PushRequest, todo: seq<RecentPost>, push: PushRequest -> PushReply)
    : (Outcome, seq<Call>)
  {
    var k := FirstThrow(build, todo, push);
    if k < |todo| then (Failed(ThrowReason(push(build(todo[k])))), SendCalls(build, todo[..k + 1]))
    else (Notified(Records(build, todo, push)), SendCalls(build, todo))
  }

  /** What a run does once the posts and the ledger are in: answer at once when
      there is nothing recent or nothing new, else run the send loop. */
  function Dispatch(env: Env, recent: seq<RecentPost>, ledger: set<string>, push: PushRequest -> PushReply)
    : (Outcome, seq<Call>)
  {
    if recent == [] then (NoRecentPosts, [])
    else
      var todo := Unsent(env, recent, ledger);
      if todo == [] then (AlreadyNotified(|recent|), [])
      else SendPhase(Builder(env), todo, push)
  }

  /** What one run answers and which calls it makes, on a clock reading and on what
      the three services reply. */
  function Run(env: Env, nowMs: int, fetchPosts: int -> PostsReply, fetchLedger: LedgerRequest -> LedgerReply,
               push: PushRequest -> PushReply): (Outcome, seq<Call>)
  {
    if !Configured(env) then (NotConfigured, [])
    else
      var cutoff := Cutoff(nowMs);
      var request := LedgerRequestFor(env);
      var fetches := [FetchPosts(cutoff), FetchLedger(request)];
      match RecentPosts(fetchPosts(cutoff), cutoff)
      case Failure(m) => (Failed(m), fetches)
      case Success(recent) =>
        var (outcome, sends) := Dispatch(env, recent, Ledger(fetchLedger(request)), push);
        (outcome, fetches + sends)
  }

  /** `for (const post of newPosts)`: one sendNotification after another, each
      building its request with `build` and POSTing it; the first throw ends the run. */
  method SendEach(build: RecentPost -> PushRequest, todo: seq<RecentPost>, push: PushRequest -> PushReply)
    returns (outcome: Outcome, sends: seq<Call>)
    ensures (outcome, sends) == SendPhase(build, todo, push)
  {
    sends := [];
    var results: seq<SentRecord> := [];
    var i := 0;
    while i < |todo|
      invariant 0 <= i <= |todo|
      invariant forall j :: 0 <= j < i ==> Delivers(build, push, todo[j])
      invariant sends == SendCalls(build, todo[..i])
      invariant results == Records(build, todo[..i], push)
    {
      var post := todo[i];
      assert todo[..i + 1][..i] == todo[..i];
      var req := build(post);
      var reply := push(req);
      sends := sends + [Send(req)];
      if Throws(reply) {
        assert FirstThrow(build, todo, push) == i;
        return Failed(ThrowReason(reply)), sends;
      }
      results := results + [SentRecord(post.title, post.slug, BodyOf(reply))];
      i := i + 1;
    }
    assert todo[..i] == todo;
    assert FirstThrow(build, todo, push) == |todo|;
    return Notified(results), sends;
  }

  /** GET: the handler itself. */
  method Get(env: Env, nowMs: int, fetchPosts: int -> PostsReply, fetchLedger: LedgerRequest -> LedgerReply,
             push: PushRequest -> PushReply)
    returns (outcome: Outcome, calls: seq<Call>)
    ensures (outcome, calls) == Run(env, nowMs, fetchPosts, fetchLedger, push)
  {
    if env.apiKey == "" || env.appId == "" {
      return NotConfigured, [];
    }
    var cutoff := Cutoff(nowMs);
    var request := LedgerRequestFor(env);
    calls := [FetchPosts(cutoff), FetchLedger(request)];
    var postsReply := fetchPosts(cutoff);
    var alreadySent := AlreadySentUrls(fetchLedger(request));
    var recent := RecentPosts(postsReply, cutoff);
    if recent.Failure? {
      return Failed(recent.error), calls;
    }
    assert calls + [] == calls;
    if |recent.value| == 0 {
      return NoRecentPosts, calls;
    }
    var todo := Unsent(env, recent.value, alreadySent);
    if |todo| == 0 {
      return AlreadyNotified(|recent.value|), calls;
    }
    var sends;
    outcome, sends := SendEach(Builder(env), todo, push);
    calls := calls + sends;
  }

  // ---------------------------------------------------------------------------
  // Properties of a run

  /** The send loop pushes a prefix of its posts, in order. */
  lemma SendPhaseSendsPrefix(build: RecentPost -> PushRequest, todo: seq<RecentPost>, push: PushRequest -> PushReply)
    ensures var sends := SendPhase(build, todo, push).1;
            |sends| <= |todo| && forall j :: 0 <= j < |sends| ==> sends[j] == Send(build(todo[j]))
  {
  }

  /** The push made for a post goes to the post's canonical URL. */
  lemma PushUrl(env: Env, p: RecentPost)
    ensures Builder(env)(p).payload.url == PostUrl(env, p)
  {
  }

  /** Without the key or the app id nothing is fetched or sent. */
  lemma UnconfiguredDoesNothing(env: Env, nowMs: int, fetchPosts: int -> PostsReply,
                                fetchLedger: LedgerRequest -> LedgerReply, push: PushRequest -> PushReply)
    requires !Configured(env)
    ensures Run(env, nowMs, fetchPosts, fetchLedger, push) == (NotConfigured, [])
  {
  }

  /** A push for one of the recent posts, to a URL the ledger does not hold. */
  predicate PushOfUnsent(env: Env, recent: seq<RecentPost>, ledger: set<string>, c: Call)
  {
    c.Send? && c.push.payload.url !in ledger && exists p :: p in recent && c.push == Builder(env)(p)
  }

  /** After the two fetches a run only makes such pushes. */
  lemma DispatchOnlyPushesUnsent(env: Env, recent: seq<RecentPost>, ledger: set<string>,
                                 push: PushRequest -> PushReply)
    ensures var sends := Dispatch(env, recent, ledger, push).1;
            forall j :: 0 <= j < |sends| ==> PushOfUnsent(env, recent, ledger, sends[j])
  {
    var todo := Unsent(env, recent, ledger);
    if recent != [] && todo != [] {
      var sends := SendPhase(Builder(env), todo, push).1;
      SendPhaseSendsPrefix(Builder(env), todo, push);
      forall j | 0 <= j < |sends|
        ensures PushOfUnsent(env, recent, ledger, sends[j])
      {
        var p := todo[j];
        PushUrl(env, p);
      }
    }
  }

  /** The calls of a configured run that got its posts: the two fetches, then what
      the dispatch pushes. */
  lemma RunCalls(env: Env, nowMs: int, fetchPosts: int -> PostsReply,
                 fetchLedger: LedgerRequest -> LedgerReply, push: PushRequest -> PushReply)
    requires Configured(env)
    ensures var cutoff := Cutoff(nowMs);
            var recent := RecentPosts(fetchPosts(cutoff), cutoff);
            var fetches := [FetchPosts(cutoff), FetchLedger(LedgerRequestFor(env))];
            var run := Run(env, nowMs, fetchPosts, fetchLedger, push);
            if recent.Success? then
              run == (Dispatch(env, recent.value, Ledger(fetchLedger(LedgerRequestFor(env))), push).0,
                      fetches + Dispatch(env, recent.value, Ledger(fetchLedger(LedgerRequestFor(env))), push).1)
            else run == (Failed(recent.error), fetches)
  {
  }

  /** With no recent post the run answers "no new posts"; with recent posts that are
      all in the ledger it answers "already notified" with their count. Either way it
      pushes nothing. */
  lemma NothingToSend(env: Env, nowMs: int, fetchPosts: int -> PostsReply,
                      fetchLedger: LedgerRequest -> LedgerReply, push: PushRequest -> PushReply)
    requires Configured(env)
    requires RecentPosts(fetchPosts(Cutoff(nowMs)), Cutoff(nowMs)).Success?
    ensures var recent := RecentPosts(fetchPosts(Cutoff(nowMs)), Cutoff(nowMs)).value;
            var todo := Unsent(env, recent, Ledger(fetchLedger(LedgerRequestFor(env))));
            var fetches := [FetchPosts(Cutoff(nowMs)), FetchLedger(LedgerRequestFor(env))];
            var run := Run(env, nowMs, fetchPosts, fetchLedger, push);
            (recent == [] ==> run == (NoRecentPosts, fetches))
            && (recent != [] && todo == [] ==> run == (AlreadyNotified(|recent|), fetches))
  {
    RunCalls(env, nowMs, fetchPosts, fetchLedger, push);
    var fetches := [FetchPosts(Cutoff(nowMs)), FetchLedger(LedgerRequestFor(env))];
    assert fetches + [] == fetches;
  }

  /** A configured run first asks for the posts since the cutoff and for the ledger,
      and every later call is a push. */
  lemma RunCallShape(env: Env, nowMs: int, fetchPosts: int -> PostsReply,
                     fetchLedger: LedgerRequest -> LedgerReply, push: PushRequest -> PushReply)
    requires Configured(env)
    ensures var calls := Run(env, nowMs, fetchPosts, fetchLedger, push).1;
            |calls| >= 2 && calls[0] == FetchPosts(nowMs - 600000) && calls[1] == FetchLedger(LedgerRequestFor(env))
            && forall j :: 2 <= j < |calls| ==> calls[j].Send?
  {
    RunCalls(env, nowMs, fetchPosts, fetchLedger, push);
    var cutoff := Cutoff(nowMs);
    var recent := RecentPosts(fetchPosts(cutoff), cutoff);
    if recent.Success? {
      DispatchOnlyPushesUnsent(env, recent.value, Ledger(fetchLedger(LedgerRequestFor(env))), push);
    }
  }

  /** No push goes to a URL the ledger already holds, and every push is for a post
      of the window. */
  /** Two fetches in front of the dispatched calls add no push. */
  lemma PushesFollowFetches(env: Env, recent: seq<RecentPost>, ledger: set<string>,
                            first: Call, second: Call, sends: seq<Call>)
    requires !first.Send? && !second.Send?
    requires forall j :: 0 <= j < |sends| ==> PushOfUnsent(env, recent, ledger, sends[j])
    ensures forall j :: 0 <= j < |[first, second] + sends| && ([first, second] + sends)[j].Send? ==>
              PushOfUnsent(env, recent, ledger, ([first, second] + sends)[j])
  {
    var calls := [first, second] + sends;
    forall j | 0 <= j < |calls| && calls[j].Send?
      ensures PushOfUnsent(env, recent, ledger, calls[j])
    {
      assert calls[j] == sends[j - 2];
    }
  }

  lemma NeverResends(env: Env, nowMs: int, fetchPosts: int -> PostsReply,
                     fetchLedger: LedgerRequest -> LedgerReply, push: PushRequest -> PushReply)
    ensures var calls := Run(env, nowMs, fetchPosts, fetchLedger, push).1;
            var recent := RecentPosts(fetchPosts(Cutoff(nowMs)), Cutoff(nowMs));
            forall j :: 0 <= j < |calls| && calls[j].Send? ==>
              recent.Success? && PushOfUnsent(env, recent.value, Ledger(fetchLedger(LedgerRequestFor(env))), calls[j])
  {
    if Configured(env) {
      RunCalls(env, nowMs, fetchPosts, fetchLedger, push);
      var cutoff := Cutoff(nowMs);
      var recent := RecentPosts(fetchPosts(cutoff), cutoff);
      if recent.Success? {
        var ledger := Ledger(fetchLedger(LedgerRequestFor(env)));
        DispatchOnlyPushesUnsent(env, recent.value, ledger, push);
        PushesFollowFetches(env, recent.value, ledger, FetchPosts(cutoff), FetchLedger(LedgerRequestFor(env)),
                            Dispatch(env, recent.value, ledger, push).1);
      }
    }
  }

  /** When no push of the given posts throws, the send loop pushes every post it is given and lists
      one record per push. */
  lemma SendPhaseDeliversAll(build: RecentPost -> PushRequest, todo: seq<RecentPost>, push: PushRequest -> PushReply)
    requires forall p :: p in todo ==> Delivers(build, push, p)
    ensures SendPhase(build, todo, push) == (Notified(Records(build, todo, push)), SendCalls(build, todo))
  {
  }

  /** When no push for a new post throws, each recent post not yet in the ledger is pushed once, in
      order, and the reply lists one record per push. */
  lemma SendsEveryNewPost(env: Env, nowMs: int, fetchPosts: int -> PostsReply,
                          fetchLedger: LedgerRequest -> LedgerReply, push: PushRequest -> PushReply)
    requires Configured(env)
    requires RecentPosts(fetchPosts(Cutoff(nowMs)), Cutoff(nowMs)).Success?
    requires var recent := RecentPosts(fetchPosts(Cutoff(nowMs)), Cutoff(nowMs)).value;
             var todo := Unsent(env, recent, Ledger(fetchLedger(LedgerRequestFor(env))));
             forall p :: p in todo ==> Delivers(Builder(env), push, p)
    ensures var recent := RecentPosts(fetchPosts(Cutoff(nowMs)), Cutoff(nowMs)).value;
            var todo := Unsent(env, recent, Ledger(fetchLedger(LedgerRequestFor(env))));
            var (outcome, calls) := Run(env, nowMs, fetchPosts, fetchLedger, push);
            calls[2..] == SendCalls(Builder(env), todo)
            && (todo != [] ==> NotifiedCount(outcome) == |todo|)
  {
    RunCalls(env, nowMs, fetchPosts, fetchLedger, push);
    var recent := RecentPosts(fetchPosts(Cutoff(nowMs)), Cutoff(nowMs)).value;
    var ledger := Ledger(fetchLedger(LedgerRequestFor(env)));
    var todo := Unsent(env, recent, ledger);
    SendPhaseDeliversAll(Builder(env), todo, push);
    var fetches := [FetchPosts(Cutoff(nowMs)), FetchLedger(LedgerRequestFor(env))];
    var sends := Dispatch(env, recent, ledger, push).1;
    assert (fetches + sends)[2..] == sends;
    if recent == [] {
      assert todo == [];
    }
  }
}
