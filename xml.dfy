/** What the two XML routes (app/sitemap.xml/route.ts and app/feed.xml/route.ts)
    share: the post records they read, the base URL rule, the article link, the
    title escaping they both write out as three chained global replaces, and the
    plain response they answer with. */
module Xml {
  import opened Wrappers
  import opened Text

  /** A post as the sitemap query returns it. `title` is None when WordPress sends
      null, which makes the title's `.replace` throw. */
  datatype SitemapPost = SitemapPost(slug: string, date: string, title: Option<string>)

  /** A `Response`: status, Content-Type and body. */
  datatype TextResponse = TextResponse(status: int, contentType: string, body: string)

  /** The XML declaration both documents open with. */
  const Declaration: string := "<?xml version=\"1.0\" encoding=\"UTF-8\"?>\n"

  /** The Content-Type a `Response` built from a string gets by default. */
  const PlainText: string := "text/plain;charset=UTF-8"

  /** `process.env.SITE_URL || new URL(request.url).origin`. */
  function BaseUrl(siteUrl: string, origin: string): (base: string)
    ensures siteUrl != "" ==> base == siteUrl
    ensures siteUrl == "" ==> base == origin
  {
    Or(siteUrl, origin)
  }

  /** `${baseUrl}/article/${post.slug}`. */
  function ArticleLink(base: string, slug: string): (link: string)
    ensures |link| == |base| + 9 + |slug|
    ensures link[..|base|] == base && link[|base| + 9..] == slug
  {
    base + "/article/" + slug
  }

  /** On one base URL, different slugs give different links. */
  lemma ArticleLinkInjective(base: string, s1: string, s2: string)
    requires ArticleLink(base, s1) == ArticleLink(base, s2)
    ensures s1 == s2
  {
  }

  /** The lines of one element, written one after another. */
  function Join(lines: seq<string>): string
  {
    if lines == [] then "" else Join(lines[..|lines| - 1]) + lines[|lines| - 1]
  }

  /** The rendering of `f` of each element, written one after another: what the
      routes' loops build. */
  function RenderAll<A, B>(render: B -> string, f: A -> B, xs: seq<A>): string
  {
    if xs == [] then "" else RenderAll(render, f, xs[..|xs| - 1]) + render(f(xs[|xs| - 1]))
  }

  /** One step of a loop that appends the rendering of `f` of each element in turn. */
  lemma RenderStep<A, B>(render: B -> string, f: A -> B, xml0: string, xs: seq<A>, i: nat)
    requires i < |xs|
    ensures xml0 + RenderAll(render, f, xs[..i]) + render(f(xs[i]))
            == xml0 + RenderAll(render, f, xs[..i + 1])
  {
    assert xs[..i + 1][..i] == xs[..i];
    AppendAssoc(xml0, RenderAll(render, f, xs[..i]), render(f(xs[i])));
  }

  /** Every element can be written (stated as a scan, the way the loops meet them). */
  predicate AllWritable<A>(writable: A -> bool, xs: seq<A>)
  {
    xs == [] || (AllWritable(writable, xs[..|xs| - 1]) && writable(xs[|xs| - 1]))
  }

  lemma AllWritableStep<A>(writable: A -> bool, xs: seq<A>, i: nat)
    requires i < |xs| && AllWritable(writable, xs[..i]) && writable(xs[i])
    ensures AllWritable(writable, xs[..i + 1])
  {
    assert xs[..i + 1][..i] == xs[..i];
  }

  /** The scan holds exactly when each element can be written. */
  lemma {:induction false} AllWritableEach<A>(writable: A -> bool, xs: seq<A>)
    ensures AllWritable(writable, xs) <==> forall i :: 0 <= i < |xs| ==> writable(xs[i])
  {
    if xs != [] {
      var n := |xs| - 1;
      AllWritableEach(writable, xs[..n]);
      assert forall i :: 0 <= i < n ==> xs[..n][i] == xs[i];
    }
  }

  /** The routes' loop over the posts: for each element in turn, stop if writing it
      throws (`writable` is false), else append the rendering of its entry `f`. */
  method AppendAll<A, B>(xml0: string, xs: seq<A>, writable: A -> bool, f: A -> B, render: B -> string)
    returns (ok: bool, xml: string)
    ensures ok <==> AllWritable(writable, xs)
    ensures ok ==> xml == xml0 + RenderAll(render, f, xs)
  {
    xml := xml0;
    var i := 0;
    while i < |xs|
      invariant 0 <= i <= |xs|
      invariant AllWritable(writable, xs[..i])
      invariant xml == xml0 + RenderAll(render, f, xs[..i])
    {
      if !writable(xs[i]) {
        AllWritableEach(writable, xs);
        return false, xml;
      }
      RenderStep(render, f, xml0, xs, i);
      AllWritableStep(writable, xs, i);
      xml := xml + render(f(xs[i]));
      i := i + 1;
    }
    assert xs[..i] == xs;
    return true, xml;
  }

  /** Appending is associative; stated once so that long documents need not be
      compared character by character. */
  lemma AppendAssoc(a: string, b: string, c: string)
    ensures (a + b) + c == a + (b + c)
  {
  }

  /** Four appends in a row append the four parts put together. */
  lemma AppendFour(h: string, a: string, b: string, c: string, d: string)
    ensures h + a + b + c + d == h + (a + b + c + d)
  {
  }

  /** Rendering two runs of elements writes the first run, then the second. */
  lemma {:induction false} RenderAllAppend<A, B>(render: B -> string, f: A -> B, xs: seq<A>, ys: seq<A>)
    ensures RenderAll(render, f, xs + ys) == RenderAll(render, f, xs) + RenderAll(render, f, ys)
    decreases |ys|
  {
    if ys == [] {
      assert xs + ys == xs;
    } else {
      var n := |ys| - 1;
      assert (xs + ys)[..|xs + ys| - 1] == xs + ys[..n];
      RenderAllAppend(render, f, xs, ys[..n]);
      AppendAssoc(RenderAll(render, f, xs), RenderAll(render, f, ys[..n]), render(f(ys[n])));
    }
  }

  lemma RenderAllOne<A, B>(render: B -> string, f: A -> B, x: A)
    ensures RenderAll(render, f, [x]) == render(f(x))
  {
    assert [x][..0] == [];
  }

  lemma RenderAllCut<A, B>(render: B -> string, f: A -> B, xs: seq<A>, k: nat)
    requires k <= |xs|
    ensures RenderAll(render, f, xs) == RenderAll(render, f, xs[..k]) + RenderAll(render, f, xs[k..])
  {
    assert xs == xs[..k] + xs[k..];
    RenderAllAppend(render, f, xs[..k], xs[k..]);
  }

  lemma RenderAllCons<A, B>(render: B -> string, f: A -> B, xs: seq<A>)
    requires xs != []
    ensures RenderAll(render, f, xs) == render(f(xs[0])) + RenderAll(render, f, xs[1..])
  {
    RenderAllCut(render, f, xs, 1);
    RenderAllOne(render, f, xs[0]);
    assert xs[..1] == [xs[0]];
  }

  /** Element i is written after the elements before it and before those after it. */
  lemma RenderAllSplit<A, B>(render: B -> string, f: A -> B, xs: seq<A>, i: nat)
    requires i < |xs|
    ensures RenderAll(render, f, xs)
            == RenderAll(render, f, xs[..i]) + render(f(xs[i])) + RenderAll(render, f, xs[i + 1..])
  {
    RenderAllCut(render, f, xs, i);
    var rest := xs[i..];
    RenderAllCons(render, f, rest);
    assert rest[0] == xs[i] && rest[1..] == xs[i + 1..];
    AppendAssoc(RenderAll(render, f, xs[..i]), render(f(xs[i])), RenderAll(render, f, xs[i + 1..]));
  }

  /** A document made of a front part, a middle and a back part starts with the
      front and ends with the back. */
  lemma Framed(front: string, middle: string, back: string)
    ensures StartsWith(front + middle + back, front)
    ensures var doc := front + middle + back;
            |doc| >= |back| && doc[|doc| - |back|..] == back
  {
    var doc := front + middle + back;
    assert doc[..|front|] == front;
    assert doc[|doc| - |back|..] == back;
  }

  // ---------------------------------------------------------------------------
  // Title escaping: `replace(/&/g, '&amp;').replace(/</g, '&lt;').replace(/>/g, '&gt;')`

  const Amp: string := "&amp;"
  const Lt: string := "&lt;"
  const Gt: string := "&gt;"

  /** The chain as the routes write it. */
  function EscapeTitle(title: string): string
  {
    ReplaceAll(ReplaceAll(ReplaceAll(title, "&", Amp), "<", Lt), ">", Gt)
  }

  /** What the chain amounts to for one character. */
  function EscapeChar(c: char): string
  {
    if c == '&' then Amp else if c == '<' then Lt else if c == '>' then Gt else [c]
  }

  /** Each character escaped on its own. */
  function EscapeText(s: string): string
    decreases |s|
  {
    if s == [] then [] else EscapeChar(s[0]) + EscapeText(s[1..])
  }

  lemma {:induction false} SubstCharAbsent(s: string, c: char, rep: string)
    requires c !in s
    ensures SubstChar(s, c, rep) == s
    decreases |s|
  {
    if s != [] {
      SubstCharAbsent(s[1..], c, rep);
    }
  }

  /** The three global replaces, each on one character, `&` first. */
  function ChainedSubst(s: string): string
  {
    SubstChar(SubstChar(SubstChar(s, '&', Amp), '<', Lt), '>', Gt)
  }

  lemma SubstOne(c: char, d: char, rep: string)
    ensures SubstChar([c], d, rep) == if c == d then rep else [c]
  {
    assert [c][1..] == [];
  }

  /** The inserted references hold no angle bracket for a later replace to meet. */
  lemma ReferencesHaveNoAngles()
    ensures '<' !in Amp && '>' !in Amp && '>' !in Lt
  {
    assert Amp == ['&'] + "amp;" && Lt == ['&'] + "lt;";
  }

  /** On one character the chain is that character's escape. */
  lemma ChainedSubstOne(c: char)
    ensures ChainedSubst([c]) == EscapeChar(c)
  {
    ReferencesHaveNoAngles();
    SubstOne(c, '&', Amp);
    if c == '&' {
      SubstCharAbsent(Amp, '<', Lt);
      SubstCharAbsent(Amp, '>', Gt);
    } else {
      SubstOne(c, '<', Lt);
      if c == '<' {
        SubstCharAbsent(Lt, '>', Gt);
      } else {
        SubstOne(c, '>', Gt);
      }
    }
  }

  lemma ChainedSubstAppend(a: string, b: string)
    ensures ChainedSubst(a + b) == ChainedSubst(a) + ChainedSubst(b)
  {
    SubstCharAppend(a, b, '&', Amp);
    var a1 := SubstChar(a, '&', Amp);
    var b1 := SubstChar(b, '&', Amp);
    SubstCharAppend(a1, b1, '<', Lt);
    SubstCharAppend(SubstChar(a1, '<', Lt), SubstChar(b1, '<', Lt), '>', Gt);
  }

  /** The three per-character substitutions, `&` first, escape each character on its own. */
  lemma {:induction false} SubstitutionsEscape(s: string)
    ensures ChainedSubst(s) == EscapeText(s)
    decreases |s|
  {
    if s != [] {
      assert s == [s[0]] + s[1..];
      ChainedSubstAppend([s[0]], s[1..]);
      ChainedSubstOne(s[0]);
      SubstitutionsEscape(s[1..]);
    }
  }

  /** The chained replaces escape the title character by character; in particular
      the `&` of an inserted `&lt;` or `&gt;` is never escaped again. */
  lemma EscapeTitleIsPerCharacter(title: string)
    ensures EscapeTitle(title) == EscapeText(title)
  {
    var a := ReplaceAll(title, "&", Amp);
    ReplaceOneChar(title, '&', Amp);
    var b := ReplaceAll(a, "<", Lt);
    ReplaceOneChar(a, '<', Lt);
    ReplaceOneChar(b, '>', Gt);
    SubstitutionsEscape(title);
  }

  /** Text as XML 1.0 (section 2.4) wants character data: no raw `<` or `>`, and each
      `&` begins one of the three references the escaping produces. */
  predicate WellEscaped(s: string)
  {
    forall i :: 0 <= i < |s| ==>
      s[i] != '<' && s[i] != '>' &&
      (s[i] == '&' ==> StartsWith(s[i..], Amp) || StartsWith(s[i..], Lt) || StartsWith(s[i..], Gt))
  }

  lemma WellEscapedAppend(a: string, b: string)
    requires WellEscaped(a) && WellEscaped(b)
    ensures WellEscaped(a + b)
  {
    var s := a + b;
    forall i | 0 <= i < |s|
      ensures s[i] != '<' && s[i] != '>' &&
              (s[i] == '&' ==> StartsWith(s[i..], Amp) || StartsWith(s[i..], Lt) || StartsWith(s[i..], Gt))
    {
      if i < |a| {
        assert s[i] == a[i];
        assert s[i..] == a[i..] + b;
      } else {
        assert s[i] == b[i - |a|];
        assert s[i..] == b[i - |a|..];
      }
    }
  }

  lemma {:induction false} EscapeTextWellEscaped(s: string)
    ensures WellEscaped(EscapeText(s))
    decreases |s|
  {
    if s != [] {
      EscapeTextWellEscaped(s[1..]);
      var e := EscapeChar(s[0]);
      assert WellEscaped(e) by {
        if s[0] == '&' || s[0] == '<' || s[0] == '>' {
          assert e[0] == '&' && StartsWith(e[0..], e);
        }
      }
      WellEscapedAppend(e, EscapeText(s[1..]));
    }
  }

  /** An escaped title is well-formed character data. */
  lemma EscapedTitleIsWellEscaped(title: string)
    ensures WellEscaped(EscapeTitle(title))
    ensures '<' !in EscapeTitle(title) && '>' !in EscapeTitle(title)
  {
    EscapeTitleIsPerCharacter(title);
    EscapeTextWellEscaped(title);
  }

  /** What an XML reader makes of the three references. */
  function Unescape(s: string): string
    decreases |s|
  {
    if s == [] then []
    else if StartsWith(s, Amp) then "&" + Unescape(s[|Amp|..])
    else if StartsWith(s, Lt) then "<" + Unescape(s[|Lt|..])
    else if StartsWith(s, Gt) then ">" + Unescape(s[|Gt|..])
    else [s[0]] + Unescape(s[1..])
  }

  /** Unescaping undoes one escaped character at the head of a text. */
  lemma UnescapeEscapeChar(c: char, rest: string)
    ensures Unescape(EscapeChar(c) + rest) == [c] + Unescape(rest)
  {
    var e := EscapeChar(c);
    var t := e + rest;
    assert t[|e|..] == rest;
    assert t[..|e|] == e;
    if c == '&' {
      assert StartsWith(t, Amp);
    } else if c == '<' {
      DiffersAt(t, Amp, 1);
      assert StartsWith(t, Lt);
    } else if c == '>' {
      DiffersAt(t, Amp, 1);
      DiffersAt(t, Lt, 1);
      assert StartsWith(t, Gt);
    } else {
      DiffersAt(t, Amp, 0);
      DiffersAt(t, Lt, 0);
      DiffersAt(t, Gt, 0);
    }
  }

  lemma {:induction false} UnescapeEscapeText(s: string)
    ensures Unescape(EscapeText(s)) == s
    decreases |s|
  {
    if s != [] {
      UnescapeEscapeText(s[1..]);
      UnescapeEscapeChar(s[0], EscapeText(s[1..]));
      assert [s[0]] + s[1..] == s;
    }
  }

  /** A reader of the document gets the title back exactly as WordPress sent it. */
  lemma EscapeTitleRoundTrip(title: string)
    ensures Unescape(EscapeTitle(title)) == title
  {
    EscapeTitleIsPerCharacter(title);
    UnescapeEscapeText(title);
  }

  /** So different titles are never written alike. */
  lemma EscapeTitleInjective(t1: string, t2: string)
    requires EscapeTitle(t1) == EscapeTitle(t2)
    ensures t1 == t2
  {
    EscapeTitleRoundTrip(t1);
    EscapeTitleRoundTrip(t2);
  }
}
