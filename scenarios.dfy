/**
 * The two offline scenarios of the package's tests, run through the default registry:
 * a page with an `og:title` and a description `meta`, and a page with a `<title>` and a
 * description `meta`, both at a URL whose host is `example.com`.
 */
module Scenarios {
  import opened Wrappers
  import opened Urls
  import opened UrlExtensions
  import opened Dom
  import opened Metadata
  import opened Previews
  import opened Processing
  import OpenGraphProcessor
  import GenericHTMLProcessor
  import WikipediaAPIProcessor
  import opened Provider

  /** `<meta property="og:title" content="Title" />` */
  const OgTitleTag := OpenGraphProcessor.Meta(map["property" := "og:title", "content" := "Title"])

  /** `<meta name="description" content="Hello, world" />` */
  const DescriptionTag := OpenGraphProcessor.Meta(map["name" := "description", "content" := "Hello, world"])

  /** `<title>Title</title>` */
  const TitleTag := Element("title", map[], None, "Title")

  /** The parse of the first test page: `html`, `head`, the two `meta` tags, then the empty `body`. */
  const DescriptionFallbackPage: Document :=
    [Element("html", map[], None, ""), Element("head", map[], None, ""), OgTitleTag, DescriptionTag, Element("body", map[], None, "")]

  /** The parse of the second test page: `html`, `head`, the `title`, the description `meta`, then the empty `body`. */
  const TitleFallbackPage: Document :=
    [Element("html", map[], None, "Title"), Element("head", map[], None, "Title"), TitleTag, DescriptionTag, Element("body", map[], None, "")]

  /** `example.com` is not a Wikipedia host. */
  lemma ExampleIsNotWikipedia(url: Url)
    requires url.host == Some("example.com")
    ensures BaseHostName(url) == Some("example.com")
  {
    assert "example" + "." + "com" == "example.com";
    BaseHostOfTwoLabels("example", "com");
  }

  /** A run over three processors, one step at a time. */
  lemma RunStepsOfThree(run: (ProcessorId, LinkPreview) -> Outcome, applies: ProcessorId -> bool,
                        a: ProcessorId, b: ProcessorId, c: ProcessorId, start: LinkPreview)
    ensures var s1 := if applies(a) then run(a, start).preview else start;
            var s2 := if applies(b) then run(b, s1).preview else s1;
            var s3 := if applies(c) then run(c, s2).preview else s2;
            RunSteps(run, applies, [a, b, c], start).preview == s3
  {
    var ids := [a, b, c];
    assert ids[..2] == [a, b] && ids[..2][..1] == [a] && ids[..2][..1][..0] == [];
    var s1 := if applies(a) then run(a, start).preview else start;
    var s2 := if applies(b) then run(b, s1).preview else s1;
    assert RunSteps(run, applies, [], start) == Outcome(start, []);
    assert RunSteps(run, applies, [a], start).preview == s1;
    assert RunSteps(run, applies, [a, b], start).preview == s2;
  }

  lemma OpenGraphStep(env: Environment, p: LinkPreview, url: Url, doc: Document, options: Options)
    ensures Step(env, OpenGraph, p, url, doc, options).preview == OpenGraphProcessor.Updated(p, Some(doc))
  {
  }

  lemma GenericStep(env: Environment, p: LinkPreview, url: Url, doc: Document, options: Options)
    ensures Step(env, GenericHTML, p, url, doc, options) == GenericHTMLProcessor.Updated(env.foundation, env.network, p, url, doc, options)
  {
  }

  lemma WikipediaStep(env: Environment, p: LinkPreview, url: Url, doc: Document, options: Options)
    requires BaseHostName(url) != Some("wikipedia.org")
    ensures Step(env, Wikipedia, p, url, doc, options).preview == p
  {
    WikipediaAPIProcessor.GuardsLeaveAlone(env.foundation, env.network, p, url, Some(doc), options);
  }

  /**
   * Loading any parsed document with the default processors and options at a URL outside
   * Wikipedia: the OpenGraph processor, then the generic one, each if it applies; the
   * Wikipedia processor changes nothing.
   */
  lemma DefaultLoad(env: Environment, html: string, url: Url, doc: Document)
    requires env.parseHtml(html, url.absoluteString) == Some(doc)
    requires BaseHostName(url) != Some("wikipedia.org")
    ensures LoadedHtml(env, DefaultProcessors, DefaultOptions, html, url).Success?
    ensures var p0 := EmptyPreview(url);
            var p1 := if env.applies(OpenGraph, url) then OpenGraphProcessor.Updated(p0, Some(doc)) else p0;
            var p2 := if env.applies(GenericHTML, url)
                      then GenericHTMLProcessor.Updated(env.foundation, env.network, p1, url, doc, DefaultOptions).preview
                      else p1;
            LoadedHtml(env, DefaultProcessors, DefaultOptions, html, url).value.preview == p2
  {
    var run := (id, p) => Step(env, id, p, url, doc, DefaultOptions);
    var applies := id => env.applies(id, url);
    var p0 := EmptyPreview(url);
    RunStepsOfThree(run, applies, OpenGraph, GenericHTML, Wikipedia, p0);
    OpenGraphStep(env, p0, url, doc, DefaultOptions);
    var p1 := if env.applies(OpenGraph, url) then OpenGraphProcessor.Updated(p0, Some(doc)) else p0;
    GenericStep(env, p1, url, doc, DefaultOptions);
    var p2 := if env.applies(GenericHTML, url)
              then GenericHTMLProcessor.Updated(env.foundation, env.network, p1, url, doc, DefaultOptions).preview
              else p1;
    WikipediaStep(env, p2, url, doc, DefaultOptions);
  }

  /** The first-match scan, one element at a time. */
  lemma FirstMatchCons(e: Element, es: seq<Element>, p: Element -> bool)
    ensures GenericHTMLProcessor.FirstMatch([e] + es, p) == if p(e) then Some(e) else GenericHTMLProcessor.FirstMatch(es, p)
  {
    assert ([e] + es)[0] == e && ([e] + es)[1..] == es;
  }

  /** `findDescription` reads the content of the first description `meta`. */
  lemma FindDescriptionOf(doc: Document, e: Element)
    requires GenericHTMLProcessor.FirstMatch(doc, GenericHTMLProcessor.IsDescriptionMeta) == Some(e)
    ensures GenericHTMLProcessor.FindDescription(doc) == Attr(e, "content")
  {
  }

  /** `[e]` if `e` has tag `t`, else nothing. */
  function Picked(e: Element, t: string): seq<Element>
  {
    if e.tag == t then [e] else []
  }

  lemma SelectByTagCons(e: Element, es: seq<Element>, t: string)
    ensures Select([e] + es, ByTag(t)) == Picked(e, t) + Select(es, ByTag(t))
  {
    assert ([e] + es)[0] == e && ([e] + es)[1..] == es;
  }

  /** The elements of a five-element document with a given tag, one by one. */
  lemma SelectByTagOfFive(a: Element, b: Element, c: Element, d: Element, e: Element, t: string)
    ensures Select([a] + ([b] + ([c] + ([d] + [e]))), ByTag(t)) ==
              Picked(a, t) + (Picked(b, t) + (Picked(c, t) + (Picked(d, t) + Picked(e, t))))
  {
    SelectByTagCons(e, [], t);
    assert [e] + [] == [e];
    SelectByTagCons(d, [e], t);
    SelectByTagCons(c, [d] + [e], t);
    SelectByTagCons(b, [c] + ([d] + [e]), t);
    SelectByTagCons(a, [b] + ([c] + ([d] + [e])), t);
  }

  /** The five elements of a page, as `SelectByTagOfFive` takes them. */
  lemma FiveElements(doc: Document)
    requires |doc| == 5
    ensures doc == [doc[0]] + ([doc[1]] + ([doc[2]] + ([doc[3]] + [doc[4]])))
  {
  }

  /** The `meta` tags of the first page are the `og:title` and the description, in that order. */
  lemma MetaTagsOfFirstPage()
    ensures Select(DescriptionFallbackPage, ByTag("meta")) == [OgTitleTag, DescriptionTag]
  {
    var d := DescriptionFallbackPage;
    FiveElements(d);
    SelectByTagOfFive(d[0], d[1], d[2], d[3], d[4], "meta");
    assert Picked(d[0], "meta") == [] && Picked(d[1], "meta") == [] && Picked(d[4], "meta") == [];
  }

  /** The only `meta` tag of the second page is the description. */
  lemma MetaTagsOfSecondPage()
    ensures Select(TitleFallbackPage, ByTag("meta")) == [DescriptionTag]
  {
    var d := TitleFallbackPage;
    FiveElements(d);
    SelectByTagOfFive(d[0], d[1], d[2], d[3], d[4], "meta");
    assert Picked(d[0], "meta") == [] && Picked(d[1], "meta") == [] && Picked(d[4], "meta") == [];
  }

  /** The only `title` element of the second page is its `<title>`. */
  lemma TitlesOfSecondPage()
    ensures Select(TitleFallbackPage, ByTag("title")) == [TitleTag]
  {
    var d := TitleFallbackPage;
    FiveElements(d);
    SelectByTagOfFive(d[0], d[1], d[2], d[3], d[4], "title");
    assert Picked(d[0], "title") == [] && Picked(d[1], "title") == [] && Picked(d[3], "title") == [] && Picked(d[4], "title") == [];
  }

  /** The description `meta` is the tag the generic processor looks for, with content "Hello, world". */
  lemma DescriptionTagFound()
    ensures GenericHTMLProcessor.IsDescriptionMeta(DescriptionTag)
    ensures Attr(DescriptionTag, "content") == Some("Hello, world")
  {
  }

  /** The OpenGraph processor skips it. */
  lemma DescriptionTagSkipped()
    ensures OpenGraphProcessor.TagWrite(DescriptionTag) == None
  {
    OpenGraphProcessor.PlainDescriptionSkipped("Hello, world");
  }

  /** Only `meta` elements can be description tags. */
  lemma OnlyMetaDescribes(e: Element)
    requires e.tag != "meta"
    ensures !GenericHTMLProcessor.IsDescriptionMeta(e)
  {
  }

  /** The `og:title` tag has no `name`, so it is not a description tag. */
  lemma OgTitleDoesNotDescribe()
    ensures !GenericHTMLProcessor.IsDescriptionMeta(OgTitleTag)
  {
    assert "name" !in OgTitleTag.attributes;
  }

  /** The description `meta` is the first tag of its kind on the page. */
  lemma DescriptionMetaOfFirstPage()
    ensures GenericHTMLProcessor.FirstMatch(DescriptionFallbackPage, GenericHTMLProcessor.IsDescriptionMeta) == Some(DescriptionTag)
  {
    var d := DescriptionFallbackPage;
    var p := GenericHTMLProcessor.IsDescriptionMeta;
    OnlyMetaDescribes(d[0]);
    OnlyMetaDescribes(d[1]);
    OgTitleDoesNotDescribe();
    DescriptionTagFound();
    FiveElements(d);
    FirstMatchCons(d[3], [d[4]], p);
    FirstMatchCons(d[2], [d[3]] + [d[4]], p);
    FirstMatchCons(d[1], [d[2]] + ([d[3]] + [d[4]]), p);
    FirstMatchCons(d[0], [d[1]] + ([d[2]] + ([d[3]] + [d[4]])), p);
  }

  /** The first page's description `meta` is the first one named "description". */
  lemma DescriptionFoundOnFirstPage()
    ensures GenericHTMLProcessor.FindDescription(DescriptionFallbackPage) == Some("Hello, world")
  {
    DescriptionMetaOfFirstPage();
    DescriptionTagFound();
    FindDescriptionOf(DescriptionFallbackPage, DescriptionTag);
  }

  /** The description `meta` is the first tag of its kind on the page. */
  lemma DescriptionMetaOfSecondPage()
    ensures GenericHTMLProcessor.FirstMatch(TitleFallbackPage, GenericHTMLProcessor.IsDescriptionMeta) == Some(DescriptionTag)
  {
    var d := TitleFallbackPage;
    var p := GenericHTMLProcessor.IsDescriptionMeta;
    OnlyMetaDescribes(d[0]);
    OnlyMetaDescribes(d[1]);
    OnlyMetaDescribes(d[2]);
    DescriptionTagFound();
    FiveElements(d);
    FirstMatchCons(d[3], [d[4]], p);
    FirstMatchCons(d[2], [d[3]] + [d[4]], p);
    FirstMatchCons(d[1], [d[2]] + ([d[3]] + [d[4]]), p);
    FirstMatchCons(d[0], [d[1]] + ([d[2]] + ([d[3]] + [d[4]])), p);
  }

  /** So is the second page's. */
  lemma DescriptionFoundOnSecondPage()
    ensures GenericHTMLProcessor.FindDescription(TitleFallbackPage) == Some("Hello, world")
  {
    DescriptionMetaOfSecondPage();
    DescriptionTagFound();
    FindDescriptionOf(TitleFallbackPage, DescriptionTag);
  }

  /** The second page's title text is "Title". */
  lemma TitleFoundOnSecondPage()
    ensures GenericHTMLProcessor.FindTitle(TitleFallbackPage) == Some("Title")
  {
    TitlesOfSecondPage();
    var titles := [TitleTag];
    assert titles[..0] == [];
    assert ElementsText(titles) == "Title";
  }

  lemma ApplyOneTag(props: map<string, Property>, a: Element)
    ensures OpenGraphProcessor.ApplyTags(props, [a]) == OpenGraphProcessor.ApplyTag(props, a)
  {
    assert [a][..0] == [];
  }

  lemma ApplyTwoTags(props: map<string, Property>, a: Element, b: Element)
    ensures OpenGraphProcessor.ApplyTags(props, [a, b]) == OpenGraphProcessor.ApplyTag(OpenGraphProcessor.ApplyTag(props, a), b)
  {
    assert [a, b][..1] == [a];
    ApplyOneTag(props, a);
  }

  /** The first page's tags store one write: the authoritative title. */
  lemma FirstPageStore()
    ensures OpenGraphProcessor.ApplyTags(map[], [OgTitleTag, DescriptionTag]) ==
              OpenGraphProcessor.Written(map[], OpenGraphProcessor.Write("title", None, true, "Title"))
  {
    ApplyTwoTags(map[], OgTitleTag, DescriptionTag);
    OpenGraphProcessor.OpenGraphTitle("Title");
    DescriptionTagSkipped();
  }

  /** That write leaves a title and no description. */
  lemma TitleWritten(url: Url)
    ensures var p := EmptyPreview(url).(properties := OpenGraphProcessor.Written(map[], OpenGraphProcessor.Write("title", None, true, "Title")));
            Title(p) == Some("Title") && Description(p) == None
  {
    var m := OpenGraphProcessor.Written(map[], OpenGraphProcessor.Write("title", None, true, "Title"));
    assert m.Keys == {"title"};
    assert OpenGraphProcessor.SlotOf(m, "title", None) == Some("Title");
  }

  /** On the first page the OpenGraph processor stores the authoritative title and nothing else. */
  lemma OpenGraphOnFirstPage(url: Url)
    ensures var p := OpenGraphProcessor.Updated(EmptyPreview(url), Some(DescriptionFallbackPage));
            Title(p) == Some("Title") && Description(p) == None
  {
    MetaTagsOfFirstPage();
    FirstPageStore();
    TitleWritten(url);
  }

  /** On the second page the OpenGraph processor finds no tag it accepts. */
  lemma OpenGraphOnSecondPage(url: Url)
    ensures OpenGraphProcessor.Updated(EmptyPreview(url), Some(TitleFallbackPage)) == EmptyPreview(url)
  {
    MetaTagsOfSecondPage();
    ApplyOneTag(map[], DescriptionTag);
    DescriptionTagSkipped();
  }

  /**
   * `descriptionFallback`: with the OpenGraph and generic processors active, the page
   * loads with the `og:title` as title and the description `meta` as description.
   */
  lemma DescriptionFallback(env: Environment, html: string, url: Url)
    requires url.host == Some("example.com")
    requires env.parseHtml(html, url.absoluteString) == Some(DescriptionFallbackPage)
    requires env.applies(OpenGraph, url) && env.applies(GenericHTML, url)
    ensures LoadedHtml(env, DefaultProcessors, DefaultOptions, html, url).Success?
    ensures var p := LoadedHtml(env, DefaultProcessors, DefaultOptions, html, url).value.preview;
            Title(p) == Some("Title") && Description(p) == Some("Hello, world")
  {
    var doc := DescriptionFallbackPage;
    var f, net := env.foundation, env.network;
    ExampleIsNotWikipedia(url);
    DefaultLoad(env, html, url, doc);
    var p1 := OpenGraphProcessor.Updated(EmptyPreview(url), Some(doc));
    OpenGraphOnFirstPage(url);
    GenericHTMLProcessor.UpdatedKeepsStrings(f, net, p1, url, doc, DefaultOptions);
    GenericHTMLProcessor.UpdatedDescription(f, net, p1, url, doc, DefaultOptions);
    DescriptionFoundOnFirstPage();
  }

  /**
   * `titleFallback`: with the generic processor active, the page loads with the
   * `<title>` text as title and the description `meta` as description.
   */
  lemma TitleFallback(env: Environment, html: string, url: Url)
    requires url.host == Some("example.com")
    requires env.parseHtml(html, url.absoluteString) == Some(TitleFallbackPage)
    requires env.applies(GenericHTML, url)
    ensures LoadedHtml(env, DefaultProcessors, DefaultOptions, html, url).Success?
    ensures var p := LoadedHtml(env, DefaultProcessors, DefaultOptions, html, url).value.preview;
            Title(p) == Some("Title") && Description(p) == Some("Hello, world")
  {
    var doc := TitleFallbackPage;
    var f, net := env.foundation, env.network;
    ExampleIsNotWikipedia(url);
    DefaultLoad(env, html, url, doc);
    var p0 := EmptyPreview(url);
    OpenGraphOnSecondPage(url);
    GenericHTMLProcessor.UpdatedTitle(f, net, p0, url, doc, DefaultOptions);
    GenericHTMLProcessor.UpdatedDescription(f, net, p0, url, doc, DefaultOptions);
    DescriptionFoundOnSecondPage();
    TitleFoundOnSecondPage();
  }
}
