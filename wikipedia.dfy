/**
 * `WikipediaAPIProcessor`: for `wikipedia.org` pages that still lack a description,
 * take the article's short description from the document, or else ask the Wikipedia
 * API for the article's introduction and fill the title and description from it.
 */
module WikipediaAPIProcessor {
  import opened Wrappers
  import opened Urls
  import opened UrlExtensions
  import opened Text
  import opened Dom
  import opened Metadata
  import opened Previews
  import opened Processing

  /** `div.shortdescription`. */
  const ShortDescriptionSelector := WithClass("div", "shortdescription")

  /**
   * The text of the document's short-description elements: empty when there are none,
   * and their texts in document order, separated by spaces, when each has text.
   */
  function ShortDescription(doc: Document): (r: string)
    ensures (forall i :: 0 <= i < |doc| ==> !Matches(doc[i], ShortDescriptionSelector)) ==> r == ""
    ensures (forall i :: 0 <= i < |doc| && Matches(doc[i], ShortDescriptionSelector) ==> doc[i].text != "") ==>
              r == Join(Texts(Select(doc, ShortDescriptionSelector)), ' ')
  {
    var selected := Select(doc, ShortDescriptionSelector);
    assert (forall i :: 0 <= i < |doc| ==> !Matches(doc[i], ShortDescriptionSelector)) ==> selected == [] by {
      if forall i :: 0 <= i < |doc| ==> !Matches(doc[i], ShortDescriptionSelector) {
        SelectNone(doc, ShortDescriptionSelector);
      }
    }
    assert (forall i :: 0 <= i < |doc| && Matches(doc[i], ShortDescriptionSelector) ==> doc[i].text != "") ==>
           ElementsText(selected) == Join(Texts(selected), ' ') by {
      if forall i :: 0 <= i < |doc| && Matches(doc[i], ShortDescriptionSelector) ==> doc[i].text != "" {
        forall i | 0 <= i < |selected| ensures selected[i].text != "" {
          assert selected[i] in selected;
        }
        ElementsTextJoins(selected);
      }
    }
    ElementsText(selected)
  }

  /** The query of the API request: the plain-text introduction of the article named by the URL's last path component. */
  function ApiQueryItems(url: Url): seq<QueryItem>
  {
    [ QueryItem("action", Some("query")),
      QueryItem("titles", Some(url.lastPathComponent)),
      QueryItem("exintro", None),
      QueryItem("format", Some("json")),
      QueryItem("prop", Some("extracts")),
      QueryItem("explaintext", None) ]
  }

  /** The components of the API request: `https`, the page's host, `/w/api.php` and the query. */
  function ApiComponents(url: Url): UrlComponents
  {
    UrlComponents(Some("https"), url.host, "/w/api.php", Some(ApiQueryItems(url)))
  }

  /**
   * The URL of the API request, if the components make one: `https://<host>/w/api.php`
   * with `action=query`, `titles=<last path component>`, `exintro`, `format=json`,
   * `prop=extracts` and `explaintext`, in that order.
   */
  function ApiUrl(f: Foundation, url: Url): (r: Option<Url>)
    ensures r == f.url(UrlComponents(Some("https"), url.host, "/w/api.php",
                                     Some([QueryItem("action", Some("query")), QueryItem("titles", Some(url.lastPathComponent)),
                                           QueryItem("exintro", None), QueryItem("format", Some("json")),
                                           QueryItem("prop", Some("extracts")), QueryItem("explaintext", None)])))
  {
    f.url(ApiComponents(url))
  }

  /** The two fills from a page record: the title if the getter is nil, then the description if it is nil. */
  function FromPage(preview: LinkPreview, page: WikiPage): (r: LinkPreview)
    ensures r.url == preview.url
  {
    var titled :=
      if Title(preview).None? && page.title.Some?
      then WithValue(preview, TitleName, StringValueOf(page.title)) else preview;
    if Description(titled).None? && page.extract.Some?
    then WithValue(titled, DescriptionName, StringValueOf(page.extract)) else titled
  }

  /** What the API answer does: only a 200 answer carrying a page record fills anything. */
  function FromAnswer(preview: LinkPreview, answer: Exchange<Option<WikiPage>>): LinkPreview
  {
    match answer
    case Answered(status, Some(page)) => if status == StatusOK then FromPage(preview, page) else preview
    case _ => preview
  }

  /** The API step, once the guards before it have passed. */
  function Fetched(f: Foundation, net: Network, preview: LinkPreview, url: Url): (r: Outcome)
    ensures r.preview.url == preview.url
    ensures r.requests == [] || (ApiUrl(f, url).Some? && r.requests == [ApiUrl(f, url).value.absoluteString])
  {
    match ApiUrl(f, url)
    case None => Outcome(preview, [])
    case Some(api) => Outcome(FromAnswer(preview, net.wikipedia(api.absoluteString)), [api.absoluteString])
  }

  /** `updateLinkPreview`: the guards in the source's order, then the short description, then the API. */
  function Updated(f: Foundation, net: Network, preview: LinkPreview, url: Url, document: Option<Document>, options: Options): (r: Outcome)
    ensures r.preview.url == preview.url
    ensures r.requests == [] || (ApiUrl(f, url).Some? && r.requests == [ApiUrl(f, url).value.absoluteString])
  {
    if BaseHostName(url) != Some("wikipedia.org") || document.None? || Description(preview).Some? then Outcome(preview, [])
    else if ShortDescription(document.value) != "" then
      Outcome(WithValue(preview, DescriptionName, Some(StringValue(ShortDescription(document.value)))), [])
    else if !options.allowAdditionalRequests then Outcome(preview, [])
    else Fetched(f, net, preview, url)
  }

  /** The request and answer handling of `updateLinkPreview`, through the preview's setter. */
  method Fetch(f: Foundation, net: Network, preview: LinkPreview, url: Url) returns (r: LinkPreview, requests: seq<string>)
    ensures Outcome(r, requests) == Fetched(f, net, preview, url)
  {
    r := preview;
    requests := [];
    var components := EmptyComponents;
    components := components.(scheme := Some("https"));
    components := components.(host := url.host);
    components := components.(path := "/w/api.php");
    components := components.(queryItems := Some(ApiQueryItems(url)));
    var api := f.url(components);
    if api.None? {
      return;
    }
    requests := [api.value.absoluteString];
    var response := net.wikipedia(api.value.absoluteString);
    if response.Threw? || response.status != StatusOK || response.payload.None? {
      return;
    }
    var page := response.payload.value;
    if Title(r).None? && page.title.Some? {
      r := Set(r, TitleName, Some(StringValue(page.title.value)));
    }
    if Description(r).None? && page.extract.Some? {
      r := Set(r, DescriptionName, Some(StringValue(page.extract.value)));
    }
  }

  /** `updateLinkPreview`, with `preview` updated in place and the requests it makes. */
  method UpdateLinkPreview(f: Foundation, net: Network, preview: LinkPreview, url: Url, document: Option<Document>, options: Options)
    returns (r: LinkPreview, requests: seq<string>)
    ensures Outcome(r, requests) == Updated(f, net, preview, url, document, options)
  {
    r := preview;
    requests := [];
    if BaseHostName(url) != Some("wikipedia.org") {
      return;
    }
    if document.None? {
      return;
    }
    if Description(r).Some? {
      return;
    }
    var text := ElementsText(Select(document.value, ShortDescriptionSelector));
    if text != "" {
      r := Set(r, DescriptionName, Some(StringValue(text)));
      return;
    }
    if !options.allowAdditionalRequests {
      return;
    }
    r, requests := Fetch(f, net, preview, url);
  }

  /** Without a short description and without permission for additional requests, nothing changes and nothing is requested. */
  lemma NoRequestsLeavesAlone(f: Foundation, net: Network, preview: LinkPreview, url: Url, document: Option<Document>, options: Options)
    requires document.Some? ==> ShortDescription(document.value) == ""
    requires !options.allowAdditionalRequests
    ensures Updated(f, net, preview, url, document, options) == Outcome(preview, [])
  {
  }

  /** Pages outside `wikipedia.org`, missing documents and previews that have a description are left alone, with no request. */
  lemma GuardsLeaveAlone(f: Foundation, net: Network, preview: LinkPreview, url: Url, document: Option<Document>, options: Options)
    requires BaseHostName(url) != Some("wikipedia.org") || document.None? || Description(preview).Some?
    ensures Updated(f, net, preview, url, document, options) == Outcome(preview, [])
  {
  }

  /** A non-empty short description becomes the description, and nothing is requested. */
  lemma ShortDescriptionUsed(f: Foundation, net: Network, preview: LinkPreview, url: Url, doc: Document, options: Options)
    requires BaseHostName(url) == Some("wikipedia.org") && Description(preview).None?
    requires ShortDescription(doc) != ""
    ensures var r := Updated(f, net, preview, url, Some(doc), options);
            && Description(r.preview) == Some(ShortDescription(doc))
            && r.requests == []
  {
  }

  /**
   * The only request is one to the API, made only when every guard has passed, there is
   * no short description and additional requests are allowed.
   */
  lemma UpdatedRequests(f: Foundation, net: Network, preview: LinkPreview, url: Url, document: Option<Document>, options: Options)
    ensures var r := Updated(f, net, preview, url, document, options);
            r.requests != [] ==>
              && options.allowAdditionalRequests
              && BaseHostName(url) == Some("wikipedia.org")
              && document.Some? && ShortDescription(document.value) == ""
              && Description(preview).None?
              && ApiUrl(f, url).Some?
              && r.requests == [ApiUrl(f, url).value.absoluteString]
  {
  }

  /** The API request goes to `https`, the page's host and `/w/api.php`, and asks for the article the URL names. */
  lemma ApiRequestNamesArticle(url: Url)
    ensures var c := ApiComponents(url);
            c.scheme == Some("https") && c.host == url.host && c.path == "/w/api.php"
              && QueryItem("titles", Some(url.lastPathComponent)) in c.queryItems.value
  {
    assert ApiQueryItems(url)[1] == QueryItem("titles", Some(url.lastPathComponent));
  }

  /** Without a page record in a 200 answer, the API step changes nothing. */
  lemma FailedAnswerLeavesAlone(preview: LinkPreview, answer: Exchange<Option<WikiPage>>)
    requires answer.Threw? || answer.status != StatusOK || answer.payload.None?
    ensures FromAnswer(preview, answer) == preview
  {
  }

  /**
   * A page record gives a preview without a description the page's extract, and a
   * preview without a title the page's title; a title already there stays.
   */
  lemma FromPageFills(preview: LinkPreview, page: WikiPage)
    requires Description(preview).None?
    ensures Description(FromPage(preview, page)) == page.extract
    ensures Title(FromPage(preview, page)) == Title(preview).OrElse(page.title)
  {
    var titled :=
      if Title(preview).None? && page.title.Some?
      then WithValue(preview, TitleName, StringValueOf(page.title)) else preview;
    assert Description(titled).None?;
  }

  /**
   * `after` has the URL of `before`, the same keys apart from `title` and `description`,
   * and every entry of `before` that has content.
   */
  ghost predicate Kept(before: LinkPreview, after: LinkPreview)
  {
    && after.url == before.url
    && (forall k :: k != TitleName.rawValue && k != DescriptionName.rawValue ==>
          (k in after.properties <==> k in before.properties))
    && (forall k :: k in before.properties && before.properties[k].content.Some? ==>
          k in after.properties && after.properties[k] == before.properties[k])
  }

  lemma KeptTransitive(a: LinkPreview, b: LinkPreview, c: LinkPreview)
    requires Kept(a, b) && Kept(b, c)
    ensures Kept(a, c)
  {
  }

  /** A write through the setter to `title` or `description` keeps the rest. */
  lemma WithValueKept(p: LinkPreview, name: PropertyName, v: Option<Value>)
    requires name == TitleName || name == DescriptionName
    requires v.Some? ==> v.value.Kind() == name.kind
    ensures Kept(p, WithValue(p, name, v))
  {
  }

  lemma FromPageKept(preview: LinkPreview, page: WikiPage)
    ensures Kept(preview, FromPage(preview, page))
  {
    var titled :=
      if Title(preview).None? && page.title.Some?
      then WithValue(preview, TitleName, StringValueOf(page.title)) else preview;
    if Title(preview).None? && page.title.Some? {
      WithValueKept(preview, TitleName, StringValueOf(page.title));
    }
    if Description(titled).None? && page.extract.Some? {
      WithValueKept(titled, DescriptionName, StringValueOf(page.extract));
      KeptTransitive(preview, titled, FromPage(preview, page));
    }
  }

  lemma FetchedKept(f: Foundation, net: Network, preview: LinkPreview, url: Url)
    ensures Kept(preview, Fetched(f, net, preview, url).preview)
  {
    match ApiUrl(f, url)
    case None =>
    case Some(api) =>
      match net.wikipedia(api.absoluteString)
      case Answered(status, Some(page)) =>
        if status == StatusOK {
          FromPageKept(preview, page);
        }
      case _ =>
  }

  /** The URL is kept, and only the `title` and `description` entries can change, and only where they have no content. */
  lemma UpdatedFrame(f: Foundation, net: Network, preview: LinkPreview, url: Url, document: Option<Document>, options: Options)
    ensures Kept(preview, Updated(f, net, preview, url, document, options).preview)
  {
    var r := Updated(f, net, preview, url, document, options);
    if BaseHostName(url) != Some("wikipedia.org") || document.None? || Description(preview).Some? {
      assert r.preview == preview;
    } else if ShortDescription(document.value) != "" {
      var v := Some(StringValue(ShortDescription(document.value)));
      assert r.preview == WithValue(preview, DescriptionName, v);
      WithValueKept(preview, DescriptionName, v);
    } else if !options.allowAdditionalRequests {
      assert r.preview == preview;
    } else {
      assert r == Fetched(f, net, preview, url);
      FetchedKept(f, net, preview, url);
    }
  }

  /** The article subdomains pass the host guard: `en.wikipedia.org` has base host name `wikipedia.org`. */
  lemma EnglishWikipediaRecognised(url: Url)
    requires url.host == Some("en.wikipedia.org")
    ensures BaseHostName(url) == Some("wikipedia.org")
  {
    BaseHostOfWikipedia();
  }
}
