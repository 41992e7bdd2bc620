/**
 * `GenericHTMLProcessor`: first-match searches over the document's `link` and `meta`
 * tags, then fill-if-absent updates of the canonical URL, title, description and
 * favicon, with an optional probe of `/favicon.ico` on the page's host.
 */
module GenericHTMLProcessor {
  import opened Wrappers
  import opened Urls
  import opened Text
  import opened Dom
  import opened Metadata
  import opened Previews
  import opened Processing

  /** The `rel` values that mark a favicon link, compared exactly. */
  const FaviconProperties := ["icon", "shortcut icon", "apple-touch-icon", "apple-touch-icon-precomposed"]

  /** The first element satisfying `p`, scanning in order. */
  function FirstMatch(es: seq<Element>, p: Element -> bool): (r: Option<Element>)
    ensures r.Some? ==> r.value in es && p(r.value)
    ensures r.None? <==> forall i :: 0 <= i < |es| ==> !p(es[i])
  {
    if es == [] then None
    else if p(es[0]) then Some(es[0])
    else
      var r := FirstMatch(es[1..], p);
      assert r.None? ==> forall i :: 0 <= i < |es| ==> !p(es[i]) by {
        if r.None? {
          forall i | 0 <= i < |es| ensures !p(es[i]) {
            if i > 0 {
              assert es[i] == es[1..][i - 1];
            }
          }
        }
      }
      r
  }

  /** What `FirstMatch` finds is preceded by no element satisfying `p`. */
  lemma {:induction false} FirstMatchIsFirst(es: seq<Element>, p: Element -> bool)
    requires FirstMatch(es, p).Some?
    ensures exists i :: 0 <= i < |es| && es[i] == FirstMatch(es, p).value && forall j :: 0 <= j < i ==> !p(es[j])
  {
    if !p(es[0]) {
      FirstMatchIsFirst(es[1..], p);
      var i :| 0 <= i < |es[1..]| && es[1..][i] == FirstMatch(es, p).value && forall j :: 0 <= j < i ==> !p(es[1..][j]);
      assert es[i + 1] == FirstMatch(es, p).value;
      assert forall j :: 0 <= j < i + 1 ==> !p(es[j]) by {
        forall j | 0 <= j < i + 1 ensures !p(es[j]) {
          if j > 0 {
            assert es[j] == es[1..][j - 1];
          }
        }
      }
    } else {
      assert es[0] == FirstMatch(es, p).value;
    }
  }

  /** Searching the elements a selector picks is searching the document for matching elements. */
  lemma {:induction false} FirstMatchOfSelect(doc: Document, s: Selector, p: Element -> bool, q: Element -> bool)
    requires forall e :: q(e) == (Matches(e, s) && p(e))
    ensures FirstMatch(Select(doc, s), p) == FirstMatch(doc, q)
  {
    if doc == [] {
      assert Select(doc, s) == [];
      assert FirstMatch(doc, q) == None;
    } else {
      var picked := Select(doc, s);
      var rest := Select(doc[1..], s);
      var head := doc[0];
      if q(head) {
        assert Matches(head, s) && p(head);
        assert picked == [head] + rest;
        assert picked[0] == head;
        assert FirstMatch(picked, p) == Some(head);
        assert FirstMatch(doc, q) == Some(head);
      } else {
        FirstMatchOfSelect(doc[1..], s, p, q);
        if Matches(head, s) {
          assert !p(head);
          assert picked == [head] + rest;
          assert picked[1..] == rest;
          assert FirstMatch(picked, p) == FirstMatch(rest, p);
        } else {
          assert picked == [] + rest;
          assert [] + rest == rest;
          assert picked == rest;
        }
        assert FirstMatch(doc, q) == FirstMatch(doc[1..], q);
      }
    }
  }

  /** `link[rel]`. */
  const LinkWithRel := WithAttribute("link", "rel")

  /** `(try? tag.attr("rel")) ?? ""`. */
  function Rel(e: Element): string
  {
    match Attr(e, "rel")
    case Some(rel) => rel
    case None => ""
  }

  /** The loop's test in `findFaviconURL`: a listed `rel` and an `href` that resolves. */
  predicate FaviconRel(e: Element)
  {
    Rel(e) in FaviconProperties && e.absHref.Some?
  }

  /** A favicon link of the document. */
  predicate IsFaviconLink(e: Element)
  {
    Matches(e, LinkWithRel) && FaviconRel(e)
  }

  /**
   * `findFaviconURL`: `URL(string:)` of the absolute `href` of the first link, in
   * document order, whose `rel` is exactly one of the four listed values; nil if none.
   */
  function FindFaviconURL(f: Foundation, doc: Document): (r: Option<Url>)
    ensures r == match FirstMatch(doc, IsFaviconLink)
                 case Some(e) => f.parse(e.absHref.value)
                 case None => None
  {
    FirstMatchOfSelect(doc, LinkWithRel, FaviconRel, IsFaviconLink);
    match FirstMatch(Select(doc, LinkWithRel), FaviconRel)
    case Some(tag) => f.parse(tag.absHref.value)
    case None => None
  }

  /** The loop's test in `findCanonicalURL`: `rel` is "canonical" ignoring case, and `absUrl` does not throw. */
  predicate CanonicalRel(e: Element)
  {
    "rel" in e.attributes && EqualsIgnoringCase(e.attributes["rel"], "canonical") && e.absHref.Some?
  }

  predicate IsCanonicalLink(e: Element)
  {
    Matches(e, LinkWithRel) && CanonicalRel(e)
  }

  /**
   * `findCanonicalURL`: the first link whose `rel` is "canonical" in any case; a link
   * whose attribute access throws is passed over, and no such link gives nil.
   */
  function FindCanonicalURL(f: Foundation, doc: Document): (r: Option<Url>)
    ensures r == match FirstMatch(doc, IsCanonicalLink)
                 case Some(e) => f.parse(e.absHref.value)
                 case None => None
  {
    FirstMatchOfSelect(doc, LinkWithRel, CanonicalRel, IsCanonicalLink);
    match FirstMatch(Select(doc, LinkWithRel), CanonicalRel)
    case Some(link) => f.parse(link.absHref.value)
    case None => None
  }

  /** `meta[name]`. */
  const MetaWithName := WithAttribute("meta", "name")

  /** The loop's test in `findDescription`: `name` is "description" in any case. */
  predicate NamedDescription(e: Element)
  {
    EqualsIgnoringCase(match Attr(e, "name") case Some(n) => n case None => "", "description")
  }

  predicate IsDescriptionMeta(e: Element)
  {
    Matches(e, MetaWithName) && NamedDescription(e)
  }

  /**
   * `findDescription`: the `content` of the first `meta` named "description" in any
   * case. The search stops at that tag even when it has no `content`.
   */
  function FindDescription(doc: Document): (r: Option<string>)
    ensures r == match FirstMatch(doc, IsDescriptionMeta)
                 case Some(e) => Attr(e, "content")
                 case None => None
  {
    FirstMatchOfSelect(doc, MetaWithName, NamedDescription, IsDescriptionMeta);
    match FirstMatch(Select(doc, MetaWithName), NamedDescription)
    case Some(metaTag) => Attr(metaTag, "content")
    case None => None
  }

  /** `findTitle`: the text of the `title` elements; never nil, empty when there is none. */
  function FindTitle(doc: Document): (r: Option<string>)
    ensures r.Some?
    ensures (forall e :: e in doc ==> e.tag != "title") ==> r == Some("")
  {
    var titles := Select(doc, ByTag("title"));
    assert (forall e :: e in doc ==> e.tag != "title") ==> titles == [] by {
      if titles != [] {
        assert titles[0] in titles;
      }
    }
    Some(ElementsText(titles))
  }

  /** A document with a single `title` element has that element's text as its title. */
  lemma FindTitleOfOneTitle(doc: Document, k: nat)
    requires k < |doc| && doc[k].tag == "title"
    requires forall i :: 0 <= i < |doc| && i != k ==> doc[i].tag != "title"
    ensures FindTitle(doc) == Some(doc[k].text)
  {
    SelectSingle(doc, ByTag("title"), k);
    assert ElementsText([doc[k]]) == doc[k].text by {
      assert [doc[k]][..0] == [];
    }
  }

  /**
   * When every `title` element has text, the title is their texts in document order,
   * separated by single spaces.
   */
  lemma FindTitleJoinsTexts(doc: Document)
    requires forall i :: 0 <= i < |doc| && doc[i].tag == "title" ==> doc[i].text != ""
    ensures FindTitle(doc) == Some(Join(Texts(Select(doc, ByTag("title"))), ' '))
  {
    var titles := Select(doc, ByTag("title"));
    forall i | 0 <= i < |titles| ensures titles[i].text != "" {
      assert titles[i] in titles;
    }
    ElementsTextJoins(titles);
  }

  /** The components `defaultFaviconIfExists` builds: the page URL's, with path `/favicon.ico`. */
  function ProbeComponents(f: Foundation, url: Url): (r: Option<UrlComponents>)
    ensures r.Some? <==> f.components(url).Some?
    ensures r.Some? ==>
              var c := f.components(url).value;
              && r.value.path == "/favicon.ico"
              && r.value.scheme == c.scheme && r.value.host == c.host && r.value.queryItems == c.queryItems
  {
    match f.components(url)
    case Some(components) => Some(components.(path := "/favicon.ico"))
    case None => None
  }

  /** The URL probed for a favicon, if the components make one. */
  function ProbeUrl(f: Foundation, url: Url): Option<Url>
  {
    match ProbeComponents(f, url)
    case Some(components) => f.url(components)
    case None => None
  }

  /** The requests the probe makes: one, if there is a URL to probe. */
  function ProbeRequests(f: Foundation, url: Url): seq<string>
  {
    match ProbeUrl(f, url)
    case Some(u) => [u.absoluteString]
    case None => []
  }

  /** `defaultFaviconIfExists`: the probe URL if the request answers 200; a throw or any other status gives nil. */
  function DefaultFaviconIfExists(f: Foundation, net: Network, url: Url): (r: Option<Url>)
    ensures r.Some? <==>
              && ProbeUrl(f, url).Some?
              && net.faviconProbe(ProbeUrl(f, url).value.absoluteString).Answered?
              && net.faviconProbe(ProbeUrl(f, url).value.absoluteString).status == StatusOK
    ensures r.Some? ==> r == ProbeUrl(f, url)
  {
    match ProbeUrl(f, url)
    case None => None
    case Some(probe) =>
      match net.faviconProbe(probe.absoluteString)
      case Answered(status, _) => if status == StatusOK then Some(probe) else None
      case Threw => None
  }

  /** The raw names this processor writes: `url`, `title`, `description` and `icon`. */
  predicate Filled(k: string)
  {
    k == CanonicalURLName.rawValue || k == TitleName.rawValue || k == DescriptionName.rawValue || k == FaviconURLName.rawValue
  }

  /**
   * One `if preview.x == nil { preview.x = found }` step: a write through the setter when
   * `isNil` holds. Only the entry `name` can change, and not if it has content.
   */
  function FillIfNil(p: LinkPreview, name: PropertyName, isNil: bool, v: Option<Value>): (r: LinkPreview)
    requires v.Some? ==> v.value.Kind() == name.kind
    ensures r.url == p.url
    ensures forall k :: k != name.rawValue ==> (k in r.properties <==> k in p.properties)
    ensures forall k :: k in p.properties && (k != name.rawValue || p.properties[k].content.Some?) ==>
              k in r.properties && r.properties[k] == p.properties[k]
  {
    if isNil then
      if name.rawValue in p.properties && p.properties[name.rawValue].content.Some? then
        SetNeverOverwrites(p, name, v);
        WithValue(p, name, v)
      else
        WithValue(p, name, v)
    else p
  }

  /** What the four document searches find. */
  datatype Findings = Findings(canonicalURL: Option<Url>, title: Option<string>, description: Option<string>, faviconURL: Option<Url>)

  function Search(f: Foundation, doc: Document): Findings
  {
    Findings(FindCanonicalURL(f, doc), FindTitle(doc), FindDescription(doc), FindFaviconURL(f, doc))
  }

  /** The preview after the four document searches, each applied only where its getter is nil. */
  function FilledFromDocument(f: Foundation, preview: LinkPreview, found: Findings): LinkPreview
  {
    var p1 := FillIfNil(preview, CanonicalURLName, UrlProperty(f, preview, CanonicalURLName).None?, UrlValueOf(found.canonicalURL));
    var p2 := FillIfNil(p1, TitleName, Title(p1).None?, StringValueOf(found.title));
    var p3 := FillIfNil(p2, DescriptionName, Description(p2).None?, StringValueOf(found.description));
    FillIfNil(p3, FaviconURLName, UrlProperty(f, p3, FaviconURLName).None?, UrlValueOf(found.faviconURL))
  }

  /** The probe step: made only when the favicon getter is nil and additional requests are allowed. */
  function Probed(f: Foundation, net: Network, filled: LinkPreview, url: Url, options: Options): (r: Outcome)
    ensures r.preview.url == filled.url
    ensures r.requests != [] ==> options.allowAdditionalRequests && UrlProperty(f, filled, FaviconURLName).None?
    ensures r.requests == [] || r.requests == ProbeRequests(f, url)
    ensures !options.allowAdditionalRequests ==> r == Outcome(filled, [])
  {
    if UrlProperty(f, filled, FaviconURLName).None? && options.allowAdditionalRequests
    then Outcome(FillIfNil(filled, FaviconURLName, true, UrlValueOf(DefaultFaviconIfExists(f, net, url))), ProbeRequests(f, url))
    else Outcome(filled, [])
  }

  /** `updateLinkPreview`: the document searches, then the `/favicon.ico` probe. */
  function Updated(f: Foundation, net: Network, preview: LinkPreview, url: Url, doc: Document, options: Options): (r: Outcome)
    ensures r.preview.url == preview.url
    ensures r.requests == [] || r.requests == ProbeRequests(f, url)
  {
    Probed(f, net, FilledFromDocument(f, preview, Search(f, doc)), url, options)
  }

  // The methods below are the source's statements written as writes through the setter;
  // each is proved equal to the specification function above, which the lemmas speak about.

  /** One `if preview.x == nil { preview.x = found }` step of `updateLinkPreview`. */
  method FillStep(p: LinkPreview, name: PropertyName, isNil: bool, v: Option<Value>) returns (r: LinkPreview)
    requires v.Some? ==> v.value.Kind() == name.kind
    ensures r == FillIfNil(p, name, isNil, v)
  {
    r := p;
    if isNil {
      r := Set(p, name, v);
    }
  }

  /** The four `if preview.x == nil { preview.x = found }` steps of `updateLinkPreview`, in the source's order. */
  method FillFromDocument(f: Foundation, preview: LinkPreview, found: Findings) returns (r: LinkPreview)
    ensures r == FilledFromDocument(f, preview, found)
  {
    r := FillStep(preview, CanonicalURLName, UrlProperty(f, preview, CanonicalURLName).None?, UrlValueOf(found.canonicalURL));
    r := FillStep(r, TitleName, Title(r).None?, StringValueOf(found.title));
    r := FillStep(r, DescriptionName, Description(r).None?, StringValueOf(found.description));
    r := FillStep(r, FaviconURLName, UrlProperty(f, r, FaviconURLName).None?, UrlValueOf(found.faviconURL));
  }

  /** `updateLinkPreview`, as a sequence of writes through the preview's setter. */
  method UpdateLinkPreview(f: Foundation, net: Network, preview: LinkPreview, url: Url, document: Document, options: Options)
    returns (r: LinkPreview, requests: seq<string>)
    ensures Outcome(r, requests) == Updated(f, net, preview, url, document, options)
  {
    var found := Search(f, document);
    r := FillFromDocument(f, preview, found);
    requests := [];
    if UrlProperty(f, r, FaviconURLName).None? && options.allowAdditionalRequests {
      requests := ProbeRequests(f, url);
      r := FillStep(r, FaviconURLName, true, UrlValueOf(DefaultFaviconIfExists(f, net, url)));
    }
  }

  /** The fill steps change only `url`, `title`, `description` and `icon`, and no entry with content. */
  lemma FilledFromDocumentFrame(f: Foundation, preview: LinkPreview, found: Findings)
    ensures var r := FilledFromDocument(f, preview, found);
            && r.url == preview.url
            && (forall k :: !Filled(k) ==> (k in r.properties <==> k in preview.properties))
            && (forall k :: k in preview.properties && (!Filled(k) || preview.properties[k].content.Some?) ==>
                  k in r.properties && r.properties[k] == preview.properties[k])
  {
  }

  /**
   * `updateLinkPreview` keeps the URL, changes only `url`, `title`, `description` and
   * `icon`, and never an entry that has content.
   */
  lemma UpdatedFrame(f: Foundation, net: Network, preview: LinkPreview, url: Url, doc: Document, options: Options)
    ensures var r := Updated(f, net, preview, url, doc, options).preview;
            && r.url == preview.url
            && (forall k :: !Filled(k) ==> (k in r.properties <==> k in preview.properties))
            && (forall k :: k in preview.properties && (!Filled(k) || preview.properties[k].content.Some?) ==>
                  k in r.properties && r.properties[k] == preview.properties[k])
  {
    FilledFromDocumentFrame(f, preview, Search(f, doc));
  }

  /**
   * The only request is the favicon probe, made only when the favicon getter is still
   * nil after the document searches and additional requests are allowed.
   */
  lemma UpdatedRequests(f: Foundation, net: Network, preview: LinkPreview, url: Url, doc: Document, options: Options)
    ensures var filled := FilledFromDocument(f, preview, Search(f, doc));
            var r := Updated(f, net, preview, url, doc, options);
            && (r.requests != [] ==> options.allowAdditionalRequests && UrlProperty(f, filled, FaviconURLName).None?)
            && (r.requests == [] || r.requests == ProbeRequests(f, url))
            && (!options.allowAdditionalRequests ==> r == Outcome(filled, []))
  {
  }

  /** A fill step for another name leaves a string accessor as it was. */
  lemma FillKeepsString(p: LinkPreview, name: PropertyName, isNil: bool, v: Option<Value>, other: PropertyName)
    requires v.Some? ==> v.value.Kind() == name.kind
    requires other.kind == StringKind && other.rawValue != name.rawValue
    ensures StringProperty(FillIfNil(p, name, isNil, v), other) == StringProperty(p, other)
  {
  }

  /** A fill step on a nil string accessor leaves it at the value found. */
  lemma FillSetsString(p: LinkPreview, name: PropertyName, s: Option<string>)
    requires name.kind == StringKind && StringProperty(p, name).None?
    ensures StringProperty(FillIfNil(p, name, true, StringValueOf(s)), name) == s
  {
  }

  /** With no title yet, the fill steps leave exactly the title found. */
  lemma FillsTitle(f: Foundation, preview: LinkPreview, found: Findings)
    requires Title(preview).None?
    ensures Title(FilledFromDocument(f, preview, found)) == found.title
  {
    var p1 := FillIfNil(preview, CanonicalURLName, UrlProperty(f, preview, CanonicalURLName).None?, UrlValueOf(found.canonicalURL));
    FillKeepsString(preview, CanonicalURLName, UrlProperty(f, preview, CanonicalURLName).None?, UrlValueOf(found.canonicalURL), TitleName);
    var p2 := FillIfNil(p1, TitleName, true, StringValueOf(found.title));
    FillSetsString(p1, TitleName, found.title);
    var p3 := FillIfNil(p2, DescriptionName, Description(p2).None?, StringValueOf(found.description));
    FillKeepsString(p2, DescriptionName, Description(p2).None?, StringValueOf(found.description), TitleName);
    FillKeepsString(p3, FaviconURLName, UrlProperty(f, p3, FaviconURLName).None?, UrlValueOf(found.faviconURL), TitleName);
  }

  /** With no description yet, the fill steps leave exactly the description found, or none. */
  lemma FillsDescription(f: Foundation, preview: LinkPreview, found: Findings)
    requires Description(preview).None?
    ensures Description(FilledFromDocument(f, preview, found)) == found.description
  {
    var p1 := FillIfNil(preview, CanonicalURLName, UrlProperty(f, preview, CanonicalURLName).None?, UrlValueOf(found.canonicalURL));
    FillKeepsString(preview, CanonicalURLName, UrlProperty(f, preview, CanonicalURLName).None?, UrlValueOf(found.canonicalURL), DescriptionName);
    var p2 := FillIfNil(p1, TitleName, Title(p1).None?, StringValueOf(found.title));
    FillKeepsString(p1, TitleName, Title(p1).None?, StringValueOf(found.title), DescriptionName);
    var p3 := FillIfNil(p2, DescriptionName, true, StringValueOf(found.description));
    FillSetsString(p2, DescriptionName, found.description);
    FillKeepsString(p3, FaviconURLName, UrlProperty(f, p3, FaviconURLName).None?, UrlValueOf(found.faviconURL), DescriptionName);
  }

  /** The probe step leaves every string accessor other than `icon` as it was. */
  lemma ProbedKeepsString(f: Foundation, net: Network, filled: LinkPreview, url: Url, options: Options, other: PropertyName)
    requires other.kind == StringKind && other.rawValue != FaviconURLName.rawValue
    ensures StringProperty(Probed(f, net, filled, url, options).preview, other) == StringProperty(filled, other)
  {
    if UrlProperty(f, filled, FaviconURLName).None? && options.allowAdditionalRequests {
      FillKeepsString(filled, FaviconURLName, true, UrlValueOf(DefaultFaviconIfExists(f, net, url)), other);
    }
  }

  /** With no title yet, `updateLinkPreview` leaves the title `findTitle` gives; the probe does not touch it. */
  lemma UpdatedTitle(f: Foundation, net: Network, preview: LinkPreview, url: Url, doc: Document, options: Options)
    requires Title(preview).None?
    ensures Title(Updated(f, net, preview, url, doc, options).preview) == FindTitle(doc)
  {
    var found := Search(f, doc);
    FillsTitle(f, preview, found);
    ProbedKeepsString(f, net, FilledFromDocument(f, preview, found), url, options, TitleName);
  }

  /** With no description yet, `updateLinkPreview` leaves the description `findDescription` gives, or none. */
  lemma UpdatedDescription(f: Foundation, net: Network, preview: LinkPreview, url: Url, doc: Document, options: Options)
    requires Description(preview).None?
    ensures Description(Updated(f, net, preview, url, doc, options).preview) == FindDescription(doc)
  {
    var found := Search(f, doc);
    FillsDescription(f, preview, found);
    ProbedKeepsString(f, net, FilledFromDocument(f, preview, found), url, options, DescriptionName);
  }

  /** A title or description already there stays as it is. */
  lemma UpdatedKeepsStrings(f: Foundation, net: Network, preview: LinkPreview, url: Url, doc: Document, options: Options)
    ensures Title(preview).Some? ==> Title(Updated(f, net, preview, url, doc, options).preview) == Title(preview)
    ensures Description(preview).Some? ==>
              Description(Updated(f, net, preview, url, doc, options).preview) == Description(preview)
  {
    UpdatedFrame(f, net, preview, url, doc, options);
  }

  /** The content the setter stores for a URL: its `absoluteString`. */
  function UrlContent(u: Option<Url>): Option<string>
  {
    match u
    case Some(x) => Some(x.absoluteString)
    case None => None
  }

  /** A fill step on an entry without content stores the value's content there. */
  lemma FillSetsContent(p: LinkPreview, name: PropertyName, v: Option<Value>)
    requires v.Some? ==> v.value.Kind() == name.kind
    requires !(name.rawValue in p.properties && p.properties[name.rawValue].content.Some?)
    ensures var r := FillIfNil(p, name, true, v);
            name.rawValue in r.properties && r.properties[name.rawValue].content == SerializedContent(v)
  {
  }

  /** With no `url` content yet, the fill steps store the content of the canonical URL found. */
  lemma FilledCanonicalURL(f: Foundation, preview: LinkPreview, found: Findings)
    requires !(CanonicalURLName.rawValue in preview.properties && preview.properties[CanonicalURLName.rawValue].content.Some?)
    ensures var r := FilledFromDocument(f, preview, found);
            CanonicalURLName.rawValue in r.properties && r.properties[CanonicalURLName.rawValue].content == UrlContent(found.canonicalURL)
  {
    FillSetsContent(preview, CanonicalURLName, UrlValueOf(found.canonicalURL));
    var p1 := FillIfNil(preview, CanonicalURLName, true, UrlValueOf(found.canonicalURL));
    var p2 := FillIfNil(p1, TitleName, Title(p1).None?, StringValueOf(found.title));
    var p3 := FillIfNil(p2, DescriptionName, Description(p2).None?, StringValueOf(found.description));
    assert p3.properties[CanonicalURLName.rawValue] == p1.properties[CanonicalURLName.rawValue];
  }

  /**
   * With no `url` content yet, `updateLinkPreview` stores the `absoluteString` of the
   * URL `findCanonicalURL` gives, or no content when it finds none.
   */
  lemma UpdatedCanonicalURL(f: Foundation, net: Network, preview: LinkPreview, url: Url, doc: Document, options: Options)
    requires !(CanonicalURLName.rawValue in preview.properties && preview.properties[CanonicalURLName.rawValue].content.Some?)
    ensures var r := Updated(f, net, preview, url, doc, options).preview;
            && CanonicalURLName.rawValue in r.properties
            && r.properties[CanonicalURLName.rawValue].content == UrlContent(FindCanonicalURL(f, doc))
  {
    var found := Search(f, doc);
    FilledCanonicalURL(f, preview, found);
    var filled := FilledFromDocument(f, preview, found);
    if UrlProperty(f, filled, FaviconURLName).None? && options.allowAdditionalRequests {
      var probed := FillIfNil(filled, FaviconURLName, true, UrlValueOf(DefaultFaviconIfExists(f, net, url)));
      assert probed.properties[CanonicalURLName.rawValue] == filled.properties[CanonicalURLName.rawValue];
    }
  }

  /** With no `icon` content yet, the fill steps store the content of the favicon found. */
  lemma FilledFavicon(f: Foundation, preview: LinkPreview, found: Findings)
    requires !(FaviconURLName.rawValue in preview.properties && preview.properties[FaviconURLName.rawValue].content.Some?)
    ensures var r := FilledFromDocument(f, preview, found);
            FaviconURLName.rawValue in r.properties && r.properties[FaviconURLName.rawValue].content == UrlContent(found.faviconURL)
  {
    var icon := FaviconURLName.rawValue;
    var p1 := FillIfNil(preview, CanonicalURLName, UrlProperty(f, preview, CanonicalURLName).None?, UrlValueOf(found.canonicalURL));
    assert (icon in p1.properties <==> icon in preview.properties) && (icon in preview.properties ==> p1.properties[icon] == preview.properties[icon]);
    var p2 := FillIfNil(p1, TitleName, Title(p1).None?, StringValueOf(found.title));
    assert (icon in p2.properties <==> icon in p1.properties) && (icon in p1.properties ==> p2.properties[icon] == p1.properties[icon]);
    var p3 := FillIfNil(p2, DescriptionName, Description(p2).None?, StringValueOf(found.description));
    assert (icon in p3.properties <==> icon in p2.properties) && (icon in p2.properties ==> p3.properties[icon] == p2.properties[icon]);
    assert UrlProperty(f, p3, FaviconURLName).None?;
    FillSetsContent(p3, FaviconURLName, UrlValueOf(found.faviconURL));
  }

  /** The probe stores the probed URL's content in an `icon` entry without content, and keeps content already there. */
  lemma ProbedFavicon(f: Foundation, net: Network, filled: LinkPreview, url: Url, options: Options)
    requires FaviconURLName.rawValue in filled.properties
    ensures var r := Probed(f, net, filled, url, options).preview;
            && FaviconURLName.rawValue in r.properties
            && r.properties[FaviconURLName.rawValue].content ==
                 if filled.properties[FaviconURLName.rawValue].content.None? && options.allowAdditionalRequests
                 then UrlContent(DefaultFaviconIfExists(f, net, url))
                 else filled.properties[FaviconURLName.rawValue].content
  {
    if UrlProperty(f, filled, FaviconURLName).None? && options.allowAdditionalRequests {
      var probe := UrlValueOf(DefaultFaviconIfExists(f, net, url));
      if filled.properties[FaviconURLName.rawValue].content.None? {
        FillSetsContent(filled, FaviconURLName, probe);
      } else {
        SetNeverOverwrites(filled, FaviconURLName, probe);
      }
    }
  }

  /**
   * With no `icon` content yet, `updateLinkPreview` stores the `absoluteString` of the
   * URL `findFaviconURL` gives; when it finds none and additional requests are allowed,
   * that of the probed `/favicon.ico`, if it answered 200; otherwise no content.
   */
  lemma UpdatedFavicon(f: Foundation, net: Network, preview: LinkPreview, url: Url, doc: Document, options: Options)
    requires !(FaviconURLName.rawValue in preview.properties && preview.properties[FaviconURLName.rawValue].content.Some?)
    ensures var r := Updated(f, net, preview, url, doc, options).preview;
            && FaviconURLName.rawValue in r.properties
            && r.properties[FaviconURLName.rawValue].content ==
                 if FindFaviconURL(f, doc).Some? then UrlContent(FindFaviconURL(f, doc))
                 else if options.allowAdditionalRequests then UrlContent(DefaultFaviconIfExists(f, net, url))
                 else None
  {
    var found := Search(f, doc);
    FilledFavicon(f, preview, found);
    ProbedFavicon(f, net, FilledFromDocument(f, preview, found), url, options);
  }
}
