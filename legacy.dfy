/**
 * The older one-file revision of the package (`Sources/LinkPreview.swift`): an
 * `OpenGraphMetadata` built once from the document's `meta[property]` tags, where the
 * last tag for a slot wins, and a `LinkPreview` that keeps the parsed document and
 * answers its accessors from those properties, falling back to searches of the document.
 */
module LegacyLinkPreview {
  import opened Wrappers
  import opened Urls
  import opened Text
  import opened Dom
  import opened Metadata
  import GenericHTMLProcessor
  import Processing
  import Provider

  /** `OpenGraphProperty`. */
  datatype OpenGraphProperty = OpenGraphProperty(name: string, content: Option<string>, metadata: map<string, string>)

  /** `.init(name:)`: no content and no metadata. */
  function NamedProperty(name: string): OpenGraphProperty
  {
    OpenGraphProperty(name, None, map[])
  }

  /** `OpenGraphMetadata`: the page URL and the properties by name. */
  datatype OpenGraphMetadata = OpenGraphMetadata(url: Url, properties: map<string, OpenGraphProperty>)

  /** `meta[property]`. */
  const MetaWithProperty := WithAttribute("meta", "property")

  /** The key after `og:` of a tag whose `property` is non-empty and starts with `og:`; none for any other tag. */
  function OgKey(e: Element): (r: Option<string>)
    ensures r.Some? <==> "property" in e.attributes && e.attributes["property"] != "" && HasPrefix(e.attributes["property"], "og:")
    ensures r.Some? ==> e.attributes["property"] == "og:" + r.value
  {
    match Attr(e, "property")
    case None => None
    case Some(property) =>
      if property == "" || !HasPrefix(property, "og:") then None
      else
        assert property == property[..3] + property[3..];
        Some(property[3..])
  }

  /** What one tag asks the loop to store: the content of a property, or one of its metadata fields. */
  datatype TagWrite =
    | ContentWrite(name: string, content: string)
    | MetadataWrite(name: string, field: string, content: string)

  /**
   * The loop body traps: the key after `og:` holds a `:` but splits into fewer than two
   * non-empty pieces (`og:title:`, `og::`), so `pieces[1]` is out of range.
   */
  predicate Traps(e: Element)
  {
    OgKey(e).Some? && Attr(e, "content").Some? && ':' in OgKey(e).value && |Split(OgKey(e).value, ':')| < 2
  }

  /** One tag's write as the loop body is written, where it does not trap. */
  function WriteAsWritten(e: Element): Option<TagWrite>
    requires !Traps(e)
  {
    match OgKey(e)
    case None => None
    case Some(property) =>
      match Attr(e, "content")
      case None => None
      case Some(content) =>
        if ':' in property then
          var pieces := Split(property, ':');
          Some(MetadataWrite(pieces[0], pieces[1], content))
        else Some(ContentWrite(property, content))
  }

  /**
   * One tag's write with `pieces` bounds-checked: a key with a `:` but a single piece
   * writes that piece's content, as the later revision's processor does, and a key with
   * no piece is skipped. Only `og:` tags that carry `content` write anything.
   */
  function Write(e: Element): (r: Option<TagWrite>)
    ensures r.Some? ==> OgKey(e).Some? && Attr(e, "content") == Some(r.value.content)
    ensures OgKey(e).Some? && Attr(e, "content").Some? && ':' !in OgKey(e).value ==>
              r == Some(ContentWrite(OgKey(e).value, Attr(e, "content").value))
    ensures r.Some? && r.value.MetadataWrite? ==>
              var pieces := Split(OgKey(e).value, ':');
              |pieces| >= 2 && r.value.name == pieces[0] && r.value.field == pieces[1]
    ensures OgKey(e).Some? && Attr(e, "content").Some? && ':' in OgKey(e).value ==>
              var pieces := Split(OgKey(e).value, ':');
              var c := Attr(e, "content").value;
              r == if |pieces| >= 2 then Some(MetadataWrite(pieces[0], pieces[1], c))
                   else if |pieces| == 1 then Some(ContentWrite(pieces[0], c))
                   else None
  {
    match OgKey(e)
    case None => None
    case Some(property) =>
      match Attr(e, "content")
      case None => None
      case Some(content) =>
        if ':' in property then
          var pieces := Split(property, ':');
          if |pieces| >= 2 then Some(MetadataWrite(pieces[0], pieces[1], content))
          else if |pieces| == 1 then Some(ContentWrite(pieces[0], content))
          else None
        else Some(ContentWrite(property, content))
  }

  /** Wherever the loop body as written does not trap, the bounds-checked write is the same. */
  lemma WriteAgreesWhereNoTrap(e: Element)
    requires !Traps(e)
    ensures Write(e) == WriteAsWritten(e)
  {
  }

  /** The pieces of `title:`. */
  lemma SplitTrailingColon()
    ensures Split("title:", ':') == ["title"]
  {
    assert Join(["title", ""], ':') == "title:";
    FieldsOfJoin(["title", ""], ':');
    assert NonEmptyOnly(["title", ""]) == ["title"] + NonEmptyOnly([""]);
    assert NonEmptyOnly([""]) == [] + NonEmptyOnly([]);
  }

  /** `<meta property="og:title:" content=…>` traps the loop as written; the bounds-checked loop stores the title. */
  lemma TrailingColonTraps(c: string)
    ensures var e := Element("meta", map["property" := "og:title:", "content" := c], None, "");
            Traps(e) && Write(e) == Some(ContentWrite("title", c))
  {
    var e := Element("meta", map["property" := "og:title:", "content" := c], None, "");
    assert OgKey(e) == Some("title:");
    assert Attr(e, "content") == Some(c);
    SplitTrailingColon();
  }

  /** Storing a write: the target property, created with its name when absent, gets the value in the addressed slot. */
  function Stored(props: map<string, OpenGraphProperty>, w: TagWrite): (r: map<string, OpenGraphProperty>)
    ensures r.Keys == props.Keys + {w.name}
    ensures forall k :: k in props && k != w.name ==> r[k] == props[k]
  {
    var before := if w.name in props then props[w.name] else NamedProperty(w.name);
    match w
    case ContentWrite(name, content) => props[name := before.(content := Some(content))]
    case MetadataWrite(name, field, content) => props[name := before.(metadata := before.metadata[field := content])]
  }

  /** One loop iteration: a tag without a write changes nothing. */
  function StoredTag(props: map<string, OpenGraphProperty>, e: Element): map<string, OpenGraphProperty>
  {
    match Write(e)
    case None => props
    case Some(w) => Stored(props, w)
  }

  /** The properties after the loop has seen `tags`, in document order. */
  function StoredTags(props: map<string, OpenGraphProperty>, tags: seq<Element>): map<string, OpenGraphProperty>
  {
    if tags == [] then props
    else StoredTag(StoredTags(props, tags[..|tags| - 1]), tags[|tags| - 1])
  }

  /** `OpenGraphMetadata(document:at:)`. */
  function Parsed(document: Document, url: Url): OpenGraphMetadata
  {
    OpenGraphMetadata(url, StoredTags(map[], Select(document, MetaWithProperty)))
  }

  /** The body of the loop of `init(document:at:)`, with `continue` as `return`. */
  method StoreTag(props: map<string, OpenGraphProperty>, metaTag: Element) returns (r: map<string, OpenGraphProperty>)
    ensures r == StoredTag(props, metaTag)
  {
    r := props;
    var attribute := Attr(metaTag, "property");
    if attribute.None? {
      return;
    }
    var property := attribute.value;
    if property == "" {
      return;
    }
    if HasPrefix(property, "og:") {
      property := property[3..];
      var content := Attr(metaTag, "content");
      if content.None? {
        return;
      }
      if ':' in property {
        var pieces := Split(property, ':');
        if |pieces| >= 2 {
          var title := pieces[0];
          var metadataTitle := pieces[1];
          var entry := if title in r then r[title] else NamedProperty(title);
          r := r[title := entry.(metadata := entry.metadata[metadataTitle := content.value])];
        } else if |pieces| == 1 {
          var title := pieces[0];
          var entry := if title in r then r[title] else NamedProperty(title);
          r := r[title := entry.(content := content)];
        }
      } else {
        var entry := if property in r then r[property] else NamedProperty(property);
        r := r[property := entry.(content := content)];
      }
    }
  }

  /**
   * `init(document:at:)` with its loop body bounds-checked (see `Write`): the
   * `meta[property]` tags, tag by tag, into a local dictionary. On a tag that meets
   * `Traps` the source traps, while this loop stores the write `Write` gives.
   */
  method Parse(document: Document, url: Url) returns (m: OpenGraphMetadata)
    ensures m == Parsed(document, url)
  {
    var properties: map<string, OpenGraphProperty> := map[];
    var metaTags := Select(document, MetaWithProperty);
    for i := 0 to |metaTags|
      invariant properties == StoredTags(map[], metaTags[..i])
    {
      assert metaTags[..i + 1][..i] == metaTags[..i];
      properties := StoreTag(properties, metaTags[i]);
    }
    assert metaTags[..|metaTags|] == metaTags;
    m := OpenGraphMetadata(url, properties);
  }

  /** The value in a slot: a property's content (no field) or one of its metadata fields; none without the property. */
  function Slot(props: map<string, OpenGraphProperty>, name: string, field: Option<string>): Option<string>
  {
    if name !in props then None
    else match field
      case None => props[name].content
      case Some(f) => if f in props[name].metadata then Some(props[name].metadata[f]) else None
  }

  /** Whether a write is aimed at a slot. */
  predicate Hits(w: TagWrite, name: string, field: Option<string>)
  {
    w.name == name && match w
      case ContentWrite(_, _) => field.None?
      case MetadataWrite(_, f, _) => field == Some(f)
  }

  /** The value of the last write among `tags` aimed at a slot; none if no tag writes it. */
  function LastWrite(tags: seq<Element>, name: string, field: Option<string>): (r: Option<string>)
    ensures r.Some? ==> exists i :: 0 <= i < |tags| && Write(tags[i]).Some? && Hits(Write(tags[i]).value, name, field)
  {
    if tags == [] then None
    else
      var w := Write(tags[|tags| - 1]);
      if w.Some? && Hits(w.value, name, field) then Some(w.value.content)
      else
        var r := LastWrite(tags[..|tags| - 1], name, field);
        assert r.Some? ==> exists i :: 0 <= i < |tags| && Write(tags[i]).Some? && Hits(Write(tags[i]).value, name, field) by {
          if r.Some? {
            var i :| 0 <= i < |tags[..|tags| - 1]| && Write(tags[..|tags| - 1][i]).Some? && Hits(Write(tags[..|tags| - 1][i]).value, name, field);
            assert tags[..|tags| - 1][i] == tags[i];
          }
        }
        r
  }

  /** One write overwrites the slot it aims at and leaves every other slot as it was. */
  lemma StoredSlot(props: map<string, OpenGraphProperty>, w: TagWrite, name: string, field: Option<string>)
    ensures Slot(Stored(props, w), name, field) == if Hits(w, name, field) then Some(w.content) else Slot(props, name, field)
  {
  }

  /**
   * Last writer wins: after the loop, a slot holds the value of the last tag aimed at it,
   * or what it held before if no tag writes it.
   */
  lemma {:induction false} LastWriterWins(props: map<string, OpenGraphProperty>, tags: seq<Element>, name: string, field: Option<string>)
    ensures Slot(StoredTags(props, tags), name, field) == LastWrite(tags, name, field).OrElse(Slot(props, name, field))
  {
    if tags != [] {
      var prefix := tags[..|tags| - 1];
      var last := tags[|tags| - 1];
      LastWriterWins(props, prefix, name, field);
      match Write(last)
      case None =>
      case Some(w) => StoredSlot(StoredTags(props, prefix), w, name, field);
    }
  }

  /** Every stored property carries the name it is stored under. */
  predicate NamesMatchKeys(props: map<string, OpenGraphProperty>)
  {
    forall k :: k in props ==> props[k].name == k
  }

  lemma {:induction false} StoredTagsKeepNames(props: map<string, OpenGraphProperty>, tags: seq<Element>)
    requires NamesMatchKeys(props)
    ensures NamesMatchKeys(StoredTags(props, tags))
  {
    if tags != [] {
      StoredTagsKeepNames(props, tags[..|tags| - 1]);
    }
  }

  /** Tags that are not `og:` tags with `content` change nothing. */
  lemma NonOpenGraphTagSkipped(props: map<string, OpenGraphProperty>, e: Element)
    requires OgKey(e).None? || "content" !in e.attributes
    ensures StoredTag(props, e) == props
  {
  }

  /** The subscript: nil without the property or its content, else the content parsed as the name's type at the page URL. */
  function Get(f: Foundation, m: OpenGraphMetadata, name: PropertyName): (r: Option<Value>)
    ensures name.rawValue !in m.properties ==> r.None?
    ensures name.rawValue in m.properties && m.properties[name.rawValue].content.None? ==> r.None?
    ensures name.rawValue in m.properties && m.properties[name.rawValue].content.Some? ==>
              r == ParseValue(f, name.kind, m.properties[name.rawValue].content.value, m.url)
    ensures r.Some? ==> r.value.Kind() == name.kind
  {
    if name.rawValue !in m.properties then None
    else match m.properties[name.rawValue].content
      case None => None
      case Some(content) => ParseValue(f, name.kind, content, m.url)
  }

  /** The subscript at a string name: the stored content. */
  function OgText(f: Foundation, m: OpenGraphMetadata, name: PropertyName): (r: Option<string>)
    requires name.kind == StringKind
    ensures r == Slot(m.properties, name.rawValue, None)
  {
    match Get(f, m, name)
    case Some(StringValue(s)) => Some(s)
    case _ => None
  }

  /** `LinkPreview`: the page URL, its parsed document and its OpenGraph metadata. */
  datatype Preview = Preview(url: Url, document: Document, openGraph: OpenGraphMetadata)

  /** `init(html:url:)`: the parse, which may throw, then the OpenGraph metadata of the document. */
  function FromHtml(parseHtml: (string, string) -> Option<Document>, html: string, url: Url): (r: Result<Preview, Provider.LoadError>)
    ensures r.Failure? <==> parseHtml(html, url.absoluteString).None?
    ensures r.Failure? ==> r.error == Provider.Thrown
    ensures r.Success? ==> r.value.url == url && r.value.document == parseHtml(html, url.absoluteString).value
    ensures r.Success? ==> r.value.openGraph == Parsed(r.value.document, url)
  {
    match parseHtml(html, url.absoluteString)
    case None => Failure(Provider.Thrown)
    case Some(document) => Success(Preview(url, document, Parsed(document, url)))
  }

  /** `faviconURL`: the first `link`, in document order, whose `rel` is exactly one of the four listed values. */
  function FaviconURL(f: Foundation, p: Preview): (r: Option<Url>)
    ensures r == match GenericHTMLProcessor.FirstMatch(p.document, GenericHTMLProcessor.IsFaviconLink)
                 case Some(e) => f.parse(e.absHref.value)
                 case None => None
  {
    GenericHTMLProcessor.FindFaviconURL(f, p.document)
  }

  /**
   * `canonicalURL`: the first link whose `rel` is "canonical" in any case, a link whose
   * `href` does not resolve passed over; the page's own URL when there is none.
   */
  function CanonicalURL(f: Foundation, p: Preview): (r: Option<Url>)
    ensures r == match GenericHTMLProcessor.FirstMatch(p.document, GenericHTMLProcessor.IsCanonicalLink)
                 case Some(e) => f.parse(e.absHref.value)
                 case None => Some(p.url)
  {
    GenericHTMLProcessor.FirstMatchOfSelect(p.document, GenericHTMLProcessor.LinkWithRel,
      GenericHTMLProcessor.CanonicalRel, GenericHTMLProcessor.IsCanonicalLink);
    match GenericHTMLProcessor.FirstMatch(Select(p.document, GenericHTMLProcessor.LinkWithRel), GenericHTMLProcessor.CanonicalRel)
    case Some(link) => f.parse(link.absHref.value)
    case None => Some(p.url)
  }

  /** Where a canonical link exists both revisions pick the same one; without one, this revision falls back to the page URL and the later one gives nil. */
  lemma CanonicalAcrossRevisions(f: Foundation, p: Preview)
    ensures GenericHTMLProcessor.FirstMatch(p.document, GenericHTMLProcessor.IsCanonicalLink).Some? ==>
              CanonicalURL(f, p) == GenericHTMLProcessor.FindCanonicalURL(f, p.document)
    ensures GenericHTMLProcessor.FirstMatch(p.document, GenericHTMLProcessor.IsCanonicalLink).None? ==>
              CanonicalURL(f, p) == Some(p.url) && GenericHTMLProcessor.FindCanonicalURL(f, p.document).None?
  {
  }

  /** `description`: the OpenGraph description if there is one, else the first `meta` named "description" in any case. */
  function Description(f: Foundation, p: Preview): (r: Option<string>)
    ensures Slot(p.openGraph.properties, "description", None).Some? ==> r == Slot(p.openGraph.properties, "description", None)
    ensures Slot(p.openGraph.properties, "description", None).None? ==>
              r == match GenericHTMLProcessor.FirstMatch(p.document, GenericHTMLProcessor.IsDescriptionMeta)
                   case Some(e) => Attr(e, "content")
                   case None => None
  {
    OgText(f, p.openGraph, DescriptionName).OrElse(GenericHTMLProcessor.FindDescription(p.document))
  }

  /** `title`: the OpenGraph title if there is one, else the text of the `title` elements, so never nil. */
  function Title(f: Foundation, p: Preview): (r: Option<string>)
    ensures r.Some?
    ensures Slot(p.openGraph.properties, "title", None).Some? ==> r == Slot(p.openGraph.properties, "title", None)
    ensures Slot(p.openGraph.properties, "title", None).None? ==> r == GenericHTMLProcessor.FindTitle(p.document)
  {
    OgText(f, p.openGraph, TitleName).OrElse(GenericHTMLProcessor.FindTitle(p.document))
  }

  /** `imageURL`, `videoURL`, `audioURL`: the subscript at a URL name, resolved relative to the page URL's `baseURL`. */
  function MediaURL(f: Foundation, p: Preview, name: PropertyName): (r: Option<Url>)
    requires name.kind == UrlKind
    ensures r.Some? <==> Slot(p.openGraph.properties, name.rawValue, None).Some? &&
                         f.resolve(Slot(p.openGraph.properties, name.rawValue, None).value, p.openGraph.url).Some?
    ensures r.Some? ==> r == f.resolve(Slot(p.openGraph.properties, name.rawValue, None).value, p.openGraph.url)
  {
    match Get(f, p.openGraph, name)
    case Some(UrlValue(u)) => Some(u)
    case _ => None
  }

  function ImageURL(f: Foundation, p: Preview): (r: Option<Url>)
    ensures var content := Slot(p.openGraph.properties, ImageURLName.rawValue, None);
            r == if content.Some? then f.resolve(content.value, p.openGraph.url) else None
  {
    MediaURL(f, p, ImageURLName)
  }

  function VideoURL(f: Foundation, p: Preview): (r: Option<Url>)
    ensures var content := Slot(p.openGraph.properties, VideoURLName.rawValue, None);
            r == if content.Some? then f.resolve(content.value, p.openGraph.url) else None
  {
    MediaURL(f, p, VideoURLName)
  }

  function AudioURL(f: Foundation, p: Preview): (r: Option<Url>)
    ensures var content := Slot(p.openGraph.properties, AudioURLName.rawValue, None);
            r == if content.Some? then f.resolve(content.value, p.openGraph.url) else None
  {
    MediaURL(f, p, AudioURLName)
  }

  /**
   * `load(with:in:)`: the default `User-Agent` if none is set, the session's answer, its
   * HTTP type and status checked, then the page built at the response's URL, or the
   * request's when the response has none.
   */
  function LoadedWith(env: Provider.Environment, request: Provider.Request): (r: Result<Preview, Provider.LoadError>)
    requires Provider.HasPageUrl(env, request)
    ensures var answer := env.fetch(Provider.WithDefaultUserAgent(request));
            && (answer.None? ==> r == Failure(Provider.Thrown))
            && (answer.Some? && !answer.value.isHTTP ==> r == Failure(Provider.InvalidResponse))
            && (answer.Some? && answer.value.isHTTP && !Provider.StatusAccepted(answer.value.statusCode) ==>
                  r == Failure(Provider.UnsuccessfulHTTPStatus(answer.value.statusCode)))
            && (answer.Some? && answer.value.isHTTP && Provider.StatusAccepted(answer.value.statusCode) ==>
                  r == FromHtml(env.parseHtml, answer.value.body, answer.value.url.OrElse(request.url).value))
  {
    match env.fetch(Provider.WithDefaultUserAgent(request))
    case None => Failure(Provider.Thrown)
    case Some(response) =>
      if !response.isHTTP then Failure(Provider.InvalidResponse)
      else if !Provider.StatusAccepted(response.statusCode) then Failure(Provider.UnsuccessfulHTTPStatus(response.statusCode))
      else FromHtml(env.parseHtml, response.body, response.url.OrElse(request.url).value)
  }

  /** `load(from:in:)`: a plain request for the URL, which therefore always has a page URL. */
  function LoadedFrom(env: Provider.Environment, url: Url): (r: Result<Preview, Provider.LoadError>)
    ensures Provider.HasPageUrl(env, Provider.Request(Some(url), map[]))
    ensures var answer := env.fetch(Provider.WithDefaultUserAgent(Provider.Request(Some(url), map[])));
            r.Success? ==>
              && answer.Some? && answer.value.isHTTP && Provider.StatusAccepted(answer.value.statusCode)
              && r.value.url == answer.value.url.OrElse(Some(url)).value
  {
    LoadedWith(env, Provider.Request(Some(url), map[]))
  }

  /**
   * Both revisions fetch alike: `load(with:)` fails in this revision exactly when the
   * provider's fails, with the same error.
   */
  lemma LoadAcrossRevisions(env: Provider.Environment, processors: seq<Provider.ProcessorId>, options: Processing.Options,
                            request: Provider.Request)
    requires Provider.HasPageUrl(env, request)
    ensures var earlier := LoadedWith(env, request);
            var later := Provider.LoadedWith(env, processors, options, request);
            && (earlier.Failure? <==> later.Failure?)
            && (earlier.Failure? ==> earlier.error == later.error)
  {
  }
}
