/**
 * `OpenGraphProcessor`: every `meta` tag whose key splits into at least two segments
 * writes its `content` into the store. A leading `og` segment makes the write
 * authoritative (it overwrites); any other write only fills an empty slot.
 */
module OpenGraphProcessor {
  import opened Wrappers
  import opened Text
  import opened Dom
  import opened Metadata
  import opened Previews

  /** `String.nonEmpty`. */
  function NonEmpty(s: string): (r: Option<string>)
    ensures r.None? <==> s == ""
    ensures r.Some? ==> r.value == s
  {
    if s == "" then None else Some(s)
  }

  /** `propertyTag?.nonEmpty ?? nameTag`: a non-empty `property` attribute, else the `name` attribute. */
  function TagKey(e: Element): (r: Option<string>)
    ensures "property" in e.attributes && e.attributes["property"] != "" ==> r == Some(e.attributes["property"])
    ensures !("property" in e.attributes && e.attributes["property"] != "") ==> r == Attr(e, "name")
  {
    (match Attr(e, "property")
     case Some(p) => NonEmpty(p)
     case None => None).OrElse(Attr(e, "name"))
  }

  /**
   * The write one accepted tag asks for: the property it targets, the metadata key
   * (none for the content itself), whether it is authoritative and the value.
   */
  datatype Write = Write(name: string, metadataKey: Option<string>, authoritative: bool, content: string)

  /**
   * How a tag is read. Tags without a key, with fewer than two non-empty segments or
   * without `content` are skipped. Otherwise an `og` first segment is dropped and marks
   * the write authoritative, the next segment names the property, the one after it (if
   * any) names the metadata key, and later segments are ignored.
   */
  function TagWrite(e: Element): (r: Option<Write>)
    ensures r.Some? <==> TagKey(e).Some? && |Split(TagKey(e).value, ':')| >= 2 && Attr(e, "content").Some?
    ensures r.Some? ==> r.value.content == Attr(e, "content").value
    ensures r.Some? ==>
              var pieces := Split(TagKey(e).value, ':');
              var rest := if pieces[0] == "og" then pieces[1..] else pieces;
              && r.value.authoritative == (pieces[0] == "og")
              && r.value.name == rest[0]
              && r.value.metadataKey == (if |rest| >= 2 then Some(rest[1]) else None)
    ensures r.Some? ==> r.value.name != "" && ':' !in r.value.name
    ensures r.Some? && r.value.metadataKey.Some? ==> r.value.metadataKey.value != "" && ':' !in r.value.metadataKey.value
    ensures r.Some? && !r.value.authoritative ==> r.value.metadataKey.Some?
  {
    match TagKey(e)
    case None => None
    case Some(key) =>
      var components := Split(key, ':');
      if |components| < 2 then None
      else
        var isOpenGraph := components[0] == "og";
        var rest := if isOpenGraph then components[1..] else components;
        match Attr(e, "content")
        case None => None
        case Some(content) =>
          Some(Write(rest[0], if |rest| >= 2 then Some(rest[1]) else None, isOpenGraph, content))
  }

  /** The value in one slot of a property: its content (no key) or one metadata entry. */
  function Slot(p: Property, key: Option<string>): Option<string>
  {
    match key
    case None => p.content
    case Some(k) => if k in p.metadata then Some(p.metadata[k]) else None
  }

  /** The value in a slot of the stored property `name`, none when there is no such property. */
  function SlotOf(props: map<string, Property>, name: string, key: Option<string>): Option<string>
  {
    if name in props then Slot(props[name], key) else None
  }

  /**
   * Storing one write: the target property (created with that name when absent) gets
   * the value in the addressed slot if the write is authoritative or the slot is empty.
   * No other slot and no other property changes.
   */
  function Written(props: map<string, Property>, w: Write): (r: map<string, Property>)
    ensures r.Keys == props.Keys + {w.name}
    ensures forall k :: k in props && k != w.name ==> r[k] == props[k]
    ensures r[w.name].name == if w.name in props then props[w.name].name else w.name
    ensures forall key :: key != w.metadataKey ==> SlotOf(r, w.name, key) == SlotOf(props, w.name, key)
    ensures SlotOf(r, w.name, w.metadataKey) ==
              if w.authoritative then Some(w.content) else SlotOf(props, w.name, w.metadataKey).OrElse(Some(w.content))
  {
    var before := if w.name in props then props[w.name] else Named(w.name);
    var after :=
      match w.metadataKey
      case None =>
        if before.content.None? || w.authoritative then before.(content := Some(w.content)) else before
      case Some(k) =>
        if k !in before.metadata || w.authoritative then before.(metadata := before.metadata[k := w.content]) else before;
    props[w.name := after]
  }

  /** Storing a write, if there is one. */
  function ApplyWrite(props: map<string, Property>, w: Option<Write>): map<string, Property>
  {
    match w
    case None => props
    case Some(write) => Written(props, write)
  }

  /** One loop iteration: a skipped tag changes nothing. */
  function ApplyTag(props: map<string, Property>, e: Element): map<string, Property>
  {
    ApplyWrite(props, TagWrite(e))
  }

  /** The store after the loop has seen `tags`, in document order. */
  function ApplyTags(props: map<string, Property>, tags: seq<Element>): map<string, Property>
  {
    if tags == [] then props
    else ApplyTag(ApplyTags(props, tags[..|tags| - 1]), tags[|tags| - 1])
  }

  /** `updateLinkPreview`: the `meta` tags of the document, in order; nothing without a document. */
  function Updated(preview: LinkPreview, document: Option<Document>): (r: LinkPreview)
    ensures r.url == preview.url
    ensures document.None? ==> r == preview
  {
    match document
    case None => preview
    case Some(doc) => preview.(properties := ApplyTags(preview.properties, Select(doc, ByTag("meta"))))
  }

  /** One iteration of the loop of `updateLinkPreview`, on the store, with the mutable `components` array. */
  method StoreTag(props: map<string, Property>, metaTag: Element) returns (r: map<string, Property>)
    ensures r == ApplyTag(props, metaTag)
  {
    r := props;
    var propertyTag := Attr(metaTag, "property");
    var nameTag := Attr(metaTag, "name");
    var propertyNameTag := (if propertyTag.Some? then NonEmpty(propertyTag.value) else None).OrElse(nameTag);
    if propertyNameTag.None? {
      return;
    }
    var components := Split(propertyNameTag.value, ':');
    if |components| < 2 {
      return;
    }
    var isOpenGraph := false;
    if components[0] == "og" {
      isOpenGraph := true;
      components := components[1..];
    }
    var content := Attr(metaTag, "content");
    if content.None? {
      return;
    }
    var name := components[0];
    components := components[1..];
    var property := if name in r then r[name] else Named(name);
    if components == [] {
      if property.content == None || isOpenGraph {
        property := property.(content := content);
      }
    } else {
      var metadataName := components[0];
      components := components[1..];
      if metadataName !in property.metadata || isOpenGraph {
        property := property.(metadata := property.metadata[metadataName := content.value]);
      }
    }
    r := r[name := property];
  }

  /** `updateLinkPreview`: the `meta` tags of the document, tag by tag. */
  method UpdateLinkPreview(preview: LinkPreview, document: Option<Document>) returns (r: LinkPreview)
    ensures r == Updated(preview, document)
  {
    r := preview;
    if document.None? {
      return;
    }
    var metaTags := Select(document.value, ByTag("meta"));
    for i := 0 to |metaTags|
      invariant r == preview.(properties := ApplyTags(preview.properties, metaTags[..i]))
    {
      assert metaTags[..i + 1][..i] == metaTags[..i];
      var properties := StoreTag(r.properties, metaTags[i]);
      r := r.(properties := properties);
    }
    assert metaTags[..|metaTags|] == metaTags;
  }

  /** The write `w`, if there is one and it is aimed at the given slot. */
  function WritesOf(w: Option<Write>, name: string, key: Option<string>): (r: seq<Write>)
    ensures forall i :: 0 <= i < |r| ==> r[i].name == name && r[i].metadataKey == key
  {
    match w
    case Some(write) => if write.name == name && write.metadataKey == key then [write] else []
    case None => []
  }

  /** The writes among `tags` aimed at one slot of one property, in document order. */
  function WritesTo(tags: seq<Element>, name: string, key: Option<string>): (r: seq<Write>)
    ensures forall i :: 0 <= i < |r| ==> r[i].name == name && r[i].metadataKey == key
  {
    if tags == [] then []
    else WritesTo(tags[..|tags| - 1], name, key) + WritesOf(TagWrite(tags[|tags| - 1]), name, key)
  }

  /** The value of the last authoritative write, if there is one. */
  function LastAuthoritative(ws: seq<Write>): (r: Option<string>)
    ensures r.Some? <==> exists i :: 0 <= i < |ws| && ws[i].authoritative
  {
    if ws == [] then None
    else if ws[|ws| - 1].authoritative then Some(ws[|ws| - 1].content)
    else LastAuthoritative(ws[..|ws| - 1])
  }

  /** The value of the first write, if there is one. */
  function FirstValue(ws: seq<Write>): Option<string>
  {
    if ws == [] then None else Some(ws[0].content)
  }

  /** The value the rule below gives a slot that held `existing` before the writes `ws`. */
  function Resolved(ws: seq<Write>, existing: Option<string>): Option<string>
  {
    LastAuthoritative(ws).OrElse(existing).OrElse(FirstValue(ws))
  }

  /** A write aimed at a slot keeps that slot at the value the rule gives. */
  lemma SlotStepHit(before: map<string, Property>, w: Write, ws: seq<Write>, existing: Option<string>)
    requires SlotOf(before, w.name, w.metadataKey) == Resolved(ws, existing)
    ensures SlotOf(Written(before, w), w.name, w.metadataKey) == Resolved(ws + [w], existing)
  {
    var all := ws + [w];
    assert all[..|all| - 1] == ws;
    if ws != [] {
      assert FirstValue(all) == FirstValue(ws);
    }
  }

  /** A write aimed elsewhere leaves a slot alone. */
  lemma SlotStepMiss(before: map<string, Property>, w: Write, name: string, key: Option<string>)
    requires w.name != name || w.metadataKey != key
    ensures SlotOf(Written(before, w), name, key) == SlotOf(before, name, key)
  {
  }

  /** One more write keeps a slot at the value the rule gives. */
  lemma SlotStep(before: map<string, Property>, w: Option<Write>, name: string, key: Option<string>,
                 ws: seq<Write>, existing: Option<string>)
    requires SlotOf(before, name, key) == Resolved(ws, existing)
    ensures SlotOf(ApplyWrite(before, w), name, key) == Resolved(ws + WritesOf(w, name, key), existing)
  {
    match w
    case None =>
      assert ws + [] == ws;
    case Some(write) =>
      if write.name == name && write.metadataKey == key {
        SlotStepHit(before, write, ws, existing);
      } else {
        SlotStepMiss(before, write, name, key);
        assert ws + [] == ws;
      }
  }

  /**
   * What the loop leaves in each slot: the last authoritative (`og`) value written
   * there; failing that, the value the slot already held; failing that, the first value
   * written there.
   */
  lemma {:induction false} SlotAfterTags(props: map<string, Property>, tags: seq<Element>, name: string, key: Option<string>)
    ensures SlotOf(ApplyTags(props, tags), name, key) == Resolved(WritesTo(tags, name, key), SlotOf(props, name, key))
  {
    if tags != [] {
      var prefix := tags[..|tags| - 1];
      SlotAfterTags(props, prefix, name, key);
      SlotStep(ApplyTags(props, prefix), TagWrite(tags[|tags| - 1]), name, key,
               WritesTo(prefix, name, key), SlotOf(props, name, key));
    }
  }

  /** Without an authoritative tag among `tags`, every slot that held a value keeps it. */
  lemma NonOpenGraphNeverOverwrites(props: map<string, Property>, tags: seq<Element>, name: string, key: Option<string>)
    requires forall i :: 0 <= i < |tags| && TagWrite(tags[i]).Some? ==> !TagWrite(tags[i]).value.authoritative
    requires SlotOf(props, name, key).Some?
    ensures SlotOf(ApplyTags(props, tags), name, key) == SlotOf(props, name, key)
  {
    SlotAfterTags(props, tags, name, key);
    NoAuthoritativeWrites(tags, name, key);
  }

  /** Without authoritative tags there are no authoritative writes to any slot. */
  lemma {:induction false} NoAuthoritativeWrites(tags: seq<Element>, name: string, key: Option<string>)
    requires forall i :: 0 <= i < |tags| && TagWrite(tags[i]).Some? ==> !TagWrite(tags[i]).value.authoritative
    ensures LastAuthoritative(WritesTo(tags, name, key)) == None
  {
    if tags != [] {
      NoAuthoritativeWrites(tags[..|tags| - 1], name, key);
      var ws := WritesTo(tags[..|tags| - 1], name, key);
      var all := WritesTo(tags, name, key);
      if |all| > |ws| {
        assert all[..|all| - 1] == ws;
      }
    }
  }

  /** The store's entries are named after their keys, as every store the processors build is. */
  predicate NamesMatchKeys(props: map<string, Property>)
  {
    forall k :: k in props ==> props[k].name == k
  }

  /** The loop keeps every entry named after its key and never removes an entry. */
  lemma {:induction false} ApplyTagsKeepsNames(props: map<string, Property>, tags: seq<Element>)
    requires NamesMatchKeys(props)
    ensures NamesMatchKeys(ApplyTags(props, tags))
    ensures props.Keys <= ApplyTags(props, tags).Keys
  {
    if tags != [] {
      ApplyTagsKeepsNames(props, tags[..|tags| - 1]);
    }
  }

  /** A tag without `content` changes nothing, whatever its key. */
  lemma TagWithoutContentSkipped(props: map<string, Property>, e: Element)
    requires "content" !in e.attributes
    ensures ApplyTag(props, e) == props
  {
  }

  /** The tag `meta` element carrying only the given attributes. */
  function Meta(attributes: map<string, string>): Element
  {
    Element("meta", attributes, None, "")
  }

  /** The segments of the keys used in the examples below. */
  lemma SegmentsArticlePublishedTime()
    ensures Split("article:published_time", ':') == ["article", "published_time"]
  {
    assert Join(["article", "published_time"], ':') == "article:published_time";
    SplitOfJoin(["article", "published_time"], ':');
  }

  lemma SegmentsOgTitle()
    ensures Split("og:title", ':') == ["og", "title"]
  {
    assert Join(["og", "title"], ':') == "og:title";
    SplitOfJoin(["og", "title"], ':');
  }

  lemma SegmentsOgImageWidthPx()
    ensures Split("og:image:width:px", ':') == ["og", "image", "width", "px"]
  {
    assert Join(["og", "image", "width", "px"], ':') == "og:image:width:px";
    SplitOfJoin(["og", "image", "width", "px"], ':');
  }

  lemma SegmentsDescription()
    ensures Split("description", ':') == ["description"]
  {
    assert Join(["description"], ':') == "description";
    SplitOfJoin(["description"], ':');
  }

  /** `article:published_time` is metadata `published_time` of the property `article`, filled only if empty. */
  lemma ArticlePublishedTime(c: string)
    ensures TagWrite(Meta(map["property" := "article:published_time", "content" := c])) ==
              Some(Write("article", Some("published_time"), false, c))
  {
    var e := Meta(map["property" := "article:published_time", "content" := c]);
    assert TagKey(e) == Some("article:published_time");
    assert Attr(e, "content") == Some(c);
    SegmentsArticlePublishedTime();
  }

  /** `og:title` is the authoritative content of `title`. */
  lemma OpenGraphTitle(c: string)
    ensures TagWrite(Meta(map["property" := "og:title", "content" := c])) == Some(Write("title", None, true, c))
  {
    var e := Meta(map["property" := "og:title", "content" := c]);
    assert TagKey(e) == Some("og:title");
    assert Attr(e, "content") == Some(c);
    SegmentsOgTitle();
  }

  /** `og:image:width:px` is the authoritative metadata `width` of `image`; the last segment is ignored. */
  lemma OpenGraphImageWidth(c: string)
    ensures TagWrite(Meta(map["property" := "og:image:width:px", "content" := c])) ==
              Some(Write("image", Some("width"), true, c))
  {
    var e := Meta(map["property" := "og:image:width:px", "content" := c]);
    assert TagKey(e) == Some("og:image:width:px");
    assert Attr(e, "content") == Some(c);
    SegmentsOgImageWidthPx();
  }

  /** `name="description"` has a single segment, so this processor skips it. */
  lemma PlainDescriptionSkipped(c: string)
    ensures TagWrite(Meta(map["name" := "description", "content" := c])) == None
  {
    var e := Meta(map["name" := "description", "content" := c]);
    assert TagKey(e) == Some("description");
    SegmentsDescription();
  }

  /** An empty `property` falls back to `name`. */
  lemma EmptyPropertyFallsBackToName(c: string)
    ensures TagWrite(Meta(map["property" := "", "name" := "og:title", "content" := c])) == Some(Write("title", None, true, c))
  {
    var e := Meta(map["property" := "", "name" := "og:title", "content" := c]);
    assert TagKey(e) == Some("og:title");
    assert Attr(e, "content") == Some(c);
    SegmentsOgTitle();
  }

}
