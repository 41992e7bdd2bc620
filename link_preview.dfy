/**
 * `LinkPreview`: the extraction result. A URL fixed at construction and a store of
 * properties keyed by name, read through typed getters that parse the stored content
 * and written through a setter that never overwrites existing content.
 */
module Previews {
  import opened Wrappers
  import opened Urls
  import opened Text
  import opened Sorting
  import opened Metadata

  datatype LinkPreview = LinkPreview(url: Url, properties: map<string, Property>)

  /** `LinkPreview(url:)`: bound to `url`, with no properties yet. */
  function EmptyPreview(url: Url): LinkPreview
  {
    LinkPreview(url, map[])
  }

  /** `property(named:)`, for a typed name's raw value or a plain string: exact lookup. */
  function PropertyNamed(p: LinkPreview, name: string): (r: Option<Property>)
    ensures r.Some? <==> name in p.properties
    ensures r.Some? ==> r.value == p.properties[name]
  {
    if name in p.properties then Some(p.properties[name]) else None
  }

  /**
   * The typed subscript's getter: nil when the entry is missing or has no content,
   * otherwise the parse of the content as the name's value type, resolved against the
   * preview's URL.
   */
  function Get(f: Foundation, p: LinkPreview, name: PropertyName): (r: Option<Value>)
    ensures name.rawValue !in p.properties ==> r.None?
    ensures name.rawValue in p.properties && p.properties[name.rawValue].content.None? ==> r.None?
    ensures name.rawValue in p.properties && p.properties[name.rawValue].content.Some? ==>
              r == ParseValue(f, name.kind, p.properties[name.rawValue].content.value, p.url)
    ensures r.Some? ==> r.value.Kind() == name.kind
  {
    match PropertyNamed(p, name.rawValue)
    case Some(Property(_, Some(content), _)) => ParseValue(f, name.kind, content, p.url)
    case _ => None
  }

  /** `newValue?.content`. */
  function SerializedContent(v: Option<Value>): Option<string>
  {
    match v
    case Some(x) => Some(ValueContent(x))
    case None => None
  }

  /**
   * The preview after the typed subscript's setter. An absent entry is inserted with the
   * name, the serialised value (nil for a nil value) and no metadata; a present entry is
   * merged with that property, so its content changes only if it was nil and its name and
   * metadata never change. No other entry changes and the URL stays.
   */
  function WithValue(p: LinkPreview, name: PropertyName, v: Option<Value>): (r: LinkPreview)
    requires v.Some? ==> v.value.Kind() == name.kind
    ensures r.url == p.url
    ensures r.properties.Keys == p.properties.Keys + {name.rawValue}
    ensures forall k :: k in p.properties && k != name.rawValue ==> r.properties[k] == p.properties[k]
    ensures name.rawValue !in p.properties ==>
              r.properties[name.rawValue] == Property(name.rawValue, SerializedContent(v), map[])
    ensures name.rawValue in p.properties ==>
              && r.properties[name.rawValue].name == p.properties[name.rawValue].name
              && r.properties[name.rawValue].metadata == p.properties[name.rawValue].metadata
              && r.properties[name.rawValue].content ==
                   p.properties[name.rawValue].content.OrElse(SerializedContent(v))
  {
    var property := Property(name.rawValue, SerializedContent(v), map[]);
    if name.rawValue in p.properties then
      var merged := Merged(p.properties[name.rawValue], property);
      assert merged.metadata == p.properties[name.rawValue].metadata;
      p.(properties := p.properties[name.rawValue := merged])
    else
      p.(properties := p.properties[name.rawValue := property])
  }

  /** The typed subscript's setter: insert, or merge into the existing entry. */
  method Set(p: LinkPreview, name: PropertyName, v: Option<Value>) returns (r: LinkPreview)
    requires v.Some? ==> v.value.Kind() == name.kind
    ensures r == WithValue(p, name, v)
  {
    var property := Property(name.rawValue, SerializedContent(v), map[]);
    if name.rawValue in p.properties {
      var merged := Merge(p.properties[name.rawValue], property);
      r := p.(properties := p.properties[name.rawValue := merged]);
    } else {
      r := p.(properties := p.properties[name.rawValue := property]);
    }
  }

  /** Setting a string on an absent entry and reading it back gives that string. */
  lemma SetThenGetString(f: Foundation, p: LinkPreview, name: PropertyName, s: string)
    requires name.kind == StringKind && name.rawValue !in p.properties
    ensures Get(f, WithValue(p, name, Some(StringValue(s))), name) == Some(StringValue(s))
  {
  }

  /** Through the setter, an entry that has content keeps it: a second write changes nothing. */
  lemma SetNeverOverwrites(p: LinkPreview, name: PropertyName, v: Option<Value>)
    requires v.Some? ==> v.value.Kind() == name.kind
    requires name.rawValue in p.properties && p.properties[name.rawValue].content.Some?
    ensures WithValue(p, name, v) == p
  {
    assert WithValue(p, name, v).properties == p.properties;
  }

  /** The named string accessors (`title`, `description`): the stored content itself. */
  function StringProperty(p: LinkPreview, name: PropertyName): (r: Option<string>)
    requires name.kind == StringKind
    ensures r.Some? <==> name.rawValue in p.properties && p.properties[name.rawValue].content.Some?
    ensures r.Some? ==> r.value == p.properties[name.rawValue].content.value
  {
    match PropertyNamed(p, name.rawValue)
    case Some(Property(_, Some(content), _)) => Some(content)
    case _ => None
  }

  /** A string accessor reads what the typed getter reads, whatever the URL functions are. */
  lemma StringPropertyIsGet(f: Foundation, p: LinkPreview, name: PropertyName)
    requires name.kind == StringKind
    ensures Get(f, p, name) == match StringProperty(p, name)
                               case Some(s) => Some(StringValue(s))
                               case None => None
  {
  }

  /** The named URL accessors (`canonicalURL`, `faviconURL`, `imageURL`, ...): the resolved content. */
  function UrlProperty(f: Foundation, p: LinkPreview, name: PropertyName): (r: Option<Url>)
    requires name.kind == UrlKind
    ensures r.Some? ==> name.rawValue in p.properties && p.properties[name.rawValue].content.Some?
    ensures r.Some? ==> f.resolve(p.properties[name.rawValue].content.value, p.url) == r
    ensures name.rawValue in p.properties && p.properties[name.rawValue].content.Some? ==>
              r == f.resolve(p.properties[name.rawValue].content.value, p.url)
  {
    match Get(f, p, name)
    case Some(UrlValue(u)) => Some(u)
    case _ => None
  }

  /** `preview.title`. */
  function Title(p: LinkPreview): Option<string>
  {
    StringProperty(p, TitleName)
  }

  /** `preview.description`. */
  function Description(p: LinkPreview): Option<string>
  {
    StringProperty(p, DescriptionName)
  }

  /** How a string is quoted in the debug text. */
  function Quoted(s: string): string
  {
    "\"" + s + "\""
  }

  /** A description longer than 200 characters is cut to its first 200, then marked. */
  function ContentText(p: Property, content: string): string
  {
    if p.name == "description" && |content| > 200
    then Quoted(content[..200]) + " [truncated]"
    else Quoted(content)
  }

  /** The indented `key: value` line printed for one metadata key. */
  function MetadataLine(m: map<string, string>, key: string): string
    requires key in m
  {
    "\n  " + key + ": " + m[key]
  }

  /** One indented `key: value` line per metadata key, in the given order. */
  function MetadataLines(m: map<string, string>, keys: seq<string>): string
    requires forall i :: 0 <= i < |keys| ==> keys[i] in m
  {
    if keys == [] then ""
    else MetadataLines(m, keys[..|keys| - 1]) + MetadataLine(m, keys[|keys| - 1])
  }

  /** The text printed for a property that has content. */
  ghost function Entry(p: Property): string
    requires p.content.Some?
  {
    p.name + ": " + ContentText(p, p.content.value) + MetadataLines(p.metadata, SortedKeys(p.metadata.Keys))
  }

  /** The entries printed for `keys`, in that order, skipping properties without content. */
  ghost function Entries(properties: map<string, Property>, keys: seq<string>): seq<string>
    requires forall i :: 0 <= i < |keys| ==> keys[i] in properties
  {
    if keys == [] then []
    else
      var last := properties[keys[|keys| - 1]];
      Entries(properties, keys[..|keys| - 1]) + (if last.content.Some? then [Entry(last)] else [])
  }

  /** `debugDescription`: the entries in sorted key order, separated by newlines. */
  ghost function DebugText(p: LinkPreview): string
  {
    Join(Entries(p.properties, SortedKeys(p.properties.Keys)), '\n')
  }

  /** The metadata lines for `keys`, key by key. */
  method MetadataTextOf(m: map<string, string>, keys: seq<string>) returns (text: string)
    requires forall i :: 0 <= i < |keys| ==> keys[i] in m
    ensures text == MetadataLines(m, keys)
  {
    text := "";
    for j := 0 to |keys|
      invariant text == MetadataLines(m, keys[..j])
    {
      assert keys[..j + 1][..j] == keys[..j];
      text := text + MetadataLine(m, keys[j]);
    }
    assert keys[..|keys|] == keys;
  }

  /** The metadata lines of one property, key by key in sorted order; none when there is no metadata. */
  method MetadataText(m: map<string, string>) returns (text: string)
    ensures text == MetadataLines(m, SortedKeys(m.Keys))
  {
    text := "";
    if |m| != 0 {
      var keys := Sorted(m.Keys);
      assert forall i :: 0 <= i < |keys| ==> keys[i] in m;
      text := MetadataTextOf(m, keys);
    } else {
      assert m.Keys == {};
    }
  }

  /** The text `debugDescription` writes for one property that has content. */
  method EntryText(property: Property) returns (text: string)
    requires property.content.Some?
    ensures text == Entry(property)
  {
    var content := property.content.value;
    var shown: string;
    if property.name == "description" && |content| > 200 {
      shown := Quoted(content[..200]) + " [truncated]";
    } else {
      shown := Quoted(content);
    }
    var lines := MetadataText(property.metadata);
    text := property.name + ": " + shown + lines;
  }

  /** The entries for one more name: those before it, then its own if it has content. */
  lemma EntriesStep(properties: map<string, Property>, names: seq<string>, i: nat)
    requires i < |names|
    requires forall k :: 0 <= k < |names| ==> names[k] in properties
    ensures Entries(properties, names[..i + 1]) ==
              Entries(properties, names[..i]) + (if properties[names[i]].content.Some? then [Entry(properties[names[i]])] else [])
  {
    assert names[..i + 1][..i] == names[..i];
  }

  /** The entries for `names`, in that order, joined by newlines as `debugDescription` writes them. */
  method EntriesText(properties: map<string, Property>, names: seq<string>) returns (description: string)
    requires forall k :: 0 <= k < |names| ==> names[k] in properties
    ensures description == Join(Entries(properties, names), '\n')
  {
    description := "";
    var numberPrinted := 0;
    ghost var printed: seq<string> := [];
    var i := 0;
    assert Entries(properties, names[..0]) == [];
    while i < |names|
      invariant 0 <= i <= |names|
      invariant printed == Entries(properties, names[..i])
      invariant description == Join(printed, '\n')
      invariant numberPrinted == |printed|
    {
      var property := properties[names[i]];
      EntriesStep(properties, names, i);
      if property.content.Some? {
        var entry := EntryText(property);
        JoinSnoc(printed, entry, '\n');
        if numberPrinted != 0 {
          description := description + "\n";
        }
        description := description + entry;
        numberPrinted := numberPrinted + 1;
        printed := printed + [entry];
      } else {
        assert printed + [] == printed;
      }
      i := i + 1;
    }
    assert names[..i] == names;
  }

  /** `debugDescription`: every property with content, in sorted key order. */
  method DebugDescription(p: LinkPreview) returns (description: string)
    ensures description == DebugText(p)
  {
    var propertyNames := Sorted(p.properties.Keys);
    assert forall k :: 0 <= k < |propertyNames| ==> propertyNames[k] in p.properties;
    description := EntriesText(p.properties, propertyNames);
  }
}
