/**
 * The property store's record (`LinkPreviewProperty`), its first-writer-wins
 * `merge(with:)`, the typed property names and the conversions between stored
 * strings and typed values (`LinkPreviewPropertyValue`).
 */
module Metadata {
  import opened Wrappers
  import opened Urls
  import Decimal

  /** The conformers of `LinkPreviewPropertyValue`: the type a property name is declared with. */
  datatype ValueKind = StringKind | IntKind | UIntKind | UrlKind

  /** A typed property value. */
  datatype Value =
    | StringValue(str: string)
    | IntValue(integer: Decimal.Int64)
    | UIntValue(unsigned: Decimal.UInt64)
    | UrlValue(url: Url)
  {
    function Kind(): ValueKind
    {
      match this
      case StringValue(_) => StringKind
      case IntValue(_) => IntKind
      case UIntValue(_) => UIntKind
      case UrlValue(_) => UrlKind
    }
  }

  /** `LinkPreviewPropertyName<Value>`: a raw name bound to its value type. */
  datatype PropertyName = PropertyName(rawValue: string, kind: ValueKind)

  const DescriptionName := PropertyName("description", StringKind)
  const TitleName := PropertyName("title", StringKind)
  const CanonicalURLName := PropertyName("url", UrlKind)
  const ImageURLName := PropertyName("image", UrlKind)
  const VideoURLName := PropertyName("video", UrlKind)
  const AudioURLName := PropertyName("audio", UrlKind)
  const FaviconURLName := PropertyName("icon", UrlKind)

  /** The seven predefined names, in declaration order. */
  const PredefinedNames := [DescriptionName, TitleName, CanonicalURLName, ImageURLName, VideoURLName, AudioURLName, FaviconURLName]

  /** No two predefined names share a raw name, so they address distinct entries of the store. */
  lemma PredefinedNamesDistinct()
    ensures forall i, j :: 0 <= i < j < |PredefinedNames| ==> PredefinedNames[i].rawValue != PredefinedNames[j].rawValue
    ensures CanonicalURLName.rawValue == "url" && FaviconURLName.rawValue == "icon"
  {
  }

  /** `LinkPreviewProperty`: one named field, its content and its sub-properties. */
  datatype Property = Property(name: string, content: Option<string>, metadata: map<string, string>)

  /** `LinkPreviewProperty(name:)`: no content and no metadata yet. */
  function Named(name: string): Property
  {
    Property(name, None, map[])
  }

  /**
   * The property `existing.merge(with: incoming)` leaves behind: the name is kept,
   * existing content wins over incoming content, and on every metadata key the
   * existing value wins while keys only the incoming side has are adopted.
   */
  function Merged(existing: Property, incoming: Property): (r: Property)
    ensures r.name == existing.name
    ensures existing.content.Some? ==> r.content == existing.content
    ensures existing.content.None? ==> r.content == incoming.content
    ensures r.metadata.Keys == existing.metadata.Keys + incoming.metadata.Keys
    ensures forall k :: k in existing.metadata ==> r.metadata[k] == existing.metadata[k]
    ensures forall k :: k in incoming.metadata && k !in existing.metadata ==> r.metadata[k] == incoming.metadata[k]
  {
    existing.(content := existing.content.OrElse(incoming.content),
              metadata := incoming.metadata + existing.metadata)
  }

  /** `merge(with:)`: fills the content if it is nil, then each absent metadata key in turn. */
  method Merge(existing: Property, incoming: Property) returns (r: Property)
    ensures r == Merged(existing, incoming)
  {
    r := existing;
    if r.content == None {
      r := r.(content := incoming.content);
    }
    var pending := incoming.metadata.Keys;
    while pending != {}
      invariant pending <= incoming.metadata.Keys
      invariant r.name == existing.name && r.content == Merged(existing, incoming).content
      invariant r.metadata.Keys == existing.metadata.Keys + (incoming.metadata.Keys - pending)
      invariant forall k :: k in existing.metadata ==> r.metadata[k] == existing.metadata[k]
      invariant forall k :: k in r.metadata && k !in existing.metadata ==> r.metadata[k] == incoming.metadata[k]
      decreases pending
    {
      var key :| key in pending;
      if key !in r.metadata {
        r := r.(metadata := r.metadata[key := incoming.metadata[key]]);
      }
      pending := pending - {key};
    }
    assert r.metadata == Merged(existing, incoming).metadata;
  }

  /** Merging the same incoming property a second time changes nothing. */
  lemma MergeIdempotent(existing: Property, incoming: Property)
    ensures Merged(Merged(existing, incoming), incoming) == Merged(existing, incoming)
  {
  }

  /** Merging a property with no content and no metadata is the identity. */
  lemma MergeWithNothing(existing: Property, name: string)
    ensures Merged(existing, Named(name)) == existing
  {
    assert Merged(existing, Named(name)).metadata == existing.metadata;
  }

  /** `T.init(content:at:)`: parse stored content as a value of the given type, or fail. */
  function ParseValue(f: Foundation, kind: ValueKind, content: string, page: Url): (r: Option<Value>)
    ensures r.Some? ==> r.value.Kind() == kind
    ensures kind == StringKind ==> r == Some(StringValue(content))
    ensures kind == IntKind ==> (r.Some? <==> Decimal.ParseInt(content).Some?)
    ensures kind == IntKind && r.Some? ==> r.value == IntValue(Decimal.ParseInt(content).value)
    ensures kind == UIntKind ==> (r.Some? <==> Decimal.ParseUInt(content).Some?)
    ensures kind == UIntKind && r.Some? ==> r.value == UIntValue(Decimal.ParseUInt(content).value)
    ensures kind == UrlKind ==> (r.Some? <==> f.resolve(content, page).Some?)
    ensures kind == UrlKind && r.Some? ==> r.value == UrlValue(f.resolve(content, page).value)
  {
    match kind
    case StringKind => Some(StringValue(content))
    case IntKind =>
      (match Decimal.ParseInt(content)
       case Some(n) => Some(IntValue(n))
       case None => None)
    case UIntKind =>
      (match Decimal.ParseUInt(content)
       case Some(n) => Some(UIntValue(n))
       case None => None)
    case UrlKind =>
      (match f.resolve(content, page)
       case Some(u) => Some(UrlValue(u))
       case None => None)
  }

  /**
   * `value.content`: the string a typed value is stored as. A string is itself, an integer
   * its decimal form, which `Int(_:)`/`UInt(_:)` parse back, and a URL its `absoluteString`.
   */
  function ValueContent(v: Value): (r: string)
    ensures v.StringValue? ==> r == v.str
    ensures v.IntValue? ==> Decimal.ParseInt(r) == Some(v.integer)
    ensures v.UIntValue? ==> Decimal.ParseUInt(r) == Some(v.unsigned)
    ensures v.UrlValue? ==> r == v.url.absoluteString
  {
    match v
    case StringValue(s) => s
    case IntValue(n) => Decimal.IntRoundTrip(n); Decimal.Describe(n)
    case UIntValue(n) => Decimal.UIntRoundTrip(n); Decimal.Describe(n)
    case UrlValue(u) => u.absoluteString
  }

  /** A string is stored as itself and read back as itself. */
  lemma StringRoundTrip(f: Foundation, s: string, page: Url)
    ensures ValueContent(StringValue(s)) == s
    ensures ParseValue(f, StringKind, ValueContent(StringValue(s)), page) == Some(StringValue(s))
  {
  }

  /** An `Int` read back from its stored decimal form is the same `Int`. */
  lemma IntRoundTrip(f: Foundation, n: Decimal.Int64, page: Url)
    ensures ParseValue(f, IntKind, ValueContent(IntValue(n)), page) == Some(IntValue(n))
  {
    Decimal.IntRoundTrip(n);
  }

  /** A `UInt` read back from its stored decimal form is the same `UInt`. */
  lemma UIntRoundTrip(f: Foundation, n: Decimal.UInt64, page: Url)
    ensures ParseValue(f, UIntKind, ValueContent(UIntValue(n)), page) == Some(UIntValue(n))
  {
    Decimal.UIntRoundTrip(n);
  }

  /** Stored content that is not a decimal literal reads as no `Int` and no `UInt`. */
  lemma NonNumericContent(f: Foundation, content: string, page: Url)
    requires !Decimal.IsDecimalLiteral(content)
    ensures ParseValue(f, IntKind, content, page) == None
    ensures ParseValue(f, UIntKind, content, page) == None
  {
  }
}
