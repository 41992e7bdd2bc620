/**
 * What every metadata processor shares: the options record handed to it, the
 * activation rule it declares, and the answers of the network calls a processor may
 * make, which the model receives as functions of the request URL.
 */
module Processing {
  import opened Wrappers
  import Decimal
  import opened Urls
  import opened Metadata
  import opened Previews

  /** `MetadataProcessorActivationRule`. How it is evaluated is not part of this model. */
  datatype ActivationRule =
    | Always
    | IncludesHostnames(included: seq<string>)
    | ExcludesHostnames(excluded: seq<string>)

  datatype WebsiteSpecificUserAgent = WebsiteSpecificUserAgent(hostname: string, userAgent: string)

  /** `MetadataProcessingOptions`. */
  datatype Options = Options(
    allowAdditionalRequests: bool,
    websiteSpecificUserAgents: seq<WebsiteSpecificUserAgent>,
    requestTimeout: Decimal.Int64)

  /** `MetadataProcessingOptions()`: additional requests allowed, one Spotify user agent, 10 seconds. */
  const DefaultOptions := Options(true, [WebsiteSpecificUserAgent("spotify.com", "Twitterbot/1.0")], 10)

  /** The outcome of one `HTTPClient.execute`: it threw, or a response came with a status and a payload. */
  datatype Exchange<T> = Threw | Answered(status: int, payload: T)

  /** HTTP 200, the `.ok` status the processors insist on. */
  const StatusOK := 200

  /** A Wikipedia API page record: its `title` and `extract`, where those are strings. */
  datatype WikiPage = WikiPage(title: Option<string>, extract: Option<string>)

  /**
   * The network, keyed by the request URL's `absoluteString`. The favicon probe's only
   * payload is its status. The Wikipedia answer's payload is the first page record of
   * `query.pages`, absent when the body is not JSON of that shape.
   */
  datatype Network = Network(
    faviconProbe: string -> Exchange<()>,
    wikipedia: string -> Exchange<Option<WikiPage>>)

  /** A found string handed to a `String?` setter. */
  function StringValueOf(s: Option<string>): (r: Option<Value>)
    ensures r.Some? <==> s.Some?
    ensures r.Some? ==> r.value == StringValue(s.value)
  {
    match s
    case Some(x) => Some(StringValue(x))
    case None => None
  }

  /** A found URL handed to a `URL?` setter. */
  function UrlValueOf(u: Option<Url>): (r: Option<Value>)
    ensures r.Some? <==> u.Some?
    ensures r.Some? ==> r.value == UrlValue(u.value)
  {
    match u
    case Some(x) => Some(UrlValue(x))
    case None => None
  }

  /** A processor's effect: the updated preview and the URLs it requested, in order. */
  datatype Outcome = Outcome(preview: LinkPreview, requests: seq<string>)
}
