/**
 * Foundation's `URL` and `URLComponents`, seen only through what the core reads from
 * them. Parsing, resolution against a base and component assembly are Foundation's
 * business; the model receives them as functions in a `Foundation` record.
 */
module Urls {
  import opened Wrappers

  /** A Foundation `URL`: its `absoluteString`, `scheme`, `host` and `lastPathComponent`. */
  datatype Url = Url(absoluteString: string, scheme: Option<string>, host: Option<string>, lastPathComponent: string)

  /** `URLQueryItem`. */
  datatype QueryItem = QueryItem(name: string, value: Option<string>)

  /** The `URLComponents` fields the core assigns. */
  datatype UrlComponents = UrlComponents(scheme: Option<string>, host: Option<string>, path: string, queryItems: Option<seq<QueryItem>>)

  /** `URLComponents()`: every field unset. */
  const EmptyComponents := UrlComponents(None, None, "", None)

  /** The Foundation calls the core makes, left uninterpreted. */
  datatype Foundation = Foundation(
    /** `URL(string:)` */
    parse: string -> Option<Url>,
    /** `URL(string: content, relativeTo: page.baseURL)` for the page URL `page` */
    resolve: (string, Url) -> Option<Url>,
    /** `URLComponents(url:resolvingAgainstBaseURL: false)` */
    components: Url -> Option<UrlComponents>,
    /** `URLComponents.url` */
    url: UrlComponents -> Option<Url>)
}
