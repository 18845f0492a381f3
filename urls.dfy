/**
  * URL components as `urllib.parse` returns them (the generic syntax of
  * section 3 of RFC 3986: scheme, authority, path, query, fragment), and the
  * parts of `urllib.parse` the model takes as given rather than re-implementing.
  */
module Urls {
  import opened Wrappers

  /** The 5-tuple of `urlsplit` and argument of `urlunsplit`. */
  datatype SplitResult = SplitResult(scheme: string, netloc: string, path: string, query: string, fragment: string)

  /** The 6-tuple of `urlparse` and argument of `urlunparse` (with the `;params` of the last path segment). */
  datatype ParseResult = ParseResult(scheme: string, netloc: string, path: string, params: string, query: string, fragment: string)

  /**
    * The URL parser and serialiser and the percent-decoder. `urlsplit` and
    * `urlparse` give `None` where Python raises `ValueError` (a malformed
    * bracketed host, for instance).
    */
  datatype UrlLib = UrlLib(
    urlsplit: string -> Option<SplitResult>,
    urlunsplit: SplitResult -> string,
    urlparse: string -> Option<ParseResult>,
    urlunparse: ParseResult -> string,
    unquote: string -> string)
}
