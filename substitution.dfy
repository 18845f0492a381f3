/**
  * The query-parameter substitution the two browser-confirmed cross-site
  * scripting scanners share: split the url, read its query with blank values
  * kept, give one key the payload as its only value, re-encode the query and
  * put the url back together, with `http` for a missing scheme.
  */
module Substitution {
  import opened Wrappers
  import opened Urls
  import opened Query

  /** The scheme of a probe: the url's own, or `http` when it has none. */
  function SchemeOf(parts: SplitResult): (r: string)
    ensures r != []
    ensures parts.scheme != [] ==> r == parts.scheme
  {
    if parts.scheme == [] then "http" else parts.scheme
  }

  /** The components of the probe for `key`: only the query changes, and the scheme is defaulted. */
  function ProbeParts(parts: SplitResult, ps: Params, key: string, payload: string): SplitResult {
    SplitResult(SchemeOf(parts), parts.netloc, parts.path, SubstitutedQuery(ps, key, payload), parts.fragment)
  }

  /** The query of a url as `parse_qs(..., keep_blank_values=True)` reads it. */
  function QueryOf(lib: UrlLib, parts: SplitResult): Params {
    ParseQs(parts.query, true, lib.unquote)
  }

  /**
    * Splitting a probe URL again (when `urlsplit` reads back what `urlunsplit`
    * wrote) gives the url's own location and fragment, a non-empty scheme, and
    * a query that parses to the url's keys in order, the chosen key holding only
    * the payload and every other key all its values, blank ones included.
    */
  lemma SubstitutedUrlParses(lib: UrlLib, url: string, payload: string, key: string, q: string)
    requires InvertsQuotePlus(lib.unquote)
    requires lib.urlsplit(url).Some?
    requires key in Keys(QueryOf(lib, lib.urlsplit(url).value))
    requires var parts := lib.urlsplit(url).value;
      var pp := ProbeParts(parts, QueryOf(lib, parts), key, payload);
      lib.urlsplit(lib.urlunsplit(pp)) == Some(pp)
    ensures var parts := lib.urlsplit(url).value;
      var ps := QueryOf(lib, parts);
      var back := lib.urlsplit(lib.urlunsplit(ProbeParts(parts, ps, key, payload))).value;
      back.netloc == parts.netloc && back.path == parts.path && back.fragment == parts.fragment
      && back.scheme != [] && (parts.scheme != [] ==> back.scheme == parts.scheme)
      && Keys(QueryOf(lib, back)) == Keys(ps)
      && ValuesAt(QueryOf(lib, back), q) == if q == key then [payload] else ValuesAt(ps, q)
  {
    var parts := lib.urlsplit(url).value;
    var ps := QueryOf(lib, parts);
    ParseQsValues(parts.query, true, lib.unquote, q);
    SubstitutedQueryParses(ps, key, payload, lib.unquote, q);
  }

}
