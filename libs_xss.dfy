/**
  * The interactive reflected cross-site scripting scanner of
  * `libs/scanners/xss_scanner.py`: for each url and payload, every
  * non-blank query parameter in turn is given the payload, and the first
  * request whose response contains the payload is reported.
  */
module LibsXss {
  import opened Wrappers
  import opened Text
  import opened Urls
  import opened Query
  import opened Verdicts
  import opened Drain
  import opened Threads
  import opened Reprobe
  import opened LibsCommon

  /**
    * One call of `perform_request` after the url has been parsed: `get` is
    * `requests.get` with the run's random `User-Agent` header, and `ps` is the
    * url's query as `parse_qs` reads it.
    */
  datatype Probing = Probing(lib: UrlLib, get: string -> Response, parts: ParseResult, ps: Params, payload: string)

  /** The URL requested for key `i`. */
  function TrialUrl(p: Probing, i: nat): string
    requires WellFormed(p.ps) && i < |p.ps|
  {
    Rebuilt(p.lib, p.parts, Trial(p.ps, i, p.payload))
  }

  /** The trial URLs, key by key. */
  function Trials(p: Probing): nat -> string
    requires WellFormed(p.ps)
  {
    (j: nat) => if j < |p.ps| then TrialUrl(p, j) else []
  }

  /** A response that reflects the payload. */
  function Reflecting(payload: string): Reply -> bool {
    (reply: Reply) => Reflected(payload, reply.body)
  }

  /**
    * Requesting `url(i)`, `url(i + 1)`, ... below `n`: the first URL whose
    * reply is `good`; a failed request ends the search with nothing.
    */
  function FirstGood(url: nat -> string, n: nat, i: nat, get: string -> Response, good: Reply -> bool): Option<string>
    decreases n - i
  {
    if i >= n then None
    else
      match get(url(i))
      case RequestFailed(_) => None
      case Responded(reply) => if good(reply) then Some(url(i)) else FirstGood(url, n, i + 1, get, good)
  }

  /** The request for `url(k)` was answered and the reply is not `good`. */
  predicate Passed(url: nat -> string, k: nat, get: string -> Response, good: Reply -> bool) {
    get(url(k)).Responded? && !good(get(url(k)).reply)
  }

  /** The reply to `url(j)` is good, and every request from `i` up to it was answered with one that is not. */
  predicate FirstGoodAt(url: nat -> string, i: nat, j: nat, get: string -> Response, good: Reply -> bool) {
    get(url(j)).Responded? && good(get(url(j)).reply) && forall k :: i <= k < j ==> Passed(url, k, get, good)
  }

  /**
    * The search returns a URL exactly when it is `url(j)` for some `j` whose
    * reply is good while every earlier request was answered with a reply
    * that is not.
    */
  lemma {:induction false} FirstGoodIff(url: nat -> string, n: nat, i: nat, get: string -> Response, good: Reply -> bool, u: string)
    ensures FirstGood(url, n, i, get, good) == Some(u) <==> exists j :: i <= j < n && u == url(j) && FirstGoodAt(url, i, j, get, good)
    decreases n - i
  {
    if i < n {
      FirstGoodIff(url, n, i + 1, get, good, u);
      if Passed(url, i, get, good) {
        if exists j :: i + 1 <= j < n && u == url(j) && FirstGoodAt(url, i + 1, j, get, good) {
          var j :| i + 1 <= j < n && u == url(j) && FirstGoodAt(url, i + 1, j, get, good);
          assert FirstGoodAt(url, i, j, get, good);
        }
      }
    }
  }

  /** The search over the keys of `p`: the first trial URL that reflects the payload. */
  function FirstReflected(p: Probing): Option<string>
    requires WellFormed(p.ps)
  {
    FirstGood(Trials(p), |p.ps|, 0, p.get, Reflecting(p.payload))
  }

  /**
    * What `perform_request(url, payload)` ends with: `urlparse` raising
    * `ValueError` is not a `RequestException` and escapes; otherwise the
    * first reflecting trial URL, or `None`.
    */
  function Probe(lib: UrlLib, get: string -> Response, url: string, payload: string): Attempt {
    match lib.urlparse(url)
    case None => Raised
    case Some(parts) =>
      var ps := QueryParams(lib, parts);
      ParseQsValues(parts.query, false, lib.unquote, []);
      Returned(FirstReflected(Probing(lib, get, parts, ps, payload)))
  }

  /**
    * `perform_request`: the dictionary is updated in place, key by key: the
    * payload replaces the key's values (a string counts as one value for
    * `urlencode(..., doseq=True)`), the url is rebuilt and requested, and
    * unless the response reflects the payload the key is set back to its
    * first original value.
    */
  method PerformRequest(lib: UrlLib, get: string -> Response, url: string, payload: string) returns (r: Attempt)
    ensures r == Probe(lib, get, url, payload)
  {
    var parsed := lib.urlparse(url);
    if parsed.None? {
      return Raised;
    }
    var parts := parsed.value;
    var queryParams := QueryParams(lib, parts);
    ParseQsValues(parts.query, false, lib.unquote, []);
    var p := Probing(lib, get, parts, queryParams, payload);
    var current := queryParams;
    for i := 0 to |queryParams|
      invariant current == Reset(queryParams, i)
      invariant FirstGood(Trials(p), |queryParams|, i, get, Reflecting(payload)) == FirstReflected(p)
    {
      var stop, result;
      current, stop, result := TryParam(p, current, i);
      if stop {
        return Returned(result);
      }
    }
    return Returned(None);
  }

  /**
    * One turn of the loop over the keys: give key `i` the payload, request
    * the rebuilt url, and either stop with what the search returns or set
    * the key back to its first original value.
    */
  method TryParam(p: Probing, current: Params, i: nat) returns (current': Params, stop: bool, result: Option<string>)
    requires WellFormed(p.ps) && i < |p.ps| && current == Reset(p.ps, i)
    ensures var search := FirstGood(Trials(p), |p.ps|, i, p.get, Reflecting(p.payload));
      if stop then result == search else current' == Reset(p.ps, i + 1) && search == FirstGood(Trials(p), |p.ps|, i + 1, p.get, Reflecting(p.payload))
  {
    var param := current[i].key;
    var originalValue := current[i].values[0];
    Substitute(p.ps, i, p.payload);
    current' := Assign(current, param, [p.payload]);
    var vulnerableUrl := p.lib.urlunparse(p.parts.(query := Urlencode(current')));
    assert vulnerableUrl == Trials(p)(i);
    var response := p.get(vulnerableUrl);
    if response.RequestFailed? {
      return current', true, None;
    }
    if Reflected(p.payload, response.reply.body) {
      return current', true, Some(vulnerableUrl);
    }
    SetBack(p.ps, i, p.payload);
    current' := Assign(current', param, [originalValue]);
    stop, result := false, None;
  }

  /** A url without a non-blank query parameter is never requested and gives `None`. */
  lemma NoParametersNoRequest(lib: UrlLib, get: string -> Response, url: string, payload: string)
    requires lib.urlparse(url).Some? && QueryParams(lib, lib.urlparse(url).value) == []
    ensures Probe(lib, get, url, payload) == Returned(None)
  {
  }

  /** `perform_request(url.strip(), payload.strip())` for each task. */
  function Perform(lib: UrlLib, get: string -> Response): Task -> Attempt {
    (t: Task) => Probe(lib, get, Strip(t.url), Strip(t.payload))
  }

  /**
    * `run_xss_scanner` once the lists are read: the thread answer is taken
    * when it is a number from 0 to 10 (5 otherwise), and every (url, payload)
    * pair is scanned and counted once.
    */
  method RunXssScanner(lib: UrlLib, get: string -> Response, urls: seq<string>, payloads: seq<string>, threadsInput: string)
    returns (crashed: bool, totalScanned: nat, vulnerableUrls: seq<string>)
    ensures crashed <==> AnyRaised(Pairs(urls, payloads), Perform(lib, get))
    ensures !crashed ==> totalScanned == |urls| * |payloads|
    ensures !crashed ==> vulnerableUrls == Found(Pairs(urls, payloads), Hit(Perform(lib, get)))
  {
    var threads := LibsXssThreads(threadsInput);
    var totalFound;
    crashed, totalFound, totalScanned, vulnerableUrls := Scan(threads, urls, payloads, Perform(lib, get));
  }
}
