/**
  * The command-line open-redirect scanner of `libs/scanners/or_scanner.py`:
  * for each url and payload, every non-blank query parameter in turn is
  * given the payload and the first answer that redirects (301 or 302) to a
  * `Location` containing the payload is reported. A request that raises
  * skips the line that sets the parameter back, so the payload stays in that
  * parameter for the requests that follow.
  */
module LibsOr {
  import opened Wrappers
  import opened Text
  import opened Urls
  import opened Query
  import opened Verdicts
  import opened Drain
  import opened Reprobe
  import opened LibsCommon

  /** One call of `perform_request` after the url has been parsed; `ps` is the url's query as `parse_qs` reads it. */
  datatype Redirecting = Redirecting(lib: UrlLib, s: Session, url: string, parts: ParseResult, ps: Params, payload: string)

  /** The request for key `i` with dictionary `c`: GET of the rebuilt url, or POST of `{key: payload}` to the plain url. */
  function Sent(p: Redirecting, c: Params, i: nat): Response
    requires i < |p.ps|
  {
    Request(p.s, Rebuilt(p.lib, p.parts, c), p.url, map[p.ps[i].key := p.payload])
  }

  /** Dictionary `b` with key `i` given the payload. */
  function Tried(p: Redirecting, b: Params, i: nat): (r: Params)
    requires |b| == |p.ps| && i < |b|
  {
    b[i := Field(p.ps[i].key, [p.payload])]
  }

  /**
    * Dictionary `b` once key `i` has been tried: set back to its first
    * original value when the request was answered, left with the payload
    * when it raised; the other keys are untouched.
    */
  function After(p: Redirecting, b: Params, i: nat): (r: Params)
    requires WellFormed(p.ps) && |b| == |p.ps| && i < |b|
    ensures |r| == |b| && r[i].key == p.ps[i].key
    ensures forall j :: 0 <= j < |r| && j != i ==> r[j] == b[j]
    ensures r[i].values == if Sent(p, Tried(p, b, i), i).RequestFailed? then [p.payload] else [p.ps[i].values[0]]
  {
    var t := Tried(p, b, i);
    if Sent(p, t, i).RequestFailed? then t else t[i := Field(p.ps[i].key, [p.ps[i].values[0]])]
  }

  /**
    * The dictionary when key `i` is about to be tried: each earlier key holds
    * its first original value when its request was answered, and the payload
    * when its request raised.
    */
  function Before(p: Redirecting, i: nat): (r: Params)
    requires WellFormed(p.ps) && i <= |p.ps|
    ensures |r| == |p.ps|
    ensures forall j :: 0 <= j < |r| ==> r[j].key == p.ps[j].key
    ensures forall j :: i <= j < |r| ==> r[j] == p.ps[j]
    decreases i
  {
    if i == 0 then p.ps else After(p, Before(p, i - 1), i - 1)
  }

  /** The dictionary of the request for key `i`. */
  function Attempted(p: Redirecting, i: nat): Params
    requires WellFormed(p.ps) && i < |p.ps|
  {
    Tried(p, Before(p, i), i)
  }

  /** The URL of the request for key `i` (the one reported, whatever the method). */
  function AttemptUrls(p: Redirecting): nat -> string
    requires WellFormed(p.ps)
  {
    (i: nat) => if i < |p.ps| then Rebuilt(p.lib, p.parts, Attempted(p, i)) else []
  }

  /** The answer to the request for key `i`. */
  function Answers(p: Redirecting): nat -> Response
    requires WellFormed(p.ps)
  {
    (i: nat) => if i < |p.ps| then Sent(p, Attempted(p, i), i) else RequestFailed([])
  }

  /** An answer that redirects to a location containing the payload. */
  predicate Redirects(r: Response, payload: string) {
    r.Responded? && RedirectsToPayload(r.reply, payload)
  }

  /** From `i` below `n`: the URL of the first request whose answer redirects to the payload; failures do not stop the search. */
  function FirstOf(url: nat -> string, answer: nat -> Response, n: nat, i: nat, payload: string): Option<string>
    decreases n - i
  {
    if i >= n then None
    else if Redirects(answer(i), payload) then Some(url(i))
    else FirstOf(url, answer, n, i + 1, payload)
  }

  /** The search returns `url(j)` exactly for the first `j` whose answer redirects to the payload. */
  lemma {:induction false} FirstOfIff(url: nat -> string, answer: nat -> Response, n: nat, i: nat, payload: string, u: string)
    ensures FirstOf(url, answer, n, i, payload) == Some(u) <==>
      exists j :: i <= j < n && u == url(j) && Redirects(answer(j), payload) && forall k :: i <= k < j ==> !Redirects(answer(k), payload)
    decreases n - i
  {
    if i < n {
      FirstOfIff(url, answer, n, i + 1, payload, u);
      if !Redirects(answer(i), payload) {
        if exists j :: i + 1 <= j < n && u == url(j) && Redirects(answer(j), payload) && forall k :: i + 1 <= k < j ==> !Redirects(answer(k), payload) {
          var j :| i + 1 <= j < n && u == url(j) && Redirects(answer(j), payload) && forall k :: i + 1 <= k < j ==> !Redirects(answer(k), payload);
          assert forall k :: i <= k < j ==> !Redirects(answer(k), payload);
        }
      }
    }
  }

  /** The search over the keys of `p`. */
  function FirstRedirect(p: Redirecting): Option<string>
    requires WellFormed(p.ps)
  {
    FirstOf(AttemptUrls(p), Answers(p), |p.ps|, 0, p.payload)
  }

  /**
    * What `perform_request(url, payload)` ends with: `urlparse` raising is
    * outside the `try` and escapes; otherwise the first redirecting URL, or `None`.
    */
  function Probe(lib: UrlLib, s: Session, url: string, payload: string): Attempt {
    match lib.urlparse(url)
    case None => Raised
    case Some(parts) =>
      var ps := QueryParams(lib, parts);
      ParseQsValues(parts.query, false, lib.unquote, []);
      Returned(FirstRedirect(Redirecting(lib, s, url, parts, ps, payload)))
  }

  /** `perform_request`: the dictionary is updated in place, key by key. */
  method PerformRequest(lib: UrlLib, s: Session, url: string, payload: string) returns (r: Attempt)
    ensures r == Probe(lib, s, url, payload)
  {
    var parsed := lib.urlparse(url);
    if parsed.None? {
      return Raised;
    }
    var parts := parsed.value;
    var queryParams := QueryParams(lib, parts);
    ParseQsValues(parts.query, false, lib.unquote, []);
    var p := Redirecting(lib, s, url, parts, queryParams, payload);
    var current := queryParams;
    for i := 0 to |queryParams|
      invariant current == Before(p, i)
      invariant FirstOf(AttemptUrls(p), Answers(p), |queryParams|, i, payload) == FirstRedirect(p)
    {
      var stop, result;
      current, stop, result := TryParam(p, current, i);
      if stop {
        return Returned(result);
      }
    }
    return Returned(None);
  }

  /**
    * One turn of the loop: give key `i` the payload, send the request, and
    * stop on a redirect to the payload; after any other answer set the key
    * back to its first original value; after a request that raised, leave it.
    */
  method TryParam(p: Redirecting, current: Params, i: nat) returns (current': Params, stop: bool, result: Option<string>)
    requires WellFormed(p.ps) && i < |p.ps| && current == Before(p, i)
    ensures var search := FirstOf(AttemptUrls(p), Answers(p), |p.ps|, i, p.payload);
      if stop then result == search else current' == Before(p, i + 1) && search == FirstOf(AttemptUrls(p), Answers(p), |p.ps|, i + 1, p.payload)
  {
    var param := current[i].key;
    var originalValue := current[i].values[0];
    assert DistinctKeys(current) by {
      assert forall j :: 0 <= j < |current| ==> current[j].key == p.ps[j].key;
    }
    AssignAt(current, i, [p.payload]);
    current' := Assign(current, param, [p.payload]);
    var vulnerableUrl := p.lib.urlunparse(p.parts.(query := Urlencode(current')));
    var response := Request(p.s, vulnerableUrl, p.url, map[param := p.payload]);
    assert vulnerableUrl == AttemptUrls(p)(i) && response == Answers(p)(i);
    stop, result := false, None;
    if response.Responded? {
      if RedirectsToPayload(response.reply, p.payload) {
        return current', true, Some(vulnerableUrl);
      }
      assert DistinctKeys(current') by {
        assert forall j :: 0 <= j < |current'| ==> current'[j].key == p.ps[j].key;
      }
      AssignAt(current', i, [originalValue]);
      current' := Assign(current', param, [originalValue]);
    }
  }

  /**
    * Key `j`'s entry when key `i` is tried: untouched from `i` on; before
    * `i`, the first original value when `j`'s request was answered and the
    * payload when it raised.
    */
  lemma {:induction false} BeforeValues(p: Redirecting, i: nat, j: nat)
    requires WellFormed(p.ps) && i <= |p.ps| && j < |p.ps|
    ensures Before(p, i)[j].values ==
      if i <= j then p.ps[j].values
      else if Answers(p)(j).RequestFailed? then [p.payload] else [p.ps[j].values[0]]
    decreases i
  {
    if i > 0 {
      var b := Before(p, i - 1);
      assert Answers(p)(i - 1) == Sent(p, Tried(p, b, i - 1), i - 1);
      if j < i - 1 {
        BeforeValues(p, i - 1, j);
      }
    }
  }

  /** While every request was answered, the keys already tried hold their first original value only, as in `Reset`. */
  lemma AnsweredRunResets(p: Redirecting, i: nat)
    requires WellFormed(p.ps) && i <= |p.ps|
    requires forall j :: 0 <= j < i ==> Answers(p)(j).Responded?
    ensures Before(p, i) == Reset(p.ps, i)
  {
    forall j | 0 <= j < |p.ps|
      ensures Before(p, i)[j] == Reset(p.ps, i)[j]
    {
      BeforeValues(p, i, j);
    }
  }

  /** After the request for key `i` raised, every later request still carries the payload in key `i`. */
  lemma FailureKeepsPayload(p: Redirecting, i: nat, j: nat)
    requires WellFormed(p.ps) && i < j < |p.ps|
    requires Answers(p)(i).RequestFailed?
    ensures ValuesAt(Attempted(p, j), p.ps[i].key) == [p.payload]
  {
    BeforeValues(p, j, i);
    var t := Attempted(p, j);
    assert DistinctKeys(t) by {
      assert forall k :: 0 <= k < |t| ==> t[k].key == p.ps[k].key;
    }
    ValuesAtIndex(t, i);
  }

  /** `perform_request(url.strip(), payload)`: the payload is used as given. */
  function Perform(lib: UrlLib): Session -> Task -> Attempt {
    (s: Session) => (t: Task) => Probe(lib, s, Strip(t.url), t.payload)
  }

  /** `run_or_scanner`. */
  method RunOrScanner(a: Args, read: string -> Option<seq<string>>, userAgent: string, http: Session, lib: UrlLib)
    returns (run: Run)
    ensures InputList(a.url, a.urlFile, read).Missing? ==> run == NoUrl
    ensures InputList(a.url, a.urlFile, read).Unopenable? ==> run == Crashed
    ensures InputList(a.url, a.urlFile, read).Given? && InputList(a.payload, a.payloadFile, read).Missing? ==> run == NoPayload
    ensures InputList(a.url, a.urlFile, read).Given? && InputList(a.payload, a.payloadFile, read).Unopenable? ==> run == Crashed
    ensures InputList(a.url, a.urlFile, read).Given? && InputList(a.payload, a.payloadFile, read).Given? ==>
      var ts := Pairs(InputList(a.url, a.urlFile, read).items, InputList(a.payload, a.payloadFile, read).items);
      var perform := Perform(lib)(SessionOf(a, userAgent, http));
      (run.Crashed? <==> AnyRaised(ts, perform)) &&
      (!run.Crashed? ==> run == Finished(|Found(ts, Hit(perform))|, |ts|, Found(ts, Hit(perform))))
  {
    run := RunScanner(a, read, userAgent, http, Perform(lib));
  }
}
