/**
  * The command-line local file inclusion scanner of
  * `libs/scanners/lfi_scanner.py`: each probe is the url followed by the
  * percent-encoded stripped payload, and a probe is reported when one of the
  * success patterns is found in the response body.
  */
module LibsLfi {
  import opened Wrappers
  import opened Text
  import opened Percent
  import opened Verdicts
  import opened Drain
  import opened LibsCommon

  /** The default of `--success-patterns`. */
  const DefaultPatterns: string := "root:x:0:"

  /** `[pattern.strip() for pattern in patterns.split(',')]`: never empty, one pattern per comma-separated piece. */
  function SuccessCriteria(patterns: string): (r: seq<string>)
    ensures |r| >= 1
  {
    StripEach(Split(patterns, ','))
  }

  /** Patterns written out with commas between them come back one by one, each stripped. */
  lemma CriteriaOfList(xs: seq<string>)
    requires |xs| >= 1 && forall k :: 0 <= k < |xs| ==> ',' !in xs[k]
    ensures SuccessCriteria(Join(xs, ',')) == StripEach(xs)
  {
    SplitJoin(xs, ',');
  }

  /** The default is the single pattern `root:x:0:`. */
  lemma DefaultCriteria()
    ensures SuccessCriteria(DefaultPatterns) == [DefaultPatterns]
  {
    DefaultIsOnePiece();
    StripStripped(DefaultPatterns);
  }

  lemma DefaultIsOnePiece()
    ensures Split(DefaultPatterns, ',') == [DefaultPatterns]
  {
    assert ',' !in DefaultPatterns;
    IndexOfAbsent(DefaultPatterns, ',');
  }

  /** `any(re.search(pattern, body) for pattern in criteria)`; `search` is the regular-expression engine. */
  predicate AnyMatch(search: (string, string) -> bool, criteria: seq<string>, body: string) {
    exists k :: 0 <= k < |criteria| && search(criteria[k], body)
  }

  /** With patterns that are plain text (no special characters), a match is a substring test. */
  lemma LiteralPatterns(search: (string, string) -> bool, criteria: seq<string>, body: string)
    requires forall k :: 0 <= k < |criteria| ==> (search(criteria[k], body) <==> Contains(body, criteria[k]))
    ensures AnyMatch(search, criteria, body) <==> MatchesAny(criteria, body)
  {
  }

  /** The probe URL: `f"{url}{quote(payload.strip())}"`. */
  function TargetUrl(url: string, payload: string): (r: string)
    ensures IsPrefix(url, r) && r[|url|..] == Quote(Strip(payload))
  {
    url + Quote(Strip(payload))
  }

  /** A traversal payload read from a file line keeps its slashes and dots. */
  lemma TraversalTarget(url: string)
    ensures TargetUrl(url, "../../etc/passwd\n") == url + "../../etc/passwd"
  {
    var t := "../../etc/passwd";
    assert "../../etc/passwd\n" == [] + t + "\n";
    assert IsStripped(t);
    assert AllSpace("\n");
    StripOfPadded([], t, "\n");
    QuoteTraversalPayload();
  }

  /**
    * `perform_request(url, payload)`: GET of the probe URL, or POST of
    * `{payload.strip(): ''}` to the plain url; the probe URL is returned when
    * the answer matches a pattern, and `None` when it does not or the request raised.
    */
  function Probe(s: Session, search: (string, string) -> bool, criteria: seq<string>, url: string, payload: string): Attempt {
    var target := TargetUrl(url, payload);
    match Request(s, target, url, map[Strip(payload) := []])
    case RequestFailed(_) => Returned(None)
    case Responded(reply) => if AnyMatch(search, criteria, reply.body) then Returned(Some(target)) else Returned(None)
  }

  /** A probe never raises, and returns a URL exactly when the answer to it matched: the probe URL. */
  lemma ProbeIff(s: Session, search: (string, string) -> bool, criteria: seq<string>, url: string, payload: string, u: string)
    ensures Probe(s, search, criteria, url, payload).Returned?
    ensures Probe(s, search, criteria, url, payload) == Returned(Some(u)) <==>
      var answer := Request(s, TargetUrl(url, payload), url, map[Strip(payload) := []]);
      u == TargetUrl(url, payload) && answer.Responded? && AnyMatch(search, criteria, answer.reply.body)
  {
  }

  /** `perform_request(url.strip(), payload)` with the criteria of `--success-patterns`. */
  function Perform(search: (string, string) -> bool, patterns: string): Session -> Task -> Attempt {
    (s: Session) => (t: Task) => Probe(s, search, SuccessCriteria(patterns), Strip(t.url), t.payload)
  }

  /** `run_lfi_scanner`: `total_found` always equals the number of URLs collected. */
  method RunLfiScanner(a: Args, patterns: string, read: string -> Option<seq<string>>, userAgent: string, http: Session,
                       search: (string, string) -> bool)
    returns (run: Run)
    ensures InputList(a.url, a.urlFile, read).Missing? ==> run == NoUrl
    ensures InputList(a.url, a.urlFile, read).Unopenable? ==> run == Crashed
    ensures InputList(a.url, a.urlFile, read).Given? && InputList(a.payload, a.payloadFile, read).Missing? ==> run == NoPayload
    ensures InputList(a.url, a.urlFile, read).Given? && InputList(a.payload, a.payloadFile, read).Unopenable? ==> run == Crashed
    ensures InputList(a.url, a.urlFile, read).Given? && InputList(a.payload, a.payloadFile, read).Given? ==>
      var ts := Pairs(InputList(a.url, a.urlFile, read).items, InputList(a.payload, a.payloadFile, read).items);
      var perform := Perform(search, patterns)(SessionOf(a, userAgent, http));
      (run.Crashed? <==> AnyRaised(ts, perform)) &&
      (!run.Crashed? ==> run == Finished(|Found(ts, Hit(perform))|, |ts|, Found(ts, Hit(perform))))
    ensures run.Finished? ==> run.totalFound == |run.vulnerableUrls|
  {
    run := RunScanner(a, read, userAgent, http, Perform(search, patterns));
  }
}
