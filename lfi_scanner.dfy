/**
  * The asynchronous local-file-inclusion scanner: each probe is the url
  * followed by the percent-encoded, stripped payload; a probe whose body
  * contains one of the success criteria is reported.
  */
module LfiScanner {
  import opened Wrappers
  import opened Text
  import opened Percent
  import opened Verdicts
  import opened Drain

  /** The criterion used when none is typed, and on the non-interactive path. */
  const DefaultCriteria: seq<string> := ["root:x:0:"]

  /**
    * The success-criteria answer: the comma-separated pieces of the stripped
    * answer, each stripped (empty pieces are kept), or the default for a blank answer.
    */
  function SuccessCriteria(answer: string): (r: seq<string>)
    ensures |r| >= 1
    ensures forall k :: 0 <= k < |r| ==> IsStripped(r[k]) && ',' !in r[k]
    ensures AllSpace(answer) ==> r == DefaultCriteria
  {
    StripBlank(answer);
    var a := Strip(answer);
    if a == [] then
      DefaultShape();
      DefaultCriteria
    else
      StrippedPieces(a);
      StripEach(Split(a, ','))
  }

  /** The default criterion is stripped and has no comma. */
  lemma DefaultShape()
    ensures forall k :: 0 <= k < |DefaultCriteria| ==> IsStripped(DefaultCriteria[k]) && ',' !in DefaultCriteria[k]
  {
    var d := DefaultCriteria[0];
    assert d[0] == 'r' && d[|d| - 1] == ':';
    assert forall m :: 0 <= m < |d| ==> d[m] != ',';
  }

  /** The stripped comma-separated pieces of a text: at least one, each stripped and comma-free. */
  lemma StrippedPieces(a: string)
    ensures var r := StripEach(Split(a, ','));
      |r| >= 1 && forall k :: 0 <= k < |r| ==> IsStripped(r[k]) && ',' !in r[k]
  {
    StripEachKeeps(Split(a, ','), ',');
  }

  /** A list of stripped, comma-free criteria typed joined by commas is read back as that list. */
  lemma CriteriaOfList(xs: seq<string>)
    requires |xs| >= 1 && forall k :: 0 <= k < |xs| ==> IsStripped(xs[k]) && ',' !in xs[k]
    requires Join(xs, ',') != [] && IsStripped(Join(xs, ','))
    ensures SuccessCriteria(Join(xs, ',')) == xs
  {
    SplitJoin(xs, ',');
    StripEachStripped(xs);
    CriteriaOfPieces(Join(xs, ','), xs);
  }

  lemma CriteriaOfPieces(s: string, xs: seq<string>)
    requires s != [] && IsStripped(s)
    requires Split(s, ',') == xs && StripEach(xs) == xs
    ensures SuccessCriteria(s) == xs
  {
    StripStripped(s);
  }

  /** Typing `x,,y` adds the empty criterion, and every body then counts as vulnerable. */
  lemma DoubleCommaFlagsEverything(x: string, y: string, body: string)
    requires x != [] && y != [] && IsStripped(x) && IsStripped(y) && ',' !in x && ',' !in y
    ensures MatchesAny(SuccessCriteria(x + ",," + y), body)
  {
    var xs := [x, "", y];
    assert Join(xs, ',') == x + ",," + y by {
      assert Join(xs[2..], ',') == y;
      assert Join(xs[1..], ',') == "" + [','] + y;
    }
    var s := x + ",," + y;
    assert s[0] == x[0] && s[|s| - 1] == y[|y| - 1];
    CriteriaOfList(xs);
    EmptyCriterionMatchesEverything(xs, body);
  }

  /** What `perform_request` returns; the elapsed time it also returns is only printed. */
  datatype Outcome = Outcome(isVulnerable: bool, targetUrl: string)

  /** The probe URL: the stripped payload, percent-encoded with `/` kept, appended to the url. */
  function ProbeUrl(url: string, payload: string): (r: string)
    ensures IsPrefix(url, r) && r[|url|..] == Quote(Strip(payload))
    ensures forall k :: |url| <= k < |r| ==> IsPathSafe(r[k]) || r[k] == '%'
  {
    url + Quote(Strip(payload))
  }

  /**
    * `perform_request`: a probe is vulnerable exactly when its body was read
    * and contains one of the criteria; any exception makes it not vulnerable.
    */
  function PerformRequest(get: string -> Exchange, criteria: seq<string>, url: string, payload: string): (r: Outcome)
    ensures r.targetUrl == ProbeUrl(url, payload)
    ensures r.isVulnerable <==> get(r.targetUrl).Fetched? && MatchesAny(criteria, get(r.targetUrl).reply.body)
  {
    var target := ProbeUrl(url, payload);
    match get(target)
    case Fetched(reply) => Outcome(MatchesAny(criteria, reply.body), target)
    case _ => Outcome(false, target)
  }

  /** The entry a task adds to `vulnerable_urls`, if any. */
  function Hit(get: string -> Exchange, criteria: seq<string>): Task -> Option<string> {
    (t: Task) => var o := PerformRequest(get, criteria, t.url, t.payload); if o.isVulnerable then Some(o.targetUrl) else None
  }

  /**
    * `main_async`: every pair is counted when submitted, tasks are drained in
    * batches of `threads * 10`, and the vulnerable target URLs are collected.
    * A thread count of 0 hangs the run on its first task.
    */
  method MainAsync(urls: seq<string>, payloads: seq<string>, criteria: seq<string>, threads: nat, get: string -> Exchange)
    returns (totalScanned: nat, vulnerableUrls: seq<string>, hung: bool, ghost batches: seq<seq<Task>>)
    ensures hung <==> threads == 0 && urls != [] && payloads != []
    ensures hung ==> totalScanned == 1 && vulnerableUrls == []
    ensures !hung ==> totalScanned == |urls| * |payloads|
    ensures !hung ==> Flatten(batches) == Pairs(urls, payloads) && IsBatching(batches, threads * 10)
    ensures !hung ==> vulnerableUrls == Found(Pairs(urls, payloads), Hit(get, criteria))
  {
    totalScanned, vulnerableUrls, hung, batches := DrainPairs(urls, payloads, threads, Hit(get, criteria));
  }

  /** The body of `u` was read and contains a criterion. */
  predicate Matched(get: string -> Exchange, criteria: seq<string>, u: string) {
    get(u).Fetched? && MatchesAny(criteria, get(u).reply.body)
  }

  lemma HitIff(get: string -> Exchange, criteria: seq<string>, url: string, payload: string, u: string)
    ensures Hit(get, criteria)(Task(url, payload)) == Some(u) <==> u == ProbeUrl(url, payload) && Matched(get, criteria, u)
  {
  }

  /** The report lists a URL exactly when it is the probe of some url and payload whose body matched. */
  lemma VulnerableUrls(urls: seq<string>, payloads: seq<string>, criteria: seq<string>, get: string -> Exchange, u: string)
    ensures u in Found(Pairs(urls, payloads), Hit(get, criteria)) <==>
      exists i, j :: 0 <= i < |urls| && 0 <= j < |payloads| && u == ProbeUrl(urls[i], payloads[j]) && Matched(get, criteria, u)
  {
    FoundPairs(urls, payloads, Hit(get, criteria), u);
    forall i, j | 0 <= i < |urls| && 0 <= j < |payloads|
      ensures Hit(get, criteria)(Task(urls[i], payloads[j])) == Some(u) <==> u == ProbeUrl(urls[i], payloads[j]) && Matched(get, criteria, u)
    {
      HitIff(get, criteria, urls[i], payloads[j], u);
    }
  }

  /** A directory-traversal payload, with or without surrounding blanks, is appended unchanged. */
  lemma TraversalProbe(url: string, pad: string)
    requires AllSpace(pad)
    ensures ProbeUrl(url, pad + "../../etc/passwd" + pad) == url + "../../etc/passwd"
  {
    var p := "../../etc/passwd";
    assert p[0] == '.' && p[|p| - 1] == 'd';
    StripOfPadded(pad, p, pad);
    QuoteTraversalPayload();
  }

  /** A passwd file served back is reported under the default criterion. */
  lemma PasswdFileIsVulnerable(get: string -> Exchange, url: string, payload: string)
    requires get(ProbeUrl(url, payload)).Fetched?
    requires get(ProbeUrl(url, payload)).reply.body == "root:x:0:0:root:/root:/bin/bash"
    ensures PerformRequest(get, DefaultCriteria, url, payload).isVulnerable
  {
    PasswdLineMatchesDefault();
  }
}
