/**
  * The asynchronous time-based SQL injection scanner: each probe is the url
  * followed by the stripped payload, sent as it is; a probe whose response
  * took ten seconds or more is reported.
  */
module SqlScanner {
  import opened Wrappers
  import opened Text
  import opened Verdicts
  import opened Drain

  /** What `perform_request` returns; the elapsed time it also returns is only printed. */
  datatype Outcome = Outcome(success: bool, urlWithPayload: string, error: Option<string>)

  /** The probe URL: the payload, stripped and not encoded, appended to the url. */
  function ProbeUrl(url: string, payload: string): (r: string)
    ensures IsPrefix(url, r) && r[|url|..] == Strip(payload) && IsStripped(r[|url|..])
  {
    url + Strip(payload)
  }

  /**
    * `perform_request`: `get` is the aiohttp session (with the cookie, if any,
    * already attached). The probe succeeds exactly when the body was read and
    * the whole exchange took at least ten seconds; an exception of either
    * step is caught and its text returned.
    */
  function PerformRequest(get: string -> Exchange, url: string, payload: string): (r: Outcome)
    ensures r.urlWithPayload == ProbeUrl(url, payload)
    ensures r.success <==> get(r.urlWithPayload).Fetched? && IsSlow(get(r.urlWithPayload).reply.elapsed)
    ensures r.error == None <==> get(r.urlWithPayload).Fetched?
    ensures r.error.Some? ==> r.error.value == get(r.urlWithPayload).error
  {
    var target := ProbeUrl(url, payload);
    match get(target)
    case Fetched(reply) => Outcome(IsSlow(reply.elapsed), target, None)
    case Unreachable(e) => Outcome(false, target, Some(e))
    case Unreadable(e) => Outcome(false, target, Some(e))
  }

  /** The entry a task adds to `vulnerable_urls`, if any. */
  function Hit(get: string -> Exchange): Task -> Option<string> {
    (t: Task) => var o := PerformRequest(get, t.url, t.payload); if o.success then Some(o.urlWithPayload) else None
  }

  /**
    * `main_async`: every pair is counted when submitted, tasks are drained in
    * batches of `threads * 10`, and the successful probe URLs are collected.
    * A thread count of 0 hangs the run on its first task.
    */
  method MainAsync(urls: seq<string>, payloads: seq<string>, threads: nat, get: string -> Exchange)
    returns (totalScanned: nat, vulnerableUrls: seq<string>, hung: bool, ghost batches: seq<seq<Task>>)
    ensures hung <==> threads == 0 && urls != [] && payloads != []
    ensures hung ==> totalScanned == 1 && vulnerableUrls == []
    ensures !hung ==> totalScanned == |urls| * |payloads|
    ensures !hung ==> Flatten(batches) == Pairs(urls, payloads) && IsBatching(batches, threads * 10)
    ensures !hung ==> vulnerableUrls == Found(Pairs(urls, payloads), Hit(get))
  {
    totalScanned, vulnerableUrls, hung, batches := DrainPairs(urls, payloads, threads, Hit(get));
  }

  /** The response to `u` was read and took ten seconds or more. */
  predicate SlowReply(get: string -> Exchange, u: string) {
    get(u).Fetched? && IsSlow(get(u).reply.elapsed)
  }

  /** A task contributes its probe URL exactly when that URL answered slowly. */
  lemma HitIff(get: string -> Exchange, url: string, payload: string, u: string)
    ensures Hit(get)(Task(url, payload)) == Some(u) <==> u == ProbeUrl(url, payload) && SlowReply(get, u)
  {
  }

  /**
    * The report lists a URL exactly when it is the probe of some url and
    * payload whose response was read and took ten seconds or more.
    */
  lemma VulnerableUrls(urls: seq<string>, payloads: seq<string>, get: string -> Exchange, u: string)
    ensures u in Found(Pairs(urls, payloads), Hit(get)) <==>
      exists i, j :: 0 <= i < |urls| && 0 <= j < |payloads| && u == ProbeUrl(urls[i], payloads[j]) && SlowReply(get, u)
  {
    FoundPairs(urls, payloads, Hit(get), u);
    forall i, j | 0 <= i < |urls| && 0 <= j < |payloads|
      ensures Hit(get)(Task(urls[i], payloads[j])) == Some(u) <==> u == ProbeUrl(urls[i], payloads[j]) && SlowReply(get, u)
    {
      HitIff(get, urls[i], payloads[j], u);
    }
  }

  /** A failed exchange is never reported, whatever it cost in time. */
  lemma FailuresAreNotReported(get: string -> Exchange, url: string, payload: string)
    requires !get(ProbeUrl(url, payload)).Fetched?
    ensures Hit(get)(Task(url, payload)) == None
    ensures PerformRequest(get, url, payload).error == Some(get(ProbeUrl(url, payload)).error)
  {
  }
}
