/**
  * The browser-only cross-site-scripting scanner: for every payload, every
  * query key of every (stripped) url is given the payload, and each resulting
  * URL is loaded in a browser leased from a shared driver queue; a URL whose
  * page raises an alert is recorded.
  */
module BrowserXss {
  import opened Wrappers
  import opened Text
  import opened Urls
  import opened Query
  import opened Verdicts
  import opened Drain
  import opened Pool
  import opened Substitution

  // ---------------------------------------------------------------- generation

  /**
    * `generate_payload_urls(url, payload)`: one URL per query key (blank
    * values kept), in parse order; when `urlsplit` raises, the error is logged
    * inside the generator and nothing is yielded.
    */
  function PayloadUrls(lib: UrlLib, url: string, payload: string): (r: seq<string>)
    ensures lib.urlsplit(url).None? ==> r == []
    ensures lib.urlsplit(url).Some? ==> |r| == |QueryOf(lib, lib.urlsplit(url).value)|
  {
    match lib.urlsplit(url)
    case None => []
    case Some(parts) =>
      var ps := QueryOf(lib, parts);
      seq(|ps|, k requires 0 <= k < |ps| => lib.urlunsplit(ProbeParts(parts, ps, ps[k].key, payload)))
  }

  function UrlsFor(lib: UrlLib, payload: string): string -> seq<string> {
    (url: string) => PayloadUrls(lib, url, payload)
  }

  /** The URLs of one payload: those of each url in turn. */
  function Round(lib: UrlLib, urls: seq<string>, payload: string): seq<string> {
    Concat(urls, UrlsFor(lib, payload))
  }

  function RoundFor(lib: UrlLib, urls: seq<string>): string -> seq<string> {
    (payload: string) => Round(lib, urls, payload)
  }

  /**
    * The order tasks are dispatched in: payload outermost, then url, then
    * query key. The scanner strips each url first, so it dispatches
    * `Dispatch(lib, StripEach(urls), payloads)`.
    */
  function Dispatch(lib: UrlLib, urls: seq<string>, payloads: seq<string>): seq<string> {
    Concat(payloads, RoundFor(lib, urls))
  }

  /**
    * The URLs of one url and payload are the url with one distinct query key
    * at a time given the payload, keys in parse order.
    */
  lemma PayloadUrlAt(lib: UrlLib, url: string, payload: string, k: nat)
    requires lib.urlsplit(url).Some? && k < |QueryOf(lib, lib.urlsplit(url).value)|
    ensures var parts := lib.urlsplit(url).value;
      var ps := QueryOf(lib, parts);
      WellFormed(ps)
      && PayloadUrls(lib, url, payload)[k] == lib.urlunsplit(ProbeParts(parts, ps, Keys(ps)[k], payload))
      && forall j :: 0 <= j < |ps| && j != k ==> Keys(ps)[j] != Keys(ps)[k]
  {
    var parts := lib.urlsplit(url).value;
    ParseQsValues(parts.query, true, lib.unquote, []);
  }

  /** A URL is dispatched for a payload exactly when one of the urls yields it for that payload. */
  lemma RoundMembers(lib: UrlLib, urls: seq<string>, payload: string, u: string)
    ensures u in Round(lib, urls, payload) <==> exists i :: 0 <= i < |urls| && u in PayloadUrls(lib, urls[i], payload)
  {
    ConcatMembers(urls, UrlsFor(lib, payload), u);
  }

  /** A URL is dispatched exactly when it is dispatched for one of the payloads. */
  lemma DispatchMembers(lib: UrlLib, urls: seq<string>, payloads: seq<string>, u: string)
    ensures u in Dispatch(lib, urls, payloads) <==> exists j :: 0 <= j < |payloads| && u in Round(lib, urls, payloads[j])
  {
    ConcatMembers(payloads, RoundFor(lib, urls), u);
  }

  /** A payload dispatches nothing exactly when no url yields a URL for it. */
  lemma EmptyRound(lib: UrlLib, urls: seq<string>, payload: string)
    ensures Round(lib, urls, payload) == [] <==> forall i :: 0 <= i < |urls| ==> PayloadUrls(lib, urls[i], payload) == []
  {
    ConcatEmpty(urls, UrlsFor(lib, payload));
  }

  /** A url yields nothing exactly when `urlsplit` rejects it or its query has no parameter. */
  lemma NoUrls(lib: UrlLib, url: string, payload: string)
    ensures PayloadUrls(lib, url, payload) == [] <==> lib.urlsplit(url).None? || QueryOf(lib, lib.urlsplit(url).value) == []
  {
  }

  // ---------------------------------------------------------------- verdict

  /** What `scan_url` adds to `injectables` for a URL: the URL, when its page raised an alert. */
  function Alert(visit: string -> Visit): string -> Option<string> {
    (u: string) => if AlertFired(visit(u)) then Some(u) else None
  }

  /** The URLs recorded are exactly the dispatched ones whose page raised an alert. */
  lemma InjectablesMembers(visit: string -> Visit, dispatched: seq<string>, u: string)
    ensures u in Found(dispatched, Alert(visit)) <==> u in dispatched && AlertFired(visit(u))
    ensures |Found(dispatched, Alert(visit))| <= |dispatched|
  {
    FoundMembers(dispatched, Alert(visit), u);
    FoundLength(dispatched, Alert(visit));
  }

  // ---------------------------------------------------------------- the scanner

  /** `batch_size = concurrency * 10`. */
  function BatchSize(concurrency: nat): nat {
    concurrency * 10
  }

  class MassScanner {
    const urls: seq<string>
    const payloads: seq<string>
    const concurrency: nat
    var injectables: seq<string>
    var totalScanned: nat

    constructor(urls: seq<string>, payloads: seq<string>, concurrency: nat)
      ensures this.urls == urls && this.payloads == payloads && this.concurrency == concurrency
      ensures injectables == [] && totalScanned == 0
    {
      this.urls, this.payloads, this.concurrency := urls, payloads, concurrency;
      injectables, totalScanned := [], 0;
    }

    /** The counters hold `s0` and `i0` plus what the URLs `done` added. */
    ghost predicate Tallied(visit: string -> Visit, s0: nat, i0: seq<string>, done: seq<string>)
      reads this
    {
      totalScanned == s0 + |done| && injectables == i0 + Found(done, Alert(visit))
    }

    /**
      * Between tasks every one of the `concurrency` drivers is idle in the
      * queue: none is leased, none is quit.
      */
    ghost predicate Idle(pool: DriverPool)
      reads pool
    {
      pool.Valid() && pool.size == concurrency && pool.leased == {} && pool.quit == []
    }

    /**
      * `scan_url`: a driver is taken from the queue, the URL is counted, the
      * page is loaded, the URL is recorded when an alert comes up, and the
      * driver goes back to the queue whether the load succeeded or not.
      */
    method ScanUrl(pool: DriverPool, visit: string -> Visit, url: string) returns (ghost lease: Driver)
      requires Idle(pool) && concurrency >= 1
      modifies this, pool
      ensures Idle(pool) && lease == old(pool.free)[0]
      ensures pool.free == old(pool.free)[1..] + [lease]
      ensures totalScanned == old(totalScanned) + 1
      ensures injectables == old(injectables) + match Alert(visit)(url) case Some(u) => [u] case None => []
    {
      assert 0 in Members(pool.free);
      var driver := pool.Get();
      lease := driver;
      totalScanned := totalScanned + 1;
      match visit(url) {
        case LoadFailed(_) =>
        case Loaded(_, alertShown) =>
          if alertShown {
            injectables := injectables + [url];
          }
      }
      pool.Put(driver);
    }

    /** `await asyncio.gather(*tasks)`: every URL of the batch is scanned once, in order. */
    method Gather(pool: DriverPool, visit: string -> Visit, batch: seq<string>, ghost s0: nat, ghost i0: seq<string>, ghost done: seq<string>)
      requires Tallied(visit, s0, i0, done) && Idle(pool) && concurrency >= 1
      modifies this, pool
      ensures Tallied(visit, s0, i0, done + batch) && Idle(pool)
    {
      assert done + batch[..0] == done;
      var k := 0;
      while k < |batch|
        invariant 0 <= k <= |batch|
        invariant Tallied(visit, s0, i0, done + batch[..k]) && Idle(pool)
      {
        var _ := ScanUrl(pool, visit, batch[k]);
        assert done + batch[..k + 1] == (done + batch[..k]) + [batch[k]];
        FoundAppend(done + batch[..k], [batch[k]], Alert(visit));
        k := k + 1;
      }
      assert batch[..k] == batch;
    }

    /** Awaits the pending tasks as one more batch. */
    method Flush(pool: DriverPool, visit: string -> Visit, tasks: seq<string>, ghost batches: seq<seq<string>>,
                 ghost s0: nat, ghost i0: seq<string>, ghost done: seq<string>)
      returns (ghost batches': seq<seq<string>>)
      requires Tallied(visit, s0, i0, done + Flatten(batches)) && Idle(pool) && concurrency >= 1
      modifies this, pool
      ensures batches' == batches + [tasks] && Flatten(batches') == Flatten(batches) + tasks
      ensures Tallied(visit, s0, i0, done + Flatten(batches')) && Idle(pool)
    {
      Gather(pool, visit, tasks, s0, i0, done + Flatten(batches));
      FlattenNext(batches, tasks);
      batches' := batches + [tasks];
      assert done + Flatten(batches') == done + Flatten(batches) + tasks;
    }

    /**
      * One task: queue it, and await the queue once it holds `batch_size`
      * tasks. With no concurrency the batch size is 0, the first task is
      * awaited at once, and the empty semaphore never lets it start.
      */
    method Step(pool: DriverPool, visit: string -> Visit, u: string, tasks: seq<string>, ghost batches: seq<seq<string>>,
                ghost s0: nat, ghost i0: seq<string>, ghost done: seq<string>)
      returns (hung: bool, tasks': seq<string>, ghost batches': seq<seq<string>>)
      requires Tallied(visit, s0, i0, done + Flatten(batches)) && Idle(pool)
      requires concurrency >= 1 ==> Draining(batches, tasks, BatchSize(concurrency))
      modifies this, pool
      ensures hung <==> concurrency == 0
      ensures hung ==> totalScanned == old(totalScanned) && injectables == old(injectables)
      ensures !hung ==> Draining(batches', tasks', BatchSize(concurrency)) && Tallied(visit, s0, i0, done + Flatten(batches'))
      ensures !hung ==> Flatten(batches') + tasks' == Flatten(batches) + tasks + [u] && Idle(pool)
    {
      hung, tasks', batches' := false, tasks + [u], batches;
      if |tasks'| >= BatchSize(concurrency) {
        if concurrency == 0 {
          hung := true;
          return;
        }
        batches' := Flush(pool, visit, tasks', batches, s0, i0, done);
        tasks' := [];
      }
    }

    /** The tasks created for the URLs one url yields for one payload. */
    method StepAll(pool: DriverPool, visit: string -> Visit, us: seq<string>, tasks: seq<string>, ghost batches: seq<seq<string>>,
                   ghost s0: nat, ghost i0: seq<string>, ghost done: seq<string>)
      returns (hung: bool, tasks': seq<string>, ghost batches': seq<seq<string>>)
      requires Tallied(visit, s0, i0, done + Flatten(batches)) && Idle(pool)
      requires concurrency >= 1 ==> Draining(batches, tasks, BatchSize(concurrency))
      requires concurrency == 0 ==> tasks == []
      modifies this, pool
      ensures hung <==> concurrency == 0 && us != []
      ensures hung ==> totalScanned == old(totalScanned) && injectables == old(injectables)
      ensures !hung ==> Tallied(visit, s0, i0, done + Flatten(batches')) && Idle(pool)
      ensures !hung ==> Flatten(batches') + tasks' == Flatten(batches) + tasks + us
      ensures !hung && concurrency >= 1 ==> Draining(batches', tasks', BatchSize(concurrency))
      ensures !hung && concurrency == 0 ==> batches' == batches && tasks' == []
    {
      hung, tasks', batches' := false, tasks, batches;
      if concurrency == 0 {
        if us != [] {
          hung, tasks', batches' := Step(pool, visit, us[0], tasks', batches', s0, i0, done);
        } else {
          assert Flatten(batches) + [] == Flatten(batches);
        }
        return;
      }
      var k := 0;
      while k < |us|
        invariant 0 <= k <= |us|
        invariant Draining(batches', tasks', BatchSize(concurrency)) && Tallied(visit, s0, i0, done + Flatten(batches'))
        invariant Flatten(batches') + tasks' == Flatten(batches) + tasks + us[..k]
        invariant Idle(pool) && !hung
      {
        assert us[..k + 1] == us[..k] + [us[k]];
        hung, tasks', batches' := Step(pool, visit, us[k], tasks', batches', s0, i0, done);
        k := k + 1;
      }
      assert us[..k] == us;
    }

    /**
      * The state of the url loop of one payload after the first `i` urls: the
      * URLs created are the awaited batches followed by the pending tasks, and
      * the counters cover the URLs `done` before this payload and the awaited batches.
      */
    ghost predicate Pending(pool: DriverPool, lib: UrlLib, visit: string -> Visit, s0: nat, i0: seq<string>, done: seq<string>,
                            payload: string, i: nat, tasks: seq<string>, batches: seq<seq<string>>)
      reads this, pool
    {
      i <= |urls| && Flatten(batches) + tasks == Round(lib, StripEach(urls)[..i], payload)
      && Tallied(visit, s0, i0, done + Flatten(batches)) && Idle(pool)
      && (concurrency >= 1 ==> Draining(batches, tasks, BatchSize(concurrency)))
      && (concurrency == 0 ==> tasks == [] && batches == [])
    }

    /** The body of the url loop: a task for each URL the url at `i` yields. */
    method UrlStep(pool: DriverPool, lib: UrlLib, visit: string -> Visit, payload: string, i: nat,
                   tasks: seq<string>, ghost batches: seq<seq<string>>, ghost s0: nat, ghost i0: seq<string>, ghost done: seq<string>)
      returns (hung: bool, tasks': seq<string>, ghost batches': seq<seq<string>>)
      requires i < |urls| && Pending(pool, lib, visit, s0, i0, done, payload, i, tasks, batches)
      modifies this, pool
      ensures hung <==> concurrency == 0 && Round(lib, StripEach(urls)[..i + 1], payload) != []
      ensures hung ==> Tallied(visit, s0, i0, done)
      ensures !hung ==> Pending(pool, lib, visit, s0, i0, done, payload, i + 1, tasks', batches')
    {
      ConcatNext(StripEach(urls), UrlsFor(lib, payload), i);
      if concurrency == 0 {
        assert Flatten(batches) == [] && done + [] == done;
      }
      hung, tasks', batches' := StepAll(pool, visit, PayloadUrls(lib, Strip(urls[i]), payload), tasks, batches, s0, i0, done);
    }

    /**
      * The body of the payload loop of `scan`: a task per URL of every url,
      * awaited `batch_size` at a time, and the rest awaited before the next
      * payload, so no batch holds URLs of two payloads.
      */
    method ScanPayload(pool: DriverPool, lib: UrlLib, visit: string -> Visit, payload: string,
                       ghost s0: nat, ghost i0: seq<string>, ghost done: seq<string>)
      returns (hung: bool, ghost batches: seq<seq<string>>)
      requires Tallied(visit, s0, i0, done) && Idle(pool)
      modifies this, pool
      ensures hung <==> concurrency == 0 && Round(lib, StripEach(urls), payload) != []
      ensures hung ==> Tallied(visit, s0, i0, done)
      ensures !hung ==> Flatten(batches) == Round(lib, StripEach(urls), payload) && IsBatching(batches, BatchSize(concurrency))
      ensures !hung ==> Tallied(visit, s0, i0, done + Round(lib, StripEach(urls), payload)) && Idle(pool)
    {
      var tasks: seq<string> := [];
      batches, hung := [], false;
      assert done + [] == done;
      var i := 0;
      while i < |urls|
        invariant Pending(pool, lib, visit, s0, i0, done, payload, i, tasks, batches)
      {
        hung, tasks, batches := UrlStep(pool, lib, visit, payload, i, tasks, batches, s0, i0, done);
        if hung {
          ConcatGrows(StripEach(urls), UrlsFor(lib, payload), i + 1);
          return;
        }
        i := i + 1;
      }
      assert StripEach(urls)[..i] == StripEach(urls);
      if tasks != [] {
        BatchingClose(batches, tasks, BatchSize(concurrency));
        batches := Flush(pool, visit, tasks, batches, s0, i0, done);
      } else if concurrency >= 1 {
        BatchingClose(batches, tasks, BatchSize(concurrency));
        assert Flatten(batches) + [] == Flatten(batches);
      }
    }

    /**
      * The state of the payload loop after the first `k` payloads: their URLs
      * were all scanned, each payload's in its own batches.
      */
    ghost predicate Scanned(pool: DriverPool, lib: UrlLib, visit: string -> Visit, s0: nat, i0: seq<string>,
                            k: nat, rounds: seq<seq<seq<string>>>)
      reads this, pool
    {
      k <= |payloads| && Tallied(visit, s0, i0, Dispatch(lib, StripEach(urls), payloads[..k])) && Idle(pool)
      && (concurrency == 0 ==> Dispatch(lib, StripEach(urls), payloads[..k]) == [])
      && |rounds| == k
      && forall j :: 0 <= j < k ==> Flatten(rounds[j]) == Round(lib, StripEach(urls), payloads[j]) && IsBatching(rounds[j], BatchSize(concurrency))
    }

    /** One pass of the payload loop. */
    method PayloadStep(pool: DriverPool, lib: UrlLib, visit: string -> Visit, ghost s0: nat, ghost i0: seq<string>,
                       k: nat, ghost rounds: seq<seq<seq<string>>>)
      returns (hung: bool, ghost rounds': seq<seq<seq<string>>>)
      requires k < |payloads| && Scanned(pool, lib, visit, s0, i0, k, rounds)
      modifies this, pool
      ensures hung <==> concurrency == 0 && Dispatch(lib, StripEach(urls), payloads[..k + 1]) != []
      ensures hung ==> Dispatch(lib, StripEach(urls), payloads) != []
      ensures hung ==> totalScanned == s0 && injectables == i0
      ensures !hung ==> Scanned(pool, lib, visit, s0, i0, k + 1, rounds')
    {
      ghost var done := Dispatch(lib, StripEach(urls), payloads[..k]);
      ConcatNext(payloads, RoundFor(lib, StripEach(urls)), k);
      ghost var batches;
      hung, batches := ScanPayload(pool, lib, visit, payloads[k], s0, i0, done);
      rounds' := rounds + [batches];
      if hung {
        ConcatGrows(payloads, RoundFor(lib, StripEach(urls)), k + 1);
        assert Found<string, string>([], Alert(visit)) == [] && i0 + [] == i0;
      }
    }

    /** The payload loop of `scan`, over a pool whose drivers are all idle. */
    method ScanPayloads(pool: DriverPool, lib: UrlLib, visit: string -> Visit) returns (hung: bool, ghost rounds: seq<seq<seq<string>>>)
      requires Idle(pool)
      modifies this, pool
      ensures hung <==> concurrency == 0 && Dispatch(lib, StripEach(urls), payloads) != []
      ensures hung ==> totalScanned == old(totalScanned) && injectables == old(injectables)
      ensures !hung ==> Scanned(pool, lib, visit, old(totalScanned), old(injectables), |payloads|, rounds)
    {
      ghost var s0, i0 := totalScanned, injectables;
      hung, rounds := false, [];
      assert payloads[..0] == [];
      var k := 0;
      while k < |payloads|
        invariant Scanned(pool, lib, visit, s0, i0, k, rounds)
      {
        hung, rounds := PayloadStep(pool, lib, visit, s0, i0, k, rounds);
        if hung {
          return;
        }
        k := k + 1;
      }
      assert payloads[..k] == payloads;
    }

    /**
      * `scan`: `concurrency` drivers are created and queued, every payload's
      * URLs are scanned in dispatch order, and at the end every driver in the
      * queue is quit. Each URL is counted once and recorded when its page
      * raised an alert. With no concurrency the first task never starts and
      * no driver is quit.
      */
    method Scan(lib: UrlLib, visit: string -> Visit) returns (hung: bool, ghost rounds: seq<seq<seq<string>>>, ghost quit: seq<Driver>)
      modifies this
      ensures hung <==> concurrency == 0 && Dispatch(lib, StripEach(urls), payloads) != []
      ensures hung ==> totalScanned == old(totalScanned) && injectables == old(injectables) && quit == []
      ensures !hung ==> Tallied(visit, old(totalScanned), old(injectables), Dispatch(lib, StripEach(urls), payloads))
      ensures !hung ==> |rounds| == |payloads|
      ensures !hung ==> forall k :: 0 <= k < |payloads| ==>
        Flatten(rounds[k]) == Round(lib, StripEach(urls), payloads[k]) && IsBatching(rounds[k], BatchSize(concurrency))
      ensures !hung ==> |quit| == concurrency && Distinct(quit) && Members(quit) == Ids(concurrency)
    {
      var pool := new DriverPool(concurrency);
      quit := [];
      hung, rounds := ScanPayloads(pool, lib, visit);
      if hung {
        return;
      }
      assert payloads[..|payloads|] == payloads;
      pool.QuitAll();
      quit := pool.quit;
    }
  }
}
