/**
  * The browser-based open-redirect scanner: each probe is the url followed by
  * the stripped payload, loaded in a headless browser taken from a pool of
  * `max_threads` drivers; a probe whose navigation ends on the redirect target
  * is reported.
  */
module RedirectScanner {
  import opened Wrappers
  import opened Text
  import opened Verdicts
  import opened Drain
  import opened Pool

  /** The page loaded for a probe: the payload, stripped and not encoded, appended to the url. */
  function TargetUrl(url: string, payload: string): (r: string)
    ensures IsPrefix(url, r) && r[|url|..] == Strip(payload)
  {
    url + Strip(payload)
  }

  /**
    * `scan_url`: `(True, target_url)` when the browser ended exactly on the
    * redirect target, `(False, None)` for any other page, a timeout or any
    * other exception.
    */
  function ScanUrl(visit: string -> Visit, target: string): (r: (bool, Option<string>))
    ensures r.0 <==> visit(target).Loaded? && visit(target).currentUrl == RedirectTarget
    ensures r.1 == if r.0 then Some(target) else None
  {
    if LandedOnTarget(visit(target)) then (true, Some(target)) else (false, None)
  }

  /** The entry a task adds to `vulnerable_urls`, if any. */
  function Hit(visit: string -> Visit): Task -> Option<string> {
    (t: Task) => ScanUrl(visit, TargetUrl(t.url, t.payload)).1
  }

  /**
    * The driver side of `test_open_redirect`'s event loop: the pool, the
    * drivers leased by tasks that have not finished (oldest first) and the
    * tasks of the current batch.
    */
  class RedirectScan {
    const pool: DriverPool
    /** `batch_size = max_threads * 10`. */
    const cap: nat
    var running: seq<Driver>
    var tasks: seq<Task>

    /** Every driver is idle or leased by exactly one unfinished task of the current batch. */
    ghost predicate Sound()
      reads this, pool
    {
      pool.Valid() && pool.quit == [] && cap == pool.size * 10
      && Distinct(running) && Members(running) == pool.leased && |running| <= |tasks|
    }

    /** Between two iterations the batch is below its size. */
    ghost predicate Valid()
      reads this, pool
    {
      Sound() && (|tasks| < cap || tasks == [])
    }

    /** `max_threads` drivers are created and queued; nothing is scheduled yet. */
    constructor(maxThreads: nat)
      ensures Valid() && fresh(pool)
      ensures pool.size == maxThreads && running == [] && tasks == []
    {
      pool := new DriverPool(maxThreads);
      cap := maxThreads * 10;
      running, tasks := [], [];
    }

    /** With no idle driver there is a running task to wait for, unless the pool is empty. */
    lemma LeasesWhenExhausted()
      requires Sound() && pool.free == []
      ensures running == [] <==> pool.size == 0
    {
      HeadIsMember(running);
      if pool.size > 0 {
        assert 0 in Ids(pool.size);
      }
    }

    /**
      * One iteration of the nested loop up to the batch test:
      * `driver_pool.get()` (waiting, when the pool is empty, for the oldest
      * running task to finish and its done-callback to put its driver back),
      * then schedule the task with that driver. An empty pool has no task to
      * wait for: the run hangs.
      */
    method Submit(t: Task) returns (hung: bool)
      requires Valid()
      modifies this, pool
      ensures hung <==> pool.size == 0
      ensures !hung ==> Sound() && tasks == old(tasks) + [t]
      ensures !hung && |tasks| < cap ==> Valid()
      ensures !hung ==> |running| <= pool.size
    {
      hung := false;
      if pool.free == [] {
        LeasesWhenExhausted();
        if running == [] {
          hung := true;
          return;
        }
        pool.Put(running[0]);
        assert Members(running) == {running[0]} + Members(running[1..]);
        running := running[1..];
      }
      var d := pool.Get();
      assert Members(running + [d]) == Members(running) + {d};
      running := running + [d];
      tasks := tasks + [t];
      LeaseCount(pool.free, running, pool.size);
    }

    /**
      * `await asyncio.gather(*tasks)`: every task of the batch finishes and
      * every done-callback returns its driver; the batch is handed over for
      * its results and the task list is reset.
      */
    method Gather() returns (batch: seq<Task>)
      requires Sound()
      modifies this, pool
      ensures Valid() && running == [] && tasks == [] && pool.leased == {}
      ensures pool.free == old(pool.free) + old(running)
      ensures batch == old(tasks)
    {
      ghost var finishing := running;
      var k := 0;
      while running != []
        invariant Sound() && 0 <= k <= |finishing| && running == finishing[k..]
        invariant pool.free == old(pool.free) + finishing[..k]
        invariant tasks == old(tasks)
        decreases |running|
      {
        pool.Put(running[0]);
        assert Members(running) == {running[0]} + Members(running[1..]);
        assert finishing[..k + 1] == finishing[..k] + [running[0]];
        running := running[1..];
        k := k + 1;
      }
      assert finishing[..k] == finishing;
      HeadIsMember(running);
      batch, tasks := tasks, [];
    }

    /** `while not driver_pool.empty(): driver_pool.get().quit()` once nothing runs. */
    method Teardown()
      requires Valid() && tasks == []
      modifies pool
      ensures Distinct(pool.quit) && Members(pool.quit) == Ids(pool.size) && |pool.quit| == pool.size
    {
      HeadIsMember(running);
      pool.QuitAll();
    }
  }

  /** The results gathered so far: full batches, and the vulnerable targets of their tasks with their count. */
  ghost predicate Tally(batches: seq<seq<Task>>, vulnerableUrls: seq<string>, found: nat, cap: nat, hit: Task -> Option<string>) {
    (forall k :: 0 <= k < |batches| ==> |batches[k]| == cap)
    && vulnerableUrls == Found(Flatten(batches), hit) && found == |vulnerableUrls|
  }

  /** Gather the current batch and add its vulnerable targets, counting each. */
  method GatherInto(scan: RedirectScan, ghost batches: seq<seq<Task>>, vulnerableUrls: seq<string>, found: nat, hit: Task -> Option<string>)
    returns (ghost batches': seq<seq<Task>>, vulnerableUrls': seq<string>, found': nat)
    requires scan.Sound() && vulnerableUrls == Found(Flatten(batches), hit) && found == |vulnerableUrls|
    modifies scan, scan.pool
    ensures scan.Valid() && scan.tasks == []
    ensures batches' == batches + [old(scan.tasks)]
    ensures vulnerableUrls' == Found(Flatten(batches'), hit) && found' == |vulnerableUrls'|
  {
    var batch := scan.Gather();
    var more;
    more, batches' := DrainInto(batch, batches, vulnerableUrls, hit);
    vulnerableUrls', found' := vulnerableUrls + more, found + |more|;
  }

  /** One iteration of the nested loop: submit the task, and gather once the batch is full. */
  method Step(scan: RedirectScan, t: Task, ghost batches: seq<seq<Task>>, vulnerableUrls: seq<string>, found: nat, hit: Task -> Option<string>)
    returns (hung: bool, ghost batches': seq<seq<Task>>, vulnerableUrls': seq<string>, found': nat)
    requires scan.Valid() && Tally(batches, vulnerableUrls, found, scan.cap, hit)
    modifies scan, scan.pool
    ensures hung <==> scan.pool.size == 0
    ensures !hung ==> scan.Valid() && Tally(batches', vulnerableUrls', found', scan.cap, hit)
    ensures !hung ==> Flatten(batches') + scan.tasks == Flatten(batches) + old(scan.tasks) + [t]
  {
    batches', vulnerableUrls', found' := batches, vulnerableUrls, found;
    hung := scan.Submit(t);
    if !hung && |scan.tasks| >= scan.cap {
      batches', vulnerableUrls', found' := GatherInto(scan, batches, vulnerableUrls, found, hit);
      FlattenNext(batches, old(scan.tasks) + [t]);
    }
  }

  /** The inner loop of `test_open_redirect`: one step per payload, for one url. */
  method ScanRow(scan: RedirectScan, url: string, payloads: seq<string>, ghost batches: seq<seq<Task>>,
                 vulnerableUrls: seq<string>, found: nat, hit: Task -> Option<string>)
    returns (hung: bool, ghost batches': seq<seq<Task>>, vulnerableUrls': seq<string>, found': nat)
    requires scan.Valid() && Tally(batches, vulnerableUrls, found, scan.cap, hit)
    requires scan.pool.size == 0 ==> batches == []
    modifies scan, scan.pool
    ensures hung <==> scan.pool.size == 0 && payloads != []
    ensures !hung ==> scan.Valid() && Tally(batches', vulnerableUrls', found', scan.cap, hit)
    ensures !hung ==> Flatten(batches') + scan.tasks == Flatten(batches) + old(scan.tasks) + Row(url, payloads)
    ensures !hung && scan.pool.size == 0 ==> batches' == []
  {
    hung, batches', vulnerableUrls', found' := false, batches, vulnerableUrls, found;
    var j := 0;
    while j < |payloads|
      invariant 0 <= j <= |payloads|
      invariant scan.Valid() && Tally(batches', vulnerableUrls', found', scan.cap, hit)
      invariant Flatten(batches') + scan.tasks == Flatten(batches) + old(scan.tasks) + Row(url, payloads[..j])
      invariant scan.pool.size == 0 ==> batches' == [] && j == 0
    {
      RowNext(url, payloads, j);
      hung, batches', vulnerableUrls', found' := Step(scan, Task(url, payloads[j]), batches', vulnerableUrls', found', hit);
      if hung {
        return;
      }
      j := j + 1;
    }
    assert payloads[..j] == payloads;
  }

  /** After the loops: gather what is left, then quit every driver. */
  method Finish(scan: RedirectScan, ghost batches: seq<seq<Task>>, vulnerableUrls: seq<string>, found: nat, hit: Task -> Option<string>)
    returns (ghost batches': seq<seq<Task>>, vulnerableUrls': seq<string>, found': nat)
    requires scan.Valid() && Tally(batches, vulnerableUrls, found, scan.cap, hit)
    requires scan.pool.size == 0 ==> batches == []
    modifies scan, scan.pool
    ensures Flatten(batches') == Flatten(batches) + old(scan.tasks) && IsBatching(batches', scan.cap)
    ensures vulnerableUrls' == Found(Flatten(batches'), hit) && found' == |vulnerableUrls'|
    ensures Distinct(scan.pool.quit) && Members(scan.pool.quit) == Ids(scan.pool.size) && |scan.pool.quit| == scan.pool.size
  {
    batches', vulnerableUrls', found' := batches, vulnerableUrls, found;
    if scan.tasks != [] {
      BatchingClose(batches, scan.tasks, scan.cap);
      FlattenNext(batches, scan.tasks);
      batches', vulnerableUrls', found' := GatherInto(scan, batches, vulnerableUrls, found, hit);
    } else {
      assert Flatten(batches) + [] == Flatten(batches);
      if scan.cap > 0 {
        BatchingClose(batches, [], scan.cap);
      }
    }
    scan.Teardown();
  }

  /**
    * `test_open_redirect`: url-major, payload-minor submission; gathered
    * batches of `max_threads * 10` plus a final gather, whose vulnerable
    * targets are counted and appended in submission order (the order of
    * `gather`); then every driver is quit once. With `max_threads == 0`
    * there is no driver to take and the run hangs at its first probe.
    */
  method TestOpenRedirect(urls: seq<string>, payloads: seq<string>, maxThreads: nat, visit: string -> Visit)
    returns (foundVulnerabilities: nat, vulnerableUrls: seq<string>, hung: bool,
             ghost batches: seq<seq<Task>>, ghost quit: seq<Driver>)
    ensures hung <==> maxThreads == 0 && urls != [] && payloads != []
    ensures !hung ==> vulnerableUrls == Found(Pairs(urls, payloads), Hit(visit))
    ensures !hung ==> foundVulnerabilities == |vulnerableUrls|
    ensures !hung ==> Flatten(batches) == Pairs(urls, payloads) && IsBatching(batches, maxThreads * 10)
    ensures !hung ==> Distinct(quit) && Members(quit) == Ids(maxThreads) && |quit| == maxThreads
  {
    var scan := new RedirectScan(maxThreads);
    foundVulnerabilities, vulnerableUrls, hung, batches, quit := 0, [], false, [], [];
    var hit := Hit(visit);
    var i := 0;
    while i < |urls|
      invariant 0 <= i <= |urls|
      invariant fresh(scan) && fresh(scan.pool) && scan.Valid() && scan.pool.size == maxThreads
      invariant Flatten(batches) + scan.tasks == Pairs(urls[..i], payloads)
      invariant Tally(batches, vulnerableUrls, foundVulnerabilities, scan.cap, hit)
      invariant maxThreads == 0 ==> batches == [] && (payloads != [] ==> i == 0)
    {
      hung, batches, vulnerableUrls, foundVulnerabilities := ScanRow(scan, urls[i], payloads, batches, vulnerableUrls, foundVulnerabilities, hit);
      if hung {
        return;
      }
      PairsNext(urls, payloads, i);
      i := i + 1;
    }
    assert urls[..i] == urls;
    batches, vulnerableUrls, foundVulnerabilities := Finish(scan, batches, vulnerableUrls, foundVulnerabilities, hit);
    quit := scan.pool.quit;
  }

  /** The report lists a target exactly when some url and payload led the browser to the redirect target. */
  lemma VulnerableUrls(urls: seq<string>, payloads: seq<string>, visit: string -> Visit, u: string)
    ensures u in Found(Pairs(urls, payloads), Hit(visit)) <==>
      exists i, j :: 0 <= i < |urls| && 0 <= j < |payloads| && u == TargetUrl(urls[i], payloads[j]) && LandedOnTarget(visit(u))
  {
    FoundPairs(urls, payloads, Hit(visit), u);
  }

  /**
    * The end of the run: the scan is run only when there are payloads; the
    * scanned total is `len(urls) * len(payloads)` and the found total is the
    * scan's count.
    */
  method Run(urls: seq<string>, payloads: seq<string>, maxThreads: nat, visit: string -> Visit)
    returns (totalFound: nat, totalScanned: nat, vulnerableUrls: seq<string>, hung: bool)
    ensures hung <==> maxThreads == 0 && urls != [] && payloads != []
    ensures !hung ==> totalScanned == |urls| * |payloads| && totalFound == |vulnerableUrls|
    ensures !hung ==> vulnerableUrls == Found(Pairs(urls, payloads), Hit(visit))
  {
    totalFound, totalScanned, vulnerableUrls, hung := 0, 0, [], false;
    if payloads != [] {
      var found: nat, urlsWithPayloads: seq<string>;
      ghost var batches: seq<seq<Task>>, quit: seq<Driver>;
      found, urlsWithPayloads, hung, batches, quit := TestOpenRedirect(urls, payloads, maxThreads, visit);
      if hung {
        return;
      }
      PairsLength(urls, payloads);
      totalFound := totalFound + found;
      totalScanned := totalScanned + |urls| * |payloads|;
      vulnerableUrls := vulnerableUrls + urlsWithPayloads;
    } else {
      PairsLength(urls, payloads);
    }
  }
}
