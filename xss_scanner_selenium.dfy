/**
  * The two-phase reflected cross-site-scripting scanner: every query key of
  * every url is given every payload; the probes whose body reflects the payload
  * are kept as potential findings, and each of those is loaded in one of a
  * handful of headless browsers to see whether an alert fires.
  */
module SeleniumXss {
  import opened Wrappers
  import opened Text
  import opened Urls
  import opened Query
  import opened Verdicts
  import opened Drain
  import opened Pool
  import opened Substitution

  // ---------------------------------------------------------------- generation

  /** One item of `generate_payload_urls`: the probe URL, the payload and the key it replaced. */
  datatype Probe = Probe(url: string, payload: string, key: string)

  /** The probe for key `t.url` and payload `t.payload` of a url split into `parts` with query `ps`. */
  function ProbeOf(lib: UrlLib, parts: SplitResult, ps: Params, t: Task): Probe {
    Probe(lib.urlunsplit(ProbeParts(parts, ps, t.url, t.payload)), t.payload, t.url)
  }

  /**
    * The probes of one url, key-major then payload, or `None` when `urlsplit`
    * raises. A url whose query has no parameter gives none.
    */
  function UrlProbes(lib: UrlLib, url: string, payloads: seq<string>): (r: Option<seq<Probe>>)
    ensures r.None? <==> lib.urlsplit(url).None?
  {
    match lib.urlsplit(url)
    case None => None
    case Some(parts) =>
      var ps := QueryOf(lib, parts);
      var ts := Pairs(Keys(ps), payloads);
      Some(seq(|ts|, i requires 0 <= i < |ts| => ProbeOf(lib, parts, ps, ts[i])))
  }

  /** What the generator yields over all urls, and whether it raised on the url after them. */
  datatype Generated = Generated(probes: seq<Probe>, crashed: bool)

  /** `generate_payload_urls`: the probes of each url in turn, up to the first url `urlsplit` rejects. */
  function Generate(lib: UrlLib, urls: seq<string>, payloads: seq<string>): Generated {
    if urls == [] then Generated([], false)
    else
      var g := Generate(lib, urls[..|urls| - 1], payloads);
      if g.crashed then g
      else match UrlProbes(lib, urls[|urls| - 1], payloads)
        case None => Generated(g.probes, true)
        case Some(more) => Generated(g.probes + more, false)
  }

  /** A url whose query parses to no parameter yields no probe at all. */
  lemma NoParametersNoProbes(lib: UrlLib, url: string, payloads: seq<string>)
    requires lib.urlsplit(url).Some? && QueryOf(lib, lib.urlsplit(url).value) == []
    ensures UrlProbes(lib, url, payloads) == Some([])
  {
    var ks := Keys(QueryOf(lib, lib.urlsplit(url).value));
    assert ks == [];
    assert Pairs(ks, payloads) == [];
    assert |UrlProbes(lib, url, payloads).value| == 0;
  }

  /**
    * A url with `k` query keys gives `k * |payloads|` probes; the probe for key
    * number `i` and payload number `j` comes at `i * |payloads| + j`, carries that
    * payload and key, and is built from the url's components with only the
    * query replaced and the scheme defaulted to `http`.
    */
  lemma ProbeAt(lib: UrlLib, url: string, payloads: seq<string>, i: nat, j: nat)
    requires lib.urlsplit(url).Some?
    requires i < |QueryOf(lib, lib.urlsplit(url).value)| && j < |payloads|
    ensures var parts := lib.urlsplit(url).value;
      var ps := QueryOf(lib, parts);
      var r := UrlProbes(lib, url, payloads).value;
      var n := i * |payloads| + j;
      |r| == |ps| * |payloads| && 0 <= n < |r|
      && r[n].payload == payloads[j] && r[n].key == ps[i].key
      && r[n].url == lib.urlunsplit(ProbeParts(parts, ps, ps[i].key, payloads[j]))
  {
    var parts := lib.urlsplit(url).value;
    var ps := QueryOf(lib, parts);
    var ks := Keys(ps);
    PairsLength(ks, payloads);
    PairsAt(ks, payloads, i, j);
    assert i * |payloads| >= 0;
    UrlProbesAt(lib, url, payloads, i * |payloads| + j);
    assert ks[i] == ps[i].key;
  }

  /** Probe number `n` of a url is built from task number `n` of its (key, payload) pairs. */
  lemma UrlProbesAt(lib: UrlLib, url: string, payloads: seq<string>, n: nat)
    requires lib.urlsplit(url).Some?
    requires n < |Pairs(Keys(QueryOf(lib, lib.urlsplit(url).value)), payloads)|
    ensures var parts := lib.urlsplit(url).value;
      var ps := QueryOf(lib, parts);
      var ts := Pairs(Keys(ps), payloads);
      |UrlProbes(lib, url, payloads).value| == |ts| && UrlProbes(lib, url, payloads).value[n] == ProbeOf(lib, parts, ps, ts[n])
  {
  }

  /** The number of probes of a url: one per query key and payload. */
  lemma ProbeCount(lib: UrlLib, url: string, payloads: seq<string>)
    requires lib.urlsplit(url).Some?
    ensures |UrlProbes(lib, url, payloads).value| == |QueryOf(lib, lib.urlsplit(url).value)| * |payloads|
  {
    PairsLength(Keys(QueryOf(lib, lib.urlsplit(url).value)), payloads);
  }

  lemma GenerateNext(lib: UrlLib, urls: seq<string>, payloads: seq<string>, i: nat)
    requires i < |urls|
    ensures var g := Generate(lib, urls[..i], payloads);
      Generate(lib, urls[..i + 1], payloads) ==
        if g.crashed then g
        else match UrlProbes(lib, urls[i], payloads)
          case None => Generated(g.probes, true)
          case Some(more) => Generated(g.probes + more, false)
  {
    assert urls[..i + 1][..i] == urls[..i];
  }

  /** The generator over one more url: it raises for good, or adds that url's probes. */
  lemma GenerateStep(lib: UrlLib, urls: seq<string>, payloads: seq<string>, i: nat)
    requires i < |urls| && !Generate(lib, urls[..i], payloads).crashed
    ensures UrlProbes(lib, urls[i], payloads).None? ==>
      Generate(lib, urls, payloads) == Generated(Generate(lib, urls[..i], payloads).probes, true)
    ensures UrlProbes(lib, urls[i], payloads).Some? ==>
      Generate(lib, urls[..i + 1], payloads) == Generated(Generate(lib, urls[..i], payloads).probes + UrlProbes(lib, urls[i], payloads).value, false)
  {
    GenerateNext(lib, urls, payloads, i);
    if UrlProbes(lib, urls[i], payloads).None? {
      GenerateCrashed(lib, urls, payloads, i + 1);
    }
  }

  /** Once the generator has raised, later urls change nothing. */
  lemma {:induction false} GenerateCrashed(lib: UrlLib, urls: seq<string>, payloads: seq<string>, i: nat)
    requires i <= |urls| && Generate(lib, urls[..i], payloads).crashed
    ensures Generate(lib, urls, payloads) == Generate(lib, urls[..i], payloads)
    decreases |urls| - i
  {
    if i < |urls| {
      GenerateNext(lib, urls, payloads, i);
      GenerateCrashed(lib, urls, payloads, i + 1);
    } else {
      assert urls[..i] == urls;
    }
  }

  /** The generator raises exactly when `urlsplit` rejects one of the urls. */
  lemma {:induction false} GenerateCrashes(lib: UrlLib, urls: seq<string>, payloads: seq<string>)
    ensures Generate(lib, urls, payloads).crashed <==> Rejected(lib, urls)
    decreases |urls|
  {
    if urls != [] {
      GenerateCrashes(lib, urls[..|urls| - 1], payloads);
      CrashStep(lib, urls, payloads);
      RejectedStep(lib, urls);
    }
  }

  /** `urlsplit` rejects one of the urls. */
  predicate Rejected(lib: UrlLib, urls: seq<string>) {
    exists i :: 0 <= i < |urls| && lib.urlsplit(urls[i]).None?
  }

  /** The generator over one more url has raised when it had already, or when that url is rejected. */
  lemma CrashStep(lib: UrlLib, urls: seq<string>, payloads: seq<string>)
    requires urls != []
    ensures Generate(lib, urls, payloads).crashed <==>
      Generate(lib, urls[..|urls| - 1], payloads).crashed || lib.urlsplit(urls[|urls| - 1]).None?
  {
  }

  /** One more url is rejected somewhere when it is, or when an earlier one was. */
  lemma RejectedStep(lib: UrlLib, urls: seq<string>)
    requires urls != []
    ensures Rejected(lib, urls) <==> Rejected(lib, urls[..|urls| - 1]) || lib.urlsplit(urls[|urls| - 1]).None?
  {
    var front := urls[..|urls| - 1];
    if Rejected(lib, front) {
      var i :| 0 <= i < |front| && lib.urlsplit(front[i]).None?;
      assert urls[i] == front[i];
    }
    if Rejected(lib, urls) {
      var i :| 0 <= i < |urls| && lib.urlsplit(urls[i]).None?;
      if i < |front| {
        assert front[i] == urls[i];
      }
    }
  }

  // ---------------------------------------------------------------- verdicts

  /** `scan_url` counts a probe once `session.get` has produced a response, before its body is read. */
  function Counted(get: string -> Exchange, p: Probe): nat {
    if get(p.url).Unreachable? then 0 else 1
  }

  /** The number of probes of `ps` that got a response. */
  function Responses(get: string -> Exchange, ps: seq<Probe>): nat {
    if ps == [] then 0 else Responses(get, ps[..|ps| - 1]) + Counted(get, ps[|ps| - 1])
  }

  /** The potential finding of a probe: `(url, payload)` when its body was read and reflects the payload. */
  function Reflection(get: string -> Exchange): Probe -> Option<(string, string)> {
    (p: Probe) => if get(p.url).Fetched? && Reflected(p.payload, get(p.url).reply.body) then Some((p.url, p.payload)) else None
  }

  /** The potential finding of one probe, as a list of at most one pair. */
  function Finding(get: string -> Exchange, p: Probe): seq<(string, string)> {
    match Reflection(get)(p) case Some(c) => [c] case None => []
  }

  /** The potential findings of `ps`, in order. */
  function Reflections(get: string -> Exchange, ps: seq<Probe>): seq<(string, string)> {
    Found(ps, Reflection(get))
  }

  lemma {:induction false} ResponsesAppend(get: string -> Exchange, a: seq<Probe>, b: seq<Probe>)
    ensures Responses(get, a + b) == Responses(get, a) + Responses(get, b)
    decreases |b|
  {
    if b == [] {
      assert a + b == a;
    } else {
      assert (a + b)[..|a + b| - 1] == a + b[..|b| - 1];
      ResponsesAppend(get, a, b[..|b| - 1]);
    }
  }

  /** Scanning one more probe adds its count and its potential finding. */
  lemma TallyNext(get: string -> Exchange, done: seq<Probe>, p: Probe)
    ensures Responses(get, done + [p]) == Responses(get, done) + Counted(get, p)
    ensures Reflections(get, done + [p]) == Reflections(get, done) + Finding(get, p)
  {
    assert (done + [p])[..|done|] == done;
  }

  /**
    * Failed requests are not counted: the scanned total never exceeds the
    * probes awaited, and equals it exactly when every probe got a response.
    */
  lemma {:induction false} ResponsesBound(get: string -> Exchange, ps: seq<Probe>)
    ensures Responses(get, ps) <= |ps|
    ensures Responses(get, ps) == |ps| <==> forall k :: 0 <= k < |ps| ==> !get(ps[k].url).Unreachable?
    decreases |ps|
  {
    if ps != [] {
      var front := ps[..|ps| - 1];
      ResponsesBound(get, front);
      if forall k :: 0 <= k < |ps| ==> !get(ps[k].url).Unreachable? {
        assert forall k :: 0 <= k < |front| ==> front[k] == ps[k];
      }
    }
  }

  /** A pair is a potential finding exactly when some probe with that URL and payload reflected it. */
  lemma PotentialMembers(get: string -> Exchange, ps: seq<Probe>, u: string, x: string)
    ensures (u, x) in Reflections(get, ps) <==>
      exists k :: 0 <= k < |ps| && ps[k].url == u && ps[k].payload == x && get(u).Fetched? && Reflected(x, get(u).reply.body)
  {
    FoundMembers(ps, Reflection(get), (u, x));
  }

  /** The alert check of `confirm_vulnerability`: the candidate URL when an alert came up and was accepted. */
  function Confirmation(visit: string -> Visit): ((string, string)) -> Option<string> {
    (c: (string, string)) => if AlertFired(visit(c.0)) then Some(c.0) else None
  }

  /** The confirmed URLs of the candidates, in order. */
  function Confirmations(visit: string -> Visit, cands: seq<(string, string)>): seq<string> {
    Found(cands, Confirmation(visit))
  }

  /** A URL is confirmed exactly when it is a candidate whose page raised an alert. */
  lemma ConfirmedMembers(visit: string -> Visit, cands: seq<(string, string)>, u: string)
    ensures u in Confirmations(visit, cands) <==> exists k :: 0 <= k < |cands| && cands[k].0 == u && AlertFired(visit(u))
    ensures |Confirmations(visit, cands)| <= |cands|
  {
    FoundMembers(cands, Confirmation(visit), u);
    FoundLength(cands, Confirmation(visit));
  }

  // ---------------------------------------------------------------- the scanner

  /** `initial_scan` awaits the created tasks once 10000 are pending. */
  const BatchSize: nat := 10000

  /** `min(concurrency, 5)`: the browsers the confirmation phase opens. */
  function DriverCount(concurrency: nat): (n: nat)
    ensures n <= 5 && n <= concurrency
    ensures n == 0 <==> concurrency == 0
    ensures concurrency >= 5 ==> n == 5
  {
    if concurrency < 5 then concurrency else 5
  }

  /** The drivers `range(n)` creates, in creation order. */
  function Drivers(n: nat): (r: seq<Driver>)
    ensures |r| == n && Distinct(r) && Members(r) == Ids(n)
    ensures forall d :: 0 <= d < n ==> r[d] == d
  {
    var r := seq(n, d requires 0 <= d < n => d);
    assert forall d: Driver :: d in Members(r) <==> d < n by {
      forall d: Driver
        ensures d in Members(r) <==> d < n
      {
        if d < n {
          assert r[d] == d;
        }
      }
    }
    r
  }

  /** How a run of a coroutine ends: normally, by an exception, or blocked for ever. */
  datatype Ending = Finished | Crashed | Hung

  class MassScanner {
    const urls: seq<string>
    const payloads: seq<string>
    const concurrency: nat
    /** `potential_vulnerable_urls`: the reflecting (url, payload) pairs. */
    var potential: seq<(string, string)>
    /** `confirmed_vulnerable_urls`. */
    var confirmed: seq<string>
    var totalScanned: nat

    constructor(urls: seq<string>, payloads: seq<string>, concurrency: nat)
      ensures this.urls == urls && this.payloads == payloads && this.concurrency == concurrency
      ensures potential == [] && confirmed == [] && totalScanned == 0
    {
      this.urls, this.payloads, this.concurrency := urls, payloads, concurrency;
      potential, confirmed, totalScanned := [], [], 0;
    }

    /** The counters hold `t0` and `p0` plus what the probes `done` added. */
    ghost predicate Tallied(get: string -> Exchange, t0: nat, p0: seq<(string, string)>, done: seq<Probe>)
      reads this
    {
      totalScanned == t0 + Responses(get, done) && potential == p0 + Reflections(get, done)
    }

    /**
      * `scan_url`: a response counts the probe; a body that contains the raw
      * payload records it as potential; a failed request or body read is only logged.
      */
    method ScanUrl(get: string -> Exchange, p: Probe)
      modifies this
      ensures totalScanned == old(totalScanned) + Counted(get, p)
      ensures potential == old(potential) + Finding(get, p)
      ensures confirmed == old(confirmed)
    {
      match get(p.url) {
        case Unreachable(_) =>
        case Unreadable(_) =>
          totalScanned := totalScanned + 1;
        case Fetched(reply) =>
          totalScanned := totalScanned + 1;
          if Contains(reply.body, p.payload) {
            potential := potential + [(p.url, p.payload)];
          }
      }
    }

    /** `await asyncio.gather(*tasks)`: every probe of the batch is scanned once, in order. */
    method GatherBatch(get: string -> Exchange, batch: seq<Probe>, ghost t0: nat, ghost p0: seq<(string, string)>, ghost done: seq<Probe>)
      requires Tallied(get, t0, p0, done)
      modifies this
      ensures Tallied(get, t0, p0, done + batch) && confirmed == old(confirmed)
    {
      var k := 0;
      assert Reflections(get, done) + Reflections(get, batch[..0]) == Reflections(get, done);
      while k < |batch|
        invariant 0 <= k <= |batch|
        invariant Tallied(get, t0 + Responses(get, done), p0 + Reflections(get, done), batch[..k])
        invariant confirmed == old(confirmed)
      {
        ScanNext(get, batch, k, t0 + Responses(get, done), p0 + Reflections(get, done));
        k := k + 1;
      }
      assert batch[..k] == batch;
      ResponsesAppend(get, done, batch);
      FoundAppend(done, batch, Reflection(get));
      assert (p0 + Reflections(get, done)) + Reflections(get, batch) == p0 + (Reflections(get, done) + Reflections(get, batch));
    }

    /** Scanning probe `k` of a batch extends the tally of the probes before it by that probe. */
    method ScanNext(get: string -> Exchange, batch: seq<Probe>, k: nat, ghost t0: nat, ghost p0: seq<(string, string)>)
      requires k < |batch| && Tallied(get, t0, p0, batch[..k])
      modifies this
      ensures Tallied(get, t0, p0, batch[..k + 1]) && confirmed == old(confirmed)
    {
      ghost var before := batch[..k];
      ScanUrl(get, batch[k]);
      TallyNext(get, before, batch[k]);
      assert batch[..k + 1] == before + [batch[k]];
    }

    /**
      * One task of the generator loop: queue it, and await the queue once it
      * holds 10000 tasks. With no concurrency the semaphore admits no task and
      * that wait never ends.
      */
    method Step(get: string -> Exchange, p: Probe, tasks: seq<Probe>, ghost batches: seq<seq<Probe>>, ghost t0: nat, ghost p0: seq<(string, string)>)
      returns (hung: bool, tasks': seq<Probe>, ghost batches': seq<seq<Probe>>)
      requires Draining(batches, tasks, BatchSize) && Tallied(get, t0, p0, Flatten(batches))
      requires concurrency == 0 ==> batches == []
      modifies this
      ensures hung <==> concurrency == 0 && |tasks| + 1 >= BatchSize
      ensures hung ==> totalScanned == old(totalScanned) && potential == old(potential)
      ensures !hung ==> Draining(batches', tasks', BatchSize) && Tallied(get, t0, p0, Flatten(batches'))
      ensures !hung ==> Flatten(batches') + tasks' == Flatten(batches) + tasks + [p]
      ensures concurrency == 0 ==> batches' == []
      ensures confirmed == old(confirmed)
    {
      hung, tasks', batches' := false, tasks + [p], batches;
      if |tasks'| >= BatchSize {
        if concurrency == 0 {
          hung := true;
          return;
        }
        GatherBatch(get, tasks', t0, p0, Flatten(batches));
        FlattenNext(batches, tasks');
        batches', tasks' := batches + [tasks'], [];
      }
    }

    /** The tasks created for the probes of one url. */
    method StepAll(get: string -> Exchange, ps: seq<Probe>, tasks: seq<Probe>, ghost batches: seq<seq<Probe>>, ghost t0: nat, ghost p0: seq<(string, string)>)
      returns (hung: bool, tasks': seq<Probe>, ghost batches': seq<seq<Probe>>)
      requires Draining(batches, tasks, BatchSize) && Tallied(get, t0, p0, Flatten(batches))
      requires concurrency == 0 ==> batches == []
      modifies this
      ensures hung ==> concurrency == 0 && |tasks| + |ps| >= BatchSize
      ensures hung ==> totalScanned == old(totalScanned) && potential == old(potential)
      ensures !hung ==> Draining(batches', tasks', BatchSize) && Tallied(get, t0, p0, Flatten(batches'))
      ensures !hung ==> Flatten(batches') + tasks' == Flatten(batches) + tasks + ps
      ensures concurrency == 0 ==> batches' == [] && (!hung ==> |tasks| + |ps| < BatchSize)
      ensures confirmed == old(confirmed)
    {
      hung, tasks', batches' := false, tasks, batches;
      var k := 0;
      while k < |ps|
        invariant 0 <= k <= |ps|
        invariant Draining(batches', tasks', BatchSize) && Tallied(get, t0, p0, Flatten(batches'))
        invariant Flatten(batches') + tasks' == Flatten(batches) + tasks + ps[..k]
        invariant concurrency == 0 ==> batches' == [] && tasks' == tasks + ps[..k]
        invariant confirmed == old(confirmed)
      {
        assert ps[..k + 1] == ps[..k] + [ps[k]];
        ghost var before, beforeBatches := tasks', batches';
        hung, tasks', batches' := Step(get, ps[k], tasks', batches', t0, p0);
        if hung {
          return;
        }
        if concurrency == 0 {
          assert Flatten(beforeBatches) == [] && Flatten(batches') == [];
          assert [] + tasks' == tasks' && [] + before == before;
        }
        k := k + 1;
      }
      assert ps[..k] == ps;
    }

    /**
      * `initial_scan`: a task per generated probe, awaited 10000 at a time and
      * once more at the end. When `urlsplit` raises inside the generator the
      * coroutine ends with the exception and the tasks created since the last
      * wait are cancelled before they run. With no concurrency the first wait
      * never ends.
      */
    method InitialScan(lib: UrlLib, get: string -> Exchange) returns (ending: Ending, ghost batches: seq<seq<Probe>>)
      modifies this
      ensures var g := Generate(lib, urls, payloads);
        (ending == Hung <==> concurrency == 0 && (|g.probes| >= BatchSize || (!g.crashed && g.probes != [])))
        && (ending == Crashed <==> g.crashed && !(concurrency == 0 && |g.probes| >= BatchSize))
        && (ending == Finished ==> Flatten(batches) == g.probes && IsBatching(batches, BatchSize))
        && (ending == Crashed ==> |Flatten(batches)| <= |g.probes| && Flatten(batches) == g.probes[..|Flatten(batches)|]
                                  && Draining(batches, g.probes[|Flatten(batches)|..], BatchSize))
      ensures ending == Hung ==> batches == []
      ensures Tallied(get, old(totalScanned), old(potential), Flatten(batches)) && confirmed == old(confirmed)
    {
      ghost var t0, p0 := totalScanned, potential;
      var tasks;
      ending, tasks, batches := CreateTasks(lib, get, t0, p0);
      ghost var g := Generate(lib, urls, payloads);
      if ending == Crashed {
        assert g.probes[..|Flatten(batches)|] == Flatten(batches) && g.probes[|Flatten(batches)|..] == tasks;
      } else if ending == Finished && tasks != [] {
        if concurrency == 0 {
          ending := Hung;
          return;
        }
        GatherBatch(get, tasks, t0, p0, Flatten(batches));
        FlattenNext(batches, tasks);
        BatchingClose(batches, tasks, BatchSize);
        batches := batches + [tasks];
      } else if ending == Finished {
        BatchingClose(batches, tasks, BatchSize);
      }
    }

    /**
      * The tasks of one url: `urlsplit` raises, or a task is created for each
      * of the url's probes.
      */
    method UrlTasks(lib: UrlLib, get: string -> Exchange, url: string, tasks: seq<Probe>, ghost batches: seq<seq<Probe>>,
                    ghost t0: nat, ghost p0: seq<(string, string)>)
      returns (ending: Ending, tasks': seq<Probe>, ghost batches': seq<seq<Probe>>)
      requires Draining(batches, tasks, BatchSize) && Tallied(get, t0, p0, Flatten(batches))
      requires concurrency == 0 ==> batches == []
      modifies this
      ensures ending == Crashed <==> UrlProbes(lib, url, payloads).None?
      ensures ending == Hung ==> concurrency == 0 && |tasks| + |UrlProbes(lib, url, payloads).value| >= BatchSize
      ensures ending == Finished ==> Flatten(batches') + tasks' == Flatten(batches) + tasks + UrlProbes(lib, url, payloads).value
      ensures ending != Hung ==> Draining(batches', tasks', BatchSize)
      ensures ending == Crashed ==> batches' == batches && tasks' == tasks
      ensures Tallied(get, t0, p0, Flatten(batches')) && confirmed == old(confirmed)
      ensures concurrency == 0 ==> batches' == []
    {
      var probes := UrlProbes(lib, url, payloads);
      if probes.None? {
        ending, tasks', batches' := Crashed, tasks, batches;
        return;
      }
      var hung;
      hung, tasks', batches' := StepAll(get, probes.value, tasks, batches, t0, p0);
      ending := if hung then Hung else Finished;
    }

    /**
      * The state of the generator loop after the probes of the first `i` urls:
      * the generator has not raised, the created tasks are the drained batches
      * followed by the pending tasks, and the counters cover the drained batches.
      */
    ghost predicate Pending(lib: UrlLib, get: string -> Exchange, t0: nat, p0: seq<(string, string)>, i: nat, tasks: seq<Probe>, batches: seq<seq<Probe>>)
      reads this
    {
      i <= |urls| && !Generate(lib, urls[..i], payloads).crashed
      && Flatten(batches) + tasks == Generate(lib, urls[..i], payloads).probes
      && Draining(batches, tasks, BatchSize) && Tallied(get, t0, p0, Flatten(batches))
      && (concurrency == 0 ==> batches == [])
    }

    /** The generator loop over the url at `i`. */
    method NextUrl(lib: UrlLib, get: string -> Exchange, ghost t0: nat, ghost p0: seq<(string, string)>, i: nat, tasks: seq<Probe>, ghost batches: seq<seq<Probe>>)
      returns (ending: Ending, tasks': seq<Probe>, ghost batches': seq<seq<Probe>>)
      requires i < |urls| && Pending(lib, get, t0, p0, i, tasks, batches)
      modifies this
      ensures ending == Finished ==> Pending(lib, get, t0, p0, i + 1, tasks', batches')
      ensures ending == Hung ==> concurrency == 0 && |Generate(lib, urls, payloads).probes| >= BatchSize
      ensures ending == Crashed ==> Generate(lib, urls, payloads) == Generated(Flatten(batches') + tasks', true)
      ensures ending == Crashed ==> Draining(batches', tasks', BatchSize)
      ensures Tallied(get, t0, p0, Flatten(batches')) && confirmed == old(confirmed)
      ensures concurrency == 0 ==> batches' == []
    {
      GenerateStep(lib, urls, payloads, i);
      ending, tasks', batches' := UrlTasks(lib, get, urls[i], tasks, batches, t0, p0);
      if ending == Hung {
        assert Flatten(batches) == [] && [] + tasks == tasks;
        GenerateGrows(lib, urls, payloads, i + 1);
      }
    }

    /**
      * The `for` loop of `initial_scan` over the generator: a task per probe,
      * the pending tasks awaited whenever 10000 have been created.
      */
    method CreateTasks(lib: UrlLib, get: string -> Exchange, ghost t0: nat, ghost p0: seq<(string, string)>)
      returns (ending: Ending, tasks: seq<Probe>, ghost batches: seq<seq<Probe>>)
      requires Tallied(get, t0, p0, [])
      modifies this
      ensures var g := Generate(lib, urls, payloads);
        (ending == Hung <==> concurrency == 0 && |g.probes| >= BatchSize)
        && (ending == Crashed <==> g.crashed && ending != Hung)
        && (ending != Hung ==> Flatten(batches) + tasks == g.probes)
      ensures ending != Hung ==> Draining(batches, tasks, BatchSize)
      ensures Tallied(get, t0, p0, Flatten(batches)) && confirmed == old(confirmed)
      ensures concurrency == 0 ==> batches == []
    {
      ending, tasks, batches := Finished, [], [];
      var i := 0;
      while i < |urls|
        invariant Pending(lib, get, t0, p0, i, tasks, batches)
        invariant confirmed == old(confirmed) && ending == Finished
      {
        ending, tasks, batches := NextUrl(lib, get, t0, p0, i, tasks, batches);
        if ending != Finished {
          if concurrency == 0 {
            assert Flatten(batches) == [] && [] + tasks == tasks;
          }
          return;
        }
        i := i + 1;
      }
      assert urls[..i] == urls;
      if concurrency == 0 {
        assert Flatten(batches) == [] && [] + tasks == tasks;
      }
    }

    /**
      * `confirm_vulnerability`: the candidate is loaded in a browser and
      * confirmed when an alert comes up within the wait and is accepted; a
      * missing alert or a failed load is only logged.
      */
    method ConfirmVulnerability(visit: string -> Visit, url: string)
      modifies this
      ensures confirmed == old(confirmed) + match Confirmation(visit)((url, [])) case Some(u) => [u] case None => []
      ensures potential == old(potential) && totalScanned == old(totalScanned)
    {
      match visit(url) {
        case LoadFailed(_) =>
        case Loaded(_, alertShown) =>
          if alertShown {
            confirmed := confirmed + [url];
          }
      }
    }

    /**
      * `confirm_vulnerabilities`: `min(concurrency, 5)` browsers are opened,
      * candidate `i` is given to browser `i % n`, every candidate is checked in
      * order, and then every browser is quit once, in creation order. With no
      * browser the first `i % 0` raises.
      */
    method ConfirmVulnerabilities(visit: string -> Visit) returns (crashed: bool, ghost placement: seq<Driver>, ghost quit: seq<Driver>)
      modifies this
      ensures crashed <==> concurrency == 0 && potential != []
      ensures crashed ==> confirmed == old(confirmed) && quit == []
      ensures !crashed ==> confirmed == old(confirmed) + Confirmations(visit, potential)
      ensures !crashed ==> |placement| == |potential|
      ensures !crashed ==> forall i :: 0 <= i < |placement| ==> placement[i] == i % DriverCount(concurrency)
      ensures !crashed ==> quit == Drivers(DriverCount(concurrency))
      ensures potential == old(potential) && totalScanned == old(totalScanned)
    {
      var n := DriverCount(concurrency);
      var drivers := Drivers(n);
      crashed, placement, quit := false, [], [];
      if n == 0 && potential != [] {
        crashed := true;
        return;
      }
      var cands := potential;
      var idx := 0;
      while idx < |cands|
        invariant 0 <= idx <= |cands| && potential == cands && totalScanned == old(totalScanned)
        invariant confirmed == old(confirmed) + Confirmations(visit, cands[..idx])
        invariant |placement| == idx && forall k :: 0 <= k < idx ==> placement[k] == k % n
      {
        var driver := drivers[idx % n];
        ConfirmVulnerability(visit, cands[idx].0);
        assert cands[..idx + 1] == cands[..idx] + [cands[idx]];
        FoundAppend(cands[..idx], [cands[idx]], Confirmation(visit));
        placement := placement + [driver];
        idx := idx + 1;
      }
      assert cands[..idx] == cands;
      var k := 0;
      while k < |drivers|
        invariant 0 <= k <= |drivers| && quit == drivers[..k]
      {
        assert drivers[..k + 1] == drivers[..k] + [drivers[k]];
        quit := quit + [drivers[k]];
        k := k + 1;
      }
      assert drivers[..k] == drivers;
    }

    /**
      * `run`: the initial scan, then, when it ended normally and found
      * potential candidates, the confirmation phase.
      */
    method Run(lib: UrlLib, get: string -> Exchange, visit: string -> Visit)
      returns (ending: Ending, ghost batches: seq<seq<Probe>>, ghost placement: seq<Driver>, ghost quit: seq<Driver>)
      modifies this
      ensures var g := Generate(lib, urls, payloads);
        (ending == Hung <==> concurrency == 0 && (|g.probes| >= BatchSize || (!g.crashed && g.probes != [])))
        && (ending == Finished ==> Flatten(batches) == g.probes && IsBatching(batches, BatchSize))
        && (ending == Crashed && !g.crashed ==> concurrency == 0 && g.probes == [] && old(potential) != [])
      ensures Tallied(get, old(totalScanned), old(potential), Flatten(batches))
      ensures ending == Finished ==> confirmed == old(confirmed) + Confirmations(visit, potential)
      ensures ending == Finished && potential != [] ==> quit == Drivers(DriverCount(concurrency))
      ensures ending == Finished && potential == [] ==> quit == []
    {
      ending, batches := InitialScan(lib, get);
      placement, quit := [], [];
      if ending == Finished && potential != [] {
        var crashed;
        crashed, placement, quit := ConfirmVulnerabilities(visit);
        if crashed {
          ending := Crashed;
        }
      }
    }
  }

  /** The probes generated before url `i` come first among all the probes generated. */
  lemma {:induction false} GenerateGrows(lib: UrlLib, urls: seq<string>, payloads: seq<string>, i: nat)
    requires i <= |urls|
    ensures |Generate(lib, urls[..i], payloads).probes| <= |Generate(lib, urls, payloads).probes|
    ensures Generate(lib, urls, payloads).probes[..|Generate(lib, urls[..i], payloads).probes|] == Generate(lib, urls[..i], payloads).probes
    decreases |urls| - i
  {
    if i < |urls| {
      GenerateNext(lib, urls, payloads, i);
      GenerateGrows(lib, urls, payloads, i + 1);
      var a := Generate(lib, urls[..i], payloads).probes;
      var b := Generate(lib, urls[..i + 1], payloads).probes;
      var c := Generate(lib, urls, payloads).probes;
      assert b[..|a|] == a;
      assert c[..|a|] == c[..|b|][..|a|];
    } else {
      assert urls[..i] == urls;
    }
  }
}
