/**
  * The accounting shared by the batch-draining scanners: the (url, payload)
  * tasks of two nested loops, the positives picked out of their results, and
  * the cutting of the task stream into batches that are awaited together.
  */
module Drain {
  import opened Wrappers

  /** One probe to make: a target and the payload to put into it. */
  datatype Task = Task(url: string, payload: string)

  /** The tasks `for payload in payloads` makes for one url. */
  function Row(url: string, payloads: seq<string>): (r: seq<Task>)
    ensures |r| == |payloads|
    ensures forall j :: 0 <= j < |payloads| ==> r[j] == Task(url, payloads[j])
  {
    seq(|payloads|, j requires 0 <= j < |payloads| => Task(url, payloads[j]))
  }

  /** `for url in urls: for payload in payloads`: url-major order. */
  function Pairs(urls: seq<string>, payloads: seq<string>): seq<Task> {
    if urls == [] then [] else Pairs(urls[..|urls| - 1], payloads) + Row(urls[|urls| - 1], payloads)
  }

  lemma {:induction false} PairsLength(urls: seq<string>, payloads: seq<string>)
    ensures |Pairs(urls, payloads)| == |urls| * |payloads|
    decreases |urls|
  {
    if urls != [] {
      PairsLength(urls[..|urls| - 1], payloads);
      assert |urls| * |payloads| == (|urls| - 1) * |payloads| + |payloads|;
    }
  }

  /** The task for url `i` and payload `j` is number `i * |payloads| + j`. */
  lemma {:induction false} PairsAt(urls: seq<string>, payloads: seq<string>, i: nat, j: nat)
    requires i < |urls| && j < |payloads|
    ensures i * |payloads| + j < |Pairs(urls, payloads)|
    ensures Pairs(urls, payloads)[i * |payloads| + j] == Task(urls[i], payloads[j])
    decreases |urls|
  {
    var front := urls[..|urls| - 1];
    if i == |urls| - 1 {
      PairsLength(front, payloads);
      assert i * |payloads| == |Pairs(front, payloads)|;
    } else {
      PairsAt(front, payloads, i, j);
      assert front[i] == urls[i];
    }
  }

  /** Extending the outer loop by one url appends that url's row. */
  lemma PairsNext(urls: seq<string>, payloads: seq<string>, i: nat)
    requires i < |urls|
    ensures Pairs(urls[..i + 1], payloads) == Pairs(urls[..i], payloads) + Row(urls[i], payloads)
  {
    assert urls[..i + 1][..i] == urls[..i];
  }

  /** Extending the inner loop by one payload appends one task. */
  lemma RowNext(url: string, payloads: seq<string>, j: nat)
    requires j < |payloads|
    ensures Row(url, payloads[..j + 1]) == Row(url, payloads[..j]) + [Task(url, payloads[j])]
  {
  }

  /** The tasks are exactly the (url, payload) combinations. */
  lemma {:induction false} PairsMembers(urls: seq<string>, payloads: seq<string>, t: Task)
    ensures t in Pairs(urls, payloads) <==>
      exists i, j :: 0 <= i < |urls| && 0 <= j < |payloads| && t == Task(urls[i], payloads[j])
    decreases |urls|
  {
    if urls != [] {
      var front := urls[..|urls| - 1];
      PairsMembers(front, payloads, t);
      if exists i, j :: 0 <= i < |urls| && 0 <= j < |payloads| && t == Task(urls[i], payloads[j]) {
        var i, j :| 0 <= i < |urls| && 0 <= j < |payloads| && t == Task(urls[i], payloads[j]);
        if i < |front| {
          assert t == Task(front[i], payloads[j]);
        } else {
          assert t == Row(urls[|urls| - 1], payloads)[j];
        }
      }
      if t in Row(urls[|urls| - 1], payloads) {
        var j :| 0 <= j < |payloads| && Row(urls[|urls| - 1], payloads)[j] == t;
        assert t == Task(urls[|urls| - 1], payloads[j]);
      }
      if exists i, j :: 0 <= i < |front| && 0 <= j < |payloads| && t == Task(front[i], payloads[j]) {
        var i, j :| 0 <= i < |front| && 0 <= j < |payloads| && t == Task(front[i], payloads[j]);
        assert t == Task(urls[i], payloads[j]);
      }
    }
  }

  /** The values `hit` picks out of `xs`, in order: `[r for r in xs if r]`. */
  function Found<T, U>(xs: seq<T>, hit: T -> Option<U>): seq<U> {
    if xs == [] then []
    else Found(xs[..|xs| - 1], hit) + (match hit(xs[|xs| - 1]) case Some(u) => [u] case None => [])
  }

  lemma {:induction false} FoundAppend<T, U>(a: seq<T>, b: seq<T>, hit: T -> Option<U>)
    ensures Found(a + b, hit) == Found(a, hit) + Found(b, hit)
    decreases |b|
  {
    if b == [] {
      assert a + b == a;
    } else {
      assert (a + b)[..|a + b| - 1] == a + b[..|b| - 1];
      FoundAppend(a, b[..|b| - 1], hit);
    }
  }

  /** Only positives are kept, and every positive is kept. */
  lemma {:induction false} FoundMembers<T, U>(xs: seq<T>, hit: T -> Option<U>, u: U)
    ensures u in Found(xs, hit) <==> exists i :: 0 <= i < |xs| && hit(xs[i]) == Some(u)
    decreases |xs|
  {
    if xs != [] {
      var front := xs[..|xs| - 1];
      FoundMembers(front, hit, u);
      if exists i :: 0 <= i < |xs| && hit(xs[i]) == Some(u) {
        var i :| 0 <= i < |xs| && hit(xs[i]) == Some(u);
        if i < |front| {
          assert hit(front[i]) == Some(u);
        }
      }
      if exists i :: 0 <= i < |front| && hit(front[i]) == Some(u) {
        var i :| 0 <= i < |front| && hit(front[i]) == Some(u);
        assert hit(xs[i]) == Some(u);
      }
    }
  }

  /** A value is found in the task stream exactly when some (url, payload) combination yields it. */
  lemma FoundPairs(urls: seq<string>, payloads: seq<string>, hit: Task -> Option<string>, u: string)
    ensures u in Found(Pairs(urls, payloads), hit) <==>
      exists i, j :: 0 <= i < |urls| && 0 <= j < |payloads| && hit(Task(urls[i], payloads[j])) == Some(u)
  {
    var ts := Pairs(urls, payloads);
    FoundMembers(ts, hit, u);
    if u in Found(ts, hit) {
      var k :| 0 <= k < |ts| && hit(ts[k]) == Some(u);
      PairsMembers(urls, payloads, ts[k]);
    }
    if exists i, j :: 0 <= i < |urls| && 0 <= j < |payloads| && hit(Task(urls[i], payloads[j])) == Some(u) {
      var i, j :| 0 <= i < |urls| && 0 <= j < |payloads| && hit(Task(urls[i], payloads[j])) == Some(u);
      PairsMembers(urls, payloads, Task(urls[i], payloads[j]));
      var k :| 0 <= k < |ts| && ts[k] == Task(urls[i], payloads[j]);
    }
  }

  /** There are never more positives than results. */
  lemma {:induction false} FoundLength<T, U>(xs: seq<T>, hit: T -> Option<U>)
    ensures |Found(xs, hit)| <= |xs|
    decreases |xs|
  {
    if xs != [] {
      FoundLength(xs[..|xs| - 1], hit);
    }
  }

  function Flatten<T>(bs: seq<seq<T>>): seq<T> {
    if bs == [] then [] else Flatten(bs[..|bs| - 1]) + bs[|bs| - 1]
  }

  lemma FlattenNext<T>(bs: seq<seq<T>>, b: seq<T>)
    ensures Flatten(bs + [b]) == Flatten(bs) + b
  {
    assert (bs + [b])[..|bs|] == bs;
  }

  /** `f(x)` for each item `x` of `xs`, joined in order: what nested generator loops yield. */
  function Concat<T, U>(xs: seq<T>, f: T -> seq<U>): seq<U> {
    if xs == [] then [] else Concat(xs[..|xs| - 1], f) + f(xs[|xs| - 1])
  }

  lemma ConcatNext<T, U>(xs: seq<T>, f: T -> seq<U>, i: nat)
    requires i < |xs|
    ensures Concat(xs[..i + 1], f) == Concat(xs[..i], f) + f(xs[i])
  {
    assert xs[..i + 1][..i] == xs[..i];
  }

  /** An item is yielded exactly when some `f(xs[i])` holds it. */
  lemma {:induction false} ConcatMembers<T, U>(xs: seq<T>, f: T -> seq<U>, u: U)
    ensures u in Concat(xs, f) <==> exists i :: 0 <= i < |xs| && u in f(xs[i])
    decreases |xs|
  {
    if xs != [] {
      var front := xs[..|xs| - 1];
      ConcatMembers(front, f, u);
      if u in Concat(front, f) {
        var i :| 0 <= i < |front| && u in f(front[i]);
        assert xs[i] == front[i];
      }
      if exists i :: 0 <= i < |xs| && u in f(xs[i]) {
        var i :| 0 <= i < |xs| && u in f(xs[i]);
        if i < |front| {
          assert front[i] == xs[i];
        }
      }
    }
  }

  /** Nothing is yielded exactly when every `f(xs[i])` is empty. */
  lemma {:induction false} ConcatEmpty<T, U>(xs: seq<T>, f: T -> seq<U>)
    ensures Concat(xs, f) == [] <==> forall i :: 0 <= i < |xs| ==> f(xs[i]) == []
    decreases |xs|
  {
    if xs != [] {
      var front := xs[..|xs| - 1];
      ConcatEmpty(front, f);
      assert forall i :: 0 <= i < |front| ==> front[i] == xs[i];
    }
  }

  /** What the first `i` items yield is a prefix of what all of them yield. */
  lemma {:induction false} ConcatGrows<T, U>(xs: seq<T>, f: T -> seq<U>, i: nat)
    requires i <= |xs|
    ensures |Concat(xs[..i], f)| <= |Concat(xs, f)| && Concat(xs, f)[..|Concat(xs[..i], f)|] == Concat(xs[..i], f)
    decreases |xs| - i
  {
    if i == |xs| {
      assert xs[..i] == xs;
    } else {
      ConcatNext(xs, f, i);
      ConcatGrows(xs, f, i + 1);
    }
  }

  /** Batches awaited as the drain produces them: all full but the last, which is non-empty. */
  ghost predicate IsBatching<T>(bs: seq<seq<T>>, cap: nat) {
    forall i :: 0 <= i < |bs| ==> 0 < |bs[i]| <= cap && (i < |bs| - 1 ==> |bs[i]| == cap)
  }

  /** A list of full batches followed by a non-empty remainder is a batching. */
  lemma BatchingClose<T>(bs: seq<seq<T>>, pending: seq<T>, cap: nat)
    requires forall i :: 0 <= i < |bs| ==> |bs[i]| == cap
    requires cap >= 1 && |pending| < cap
    ensures pending != [] ==> IsBatching(bs + [pending], cap)
    ensures pending == [] ==> IsBatching(bs, cap)
  {
  }

  /**
    * The number of batches is the number of tasks divided by the cap, rounded
    * up: all but the last are full and the last holds between 1 and cap tasks.
    */
  lemma BatchCount<T>(bs: seq<seq<T>>, cap: nat)
    requires cap >= 1 && IsBatching(bs, cap)
    ensures bs == [] <==> Flatten(bs) == []
    ensures bs != [] ==> (|bs| - 1) * cap < |Flatten(bs)| <= |bs| * cap
  {
    if bs != [] {
      var front := bs[..|bs| - 1];
      var last := bs[|bs| - 1];
      assert forall i :: 0 <= i < |front| ==> front[i] == bs[i];
      FullBatchesLength(front, cap);
      assert |Flatten(bs)| == |front| * cap + |last|;
      assert |bs| * cap == |front| * cap + cap;
    }
  }

  lemma {:induction false} FullBatchesLength<T>(bs: seq<seq<T>>, cap: nat)
    requires forall i :: 0 <= i < |bs| ==> |bs[i]| == cap
    ensures |Flatten(bs)| == |bs| * cap
    decreases |bs|
  {
    if bs != [] {
      var front := bs[..|bs| - 1];
      FullBatchesLength(front, cap);
      assert |bs| * cap == |front| * cap + cap;
    }
  }

  /**
    * One `for future in as_completed(tasks)` pass: every task of the batch is
    * awaited once and the positives are appended (in submission order here).
    */
  method DrainBatch(batch: seq<Task>, hit: Task -> Option<string>) returns (found: seq<string>)
    ensures found == Found(batch, hit)
  {
    found := [];
    var k := 0;
    while k < |batch|
      invariant 0 <= k <= |batch|
      invariant found == Found(batch[..k], hit)
    {
      assert batch[..k + 1][..k] == batch[..k];
      match hit(batch[k]) {
        case Some(u) => found := found + [u];
        case None =>
      }
      k := k + 1;
    }
    assert batch[..k] == batch;
  }

  /** Draining a queue adds its positives to those of the batches drained before. */
  method DrainInto(pending: seq<Task>, ghost batches: seq<seq<Task>>, found: seq<string>, hit: Task -> Option<string>)
    returns (more: seq<string>, ghost batches': seq<seq<Task>>)
    requires found == Found(Flatten(batches), hit)
    ensures batches' == batches + [pending] && more == Found(pending, hit)
    ensures found + more == Found(Flatten(batches'), hit)
  {
    more := DrainBatch(pending, hit);
    FoundAppend(Flatten(batches), pending, hit);
    FlattenNext(batches, pending);
    batches' := batches + [pending];
  }

  /** The state between two submissions: every drained batch was full, and fewer than `cap` tasks wait. */
  ghost predicate Draining<T>(batches: seq<seq<T>>, pending: seq<T>, cap: nat) {
    (forall k :: 0 <= k < |batches| ==> |batches[k]| == cap) && |pending| < cap
  }

  /** One submission: queue the task, and drain the queue once it holds `cap` tasks. */
  method Submit(t: Task, pending: seq<Task>, ghost batches: seq<seq<Task>>, found: seq<string>, cap: nat, hit: Task -> Option<string>)
    returns (pending': seq<Task>, ghost batches': seq<seq<Task>>, found': seq<string>)
    requires cap >= 1 && Draining(batches, pending, cap)
    requires found == Found(Flatten(batches), hit)
    ensures Draining(batches', pending', cap)
    ensures Flatten(batches') + pending' == Flatten(batches) + pending + [t]
    ensures found' == Found(Flatten(batches'), hit)
  {
    pending', batches', found' := pending + [t], batches, found;
    if |pending'| >= cap {
      var more;
      more, batches' := DrainInto(pending', batches, found, hit);
      found', pending' := found + more, [];
    }
  }

  /**
    * The submit-and-drain loop of the asynchronous scanners: for each url and
    * each payload count the task and queue it; once `len(tasks) >= threads * 10`
    * drain the queue; drain what is left at the end.
    *
    * With `threads == 0` the semaphore `Semaphore(0)` admits no task, and the
    * batch size is 0, so the very first task is awaited at once and never
    * finishes: the run hangs after counting one task. With no task at all it
    * ends normally.
    */
  method DrainPairs(urls: seq<string>, payloads: seq<string>, threads: nat, hit: Task -> Option<string>)
    returns (scanned: nat, found: seq<string>, hung: bool, ghost batches: seq<seq<Task>>)
    ensures hung <==> threads == 0 && urls != [] && payloads != []
    ensures hung ==> scanned == 1 && found == []
    ensures !hung ==> scanned == |urls| * |payloads|
    ensures !hung ==> Flatten(batches) == Pairs(urls, payloads) && IsBatching(batches, threads * 10)
    ensures !hung ==> found == Found(Pairs(urls, payloads), hit)
  {
    scanned, found, hung, batches := 0, [], false, [];
    if threads == 0 {
      // The first submission blocks for ever; without one nothing happens.
      PairsLength(urls, payloads);
      if urls != [] && payloads != [] {
        scanned, hung := 1, true;
      }
      return;
    }
    var cap := threads * 10;
    var pending: seq<Task> := [];
    var i := 0;
    while i < |urls|
      invariant 0 <= i <= |urls|
      invariant Flatten(batches) + pending == Pairs(urls[..i], payloads)
      invariant Draining(batches, pending, cap)
      invariant scanned == i * |payloads|
      invariant found == Found(Flatten(batches), hit)
    {
      var j := 0;
      while j < |payloads|
        invariant 0 <= j <= |payloads|
        invariant Flatten(batches) + pending == Pairs(urls[..i], payloads) + Row(urls[i], payloads[..j])
        invariant Draining(batches, pending, cap)
        invariant scanned == i * |payloads| + j
        invariant found == Found(Flatten(batches), hit)
      {
        scanned := scanned + 1;
        RowNext(urls[i], payloads, j);
        pending, batches, found := Submit(Task(urls[i], payloads[j]), pending, batches, found, cap, hit);
        j := j + 1;
      }
      assert payloads[..j] == payloads;
      PairsNext(urls, payloads, i);
      assert scanned == (i + 1) * |payloads|;
      i := i + 1;
    }
    assert urls[..i] == urls;
    BatchingClose(batches, pending, cap);
    if pending != [] {
      var more;
      more, batches := DrainInto(pending, batches, found, hit);
      found := found + more;
    }
  }
}
