/**
  * What the four command-line scanners under `libs/scanners` share: reading
  * the url and payload lists from an argument or a file, building the header
  * and cookie dictionaries from `key:value` and `key=value` arguments, and the
  * two ways of running every (url, payload) probe and collecting the
  * positives: one after the other when at most one thread is asked for, and
  * through a thread pool otherwise.
  */
module LibsCommon {
  import opened Wrappers
  import opened Text
  import opened Verdicts
  import opened Drain

  // ---------------------------------------------------------------- inputs

  /** `[line.strip() for line in lines if line.strip()]`. */
  function NonBlank(lines: seq<string>): (r: seq<string>)
    ensures |r| <= |lines|
    ensures forall k :: 0 <= k < |r| ==> r[k] != [] && IsStripped(r[k])
  {
    if lines == [] then []
    else
      var s := Strip(lines[|lines| - 1]);
      NonBlank(lines[..|lines| - 1]) + if s == [] then [] else [s]
  }

  /** Stripping a list with one more line strips that line at the end. */
  lemma StripEachLast(lines: seq<string>)
    requires lines != []
    ensures StripEach(lines) == StripEach(lines[..|lines| - 1]) + [Strip(lines[|lines| - 1])]
  {
    var front := lines[..|lines| - 1];
    assert forall k :: 0 <= k < |front| ==> front[k] == lines[k];
  }

  /** The list keeps exactly the stripped lines that are not empty, that is, the lines that are not blank. */
  lemma {:induction false} NonBlankMembers(lines: seq<string>, s: string)
    ensures s in NonBlank(lines) <==> s != [] && s in StripEach(lines)
    decreases |lines|
  {
    if lines != [] {
      var front, last := lines[..|lines| - 1], lines[|lines| - 1];
      var t := Strip(last);
      assert NonBlank(lines) == NonBlank(front) + if t == [] then [] else [t];
      NonBlankMembers(front, s);
      StripEachLast(lines);
    }
  }

  /** Lines that are stripped and not blank pass through unchanged and in order. */
  lemma {:induction false} NonBlankKeeps(lines: seq<string>)
    requires forall i :: 0 <= i < |lines| ==> lines[i] != [] && IsStripped(lines[i])
    ensures NonBlank(lines) == lines
    decreases |lines|
  {
    if lines != [] {
      var front, last := lines[..|lines| - 1], lines[|lines| - 1];
      assert lines == front + [last];
      NonBlankKeeps(front);
      StripStripped(last);
    }
  }

  /** Where a list comes from: the single argument, a file, or neither (the scanner then stops). */
  datatype Source = Given(items: seq<string>) | Unopenable | Missing

  /**
    * `[arg]` when the single argument is given (not empty), else the
    * non-blank lines of the file when a path is given, else nothing. `read`
    * is the file system: `None` where `open` raises.
    */
  function InputList(single: string, path: string, read: string -> Option<seq<string>>): (r: Source)
    ensures single != [] ==> r == Given([single])
    ensures single == [] && path == [] ==> r == Missing
    ensures single == [] && path != [] && read(path).Some? ==> r == Given(NonBlank(read(path).value))
    ensures single == [] && path != [] && read(path).None? ==> r == Unopenable
  {
    if single != [] then Given([single])
    else if path != [] then
      match read(path)
      case Some(lines) => Given(NonBlank(lines))
      case None => Unopenable
    else Missing
  }

  // ---------------------------------------------------------------- headers and cookies

  /** Entry `e` has the separator, and its stripped text before the first one is `k`. */
  predicate Defines(e: string, sep: char, k: string) {
    SplitOnce(e, sep).Some? && Strip(SplitOnce(e, sep).value.0) == k
  }

  /** The stripped text after the first separator. */
  function ValueOf(e: string, sep: char): string
    requires sep in e
  {
    Strip(SplitOnce(e, sep).value.1)
  }

  /** `kv = e.split(sep, 1); if len(kv) == 2: d[kv[0].strip()] = kv[1].strip()`. */
  function Put(d: map<string, string>, e: string, sep: char): map<string, string> {
    match SplitOnce(e, sep)
    case None => d
    case Some((k, v)) => d[Strip(k) := Strip(v)]
  }

  /** The dictionary after `for e in entries:` the step above, starting from `init`. */
  function Fields(entries: seq<string>, sep: char, init: map<string, string>): map<string, string> {
    if entries == [] then init else Put(Fields(entries[..|entries| - 1], sep, init), entries[|entries| - 1], sep)
  }

  lemma FieldsNext(entries: seq<string>, sep: char, init: map<string, string>, i: nat)
    requires i < |entries|
    ensures Fields(entries[..i + 1], sep, init) == Put(Fields(entries[..i], sep, init), entries[i], sep)
  {
    assert entries[..i + 1][..i] == entries[..i];
  }

  /** The header or cookie loop, one argument at a time. */
  method CollectFields(entries: seq<string>, sep: char, init: map<string, string>) returns (d: map<string, string>)
    ensures d == Fields(entries, sep, init)
  {
    d := init;
    for i := 0 to |entries|
      invariant d == Fields(entries[..i], sep, init)
    {
      FieldsNext(entries, sep, init, i);
      var kv := SplitOnce(entries[i], sep);
      if kv.Some? {
        d := d[Strip(kv.value.0) := Strip(kv.value.1)];
      }
    }
    assert entries[..|entries|] == entries;
  }

  /** The value of a key is the one the last entry defining it gives, whatever came before, the initial dictionary included. */
  lemma {:induction false} FieldsLastWins(entries: seq<string>, sep: char, init: map<string, string>, k: string, i: nat)
    requires i < |entries| && Defines(entries[i], sep, k)
    requires forall j :: i < j < |entries| ==> !Defines(entries[j], sep, k)
    ensures k in Fields(entries, sep, init) && Fields(entries, sep, init)[k] == ValueOf(entries[i], sep)
    decreases |entries|
  {
    var front, last := entries[..|entries| - 1], entries[|entries| - 1];
    var before := Fields(front, sep, init);
    assert Fields(entries, sep, init) == Put(before, last, sep);
    if i < |entries| - 1 {
      FieldsLastWins(front, sep, init, k, i);
      assert front[i] == entries[i];
      PutOther(before, last, sep, k);
    } else {
      PutDefines(before, last, sep, k);
    }
  }

  /** An entry that does not define `k` leaves `k` as it was. */
  lemma {:induction false} PutOther(d: map<string, string>, e: string, sep: char, k: string)
    requires !Defines(e, sep, k) && k in d
    ensures k in Put(d, e, sep) && Put(d, e, sep)[k] == d[k]
  {
  }

  /** An entry that defines `k` gives `k` its value. */
  lemma {:induction false} PutDefines(d: map<string, string>, e: string, sep: char, k: string)
    requires Defines(e, sep, k)
    ensures sep in e && k in Put(d, e, sep) && Put(d, e, sep)[k] == ValueOf(e, sep)
  {
  }

  /** A key no entry defines keeps its initial value, or stays absent; entries without the separator change nothing. */
  lemma {:induction false} FieldsUntouched(entries: seq<string>, sep: char, init: map<string, string>, k: string)
    requires forall j :: 0 <= j < |entries| ==> !Defines(entries[j], sep, k)
    ensures k in Fields(entries, sep, init) <==> k in init
    ensures k in init ==> Fields(entries, sep, init)[k] == init[k]
    decreases |entries|
  {
    if entries != [] {
      FieldsUntouched(entries[..|entries| - 1], sep, init, k);
      assert !Defines(entries[|entries| - 1], sep, k);
    }
  }

  /** A header argument is split at its first `:` only, so a value may itself contain colons. */
  lemma HeaderValueKeepsColons(name: string, value: string)
    requires ':' !in name
    ensures Defines(name + ":" + value, ':', Strip(name))
    ensures ValueOf(name + ":" + value, ':') == Strip(value)
  {
    SplitOnceOf(name, ':', value);
  }

  /** `{'User-Agent': userAgent}` followed by the header arguments. */
  function Headers(userAgent: string, entries: seq<string>): map<string, string> {
    Fields(entries, ':', map["User-Agent" := userAgent])
  }

  /** The cookie arguments, from an empty dictionary. */
  function Cookies(entries: seq<string>): map<string, string> {
    Fields(entries, '=', map[])
  }

  /** Without a `User-Agent` argument the random user agent is sent. */
  lemma RandomUserAgent(userAgent: string, entries: seq<string>)
    requires forall j :: 0 <= j < |entries| ==> !Defines(entries[j], ':', "User-Agent")
    ensures "User-Agent" in Headers(userAgent, entries) && Headers(userAgent, entries)["User-Agent"] == userAgent
  {
    FieldsUntouched(entries, ':', map["User-Agent" := userAgent], "User-Agent");
  }

  /** The last `User-Agent: x` argument replaces the random user agent. */
  lemma UserAgentOverride(userAgent: string, entries: seq<string>, i: nat)
    requires i < |entries| && Defines(entries[i], ':', "User-Agent")
    requires forall j :: i < j < |entries| ==> !Defines(entries[j], ':', "User-Agent")
    ensures "User-Agent" in Headers(userAgent, entries) && Headers(userAgent, entries)["User-Agent"] == ValueOf(entries[i], ':')
  {
    FieldsLastWins(entries, ':', map["User-Agent" := userAgent], "User-Agent", i);
  }

  // ---------------------------------------------------------------- running the probes

  /** How a `perform_request` call ends: it raised an exception it does not catch, or it returned. */
  datatype Attempt = Raised | Returned(result: Option<string>)

  /** `if result:` — a returned URL that is not empty is collected. */
  function Collected(a: Attempt): (r: Option<string>)
    ensures r.Some? <==> a.Returned? && a.result.Some? && a.result.value != []
    ensures r.Some? ==> r.value == a.result.value
  {
    if a.Returned? && a.result.Some? && a.result.value != [] then Some(a.result.value) else None
  }

  /** The entry a task adds to `vulnerable_urls`, if any. */
  function Hit(perform: Task -> Attempt): Task -> Option<string> {
    t => Collected(perform(t))
  }

  /** Some task's request raises: the scanner stops with a traceback and reports nothing. */
  ghost predicate AnyRaised(ts: seq<Task>, perform: Task -> Attempt) {
    exists t :: t in ts && perform(t).Raised?
  }

  /** The inner loop for one url: count the pair, perform it, collect a truthy result. */
  method ScanRow(url: string, payloads: seq<string>, perform: Task -> Attempt, found0: nat, scanned0: nat, vulnerable0: seq<string>)
    returns (crashed: bool, totalFound: nat, totalScanned: nat, vulnerableUrls: seq<string>)
    requires found0 == |vulnerable0|
    ensures crashed <==> AnyRaised(Row(url, payloads), perform)
    ensures !crashed ==> totalScanned == scanned0 + |payloads|
    ensures !crashed ==> vulnerableUrls == vulnerable0 + Found(Row(url, payloads), Hit(perform))
    ensures totalFound == |vulnerableUrls|
  {
    crashed, totalFound, totalScanned, vulnerableUrls := false, found0, scanned0, vulnerable0;
    for j := 0 to |payloads|
      invariant !AnyRaised(Row(url, payloads[..j]), perform)
      invariant totalScanned == scanned0 + j
      invariant vulnerableUrls == vulnerable0 + Found(Row(url, payloads[..j]), Hit(perform))
      invariant totalFound == |vulnerableUrls|
    {
      var t := Task(url, payloads[j]);
      RowNext(url, payloads, j);
      assert Row(url, payloads[..j + 1])[..j] == Row(url, payloads[..j]);
      totalScanned := totalScanned + 1;
      var result := perform(t);
      if result.Raised? {
        assert t == Row(url, payloads)[j];
        crashed := true;
        return;
      }
      var c := Collected(result);
      if c.Some? {
        totalFound := totalFound + 1;
        vulnerableUrls := vulnerableUrls + [c.value];
      }
    }
    assert payloads[..|payloads|] == payloads;
  }

  /** `threads <= 1`: every url, every payload, one request after the other. */
  method ScanSequential(urls: seq<string>, payloads: seq<string>, perform: Task -> Attempt)
    returns (crashed: bool, totalFound: nat, totalScanned: nat, vulnerableUrls: seq<string>)
    ensures crashed <==> AnyRaised(Pairs(urls, payloads), perform)
    ensures !crashed ==> totalScanned == |urls| * |payloads|
    ensures !crashed ==> vulnerableUrls == Found(Pairs(urls, payloads), Hit(perform))
    ensures totalFound == |vulnerableUrls|
  {
    crashed, totalFound, totalScanned, vulnerableUrls := false, 0, 0, [];
    for i := 0 to |urls|
      invariant !AnyRaised(Pairs(urls[..i], payloads), perform)
      invariant totalScanned == |Pairs(urls[..i], payloads)|
      invariant vulnerableUrls == Found(Pairs(urls[..i], payloads), Hit(perform))
      invariant totalFound == |vulnerableUrls|
    {
      PairsNext(urls, payloads, i);
      FoundAppend(Pairs(urls[..i], payloads), Row(urls[i], payloads), Hit(perform));
      crashed, totalFound, totalScanned, vulnerableUrls := ScanRow(urls[i], payloads, perform, totalFound, totalScanned, vulnerableUrls);
      if crashed {
        PairsIn(urls, payloads, i);
        return;
      }
    }
    assert urls[..|urls|] == urls;
    PairsLength(urls, payloads);
  }

  /** The row of url `i` is part of the task list. */
  lemma PairsIn(urls: seq<string>, payloads: seq<string>, i: nat)
    requires i < |urls|
    ensures forall t :: t in Row(urls[i], payloads) ==> t in Pairs(urls, payloads)
  {
    forall t | t in Row(urls[i], payloads)
      ensures t in Pairs(urls, payloads)
    {
      var j :| 0 <= j < |payloads| && Row(urls[i], payloads)[j] == t;
      PairsAt(urls, payloads, i, j);
    }
  }

  /** `executor.submit` for every pair, in order: every pair is counted and its result is fixed. */
  method SubmitAll(urls: seq<string>, payloads: seq<string>, perform: Task -> Attempt)
    returns (totalScanned: nat, futures: seq<Attempt>, ghost submitted: seq<Task>)
    ensures submitted == Pairs(urls, payloads) && totalScanned == |submitted|
    ensures |futures| == |submitted| && forall k :: 0 <= k < |futures| ==> futures[k] == perform(submitted[k])
  {
    totalScanned, futures, submitted := 0, [], [];
    for i := 0 to |urls|
      invariant submitted == Pairs(urls[..i], payloads) && totalScanned == |submitted|
      invariant |futures| == |submitted| && forall k :: 0 <= k < |futures| ==> futures[k] == perform(submitted[k])
    {
      PairsNext(urls, payloads, i);
      for j := 0 to |payloads|
        invariant submitted == Pairs(urls[..i], payloads) + Row(urls[i], payloads[..j]) && totalScanned == |submitted|
        invariant |futures| == |submitted| && forall k :: 0 <= k < |futures| ==> futures[k] == perform(submitted[k])
      {
        RowNext(urls[i], payloads, j);
        totalScanned := totalScanned + 1;
        futures := futures + [perform(Task(urls[i], payloads[j]))];
        submitted := submitted + [Task(urls[i], payloads[j])];
      }
      assert payloads[..|payloads|] == payloads;
    }
    assert urls[..|urls|] == urls;
  }

  /**
    * `for future in as_completed(futures)`: the results are taken in
    * submission order here; `future.result()` re-raises what the request raised.
    */
  method CollectResults(futures: seq<Attempt>, ghost submitted: seq<Task>, perform: Task -> Attempt)
    returns (crashed: bool, totalFound: nat, vulnerableUrls: seq<string>)
    requires |futures| == |submitted| && forall k :: 0 <= k < |futures| ==> futures[k] == perform(submitted[k])
    ensures crashed <==> AnyRaised(submitted, perform)
    ensures !crashed ==> vulnerableUrls == Found(submitted, Hit(perform))
    ensures totalFound == |vulnerableUrls|
  {
    crashed, totalFound, vulnerableUrls := false, 0, [];
    for k := 0 to |futures|
      invariant !AnyRaised(submitted[..k], perform)
      invariant vulnerableUrls == Found(submitted[..k], Hit(perform))
      invariant totalFound == |vulnerableUrls|
    {
      assert submitted[..k + 1][..k] == submitted[..k];
      if futures[k].Raised? {
        assert submitted[k] in submitted;
        crashed := true;
        return;
      }
      var c := Collected(futures[k]);
      if c.Some? {
        totalFound := totalFound + 1;
        vulnerableUrls := vulnerableUrls + [c.value];
      }
    }
    assert submitted[..|futures|] == submitted;
  }

  /** `threads >= 2`: submit everything to the pool, then take the results. */
  method ScanPooled(urls: seq<string>, payloads: seq<string>, perform: Task -> Attempt)
    returns (crashed: bool, totalFound: nat, totalScanned: nat, vulnerableUrls: seq<string>)
    ensures crashed <==> AnyRaised(Pairs(urls, payloads), perform)
    ensures totalScanned == |urls| * |payloads|
    ensures !crashed ==> vulnerableUrls == Found(Pairs(urls, payloads), Hit(perform))
    ensures totalFound == |vulnerableUrls|
  {
    var futures;
    ghost var submitted;
    totalScanned, futures, submitted := SubmitAll(urls, payloads, perform);
    PairsLength(urls, payloads);
    crashed, totalFound, vulnerableUrls := CollectResults(futures, submitted, perform);
  }

  /**
    * The scanning part of `run_*_scanner`: sequential for at most one
    * thread, a pool otherwise; both count every pair and collect the same
    * results, and both fail exactly when some request raises.
    */
  method Scan(threads: int, urls: seq<string>, payloads: seq<string>, perform: Task -> Attempt)
    returns (crashed: bool, totalFound: nat, totalScanned: nat, vulnerableUrls: seq<string>)
    ensures crashed <==> AnyRaised(Pairs(urls, payloads), perform)
    ensures !crashed ==> totalScanned == |urls| * |payloads|
    ensures !crashed ==> vulnerableUrls == Found(Pairs(urls, payloads), Hit(perform))
    ensures totalFound == |vulnerableUrls|
  {
    if threads <= 1 {
      crashed, totalFound, totalScanned, vulnerableUrls := ScanSequential(urls, payloads, perform);
    } else {
      crashed, totalFound, totalScanned, vulnerableUrls := ScanPooled(urls, payloads, perform);
    }
  }

  /** A reported URL is the non-empty result of some (url, payload) pair, and every such result is reported. */
  lemma Reported(urls: seq<string>, payloads: seq<string>, perform: Task -> Attempt, u: string)
    ensures u in Found(Pairs(urls, payloads), Hit(perform)) <==>
      exists i, j :: 0 <= i < |urls| && 0 <= j < |payloads| && u != [] && perform(Task(urls[i], payloads[j])) == Returned(Some(u))
  {
    FoundPairs(urls, payloads, Hit(perform), u);
    forall i, j | 0 <= i < |urls| && 0 <= j < |payloads|
      ensures Hit(perform)(Task(urls[i], payloads[j])) == Some(u) <==> u != [] && perform(Task(urls[i], payloads[j])) == Returned(Some(u))
    {
      var a := perform(Task(urls[i], payloads[j]));
      assert Hit(perform)(Task(urls[i], payloads[j])) == Collected(a);
    }
  }

  /** Each pair adds at most one URL. */
  lemma AtMostOnePerPair(urls: seq<string>, payloads: seq<string>, perform: Task -> Attempt)
    ensures |Found(Pairs(urls, payloads), Hit(perform))| <= |urls| * |payloads|
  {
    FoundLength(Pairs(urls, payloads), Hit(perform));
    PairsLength(urls, payloads);
  }

  // ---------------------------------------------------------------- a command-line run

  /**
    * The parsed command line of `get_common_arguments`: an option that was
    * not given is the empty string, or the empty list for the repeatable
    * `-H` and `-c`.
    */
  datatype Args = Args(url: string, urlFile: string, payload: string, payloadFile: string,
                       headers: seq<string>, cookies: seq<string>, verb: string, threads: int)

  /**
    * The `requests` calls of a run: `get(url, headers, cookies)` and
    * `post(url, data, headers, cookies)`, with the run's method and
    * dictionaries. A call that raises `RequestException` gives `RequestFailed`.
    */
  datatype Session = Session(verb: string, headers: map<string, string>, cookies: map<string, string>,
                             get: (string, map<string, string>, map<string, string>) -> Response,
                             post: (string, map<string, string>, map<string, string>, map<string, string>) -> Response)

  /** `requests.get(target, ...)` when the method is `GET`, `requests.post(url, data=data, ...)` otherwise. */
  function Request(s: Session, target: string, url: string, data: map<string, string>): (r: Response)
    ensures s.verb == "GET" ==> r == s.get(target, s.headers, s.cookies)
    ensures s.verb != "GET" ==> r == s.post(url, data, s.headers, s.cookies)
  {
    if s.verb == "GET" then s.get(target, s.headers, s.cookies) else s.post(url, data, s.headers, s.cookies)
  }

  /** The session a run sets up from its arguments: the random user agent, then `-H`, and the `-c` cookies. */
  function SessionOf(a: Args, userAgent: string, s: Session): Session {
    s.(verb := a.verb, headers := Headers(userAgent, a.headers), cookies := Cookies(a.cookies))
  }

  /** How a command-line scan ends. */
  datatype Run = NoUrl | NoPayload | Crashed | Finished(totalFound: nat, totalScanned: nat, vulnerableUrls: seq<string>)

  /**
    * `run_*_scanner` of the open-redirect, LFI and SQL-injection scanners:
    * read the urls, then the payloads (stopping when either is missing, and
    * failing when its file cannot be opened), build the headers and cookies,
    * then scan every pair with the scanner's `perform_request`.
    */
  method RunScanner(a: Args, read: string -> Option<seq<string>>, userAgent: string, http: Session,
                    perform: Session -> Task -> Attempt)
    returns (run: Run)
    ensures InputList(a.url, a.urlFile, read).Missing? ==> run == NoUrl
    ensures InputList(a.url, a.urlFile, read).Unopenable? ==> run == Crashed
    ensures InputList(a.url, a.urlFile, read).Given? && InputList(a.payload, a.payloadFile, read).Missing? ==> run == NoPayload
    ensures InputList(a.url, a.urlFile, read).Given? && InputList(a.payload, a.payloadFile, read).Unopenable? ==> run == Crashed
    ensures InputList(a.url, a.urlFile, read).Given? && InputList(a.payload, a.payloadFile, read).Given? ==>
      var ts := Pairs(InputList(a.url, a.urlFile, read).items, InputList(a.payload, a.payloadFile, read).items);
      var hit := Hit(perform(SessionOf(a, userAgent, http)));
      (run.Crashed? <==> AnyRaised(ts, perform(SessionOf(a, userAgent, http)))) &&
      (!run.Crashed? ==> run == Finished(|Found(ts, hit)|, |ts|, Found(ts, hit)))
  {
    var urls := InputList(a.url, a.urlFile, read);
    if urls.Missing? {
      return NoUrl;
    } else if urls.Unopenable? {
      return Crashed;
    }
    var payloads := InputList(a.payload, a.payloadFile, read);
    if payloads.Missing? {
      return NoPayload;
    } else if payloads.Unopenable? {
      return Crashed;
    }
    var headers := CollectFields(a.headers, ':', map["User-Agent" := userAgent]);
    var cookies := CollectFields(a.cookies, '=', map[]);
    var session := http.(verb := a.verb, headers := headers, cookies := cookies);
    var crashed, totalFound, totalScanned, vulnerableUrls := Scan(a.threads, urls.items, payloads.items, perform(session));
    PairsLength(urls.items, payloads.items);
    if crashed {
      return Crashed;
    }
    return Finished(totalFound, totalScanned, vulnerableUrls);
  }
}
