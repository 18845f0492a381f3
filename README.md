# lostools scanner core in Dafny

lostools is a command-line scanner. It looks for four kinds of web vulnerability:
local file inclusion (LFI), open redirects (OR), SQL injection (SQLi) and
cross-site scripting (XSS). Each kind has an asynchronous scanner under `scanners/`
and a request-based one under `libs/scanners/`. A front end (`main.py`, `utils.py`)
reads targets, payloads and thread counts and routes to the chosen scanner.

This project models the sequential logic inside those programs. The network and
the browser are parameters; everything else is modelled:

- **Probe generation.**
  - `url + payload`, raw or through `quote` (`SqlScanner`, `LfiScanner`,
    `RedirectScanner`, `LibsSql`, `LibsLfi`).
  - Query-parameter substitution: split the URL, `parse_qs`, replace one key,
    `urlencode(doseq=True)`, join again (`Query`, `Substitution`, `BrowserXss`,
    `SeleniumXss`).
  - Substitution with reset of the parameter afterwards (`Reprobe`, `LibsXss`, `LibsOr`).
  - `quote` and `quote_plus` are implemented with UTF-8 percent-encoding (`Percent`).
    `parse_qsl` grouping and `urlencode` are implemented too (`Query`).
    Their round trip is proved: `parse_qs(urlencode(d, doseq=True), keep_blank_values=True) == d`.
- **Verdicts** (`Verdicts` and each scanner):
  - reflection of the payload in the body;
  - success markers as substrings;
  - SQL error markers in the lower-cased body;
  - a response time of ten seconds or more;
  - status 301/302 with a `Location` holding the payload;
  - the browser's final URL;
  - an accepted alert.
- **Batch draining** (`Drain`).
  - Tasks are appended to a list, which is gathered whenever it reaches the batch
    size, and the remainder at the end.
  - Each scanner's driver loop is an imperative method. It is proved to consume
    every task exactly once.
  - It is proved to count `total_scanned` as the source does, and to report
    exactly the positive tasks.
- **Browser drivers** (`Pool`).
  - The queue of WebDriver instances is a class with a free queue and a set of leases.
  - Free and leased are disjoint and together are the whole pool.
  - Every lease is returned, and every driver is quit once at the end.
  - The Selenium scanner assigns drivers round-robin.
- **Input handling** (`Text`, `Threads`, `LibsCommon`, `Utils`, `Frontend`):
  - comma lists and file lines;
  - `Name:value` headers and `k=v` cookies, split at the first separator;
  - the thread-count ranges and defaults of every scanner;
  - `get_optimal_threads`;
  - menu and argument routing;
  - the `-uf`/`-pf` file override.

Files follow the program:

| file | models |
|---|---|
| `sql_scanner.dfy`, `lfi_scanner.dfy`, `or_scanner.dfy`, `xss_scanner.dfy`, `xss_scanner_selenium.dfy` | `scanners/*.py` |
| `libs_sql.dfy`, `libs_lfi.dfy`, `libs_or.dfy`, `libs_xss.dfy`, with `libs_common.dfy` for their shared shape | `libs/scanners/*.py` |
| `utils.dfy`, `frontend.dfy`, `threads.dfy` | `utils.py`, `main.py`, and the thread prompts of every scanner |
| `text.dfy`, `percent.dfy`, `query.dfy`, `urls.dfy`, `substitution.dfy`, `reprobe.dfy` | the parts of Python's `str` and `urllib.parse` that the scanners use |
| `drain.dfy`, `pool.dfy`, `verdicts.dfy`, `wrappers.dfy` | shared building blocks |

Behaviour of the code that the model keeps:

- **Dispatch order.**
  - `scanners/xss_scanner.py` dispatches payload first, then url, then query key
    (lines 101-105).
  - The Selenium scanner generates key first, then payload, for each url (lines 59-60).
  - The other scanners go url first, then payload.
- **Result order.**
  - The asynchronous redirect scanner collects each batch with `gather`, in submission order.
  - The SQL and LFI scanners read each batch with `as_completed`, in completion order.
  - Both browser XSS scanners append findings inside their running tasks.
  - The model drains every batch in submission order (see "Left out").
- **Timing verdict.**
  - The SQL scanner reports a response of ten seconds or more as vulnerable
    outright.
  - The Selenium scanner records a reflection as potential and confirms it in
    the browser.
- **Redirect status.** The request-based redirect scanner counts only the statuses
  301 and 302 as redirects.
- **Drivers.** `scanners/xss_scanner.py` always puts a driver back, even after
  an error (the `finally` at lines 78-80). No driver is discarded.
- **`total_scanned`.**
  - The asynchronous SQL and LFI scanners count each pair when it is submitted.
  - The asynchronous redirect scanner adds `len(urls) * len(payloads)` once, after
    the scan, and only when there are payloads.
  - The Selenium scanner counts only probes that received a response.
  - The browser XSS scanner counts each task when a driver is leased.
  - The request-based scanners count one per pair.
- **LFI probes.** The LFI probes append `quote(payload)` to the url. No parameter is
  substituted.
- **Zero threads.**
  - Several scanners accept a typed `0` thread count. The scan then waits forever
    on a semaphore, or on an empty driver queue, with tasks pending.
  - The model returns this as `hung`.

## Model

| member | source | states |
|---|---|---|
| Utils.RandomUserAgent | utils.py:45-49 | the identity returned is always a member of `USER_AGENTS` |
| Utils.EveryUserAgentDrawn | utils.py:45-49 | every member of `USER_AGENTS` can be drawn |
| Utils.FileLines | utils.py:83-84 | iterating over a file gives lines without `\n`; an empty file gives none, and a final `\n` starts no extra line |
| Utils.SplitTerminated | utils.py:83-84 | a file of `\n`-terminated lines splits into those lines and one empty piece |
| Utils.ReadFileLines | utils.py:79-85 | one stripped string per line of the file, in order |
| Utils.ReadWrittenLines | utils.py:79-85 | reading back a file of lines gives each line stripped, in order; a blank line gives `''` and is not dropped |
| Utils.OptimalThreads | utils.py:87-102 | below 512 MiB free: `max(1, cpu_count // 2)`, so at least 1 and about half the cores; otherwise `min(max_threads, cpu_count)`, never above either; for at least one core never above the core count; an undetermined core count raises |
| Frontend.CommaList | main.py:98-105 | every item is stripped, non-empty and free of commas |
| Frontend.CommaListMembers | main.py:98-105 | an item is listed exactly when it is a comma-separated piece of the answer, stripped and non-empty |
| Frontend.CommaListOfJoin | main.py:98-105 | items typed without blanks or commas and joined by commas come back as typed and in order |
| Frontend.NonBlankFrom | main.py:98 | the items have no character the pieces lack |
| Frontend.ListAnswer | main.py:93-105 | the url or payload answer gives the non-blank lines of the file it names, else the comma list; every item is stripped and non-empty |
| Frontend.Optional | main.py:110-114 | `None` exactly for a blank answer, otherwise the stripped answer |
| Frontend.PromptForInputs | main.py:87-122 | lists from files or commas; threads 5 for a blank answer and the typed number otherwise, and an uncaught `ValueError` for anything else; a blank output file is `None`; a cookie is asked only for `sqli` and is `None` otherwise |
| Frontend.FirstMatchWins | main.py:128-214 | the first branch whose test holds decides |
| Frontend.NoMatchExits | main.py:209-214 | with no branch matching, the selection exits |
| Frontend.MenuRoutes | main.py:128-214 | at the menu `1` to `5` pick LFI, OR, SQLi, XSS and the updater, and every other answer exits |
| Frontend.ArgumentRoutes | main.py:128-214 | in argument mode each `--scanner` name picks its branch, `update` the updater, and no name exits |
| Frontend.OrFive | main.py:136 | `args.threads or 5`: never 0, and a non-zero count is kept |
| Frontend.DispatchPrompted | main.py:128-214 | at the menu a scanner branch launches with the prompted inputs (or fails when the thread answer raises), `5` updates and the rest exit |
| Frontend.DispatchArguments | main.py:132-197 | in argument mode a scanner branch launches with the given lists and output file, `threads or 5`, and the cookie only for `sqli` |
| Frontend.FileOverride | main.py:245-258 | a named file that exists replaces the list by its non-blank stripped lines; a named path that is not a file exits with status 1; no file keeps the list |
| Frontend.FileWins | main.py:245-258 | when a file is named the list given beside it makes no difference |
| Frontend.Namespace.constructor | main.py:226-235 | the options as parsed |
| Frontend.Namespace.LoadFiles | main.py:245-258 | `urls` is replaced first, then `payloads`; a missing file exits with status 1 before anything later is read; the other options are unchanged |
| Frontend.RunArguments | main.py:243-259 | argument mode exits with status 1 on a missing file, otherwise routes with the replaced lists |
| BrowserXss.PayloadUrls | scanners/xss_scanner.py:47-60 | one URL per query key of the url (blank values kept); none when `urlsplit` raises |
| BrowserXss.PayloadUrlAt | scanners/xss_scanner.py:52-58 | URL k is the url with the k-th distinct key given the payload, keys in parse order |
| BrowserXss.NoUrls | scanners/xss_scanner.py:49-53 | a url yields nothing exactly when `urlsplit` raises or its query has no parameter |
| BrowserXss.RoundMembers | scanners/xss_scanner.py:103-104 | a URL is dispatched for a payload exactly when one of the urls yields it for that payload |
| BrowserXss.DispatchMembers | scanners/xss_scanner.py:101-105 | a URL is dispatched exactly when it is dispatched for one of the payloads (payload outermost, then url, then key) |
| BrowserXss.EmptyRound | scanners/xss_scanner.py:101-105 | a payload dispatches nothing exactly when no url yields a URL for it |
| BrowserXss.InjectablesMembers | scanners/xss_scanner.py:69-76 | a URL is recorded exactly when it was dispatched and its page raised an alert; no more records than URLs |
| BrowserXss.MassScanner.constructor | scanners/xss_scanner.py:36-45 | empty `injectables` and a zero scanned count |
| BrowserXss.MassScanner.ScanUrl | scanners/xss_scanner.py:62-80 | the driver leased is the head of the queue and goes back to its tail on every path; the URL is counted once; it is appended to `injectables` exactly when an alert fired |
| BrowserXss.MassScanner.Gather | scanners/xss_scanner.py:109 | awaiting a batch counts each of its URLs once and records its alerting ones, in order, and leaves every driver idle |
| BrowserXss.MassScanner.Flush | scanners/xss_scanner.py:112-114 | the pending tasks are awaited as one more batch |
| BrowserXss.MassScanner.Step | scanners/xss_scanner.py:105-110 | one task is queued and the list awaited once it holds `concurrency*10`; the awaited batches followed by the pending tasks are all tasks created; with no concurrency the first task hangs and nothing is counted |
| BrowserXss.MassScanner.StepAll | scanners/xss_scanner.py:104-110 | the same for all the URLs one url yields |
| BrowserXss.MassScanner.UrlStep | scanners/xss_scanner.py:103-110 | the url loop's invariant holds over one more url, or the scan hangs |
| BrowserXss.MassScanner.ScanPayload | scanners/xss_scanner.py:101-114 | a payload's URLs are awaited in batches of `concurrency*10` and a final remainder, so no batch holds URLs of two payloads, and the counters cover exactly those URLs |
| BrowserXss.MassScanner.PayloadStep | scanners/xss_scanner.py:101-114 | the payload loop's invariant holds over one more payload, or the scan hangs with the counters unchanged |
| BrowserXss.MassScanner.ScanPayloads | scanners/xss_scanner.py:101-114 | every dispatched URL is counted once and recorded exactly when it alerted |
| BrowserXss.MassScanner.Scan | scanners/xss_scanner.py:82-118 | `totalScanned` grows by the number of dispatched URLs and `injectables` by the alerting ones in dispatch order; each payload's URLs are batched on their own; afterwards each of the `concurrency` drivers is quit once; zero concurrency hangs exactly when a URL is dispatched |
| SeleniumXss.UrlProbes | scanners/xss_scanner_selenium.py:52-65 | the probes of one url exist exactly when `urlsplit` accepts it |
| SeleniumXss.NoParametersNoProbes | scanners/xss_scanner_selenium.py:56-58 | a url whose query parses to no parameter yields no probe |
| SeleniumXss.ProbeAt | scanners/xss_scanner_selenium.py:59-65 | a url with k keys gives k×n probes; probe i·n+j carries key i and payload j, keeps netloc, path and fragment, gets `http` for an empty scheme, and its query is the original with only key i set to `[payload]` |
| SeleniumXss.ProbeCount | scanners/xss_scanner_selenium.py:59-65 | one probe per query key and payload |
| SeleniumXss.GenerateStep | scanners/xss_scanner_selenium.py:52-53 | the generator over one more url either raises for good or appends that url's probes |
| SeleniumXss.GenerateCrashed | scanners/xss_scanner_selenium.py:52-53 | once `urlsplit` has raised, later urls add nothing |
| SeleniumXss.GenerateCrashes | scanners/xss_scanner_selenium.py:52-53 | the generator raises exactly when `urlsplit` rejects some url |
| SeleniumXss.GenerateGrows | scanners/xss_scanner_selenium.py:51-65 | the probes of the first i urls are a prefix of all the probes |
| SeleniumXss.TallyNext | scanners/xss_scanner_selenium.py:74-79 | scanning one more probe adds its count and its potential finding |
| SeleniumXss.ResponsesAppend | scanners/xss_scanner_selenium.py:74-75 | the response count of two probe lists is the sum of their counts |
| SeleniumXss.ResponsesBound | scanners/xss_scanner_selenium.py:74-83 | `totalScanned` never exceeds the probes awaited, and equals it exactly when no request failed |
| SeleniumXss.PotentialMembers | scanners/xss_scanner_selenium.py:76-79 | (url, payload) is potential exactly when a probe with that url and payload got a body containing the raw payload |
| SeleniumXss.ConfirmedMembers | scanners/xss_scanner_selenium.py:107-121 | a url is confirmed exactly when it is a candidate whose page raised an alert that was accepted; at most one per candidate |
| SeleniumXss.DriverCount | scanners/xss_scanner_selenium.py:125 | `min(concurrency, 5)`: at most 5 and at most the concurrency, zero only for zero concurrency |
| SeleniumXss.Drivers | scanners/xss_scanner_selenium.py:139 | the drivers created are `range(n)`: n distinct ids, driver d at position d |
| SeleniumXss.MassScanner.constructor | scanners/xss_scanner_selenium.py:40-48 | empty result lists and a zero scanned count |
| SeleniumXss.MassScanner.ScanUrl | scanners/xss_scanner_selenium.py:67-83 | a response adds one to `totalScanned`; a body holding the payload appends (url, payload) to the potential list; nothing else changes |
| SeleniumXss.MassScanner.GatherBatch | scanners/xss_scanner_selenium.py:101 | awaiting a batch scans each of its probes once, in order |
| SeleniumXss.MassScanner.ScanNext | scanners/xss_scanner_selenium.py:93 | scanning probe k extends the tally of the probes before it |
| SeleniumXss.MassScanner.Step | scanners/xss_scanner_selenium.py:96-102 | one task is queued and the queue awaited once it holds 10000; the awaited batches followed by the pending tasks are all the tasks created; with no concurrency the wait never ends |
| SeleniumXss.MassScanner.StepAll | scanners/xss_scanner_selenium.py:96-102 | the same for all the probes of a url |
| SeleniumXss.MassScanner.UrlTasks | scanners/xss_scanner_selenium.py:52-65 | the url's tasks are created, or `urlsplit` raises and nothing changes |
| SeleniumXss.MassScanner.NextUrl | scanners/xss_scanner_selenium.py:96-102 | the loop invariant holds over one more url, or the generator raised, or the scan hangs |
| SeleniumXss.MassScanner.CreateTasks | scanners/xss_scanner_selenium.py:95-102 | the awaited batches followed by the pending tasks are exactly the generated probes |
| SeleniumXss.MassScanner.InitialScan | scanners/xss_scanner_selenium.py:85-105 | every generated probe is awaited exactly once in batches of 10000 and a final remainder; the counters equal the responses and reflections of the awaited probes; a raising generator cancels the pending tasks; zero concurrency hangs exactly when a probe is created |
| SeleniumXss.MassScanner.ConfirmVulnerability | scanners/xss_scanner_selenium.py:107-121 | the url is appended to the confirmed list exactly when its page raised an alert |
| SeleniumXss.MassScanner.ConfirmVulnerabilities | scanners/xss_scanner_selenium.py:123-148 | candidate i goes to driver i mod min(concurrency, 5); every candidate is checked in order; every driver is quit once; zero concurrency with candidates raises |
| SeleniumXss.MassScanner.Run | scanners/xss_scanner_selenium.py:159-171 | the initial scan, then the confirmation phase only when it found candidates |
| SqlScanner.ProbeUrl | scanners/sql_scanner.py:32 | the probe is the url followed by the stripped payload, not encoded |
| SqlScanner.PerformRequest | scanners/sql_scanner.py:31-53 | success exactly when the body was read and the exchange took ten seconds or more; no error text exactly when the body was read; otherwise the exception's text; never raises |
| SqlScanner.HitIff | scanners/sql_scanner.py:136-141 | a task contributes its probe URL exactly when that URL answered slowly |
| SqlScanner.VulnerableUrls | scanners/sql_scanner.py:126-156 | a URL is reported exactly when it is the probe of some url and payload whose response was read and took ten seconds or more |
| SqlScanner.FailuresAreNotReported | scanners/sql_scanner.py:48-53 | a failed exchange is never reported and its error text is returned |
| SqlScanner.MainAsync | scanners/sql_scanner.py:116-159 | `total_scanned` is \|urls\|×\|payloads\|; the tasks are drained in batches of `threads*10` plus a remainder, each once; `vulnerable_urls` holds exactly the successful probes in task order; zero threads hang after one task is counted |
| LfiScanner.SuccessCriteria | scanners/lfi_scanner.py:176-177 | at least one criterion, each stripped and free of commas; a blank answer gives `['root:x:0:']` |
| LfiScanner.DefaultShape | scanners/lfi_scanner.py:177 | the default criterion is stripped and has no comma |
| LfiScanner.StrippedPieces | scanners/lfi_scanner.py:177 | the stripped comma-separated pieces of an answer: at least one, each stripped and comma-free |
| LfiScanner.CriteriaOfList | scanners/lfi_scanner.py:176-177 | a list of stripped, comma-free criteria typed joined by commas is read back as that very list |
| LfiScanner.CriteriaOfPieces | scanners/lfi_scanner.py:176-177 | a stripped answer whose pieces are already stripped is read as those pieces |
| LfiScanner.DoubleCommaFlagsEverything | scanners/lfi_scanner.py:176-177 | typing `x,,y` adds the empty criterion, and every body then counts as vulnerable |
| LfiScanner.ProbeUrl | scanners/lfi_scanner.py:32-33 | the probe is the url followed by `quote` of the stripped payload: only unreserved characters, `/` and `%` escapes follow the url |
| LfiScanner.TraversalProbe | scanners/lfi_scanner.py:32-33 | `../../etc/passwd`, with or without surrounding blanks, is appended unchanged |
| LfiScanner.PerformRequest | scanners/lfi_scanner.py:31-48 | vulnerable exactly when the body was read and contains one of the criteria; an exception gives not vulnerable with the same target URL |
| LfiScanner.PasswdFileIsVulnerable | scanners/lfi_scanner.py:44 | a `root:x:0:0:...` body is reported under the default criterion |
| LfiScanner.HitIff | scanners/lfi_scanner.py:132-134 | a task contributes its probe URL exactly when that URL's body matched |
| LfiScanner.VulnerableUrls | scanners/lfi_scanner.py:121-146 | a URL is reported exactly when it is the probe of some url and payload whose body matched a criterion |
| LfiScanner.MainAsync | scanners/lfi_scanner.py:111-148 | `total_scanned` is \|urls\|×\|payloads\|; the tasks are drained in batches of `threads*10` plus a remainder, each once; `vulnerable_urls` holds exactly the vulnerable probes in task order; zero threads hang after one task is counted |
| RedirectScanner.TargetUrl | scanners/or_scanner.py:77 | the page loaded is the url followed by the stripped payload, not encoded |
| RedirectScanner.ScanUrl | scanners/or_scanner.py:31-51 | `(True, target)` exactly when the browser ended exactly on `https://www.google.com/`; `(False, None)` for any other page, a timeout or another exception |
| RedirectScanner.VulnerableUrls | scanners/or_scanner.py:75-96 | a target is reported exactly when some url and payload led the browser to the redirect target |
| RedirectScanner.RedirectScan.constructor | scanners/or_scanner.py:67-73 | `max_threads` drivers are queued, none leased, nothing scheduled, batch size `max_threads*10` |
| RedirectScanner.RedirectScan.LeasesWhenExhausted | scanners/or_scanner.py:78 | with the queue empty some unfinished task holds a driver, unless the pool has none |
| RedirectScanner.RedirectScan.Submit | scanners/or_scanner.py:77-81 | the task is scheduled with a driver taken from the queue (after the oldest running task returns one when none is idle); no driver is held by two running tasks and at most `max_threads` are leased; an empty pool hangs |
| RedirectScanner.RedirectScan.Gather | scanners/or_scanner.py:84-92 | every task of the batch finishes and its callback puts its driver back, so all drivers are idle; the batch is handed over in submission order |
| RedirectScanner.RedirectScan.Teardown | scanners/or_scanner.py:98-100 | every driver is quit exactly once |
| RedirectScanner.GatherInto | scanners/or_scanner.py:84-89 | the batch's vulnerable targets are appended in submission order and counted one each |
| RedirectScanner.Step | scanners/or_scanner.py:76-89 | the batch grows by the task and is gathered once full; the gathered batches followed by the pending tasks are the tasks submitted |
| RedirectScanner.ScanRow | scanners/or_scanner.py:76-89 | the same for all the payloads of one url |
| RedirectScanner.Finish | scanners/or_scanner.py:91-100 | the remainder is gathered, the batching is closed, and every driver is quit once |
| RedirectScanner.TestOpenRedirect | scanners/or_scanner.py:53-103 | the url-major tasks are gathered in batches of `max_threads*10` plus a remainder; `vulnerable_urls` is exactly the vulnerable targets in submission order and `found_vulnerabilities` its length; every driver is quit once; zero threads hang at the first probe |
| RedirectScanner.Run | scanners/or_scanner.py:223-232 | the scan runs only when there are payloads; `total_scanned` is \|urls\|×\|payloads\| and `total_found` the number of reported targets |
| LibsCommon.NonBlank | libs/scanners/or_scanner.py:31 | no more items than lines, each stripped and non-empty |
| LibsCommon.NonBlankMembers | libs/scanners/or_scanner.py:31 | an item is listed exactly when it is the non-empty stripped form of some line |
| LibsCommon.NonBlankKeeps | libs/scanners/or_scanner.py:31 | lines that are already stripped and non-blank pass through unchanged and in order |
| LibsCommon.InputList | libs/scanners/or_scanner.py:27-44 | a given `-u` wins as a one-item list; else the non-blank lines of the `-U` file, or a failure when it cannot be opened; else nothing, and the scanner stops |
| LibsCommon.CollectFields | libs/scanners/or_scanner.py:47-58 | the header or cookie loop builds exactly the dictionary of its entries taken in order |
| LibsCommon.FieldsLastWins | libs/scanners/sql_scanner.py:48-59 | a key holds the stripped value of the last entry that defines it, whatever came before, the default `User-Agent` included |
| LibsCommon.PutOther | libs/scanners/lfi_scanner.py:55-57 | an entry that does not define a key leaves it as it was |
| LibsCommon.PutDefines | libs/scanners/lfi_scanner.py:55-57 | an entry with the separator sets its stripped key to its stripped value |
| LibsCommon.FieldsUntouched | libs/scanners/or_scanner.py:53-58 | a key no entry defines keeps its initial value or stays absent; entries without the separator change nothing |
| LibsCommon.HeaderValueKeepsColons | libs/scanners/or_scanner.py:50-52 | a header is split at its first `:` only, so the value may itself contain colons |
| LibsCommon.RandomUserAgent | libs/scanners/or_scanner.py:47-52 | without a `User-Agent` argument the random user agent is sent |
| LibsCommon.UserAgentOverride | libs/scanners/or_scanner.py:47-52 | the last `User-Agent:` argument replaces the random user agent |
| LibsCommon.Collected | libs/scanners/sql_scanner.py:89-90 | a result is collected exactly when the request returned a non-empty URL, and it is that URL |
| LibsCommon.ScanRow | libs/scanners/lfi_scanner.py:92-97 | each payload of a url is counted and performed in order; truthy results are appended and counted; a raising request ends the run |
| LibsCommon.ScanSequential | libs/scanners/lfi_scanner.py:90-97 | with at most one thread every pair is counted once and exactly the truthy results are collected in pair order; `total_found` is their number; it fails exactly when some request raises |
| LibsCommon.PairsIn | libs/scanners/lfi_scanner.py:91-92 | the row of each url belongs to the task list |
| LibsCommon.SubmitAll | libs/scanners/lfi_scanner.py:100-104 | every pair is submitted and counted once, in url-major order |
| LibsCommon.CollectResults | libs/scanners/lfi_scanner.py:105-109 | every future's truthy result is appended and counted; a future whose request raised re-raises |
| LibsCommon.ScanPooled | libs/scanners/lfi_scanner.py:98-109 | with a pool every pair is counted and the same results are collected as sequentially |
| LibsCommon.Scan | libs/scanners/sql_scanner.py:84-101 | sequential or pooled, every pair is counted once, exactly the truthy results are collected, and the run fails exactly when some request raises |
| LibsCommon.Reported | libs/scanners/sql_scanner.py:84-101 | a URL is reported exactly when some pair's request returned it and it is not empty |
| LibsCommon.AtMostOnePerPair | libs/scanners/or_scanner.py:89-106 | at most one URL per (url, payload) pair |
| LibsCommon.Request | libs/scanners/or_scanner.py:75-78 | `GET` requests the probe URL; any other method posts the form data to the plain url |
| LibsCommon.RunScanner | libs/scanners/or_scanner.py:19-106 | stops without a url or payload source, fails on an unopenable file, otherwise scans every pair with the headers and cookies built from the arguments; `total_found` is the number of URLs collected and `total_scanned` the number of pairs |
| LibsXss.FirstGoodIff | libs/scanners/xss_scanner.py:115-129 | the keys are tried in parse order and the result is the first trial URL whose response reflects the payload, provided every earlier request was answered without reflecting it; a failed request ends the search with `None` |
| LibsXss.PerformRequest | libs/scanners/xss_scanner.py:110-129 | the in-place substitute-request-reset loop returns exactly the first reflecting trial URL, `None` otherwise; a `urlparse` error escapes |
| LibsXss.TryParam | libs/scanners/xss_scanner.py:116-126 | one key is given the payload and requested; on a stop the result is the search's answer, otherwise the key holds its first original value again |
| LibsXss.NoParametersNoRequest | libs/scanners/xss_scanner.py:113-129 | a url without a non-blank query parameter makes no request and gives `None` |
| LibsXss.RunXssScanner | libs/scanners/xss_scanner.py:98-148 | the thread answer is validated to 0..10 (5 otherwise); every stripped pair is counted once and exactly the truthy results are collected; it fails exactly when some request raises |
| LibsOr.After | libs/scanners/or_scanner.py:70-85 | after key i is tried it holds its first original value when the request was answered and the payload when it raised; the other keys are untouched |
| LibsOr.Before | libs/scanners/or_scanner.py:69-85 | when key i is about to be tried the keys from i on are untouched and keep their order |
| LibsOr.BeforeValues | libs/scanners/or_scanner.py:69-85 | each earlier key holds its first original value when its request was answered and the payload when it raised |
| LibsOr.AnsweredRunResets | libs/scanners/or_scanner.py:84 | while every request is answered the tried keys are reset exactly as in the XSS scanner |
| LibsOr.FailureKeepsPayload | libs/scanners/or_scanner.py:84-86 | after a request raised, every later request still carries the payload in that key |
| LibsOr.FirstOfIff | libs/scanners/or_scanner.py:69-87 | the result is the URL of the first key whose answer is a 301 or 302 with a `Location` containing the payload; failed requests do not stop the search |
| LibsOr.PerformRequest | libs/scanners/or_scanner.py:66-87 | the in-place substitute-request-reset loop returns exactly the first redirecting trial URL (the substituted URL even for POST), `None` otherwise; a `urlparse` error escapes |
| LibsOr.TryParam | libs/scanners/or_scanner.py:70-86 | one key is given the payload and requested; it stops on a redirect to the payload, resets the key after any other answer, and leaves it after a raised request |
| LibsOr.RunOrScanner | libs/scanners/or_scanner.py:19-106 | the common run with the stripped url and the payload as given |
| LibsLfi.SuccessCriteria | libs/scanners/lfi_scanner.py:49 | at least one pattern, one per comma-separated piece |
| LibsLfi.CriteriaOfList | libs/scanners/lfi_scanner.py:49 | patterns written with commas between them come back one by one, stripped |
| LibsLfi.DefaultCriteria | libs/scanners/lfi_scanner.py:26 | the default is the single pattern `root:x:0:` |
| LibsLfi.LiteralPatterns | libs/scanners/lfi_scanner.py:80 | for plain-text patterns the regular-expression test is the substring test |
| LibsLfi.TargetUrl | libs/scanners/lfi_scanner.py:73-74 | the probe is the url followed by `quote` of the stripped payload |
| LibsLfi.TraversalTarget | libs/scanners/lfi_scanner.py:73-74 | a traversal payload read with its line ending keeps its slashes and dots |
| LibsLfi.ProbeIff | libs/scanners/lfi_scanner.py:72-88 | a probe never raises and returns exactly the probe URL when the answer (GET of the probe, or POST of `{payload.strip(): ''}` to the plain url) matches a pattern; `None` when it does not or the request raised |
| LibsLfi.RunLfiScanner | libs/scanners/lfi_scanner.py:20-109 | the common run with the pattern verdict; `total_found` always equals the number of URLs collected |
| LibsSql.TargetUrl | libs/scanners/sql_scanner.py:68 | the probe is the url followed by the payload exactly as given |
| LibsSql.ProbeIff | libs/scanners/sql_scanner.py:67-82 | a probe never raises and returns exactly the probe URL when the lower-cased answer shows one of the five error markers; `None` when it does not or the request raised |
| LibsSql.RunSqlScanner | libs/scanners/sql_scanner.py:84-101 | the common run with the error-marker verdict |
| Verdicts.SqlVerdictIgnoresCase | libs/scanners/sql_scanner.py:75 | a body and its lower-cased form get the same verdict |
| Verdicts.SqlMarkerInAnyCase | libs/scanners/sql_scanner.py:75 | a marker in any letter case is detected |
| Verdicts.EmptyCriterionMatchesEverything | scanners/lfi_scanner.py:44 | an empty criterion makes every body vulnerable |
| Verdicts.PasswdLineMatchesDefault | scanners/lfi_scanner.py:44 | the default criterion recognises the first line of `/etc/passwd` |
| Percent.Utf8 | scanners/lfi_scanner.py:32 | one to four bytes per character; ASCII is its own single byte |
| Percent.EscapeBytes | scanners/lfi_scanner.py:32 | three characters `%HH` per byte, upper-case hexadecimal |
| Percent.Escape | scanners/lfi_scanner.py:32 | a character outside the safe set becomes at least one `%HH` group |
| Percent.Quote | scanners/lfi_scanner.py:32 | `quote` output holds only unreserved characters, `/` and `%` escapes, and is never shorter than its input |
| Percent.QuotePlus | scanners/xss_scanner.py:56 | `quote_plus` output holds only unreserved characters, `+` and `%` escapes |
| Percent.QuoteAppend | libs/scanners/lfi_scanner.py:73 | `quote` works character by character, so it distributes over concatenation |
| Percent.QuotePlusAppend | scanners/xss_scanner.py:56 | the same for `quote_plus` |
| Percent.QuoteIdentityIff | scanners/lfi_scanner.py:32 | `quote` changes nothing exactly when every character is unreserved or `/` |
| Percent.QuotePlusIdentityIff | scanners/xss_scanner.py:56 | `quote_plus` changes nothing exactly when every character is unreserved |
| Percent.QuoteTraversalPayload | scanners/lfi_scanner.py:32-33 | `quote("../../etc/passwd")` is unchanged |
| Percent.QuotePlusColon | scanners/xss_scanner.py:56 | a colon in a query value is sent as `%3A` |
| Query.PlusToSpace | scanners/xss_scanner.py:52 | turning `+` into a space keeps the length of a query name or value |
| Query.FieldPair | scanners/xss_scanner.py:52 | a query field is split at its first `=`; it is dropped when empty, or when its value is blank and blanks are not kept |
| Query.BlankField | libs/scanners/xss_scanner.py:114 | a name without `=`, or with nothing after it, is kept only when blank values are kept |
| Query.DroppingBlanksKeepsTheRest | libs/scanners/xss_scanner.py:114 | every pair read without blank values is also read with them |
| Query.InsertValues | scanners/xss_scanner.py:52 | adding a value appends it to its key's list and leaves every other list alone |
| Query.InsertKeySet | scanners/xss_scanner.py:52 | adding a value adds its key to the keys, and nothing else |
| Query.InsertWellFormed | scanners/xss_scanner.py:52 | adding a value keeps the keys distinct and every list non-empty |
| Query.GroupIntoWellFormed | scanners/xss_scanner.py:52 | grouping pairs into a dictionary with distinct keys and non-empty lists keeps it so |
| Query.GroupIntoValues | scanners/xss_scanner.py:52 | the list of a key is the values paired with it, in order |
| Query.ParseQsValues | scanners/xss_scanner_selenium.py:56 | `parse_qs` gives distinct keys, each with at least one value, and each key's list is exactly its values in order of appearance |
| Query.AssignValues | scanners/xss_scanner_selenium.py:62 | `d[k] = vs` gives `k` the list vs and leaves every other key's list alone |
| Query.AssignSameKeys | libs/scanners/xss_scanner.py:117 | assigning a present key keeps the key order |
| Query.AssignNonEmpty | libs/scanners/xss_scanner.py:117 | assigning a non-empty list keeps every list non-empty |
| Query.AssignKeys | libs/scanners/xss_scanner.py:117-126 | assigning a present key keeps the key order, the length and well-formedness |
| Query.ValuesAtIndex | libs/scanners/xss_scanner.py:116 | with distinct keys, the lookup of a key finds that entry's list |
| Query.AssignAt | libs/scanners/xss_scanner.py:117-126 | with distinct keys, assigning the key at position i replaces that entry in place and nothing else |
| Query.DecodeEncodedPair | scanners/xss_scanner.py:56 | one `name=value` piece that `urlencode` wrote is read back as its pair |
| Query.DecodeEncodedPairs | scanners/xss_scanner.py:56 | the pieces that `urlencode` wrote are read back as their pairs |
| Query.ParseEncodedPairs | scanners/xss_scanner.py:56 | splitting an encoded query at `&` gives back its pairs |
| Query.EncodePairNoAmpersand | scanners/xss_scanner.py:56 | an encoded pair holds no `&` |
| Query.QuotePlusNoAmpersand | scanners/xss_scanner.py:56 | `quote_plus` never produces `&` |
| Query.InsertFresh | scanners/xss_scanner.py:52 | a new key is added at the end with a one-value list |
| Query.InsertLast | scanners/xss_scanner.py:52 | a value for the last key is appended to its list |
| Query.GroupIntoAppend | scanners/xss_scanner.py:52 | grouping two runs of pairs is grouping the first and then the second |
| Query.GroupFlat | scanners/xss_scanner.py:52-56 | grouping what `urlencode` emits for a dictionary rebuilds that dictionary |
| Query.ParseQsUrlencode | scanners/xss_scanner.py:52-56 | `parse_qs(urlencode(d, doseq=True), keep_blank_values=True)` is d itself, key order included |
| Query.SubstitutedQueryParses | scanners/xss_scanner_selenium.py:61-63 | the probe query reads back with the same keys in the same order, the chosen key holding only the payload and every other key all its values |
| Substitution.SchemeOf | scanners/xss_scanner_selenium.py:54-55 | the probe scheme is never empty: the url's own, or `http` |
| Substitution.SubstitutedUrlParses | scanners/xss_scanner.py:49-57 | splitting a probe again gives the url's netloc, path and fragment, a non-empty scheme, and a query with the url's keys in order, only the chosen key changed to the payload |
| Reprobe.Reset | libs/scanners/xss_scanner.py:115-126 | the dictionary before key i is tried keeps its keys and their order |
| Reprobe.Trial | libs/scanners/xss_scanner.py:117-118 | the dictionary of the request for key i keeps its keys and their order |
| Reprobe.Substitute | libs/scanners/xss_scanner.py:117 | `query_params[param] = payload` on the reset dictionary gives the trial dictionary |
| Reprobe.SetBack | libs/scanners/xss_scanner.py:126 | setting the key back to its first original value gives the reset dictionary of the next key |
| Reprobe.TrialReads | libs/scanners/xss_scanner.py:115-126 | the server reads the url's keys in order: key i holds only the payload, earlier keys their first original value and later keys all their values, so the payload is in exactly one parameter |
| Text.Strip | utils.py:85 | `str.strip()`: the result has no leading or trailing whitespace and is no longer than its input |
| Text.StripOfPadded | utils.py:85 | stripping a stripped text with whitespace around it gives the text back |
| Text.StripIdempotent | utils.py:85 | stripping twice is stripping once |
| Text.StripStripped | utils.py:85 | a text with no whitespace at either end is its own `strip()` |
| Text.StripBlank | main.py:98 | a blank text strips to nothing |
| Text.StripEmpty | main.py:98 | `strip()` leaves nothing only of a blank text, so `if url.strip()` drops exactly the blank pieces |
| Text.StripKeeps | main.py:98 | `strip()` introduces no character |
| Text.StripEach | main.py:98 | `[p.strip() for p in parts]` keeps the number and order of pieces |
| Text.StripEachStripped | utils.py:85 | stripping already stripped pieces leaves them alone |
| Text.IndexOf | libs/scanners/or_scanner.py:50 | the first position of a character, or the length when it does not occur |
| Text.Split | main.py:98 | `str.split(sep)`: pieces without the separator, one more than the separators |
| Text.JoinSplit | main.py:98 | joining the pieces with the separator gives the text back |
| Text.SplitJoin | main.py:98 | splitting a join of separator-free pieces gives the pieces back |
| Text.SplitOnce | libs/scanners/or_scanner.py:50 | `split(sep, 1)`: present exactly when the separator occurs; the key has no separator and key, separator and value rebuild the entry |
| Text.SplitOnceOf | libs/scanners/or_scanner.py:50 | an entry whose key has no separator splits into that key and the rest |
| Text.Lower | libs/scanners/sql_scanner.py:75 | `lower()` keeps the length and lower-cases each character |
| Text.ContainsIff | scanners/xss_scanner_selenium.py:77 | `in` on strings holds exactly when the pattern occurs at some position |
| Text.ContainsEmpty | scanners/lfi_scanner.py:44 | the empty string is in every string, so an empty criterion matches every response |
| Text.ContainsLower | libs/scanners/sql_scanner.py:75 | a text containing a pattern, lower-cased, contains the lower-cased pattern |
| Text.ParseInt | main.py:108 | `int()`: a run of ASCII digits reads as its decimal value, and the empty text raises |
| Text.NatToString | scanners/sql_scanner.py:192 | the decimal spelling of a number passes `isdigit()` |
| Text.NatToStringValue | scanners/sql_scanner.py:192 | the decimal spelling of a number reads back as that number, so every thread count can be typed |
| Drain.Row | scanners/sql_scanner.py:127 | one task per payload, in order, all for the same url |
| Drain.PairsLength | scanners/sql_scanner.py:126-128 | \|urls\|×\|payloads\| tasks are submitted |
| Drain.PairsAt | scanners/sql_scanner.py:126-127 | the task for url i and payload j is number i·\|payloads\|+j (url-major order) |
| Drain.PairsMembers | scanners/lfi_scanner.py:121-122 | the tasks are exactly the (url, payload) combinations |
| Drain.FoundMembers | scanners/sql_scanner.py:136-141 | a value is collected exactly when some result is a positive carrying it: only positives, and every positive |
| Drain.FoundPairs | scanners/lfi_scanner.py:121-148 | a value is collected exactly when some (url, payload) combination yields it |
| Drain.FoundLength | scanners/sql_scanner.py:136-141 | never more positives than results |
| Drain.FoundAppend | scanners/sql_scanner.py:132-156 | the positives of two task lists are those of the first followed by those of the second |
| Drain.ConcatMembers | scanners/xss_scanner.py:103-104 | nested generator loops yield an item exactly when one inner loop yields it |
| Drain.ConcatEmpty | scanners/xss_scanner.py:103-104 | nested loops yield nothing exactly when every inner loop yields nothing |
| Drain.ConcatGrows | scanners/xss_scanner.py:103-104 | what the first i outer items yield is a prefix of what all of them yield |
| Drain.BatchCount | scanners/sql_scanner.py:132-159 | batches are all full but the last, so their number is the task count divided by the batch size, rounded up |
| Drain.BatchingClose | scanners/sql_scanner.py:147-148 | draining a non-empty remainder completes the batching; an empty one is not drained |
| Drain.DrainBatch | scanners/sql_scanner.py:133-145 | every task of a batch is awaited once and exactly its positives are appended |
| Drain.DrainInto | scanners/lfi_scanner.py:127-140 | the drained batches grow by the queue, and the positives collected are those of all drained batches |
| Drain.Submit | scanners/sql_scanner.py:128-145 | one submission keeps every drained batch full and fewer than the batch size waiting; drained batches followed by the queue are the tasks submitted |
| Drain.DrainPairs | scanners/sql_scanner.py:123-159 | every (url, payload) task is counted and awaited exactly once, in full batches of `threads*10` and a final remainder; exactly the positives are collected, in order; zero threads hang after the first task is counted |
| Threads.BoundedRange | scanners/sql_scanner.py:191-192 | the thread count is the default, or a number within the range that the stripped answer spells in digits |
| Threads.BoundedAccepts | scanners/lfi_scanner.py:179-180 | every number within the range, with or without surrounding blanks, is taken as typed |
| Threads.BoundedRejects | scanners/or_scanner.py:197-198 | an answer that is not all digits gives the default |
| Threads.ConcurrencyRanges | scanners/xss_scanner_selenium.py:240-241 | the Selenium concurrency is always within 1..1000; the browser XSS and redirect counts are at most 100, the asynchronous scanners' at most 1000, and the request-based XSS scanner's at most 10 |
| Threads.ZeroAccepted | scanners/xss_scanner.py:209-210 | a typed `0` gives 50 to the Selenium scanner and 0 to the browser XSS, redirect, SQL, LFI and request-based XSS scanners |
| Pool.Ids | scanners/xss_scanner.py:93 | the drivers `range(n)` creates are exactly the numbers below n |
| Pool.DriverPool.constructor | scanners/xss_scanner.py:93-96 | n drivers are created and queued in creation order; none is leased or quit; every driver is in exactly one place |
| Pool.DriverPool.Get | scanners/xss_scanner.py:64 | the head of the queue is leased and leaves the queue; free, leased and quit stay disjoint and cover the pool |
| Pool.DriverPool.Put | scanners/xss_scanner.py:79-80 | a leased driver goes to the back of the queue and is no longer leased |
| Pool.DriverPool.QuitAll | scanners/xss_scanner.py:116-118 | every queued driver is quit once, in queue order; with no lease outstanding that is each of the n drivers exactly once |
| Pool.IdleCount | scanners/or_scanner.py:98-100 | a queue without repeats holding exactly the pool's drivers holds n of them |
| Pool.RemoveAt | scanners/or_scanner.py:98-100 | removing one entry of a list without repeats removes exactly that driver |
| Pool.LeaseCount | scanners/or_scanner.py:78-80 | the idle drivers and those leased by running tasks together are the whole pool, so leases never outnumber the drivers |

## Left out

- Network, browser, file system and clock are parameters:
  - the aiohttp and requests exchanges (a url to a status, headers, body and elapsed time, or a failure);
  - the Selenium page loads and alerts;
  - the contents of files;
  - the draw of `random.choice`.
  Timeouts, retries and the wait of `WebDriverWait` live inside those parameters.
- Elapsed times are exact real numbers compared with 10. Floating-point rounding of the clock, and the elapsed-time summaries, are not modelled.
- Concurrency is not modelled:
  - Semaphores, `create_task`, `gather`, `as_completed` and `ThreadPoolExecutor` are modelled as a sequential drain.
  - Results are kept in submission order. `as_completed` in the SQL and LFI scanners, and the tasks of the browser XSS scanners, may yield another order of the same batch.
  - A scan that would block forever is reported as `hung` and not run further.
- `urlsplit`, `urlparse`, `urlunsplit`, `urlunparse` and `unquote` are parameters (`Urls.UrlLib`). The round-trip lemmas take what they need of them as preconditions: splitting a joined URL gives its parts back, and `unquote` undoes `quote_plus`. Version-specific details of Python's serialiser, such as the `//` that `urlunsplit` adds for schemes in `uses_netloc` with an empty authority, stay inside the parameter.
- The regular-expression engine behind `re.search` in `libs/scanners/lfi_scanner.py` is a parameter. An invalid pattern raising `re.error` is not modelled.
- `str.lower()` and `str.isdigit()` are modelled on ASCII only. Unicode case mapping is out of scope. So are Unicode digits such as `²`, which pass `isdigit()` but make `int()` raise.
- Text.ParseInt: does not model the underscores, surrounding whitespace and Unicode digits that Python's `int()` also accepts. Its contract gives the value of plain digit strings only.
- Negative thread counts are not modelled (`Semaphore` raises before any probe). Thread counts are natural numbers.
- Utils.OptimalThreads: an undetermined core count (`None // 2` raises `TypeError`) is modelled as an absent result.
- argparse, the prompts' re-ask loops, `clear_screen`, the banner and menu display, and all printing are not modelled. Saving results to files is not modelled either.
- The menu loop of `main.py` runs forever. One pass of it is modelled (`Frontend.DispatchPrompted`).
- The scanners' own input acquisition is not modelled: their prompts, the coercion of a string or file path into a list, and the `sys.exit` on empty lists (for example `scanners/sql_scanner.py:165-213`). Their url and payload lists are parameters.
- An `os.path.isfile` path that cannot be opened raises an error. This is not modelled: a readable file is one the file-system parameter returns contents for.
- Files are split at `\n` only. Universal-newline translation of `\r\n` and `\r` is not modelled.
- `read_file_lines` returns a single-pass generator. Iterating it twice on the interactive paths sees nothing the second time. The model takes finite lists, which is what `main.py` passes.
- `KeyboardInterrupt` handling and the partial summary after it are not modelled.
- The updater (`updater.py`, `libs/update.py`) and package installation are not part of this model.
- `lostsec.py`, `libs/argument_parser.py`, `libs/utils.py` and `libs/requests_helper.py` are not part of this model. They wire the menu, configure argparse, display output and wrap a retrying session. Their user agent is a parameter of the request-based scanners.
- The display-only payload stripping in `scanners/sql_scanner.py:135-138` and `150-153` only changes printed text and is not modelled.
- In the request-based scanners, an exchange either answers or raises `RequestException`. Other exceptions from `requests` or from the response are not modelled. A `ValueError` from `urlparse` is modelled: it ends the run as `Crashed`.
- Response header names are given in lower case. This is how the model renders the case-insensitive lookup of `'Location'` in `requests`. Repeated header fields are not modelled.
