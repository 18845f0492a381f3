/**
  * The helpers of `utils.py` that compute something: the random
  * `User-Agent` choice, the lines a file yields, and the thread count
  * derived from the machine's cores and free memory.
  */
module Utils {
  import opened Wrappers
  import opened Text

  // ---------------------------------------------------------------- user agents

  /** The browser identities a scanner's requests pretend to come from. */
  const UserAgents: seq<string> := [
    "Mozilla/5.0 (Windows NT 10.0; Win64; x64) AppleWebKit/537.36 (KHTML, like Gecko) Chrome/91.0.4472.124 Safari/537.36",
    "Mozilla/5.0 (Macintosh; Intel Mac OS X 10_15_7) AppleWebKit/537.36 (KHTML, like Gecko) Version/14.1.2 Safari/537.36",
    "Mozilla/5.0 (Windows NT 10.0; Win64; x64) AppleWebKit/537.36 (KHTML, like Gecko) Edge/91.0.864.70",
    "Mozilla/5.0 (Windows NT 10.0; Win64; x64) AppleWebKit/537.36 (KHTML, like Gecko) Firefox/89.0",
    "Mozilla/5.0 (Windows NT 10.0; Win64; x64; rv:91.0) Gecko/20100101 Firefox/91.0",
    "Mozilla/5.0 (Macintosh; Intel Mac OS X 10.15; rv:91.0) Gecko/20100101 Firefox/91.0",
    "Mozilla/5.0 (Linux; Android 10; SM-G973F) AppleWebKit/537.36 (KHTML, like Gecko) Chrome/91.0.4472.120 Mobile Safari/537.36",
    "Mozilla/5.0 (Linux; Android 11; Pixel 5) AppleWebKit/537.36 (KHTML, like Gecko) Chrome/91.0.4472.77 Mobile Safari/537.36"
  ]

  /** `get_random_user_agent()`: the random draw is the parameter `draw`. */
  function RandomUserAgent(draw: nat): (ua: string)
    ensures ua in UserAgents
  {
    UserAgents[draw % |UserAgents|]
  }

  /** Every identity of the list is the outcome of some draw. */
  lemma EveryUserAgentDrawn(ua: string)
    requires ua in UserAgents
    ensures exists draw: nat :: RandomUserAgent(draw) == ua
  {
    var n := |UserAgents|;
    var i :| 0 <= i < n && UserAgents[i] == ua;
    assert i % n == i;
    assert RandomUserAgent(i) == ua;
  }

  // ---------------------------------------------------------------- file lines

  /**
    * The lines iterating over a text file gives, each without its `\n`
    * (which `strip()` removes anyway): a final `\n` ends the last line
    * rather than starting an empty one.
    */
  function FileLines(content: string): (r: seq<string>)
    ensures forall k :: 0 <= k < |r| ==> '\n' !in r[k]
    ensures content == [] <==> r == []
  {
    if content == [] then []
    else
      var parts := Split(content, '\n');
      if parts[|parts| - 1] == [] then
        assert parts[0] != [] || |parts| > 1 by {
          if |parts| == 1 {
            JoinSplit(content, '\n');
          }
        }
        parts[..|parts| - 1]
      else parts
  }

  /** A file holding `lines`, each followed by `\n`. */
  function Terminated(lines: seq<string>): string {
    if lines == [] then [] else lines[0] + "\n" + Terminated(lines[1..])
  }

  /** Splitting a file of terminated lines at `\n` gives the lines and one empty piece after the last `\n`. */
  lemma {:induction false} SplitTerminated(lines: seq<string>)
    requires forall k :: 0 <= k < |lines| ==> '\n' !in lines[k]
    ensures Split(Terminated(lines), '\n') == lines + [[]]
    decreases |lines|
  {
    if lines == [] {
      assert IndexOf([], '\n') == 0;
    } else {
      var first, rest := lines[0], Terminated(lines[1..]);
      var s := first + "\n" + rest;
      assert s == Terminated(lines);
      IndexOfAfterPrefix(first, '\n', rest);
      assert s[|first| + 1..] == rest;
      assert s[..|first|] == first;
      SplitTerminated(lines[1..]);
      assert Split(s, '\n') == [first] + Split(rest, '\n');
      assert lines == [first] + lines[1..];
    }
  }

  /** `read_file_lines(path)`: one stripped string per line of the file, in order, blank lines included. */
  function ReadFileLines(content: string): (r: seq<string>)
    ensures |r| == |FileLines(content)|
    ensures forall k :: 0 <= k < |r| ==> IsStripped(r[k])
  {
    StripEach(FileLines(content))
  }

  /**
    * Reading back a file of terminated lines gives each line stripped, in
    * order; a blank line gives an empty string and is not dropped.
    */
  lemma ReadWrittenLines(lines: seq<string>)
    requires forall k :: 0 <= k < |lines| ==> '\n' !in lines[k]
    ensures ReadFileLines(Terminated(lines)) == StripEach(lines)
    ensures forall k :: 0 <= k < |lines| && AllSpace(lines[k]) ==> ReadFileLines(Terminated(lines))[k] == []
  {
    SplitTerminated(lines);
    if lines != [] {
      assert Terminated(lines) != [];
      assert (lines + [[]])[..|lines|] == lines;
    }
    forall k | 0 <= k < |lines| && AllSpace(lines[k])
      ensures Strip(lines[k]) == []
    {
      StripBlank(lines[k]);
    }
  }

  // ---------------------------------------------------------------- thread count

  /** 512 MiB, the free memory below which fewer threads are used. */
  const LowMemoryBytes: nat := 512 * 1024 * 1024

  /**
    * `get_optimal_threads(max_threads)`: half the logical cores (at least
    * one) when less than 512 MiB is free, else `max_threads` capped by the
    * cores. `cpuCount` is `None` when the count cannot be determined, and the
    * arithmetic on it then raises (`None` here). Comparing the free bytes
    * with 512 MiB is the comparison of the megabyte figure with 512.
    */
  function OptimalThreads(cpuCount: Option<nat>, availableBytes: nat, maxThreads: int): (r: Option<int>)
    ensures r.Some? <==> cpuCount.Some?
    ensures cpuCount.Some? && availableBytes < LowMemoryBytes ==> r.value >= 1
    ensures cpuCount.Some? && availableBytes < LowMemoryBytes && cpuCount.value >= 2 ==>
      2 * r.value <= cpuCount.value < 2 * r.value + 2
    ensures cpuCount.Some? && availableBytes >= LowMemoryBytes ==>
      r.value <= maxThreads && r.value <= cpuCount.value && (r.value == maxThreads || r.value == cpuCount.value)
    ensures cpuCount.Some? && cpuCount.value >= 1 ==> r.value <= cpuCount.value
    ensures cpuCount.Some? && cpuCount.value >= 1 && maxThreads >= 1 ==> r.value >= 1
  {
    match cpuCount
    case None => None
    case Some(cpu) =>
      if availableBytes < LowMemoryBytes then Some(if cpu / 2 > 1 then cpu / 2 else 1)
      else Some(if maxThreads < cpu then maxThreads else cpu)
  }
}
