/**
  * What comes back from the network or the browser, as data, and the rules
  * each scanner applies to it to call a probe vulnerable.
  */
module Verdicts {
  import opened Text

  /**
    * An HTTP response: status code, header fields (names lower-cased, since
    * field names are case-insensitive by section 5.1 of RFC 9110), body text
    * and the seconds elapsed until the body had been read.
    */
  datatype Reply = Reply(status: int, headers: map<string, string>, body: string, elapsed: real)

  /** An aiohttp exchange: no response at all, a response whose body could not be read, or a full reply. */
  datatype Exchange = Unreachable(error: string) | Unreadable(error: string) | Fetched(reply: Reply)

  /** A `requests` call: it raised a `RequestException`, or it returned a response. */
  datatype Response = RequestFailed(error: string) | Responded(reply: Reply)

  /** A browser navigation: it raised, or it ended on some page, possibly with a JavaScript alert open. */
  datatype Visit = LoadFailed(error: string) | Loaded(currentUrl: string, alertShown: bool)

  /** Reflected cross-site scripting: the raw payload appears in the body. */
  predicate Reflected(payload: string, body: string) {
    Contains(body, payload)
  }

  /** Python's `any(c in body for c in criteria)`. */
  predicate MatchesAny(criteria: seq<string>, body: string) {
    exists i :: 0 <= i < |criteria| && Contains(body, criteria[i])
  }

  const SqlErrorMarkers: seq<string> := ["sql syntax", "warning", "mysql_fetch", "odbc", "mysqli"]

  /** Error-based SQL injection: a database error marker in the lower-cased body. */
  predicate ShowsSqlError(body: string) {
    MatchesAny(SqlErrorMarkers, Lower(body))
  }

  /** Time-based SQL injection: the response took at least ten seconds. */
  predicate IsSlow(elapsed: real) {
    elapsed >= 10.0
  }

  /**
    * Open redirect by status: a 301 or 302 (sections 15.4.2 and 15.4.3 of
    * RFC 9110) whose `Location` field (section 10.2.2) contains the payload.
    */
  predicate RedirectsToPayload(reply: Reply, payload: string) {
    (reply.status == 301 || reply.status == 302) && "location" in reply.headers && Contains(reply.headers["location"], payload)
  }

  /** The page the open-redirect payloads point the browser at. */
  const RedirectTarget: string := "https://www.google.com/"

  /** Open redirect by browser: the navigation ended exactly on the target page. */
  predicate LandedOnTarget(visit: Visit) {
    visit.Loaded? && visit.currentUrl == RedirectTarget
  }

  /** An alert was shown (and accepted) after the page loaded. */
  predicate AlertFired(visit: Visit) {
    visit.Loaded? && visit.alertShown
  }

  /** The marker check ignores case: a body and its lower-cased form get the same verdict. */
  lemma SqlVerdictIgnoresCase(body: string)
    ensures ShowsSqlError(body) <==> ShowsSqlError(Lower(body))
  {
    assert Lower(Lower(body)) == Lower(body) by {
      assert forall i :: 0 <= i < |body| ==> LowerChar(LowerChar(body[i])) == LowerChar(body[i]);
    }
  }

  /** A marker in any letter case, such as `You have an error in your SQL syntax`, is detected. */
  lemma SqlMarkerInAnyCase(body: string, spelled: string, i: nat)
    requires i < |SqlErrorMarkers| && Lower(spelled) == SqlErrorMarkers[i]
    requires Contains(body, spelled)
    ensures ShowsSqlError(body)
  {
    ContainsLower(body, spelled);
    assert Contains(Lower(body), SqlErrorMarkers[i]);
  }

  /** An empty criterion is a substring of every body, so it makes every probe vulnerable. */
  lemma EmptyCriterionMatchesEverything(criteria: seq<string>, body: string)
    requires "" in criteria
    ensures MatchesAny(criteria, body)
  {
    var i :| 0 <= i < |criteria| && criteria[i] == "";
    ContainsEmpty(body);
  }

  /** The default LFI criterion recognises the first line of `/etc/passwd`. */
  lemma PasswdLineMatchesDefault()
    ensures MatchesAny(["root:x:0:"], "root:x:0:0:root:/root:/bin/bash")
  {
    var body := "root:x:0:0:root:/root:/bin/bash";
    var criteria := ["root:x:0:"];
    assert IsPrefix(criteria[0], body);
    assert Contains(body, criteria[0]);
  }
}
