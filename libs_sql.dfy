/**
  * The command-line error-based SQL injection scanner of
  * `libs/scanners/sql_scanner.py`: each probe is the url followed by the
  * payload exactly as given, and a probe is reported when the lower-cased
  * response body shows a database error marker.
  */
module LibsSql {
  import opened Wrappers
  import opened Text
  import opened Verdicts
  import opened Drain
  import opened LibsCommon

  /** The probe URL: `f"{url}{payload}"`, neither stripped nor encoded. */
  function TargetUrl(url: string, payload: string): (r: string)
    ensures |r| == |url| + |payload| && IsPrefix(url, r) && r[|url|..] == payload
  {
    url + payload
  }

  /**
    * `perform_request(url, payload)`: GET of the probe URL, or POST of
    * `{payload.strip(): ''}` to the plain url; the probe URL is returned when
    * the answer shows an error marker, and `None` when it does not or the request raised.
    */
  function Probe(s: Session, url: string, payload: string): Attempt {
    var target := TargetUrl(url, payload);
    match Request(s, target, url, map[Strip(payload) := []])
    case RequestFailed(_) => Returned(None)
    case Responded(reply) => if ShowsSqlError(reply.body) then Returned(Some(target)) else Returned(None)
  }

  /** A probe never raises, and returns a URL exactly when the answer to it shows an error marker: the probe URL. */
  lemma ProbeIff(s: Session, url: string, payload: string, u: string)
    ensures Probe(s, url, payload).Returned?
    ensures Probe(s, url, payload) == Returned(Some(u)) <==>
      var answer := Request(s, TargetUrl(url, payload), url, map[Strip(payload) := []]);
      u == TargetUrl(url, payload) && answer.Responded? && ShowsSqlError(answer.reply.body)
  {
  }

  /** `perform_request(url.strip(), payload)`. */
  function Perform(s: Session): Task -> Attempt {
    (t: Task) => Probe(s, Strip(t.url), t.payload)
  }

  /** `run_sql_scanner`. */
  method RunSqlScanner(a: Args, read: string -> Option<seq<string>>, userAgent: string, http: Session)
    returns (run: Run)
    ensures InputList(a.url, a.urlFile, read).Missing? ==> run == NoUrl
    ensures InputList(a.url, a.urlFile, read).Unopenable? ==> run == Crashed
    ensures InputList(a.url, a.urlFile, read).Given? && InputList(a.payload, a.payloadFile, read).Missing? ==> run == NoPayload
    ensures InputList(a.url, a.urlFile, read).Given? && InputList(a.payload, a.payloadFile, read).Unopenable? ==> run == Crashed
    ensures InputList(a.url, a.urlFile, read).Given? && InputList(a.payload, a.payloadFile, read).Given? ==>
      var ts := Pairs(InputList(a.url, a.urlFile, read).items, InputList(a.payload, a.payloadFile, read).items);
      var perform := Perform(SessionOf(a, userAgent, http));
      (run.Crashed? <==> AnyRaised(ts, perform)) &&
      (!run.Crashed? ==> run == Finished(|Found(ts, Hit(perform))|, |ts|, Found(ts, Hit(perform))))
  {
    run := RunScanner(a, read, userAgent, http, Perform);
  }
}
