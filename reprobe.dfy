/**
  * The substitute-and-reset loop of the two `requests`-based query scanners:
  * the query is read with `parse_qs` (blank values dropped), each key in turn
  * is given the payload as its only value, the query is re-encoded with
  * `urlencode(..., doseq=True)` and the url put back together with
  * `urlunparse`; after a request that did not succeed the key is set back to
  * its first original value.
  */
module Reprobe {
  import opened Urls
  import opened Query

  /** The query of a url as `parse_qs(query)` reads it: blank values dropped. */
  function QueryParams(lib: UrlLib, parts: ParseResult): Params {
    ParseQs(parts.query, false, lib.unquote)
  }

  /**
    * The dictionary when key `i` is about to be tried and every earlier key
    * was set back: those hold their first original value only, the rest are
    * untouched.
    */
  function Reset(ps: Params, i: nat): (r: Params)
    requires WellFormed(ps)
    ensures |r| == |ps| && Keys(r) == Keys(ps)
  {
    seq(|ps|, j requires 0 <= j < |ps| => if j < i then Field(ps[j].key, [ps[j].values[0]]) else ps[j])
  }

  /** The dictionary of the request for key `i`: `Reset(ps, i)` with the payload as the only value of key `i`. */
  function Trial(ps: Params, i: nat, payload: string): (r: Params)
    requires WellFormed(ps) && i < |ps|
    ensures |r| == |ps| && Keys(r) == Keys(ps)
  {
    Reset(ps, i)[i := Field(ps[i].key, [payload])]
  }

  /** `urlunparse` of the url's components with the re-encoded dictionary `c` as its query. */
  function Rebuilt(lib: UrlLib, parts: ParseResult, c: Params): string {
    lib.urlunparse(parts.(query := Urlencode(c)))
  }

  /** Setting key `i` of `Reset(ps, i)` to the payload, as `query_params[param] = payload` does, gives the trial. */
  lemma Substitute(ps: Params, i: nat, payload: string)
    requires WellFormed(ps) && i < |ps|
    ensures Assign(Reset(ps, i), ps[i].key, [payload]) == Trial(ps, i, payload)
  {
    var r := Reset(ps, i);
    assert r[i].key == ps[i].key;
    assert DistinctKeys(r) by {
      assert forall j :: 0 <= j < |r| ==> r[j].key == Keys(ps)[j];
    }
    AssignAt(r, i, [payload]);
  }

  /** Setting key `i` of the trial back to its first original value gives `Reset(ps, i + 1)`. */
  lemma SetBack(ps: Params, i: nat, payload: string)
    requires WellFormed(ps) && i < |ps|
    ensures Assign(Trial(ps, i, payload), ps[i].key, [ps[i].values[0]]) == Reset(ps, i + 1)
  {
    var t := Trial(ps, i, payload);
    assert DistinctKeys(t) by {
      assert forall j :: 0 <= j < |t| ==> t[j].key == Keys(ps)[j];
    }
    assert t[i].key == ps[i].key;
    AssignAt(t, i, [ps[i].values[0]]);
  }

  /**
    * What the server reads from the query of the request for key `i`: the
    * url's keys in their order, key `i` holding only the payload, the keys
    * before it only their first original value and the keys after it all
    * their original values. The payload is therefore in exactly one
    * parameter of each request.
    */
  lemma TrialReads(ps: Params, i: nat, payload: string, unquote: string -> string, j: nat)
    requires InvertsQuotePlus(unquote)
    requires WellFormed(ps) && i < |ps| && j < |ps|
    ensures Keys(ParseQs(Urlencode(Trial(ps, i, payload)), true, unquote)) == Keys(ps)
    ensures ValuesAt(ParseQs(Urlencode(Trial(ps, i, payload)), true, unquote), ps[j].key) ==
      if j == i then [payload] else if j < i then [ps[j].values[0]] else ps[j].values
  {
    var t := Trial(ps, i, payload);
    assert WellFormed(t) by {
      assert forall k :: 0 <= k < |t| ==> t[k].key == Keys(ps)[k];
    }
    ParseQsUrlencode(t, unquote);
    assert t[j].key == ps[j].key;
    ValuesAtIndex(t, j);
  }
}
