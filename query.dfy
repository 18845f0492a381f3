/**
  * The query-string layer of `urllib.parse` that the scanners rely on:
  * `parse_qsl`/`parse_qs` (split at `&`, first `=` separates name and value,
  * `+` means space, blank values kept or dropped on request), the ordered
  * dictionary they build, assignment of one key in that dictionary, and
  * `urlencode(..., doseq=True)` (application/x-www-form-urlencoded
  * serialisation, section 5 of the WHATWG URL Standard, with `quote_plus`).
  * Percent-decoding itself (`unquote`) is a parameter of the model.
  */
module Query {
  import opened Wrappers
  import opened Text
  import opened Percent

  /** One entry of the dictionary `parse_qs` builds: a key and its values in order of appearance. */
  datatype Field = Field(key: string, values: seq<string>)

  /** A Python dict of lists: entries in insertion order. */
  type Params = seq<Field>

  function Keys(ps: Params): (ks: seq<string>)
    ensures |ks| == |ps|
    ensures forall i :: 0 <= i < |ps| ==> ks[i] == ps[i].key
  {
    seq(|ps|, i requires 0 <= i < |ps| => ps[i].key)
  }

  predicate DistinctKeys(ps: Params) {
    forall i, j :: 0 <= i < j < |ps| ==> ps[i].key != ps[j].key
  }

  /** What `parse_qs` ever produces: distinct keys, each with at least one value. */
  predicate WellFormed(ps: Params) {
    DistinctKeys(ps) && forall i :: 0 <= i < |ps| ==> ps[i].values != []
  }

  /** `d.get(k, [])`. */
  function ValuesAt(ps: Params, k: string): seq<string> {
    if ps == [] then []
    else if ps[0].key == k then ps[0].values
    else ValuesAt(ps[1..], k)
  }

  /** `s.replace('+', ' ')`. */
  function PlusToSpace(s: string): (r: string)
    ensures |r| == |s|
  {
    seq(|s|, i requires 0 <= i < |s| => if s[i] == '+' then ' ' else s[i])
  }

  /** How one name or value is decoded: `+` becomes a space, then `unquote`. */
  function Decode(unquote: string -> string, s: string): string {
    unquote(PlusToSpace(s))
  }

  /** `unquote` undoes `quote_plus` once `+` has been turned back into a space, as Python's does. */
  ghost predicate InvertsQuotePlus(unquote: string -> string) {
    forall s :: Decode(unquote, QuotePlus(s)) == s
  }

  /**
    * One `&`-separated field of `parse_qsl`: empty fields are skipped; a field
    * without `=` counts as a name with an empty value only when blank values
    * are kept; a field whose value is empty is dropped unless blank values are kept.
    */
  function FieldPair(field: string, keepBlank: bool, unquote: string -> string): (r: Option<(string, string)>)
    ensures r.None? <==> field == [] || (!keepBlank && (SplitOnce(field, '=').None? || SplitOnce(field, '=').value.1 == []))
    ensures r.Some? && SplitOnce(field, '=').Some? ==>
              r.value == (Decode(unquote, SplitOnce(field, '=').value.0), Decode(unquote, SplitOnce(field, '=').value.1))
    ensures r.Some? && SplitOnce(field, '=').None? ==> r.value == (Decode(unquote, field), Decode(unquote, []))
  {
    if field == [] then None
    else
      match SplitOnce(field, '=')
      case None => if keepBlank then Some((Decode(unquote, field), Decode(unquote, []))) else None
      case Some((name, value)) =>
        if value != [] || keepBlank then Some((Decode(unquote, name), Decode(unquote, value))) else None
  }

  function FieldPairs(fields: seq<string>, keepBlank: bool, unquote: string -> string): seq<(string, string)> {
    if fields == [] then []
    else
      var rest := FieldPairs(fields[1..], keepBlank, unquote);
      match FieldPair(fields[0], keepBlank, unquote)
      case None => rest
      case Some(p) => [p] + rest
  }

  /** `urllib.parse.parse_qsl(query, keep_blank_values=keepBlank)`. */
  function ParseQsl(query: string, keepBlank: bool, unquote: string -> string): seq<(string, string)> {
    FieldPairs(Split(query, '&'), keepBlank, unquote)
  }

  /** Adds one value the way `parse_qs` does: appended to an existing key, or a new key at the end. */
  function Insert(ps: Params, k: string, v: string): Params {
    if ps == [] then [Field(k, [v])]
    else if ps[0].key == k then [Field(k, ps[0].values + [v])] + ps[1..]
    else [ps[0]] + Insert(ps[1..], k, v)
  }

  function GroupInto(acc: Params, pairs: seq<(string, string)>): Params
    decreases |pairs|
  {
    if pairs == [] then acc else GroupInto(Insert(acc, pairs[0].0, pairs[0].1), pairs[1..])
  }

  /** The dictionary `parse_qs` builds from the pairs of `parse_qsl`. */
  function Group(pairs: seq<(string, string)>): Params {
    GroupInto([], pairs)
  }

  /** `urllib.parse.parse_qs(query, keep_blank_values=keepBlank)`. */
  function ParseQs(query: string, keepBlank: bool, unquote: string -> string): Params {
    Group(ParseQsl(query, keepBlank, unquote))
  }

  /** The values paired with `k`, in order: the reference for what `parse_qs` stores under `k`. */
  function ValuesOf(pairs: seq<(string, string)>, k: string): seq<string> {
    if pairs == [] then []
    else (if pairs[0].0 == k then [pairs[0].1] else []) + ValuesOf(pairs[1..], k)
  }

  /** `d[k] = vs`: replaces the entry in place when `k` is present, appends it otherwise. */
  function Assign(ps: Params, k: string, vs: seq<string>): Params {
    if ps == [] then [Field(k, vs)]
    else if ps[0].key == k then [Field(k, vs)] + ps[1..]
    else [ps[0]] + Assign(ps[1..], k, vs)
  }

  /** The (key, value) pairs `urlencode(..., doseq=True)` emits, one per element of each list. */
  function FieldFlat(k: string, vs: seq<string>): seq<(string, string)> {
    if vs == [] then [] else [(k, vs[0])] + FieldFlat(k, vs[1..])
  }

  function Flat(ps: Params): seq<(string, string)> {
    if ps == [] then [] else FieldFlat(ps[0].key, ps[0].values) + Flat(ps[1..])
  }

  function EncodePair(p: (string, string)): string {
    QuotePlus(p.0) + "=" + QuotePlus(p.1)
  }

  function EncodePairs(pairs: seq<(string, string)>): string {
    if pairs == [] then "" else Join(seq(|pairs|, i requires 0 <= i < |pairs| => EncodePair(pairs[i])), '&')
  }

  /** `urllib.parse.urlencode(ps, doseq=True)` with its default `quote_plus`. */
  function Urlencode(ps: Params): string {
    EncodePairs(Flat(ps))
  }

  // ---------------------------------------------------------------- parse_qs

  /** Inserting `v` under `k` appends it to the list of `k` and leaves every other list alone. */
  lemma {:induction false} InsertValues(ps: Params, k: string, v: string, q: string)
    ensures ValuesAt(Insert(ps, k, v), q) == ValuesAt(ps, q) + (if k == q then [v] else [])
    decreases |ps|
  {
    if ps != [] && ps[0].key != k {
      InsertValues(ps[1..], k, v, q);
      assert Insert(ps, k, v)[1..] == Insert(ps[1..], k, v);
    }
  }

  lemma KeysCons(f: Field, ps: Params)
    ensures Keys([f] + ps) == [f.key] + Keys(ps)
  {
  }

  /** A dictionary with one more entry in front has distinct keys iff that key is new and the rest are distinct. */
  lemma DistinctCons(f: Field, ps: Params)
    ensures DistinctKeys([f] + ps) <==> f.key !in Keys(ps) && DistinctKeys(ps)
  {
    var r := [f] + ps;
    assert forall i :: 0 <= i < |ps| ==> r[i + 1] == ps[i];
    if DistinctKeys(r) {
      forall i | 0 <= i < |ps|
        ensures Keys(ps)[i] != f.key
      {
        assert r[0].key != r[i + 1].key;
      }
    }
    if f.key !in Keys(ps) && DistinctKeys(ps) {
      forall i, j | 0 <= i < j < |r|
        ensures r[i].key != r[j].key
      {
        if i == 0 {
          assert r[j].key == Keys(ps)[j - 1];
        } else {
          assert r[i] == ps[i - 1] && r[j] == ps[j - 1];
        }
      }
    }
  }

  lemma {:induction false} InsertKeySet(ps: Params, k: string, v: string, q: string)
    ensures q in Keys(Insert(ps, k, v)) <==> q in Keys(ps) || q == k
    decreases |ps|
  {
    if ps == [] {
      assert Keys(Insert(ps, k, v)) == [k];
    } else if ps[0].key == k {
      var r := Insert(ps, k, v);
      assert forall i :: 1 <= i < |r| ==> r[i] == ps[i];
      assert Keys(r) == Keys(ps);
    } else {
      InsertKeySet(ps[1..], k, v, q);
      KeysCons(ps[0], Insert(ps[1..], k, v));
      KeysCons(ps[0], ps[1..]);
      assert ps == [ps[0]] + ps[1..];
    }
  }

  lemma {:induction false} InsertWellFormed(ps: Params, k: string, v: string)
    requires WellFormed(ps)
    ensures WellFormed(Insert(ps, k, v))
    decreases |ps|
  {
    var r := Insert(ps, k, v);
    if ps == [] {
    } else if ps[0].key == k {
      assert forall i :: 1 <= i < |r| ==> r[i] == ps[i];
      assert Keys(r) == Keys(ps);
      forall i, j | 0 <= i < j < |r|
        ensures r[i].key != r[j].key
      {
        assert r[i].key == Keys(r)[i] && r[j].key == Keys(r)[j];
      }
    } else {
      var tail := Insert(ps[1..], k, v);
      assert ps == [ps[0]] + ps[1..];
      DistinctCons(ps[0], ps[1..]);
      InsertWellFormed(ps[1..], k, v);
      InsertKeySet(ps[1..], k, v, ps[0].key);
      DistinctCons(ps[0], tail);
      assert r == [ps[0]] + tail;
      assert forall i :: 1 <= i < |r| ==> r[i] == tail[i - 1];
    }
  }

  lemma {:induction false} GroupIntoValues(acc: Params, pairs: seq<(string, string)>, q: string)
    ensures ValuesAt(GroupInto(acc, pairs), q) == ValuesAt(acc, q) + ValuesOf(pairs, q)
    decreases |pairs|
  {
    if pairs != [] {
      InsertValues(acc, pairs[0].0, pairs[0].1, q);
      GroupIntoValues(Insert(acc, pairs[0].0, pairs[0].1), pairs[1..], q);
    }
  }

  lemma {:induction false} GroupIntoWellFormed(acc: Params, pairs: seq<(string, string)>)
    requires WellFormed(acc)
    ensures WellFormed(GroupInto(acc, pairs))
    decreases |pairs|
  {
    if pairs != [] {
      InsertWellFormed(acc, pairs[0].0, pairs[0].1);
      GroupIntoWellFormed(Insert(acc, pairs[0].0, pairs[0].1), pairs[1..]);
    }
  }

  /**
    * `parse_qs` yields a dictionary with distinct keys and non-empty lists, and
    * stores under each key exactly the values `parse_qsl` paired with it, in order.
    */
  lemma ParseQsValues(query: string, keepBlank: bool, unquote: string -> string, k: string)
    ensures WellFormed(ParseQs(query, keepBlank, unquote))
    ensures ValuesAt(ParseQs(query, keepBlank, unquote), k) == ValuesOf(ParseQsl(query, keepBlank, unquote), k)
  {
    var pairs := ParseQsl(query, keepBlank, unquote);
    GroupIntoWellFormed([], pairs);
    GroupIntoValues([], pairs, k);
  }

  /** Every pair `parse_qsl` returns without blank values it also returns when keeping them. */
  lemma {:induction false} DroppingBlanksKeepsTheRest(fields: seq<string>, unquote: string -> string, p: (string, string))
    requires p in FieldPairs(fields, false, unquote)
    ensures p in FieldPairs(fields, true, unquote)
    decreases |fields|
  {
    if fields != [] {
      var f := fields[0];
      if FieldPair(f, false, unquote) == Some(p) {
        assert FieldPair(f, true, unquote) == Some(p);
      } else {
        DroppingBlanksKeepsTheRest(fields[1..], unquote, p);
      }
    }
  }

  /** Blank handling of one field: a name without `=`, or with nothing after it, is kept only on request. */
  lemma BlankField(name: string, unquote: string -> string)
    requires '=' !in name && name != []
    ensures FieldPair(name, false, unquote) == None
    ensures FieldPair(name + "=", false, unquote) == None
    ensures FieldPair(name, true, unquote) == Some((Decode(unquote, name), Decode(unquote, [])))
    ensures FieldPair(name + "=", true, unquote) == Some((Decode(unquote, name), Decode(unquote, [])))
  {
    SplitOnceOf(name, '=', []);
    assert name + [ '=' ] + [] == name + "=";
  }

  // ---------------------------------------------------------------- assignment

  lemma {:induction false} AssignValues(ps: Params, k: string, vs: seq<string>, q: string)
    requires DistinctKeys(ps)
    ensures ValuesAt(Assign(ps, k, vs), q) == if q == k then vs else ValuesAt(ps, q)
    decreases |ps|
  {
    if ps != [] && ps[0].key != k {
      assert DistinctKeys(ps[1..]);
      AssignValues(ps[1..], k, vs, q);
    }
  }

  lemma {:induction false} AssignSameKeys(ps: Params, k: string, vs: seq<string>)
    requires k in Keys(ps)
    ensures Keys(Assign(ps, k, vs)) == Keys(ps)
    decreases |ps|
  {
    if ps[0].key != k {
      assert k in Keys(ps[1..]) by {
        var i :| 0 <= i < |ps| && ps[i].key == k;
        assert Keys(ps[1..])[i - 1] == k;
      }
      AssignSameKeys(ps[1..], k, vs);
      KeysCons(ps[0], Assign(ps[1..], k, vs));
      KeysCons(ps[0], ps[1..]);
      assert ps == [ps[0]] + ps[1..];
    } else {
      var r := Assign(ps, k, vs);
      assert forall i :: 1 <= i < |r| ==> r[i] == ps[i];
    }
  }

  lemma {:induction false} AssignNonEmpty(ps: Params, k: string, vs: seq<string>)
    requires vs != [] && forall i :: 0 <= i < |ps| ==> ps[i].values != []
    ensures forall i :: 0 <= i < |Assign(ps, k, vs)| ==> Assign(ps, k, vs)[i].values != []
    decreases |ps|
  {
    if ps != [] && ps[0].key != k {
      AssignNonEmpty(ps[1..], k, vs);
      assert forall i :: 1 <= i < |Assign(ps, k, vs)| ==> Assign(ps, k, vs)[i] == Assign(ps[1..], k, vs)[i - 1];
    }
  }

  /** Assigning a present key keeps the key order and well-formedness. */
  lemma AssignKeys(ps: Params, k: string, vs: seq<string>)
    requires k in Keys(ps)
    ensures Keys(Assign(ps, k, vs)) == Keys(ps)
    ensures WellFormed(ps) && vs != [] ==> WellFormed(Assign(ps, k, vs))
    ensures |Assign(ps, k, vs)| == |ps|
  {
    var r := Assign(ps, k, vs);
    AssignSameKeys(ps, k, vs);
    if WellFormed(ps) && vs != [] {
      AssignNonEmpty(ps, k, vs);
      forall i, j | 0 <= i < j < |r|
        ensures r[i].key != r[j].key
      {
        assert r[i].key == Keys(ps)[i] && r[j].key == Keys(ps)[j];
      }
    }
  }

  /** With distinct keys, the lookup of the key at position `i` finds that entry's list. */
  lemma {:induction false} ValuesAtIndex(ps: Params, i: nat)
    requires DistinctKeys(ps) && i < |ps|
    ensures ValuesAt(ps, ps[i].key) == ps[i].values
    decreases i
  {
    if i > 0 {
      assert ps[0].key != ps[i].key;
      assert DistinctKeys(ps[1..]);
      ValuesAtIndex(ps[1..], i - 1);
    }
  }

  /** With distinct keys, assigning the key at position `i` replaces that entry in place and nothing else. */
  lemma {:induction false} AssignAt(ps: Params, i: nat, vs: seq<string>)
    requires DistinctKeys(ps) && i < |ps|
    ensures Assign(ps, ps[i].key, vs) == ps[i := Field(ps[i].key, vs)]
    decreases i
  {
    if i > 0 {
      assert ps[0].key != ps[i].key;
      assert DistinctKeys(ps[1..]);
      AssignAt(ps[1..], i - 1, vs);
      assert ps[i := Field(ps[i].key, vs)] == [ps[0]] + ps[1..][i - 1 := Field(ps[i].key, vs)];
    }
  }

  // ---------------------------------------------------------------- urlencode

  /** A single `name=value` piece decodes back to its pair when blank values are kept. */
  lemma DecodeEncodedPair(p: (string, string), unquote: string -> string)
    requires InvertsQuotePlus(unquote)
    ensures FieldPair(EncodePair(p), true, unquote) == Some(p)
  {
    var name, value := QuotePlus(p.0), QuotePlus(p.1);
    assert forall i :: 0 <= i < |name| ==> name[i] != '=';
    SplitOnceOf(name, '=', value);
    assert EncodePair(p) == name + ['='] + value;
    assert Decode(unquote, name) == p.0 && Decode(unquote, value) == p.1;
  }

  lemma {:induction false} DecodeEncodedPairs(fields: seq<string>, pairs: seq<(string, string)>, unquote: string -> string)
    requires InvertsQuotePlus(unquote)
    requires |fields| == |pairs|
    requires forall i :: 0 <= i < |fields| ==> fields[i] == EncodePair(pairs[i])
    ensures FieldPairs(fields, true, unquote) == pairs
    decreases |fields|
  {
    if fields != [] {
      DecodeEncodedPair(pairs[0], unquote);
      DecodeEncodedPairs(fields[1..], pairs[1..], unquote);
    }
  }

  /** Encoded pieces hold no `&`, so splitting the encoded query at `&` gives them back. */
  lemma ParseEncodedPairs(pairs: seq<(string, string)>, unquote: string -> string)
    requires InvertsQuotePlus(unquote)
    ensures ParseQsl(EncodePairs(pairs), true, unquote) == pairs
  {
    if pairs == [] {
      assert IndexOf("", '&') == 0;
      assert Split("", '&') == [""];
      assert [""][1..] == [];
    } else {
      var fields := seq(|pairs|, i requires 0 <= i < |pairs| => EncodePair(pairs[i]));
      forall k | 0 <= k < |fields|
        ensures '&' !in fields[k]
      {
        EncodePairNoAmpersand(pairs[k]);
      }
      SplitJoin(fields, '&');
      DecodeEncodedPairs(fields, pairs, unquote);
    }
  }

  /** An encoded pair holds no `&`. */
  lemma EncodePairNoAmpersand(pair: (string, string))
    ensures '&' !in EncodePair(pair)
  {
    QuotePlusNoAmpersand(pair.0);
    QuotePlusNoAmpersand(pair.1);
    assert '&' !in "=";
  }

  /** `quote_plus` never produces `&`. */
  lemma QuotePlusNoAmpersand(s: string)
    ensures '&' !in QuotePlus(s)
  {
  }

  lemma {:induction false} InsertFresh(ps: Params, k: string, v: string)
    requires k !in Keys(ps)
    ensures Insert(ps, k, v) == ps + [Field(k, [v])]
    decreases |ps|
  {
    if ps != [] {
      KeysCons(ps[0], ps[1..]);
      assert ps == [ps[0]] + ps[1..];
      InsertFresh(ps[1..], k, v);
    }
  }

  lemma {:induction false} InsertLast(ps: Params, k: string, vs: seq<string>, v: string)
    requires k !in Keys(ps)
    ensures Insert(ps + [Field(k, vs)], k, v) == ps + [Field(k, vs + [v])]
    decreases |ps|
  {
    if ps == [] {
    } else {
      KeysCons(ps[0], ps[1..]);
      assert ps == [ps[0]] + ps[1..];
      assert (ps + [Field(k, vs)])[1..] == ps[1..] + [Field(k, vs)];
      InsertLast(ps[1..], k, vs, v);
    }
  }

  lemma {:induction false} GroupIntoAppend(acc: Params, a: seq<(string, string)>, b: seq<(string, string)>)
    ensures GroupInto(acc, a + b) == GroupInto(GroupInto(acc, a), b)
    decreases |a|
  {
    if a == [] {
      assert a + b == b;
    } else {
      assert (a + b)[0] == a[0] && (a + b)[1..] == a[1..] + b;
      GroupIntoAppend(Insert(acc, a[0].0, a[0].1), a[1..], b);
    }
  }

  lemma {:induction false} GroupFieldTail(acc: Params, k: string, vs: seq<string>, ws: seq<string>)
    requires k !in Keys(acc)
    ensures GroupInto(acc + [Field(k, vs)], FieldFlat(k, ws)) == acc + [Field(k, vs + ws)]
    decreases |ws|
  {
    if ws == [] {
      assert vs + ws == vs;
    } else {
      InsertLast(acc, k, vs, ws[0]);
      GroupFieldTail(acc, k, vs + [ws[0]], ws[1..]);
      assert vs + [ws[0]] + ws[1..] == vs + ws;
    }
  }

  lemma {:induction false} GroupFlat(acc: Params, ps: Params)
    requires WellFormed(acc + ps)
    ensures GroupInto(acc, Flat(ps)) == acc + ps
    decreases |ps|
  {
    if ps == [] {
      assert acc + ps == acc;
    } else {
      var f := ps[0];
      assert f == (acc + ps)[|acc|];
      forall i | 0 <= i < |acc|
        ensures Keys(acc)[i] != f.key
      {
        assert (acc + ps)[i] == acc[i];
      }
      assert f.values != [];
      GroupIntoAppend(acc, FieldFlat(f.key, f.values), Flat(ps[1..]));
      InsertFresh(acc, f.key, f.values[0]);
      GroupFieldTail(acc, f.key, [f.values[0]], f.values[1..]);
      assert [f.values[0]] + f.values[1..] == f.values;
      assert GroupInto(acc, FieldFlat(f.key, f.values)) == acc + [f];
      assert acc + [f] + ps[1..] == acc + ps;
      GroupFlat(acc + [f], ps[1..]);
    }
  }

  /**
    * `parse_qs(urlencode(ps, doseq=True), keep_blank_values=True)` gives back
    * `ps` for any dictionary `parse_qs` can produce.
    */
  lemma ParseQsUrlencode(ps: Params, unquote: string -> string)
    requires InvertsQuotePlus(unquote)
    requires WellFormed(ps)
    ensures ParseQs(Urlencode(ps), true, unquote) == ps
  {
    ParseEncodedPairs(Flat(ps), unquote);
    assert [] + ps == ps;
    GroupFlat([], ps);
  }

  // ---------------------------------------------------------------- probes

  /** The query of a probe URL: the values of `key` become `[payload]` and the dictionary is re-encoded. */
  function SubstitutedQuery(ps: Params, key: string, payload: string): string {
    Urlencode(Assign(ps, key, [payload]))
  }

  /**
    * Parsing a probe's query gives back the original dictionary: the same keys
    * in the same order, `key` now holding only the payload and every other key
    * all of its original values, blank ones included.
    */
  lemma SubstitutedQueryParses(ps: Params, key: string, payload: string, unquote: string -> string, q: string)
    requires InvertsQuotePlus(unquote)
    requires WellFormed(ps) && key in Keys(ps)
    ensures Keys(ParseQs(SubstitutedQuery(ps, key, payload), true, unquote)) == Keys(ps)
    ensures ValuesAt(ParseQs(SubstitutedQuery(ps, key, payload), true, unquote), q) == if q == key then [payload] else ValuesAt(ps, q)
  {
    AssignKeys(ps, key, [payload]);
    ParseQsUrlencode(Assign(ps, key, [payload]), unquote);
    AssignValues(ps, key, [payload], q);
  }
}
