/**
  * Percent-encoding as Python's `urllib.parse.quote` and `quote_plus` do it:
  * every character outside the unreserved set of section 2.3 of RFC 3986
  * (and outside the caller's extra safe characters) is written as the
  * `%HH` escapes of its UTF-8 bytes (section 2.1 of RFC 3986, upper-case hex).
  * `quote_plus` is the application/x-www-form-urlencoded flavour used by
  * `urlencode`: a space becomes `+`.
  */
module Percent {

  /** Section 2.3 of RFC 3986: ALPHA / DIGIT / "-" / "." / "_" / "~". */
  predicate IsUnreserved(c: char) {
    ('A' <= c <= 'Z') || ('a' <= c <= 'z') || ('0' <= c <= '9') || c == '-' || c == '.' || c == '_' || c == '~'
  }

  /** The characters `quote(s)` leaves alone: its default `safe='/'` added to the unreserved set. */
  predicate IsPathSafe(c: char) {
    IsUnreserved(c) || c == '/'
  }

  predicate IsByte(b: int) {
    0 <= b < 256
  }

  /** The UTF-8 encoding of one Unicode scalar value. */
  function Utf8(c: char): (bs: seq<int>)
    ensures 1 <= |bs| <= 4
    ensures forall k :: 0 <= k < |bs| ==> IsByte(bs[k])
    ensures c as int < 0x80 ==> bs == [c as int]
  {
    var n := c as int;
    if n < 0x80 then [n]
    else if n < 0x800 then [0xC0 + n / 0x40, 0x80 + n % 0x40]
    else if n < 0x1_0000 then [0xE0 + n / 0x1000, 0x80 + (n / 0x40) % 0x40, 0x80 + n % 0x40]
    else [0xF0 + n / 0x4_0000, 0x80 + (n / 0x1000) % 0x40, 0x80 + (n / 0x40) % 0x40, 0x80 + n % 0x40]
  }

  function HexDigit(d: int): (c: char)
    requires 0 <= d < 16
    ensures ('0' <= c <= '9') || ('A' <= c <= 'F')
  {
    "0123456789ABCDEF"[d]
  }

  /** `%HH` for each byte. */
  function EscapeBytes(bs: seq<int>): (r: string)
    requires forall k :: 0 <= k < |bs| ==> IsByte(bs[k])
    ensures |r| == 3 * |bs|
    ensures forall k :: 0 <= k < |r| ==> IsUnreserved(r[k]) || r[k] == '%'
    ensures bs != [] ==> r[0] == '%'
  {
    if bs == [] then []
    else
      assert IsByte(bs[0]);
      var rest := EscapeBytes(bs[1..]);
      var r := ['%', HexDigit(bs[0] / 16), HexDigit(bs[0] % 16)] + rest;
      assert forall k :: 3 <= k < |r| ==> r[k] == rest[k - 3];
      r
  }

  /** The escape of one character: at least one `%HH` group. */
  function Escape(c: char): (r: string)
    ensures |r| >= 3 && r[0] == '%'
    ensures forall k :: 0 <= k < |r| ==> IsUnreserved(r[k]) || r[k] == '%'
  {
    EscapeBytes(Utf8(c))
  }

  function QuoteChar(c: char): string {
    if IsPathSafe(c) then [c] else Escape(c)
  }

  /**
    * `urllib.parse.quote(s)`: the result is made only of path-safe characters
    * and the `%` of escapes, and is never shorter than `s`.
    */
  function Quote(s: string): (r: string)
    ensures |r| >= |s|
    ensures forall k :: 0 <= k < |r| ==> IsPathSafe(r[k]) || r[k] == '%'
  {
    if s == [] then []
    else
      var head, rest := QuoteChar(s[0]), Quote(s[1..]);
      assert forall k :: |head| <= k < |head| + |rest| ==> (head + rest)[k] == rest[k - |head|];
      head + rest
  }

  function QuotePlusChar(c: char): string {
    if IsUnreserved(c) then [c] else if c == ' ' then "+" else Escape(c)
  }

  /**
    * `urllib.parse.quote_plus(s)` (safe is empty): only unreserved characters,
    * `%` and `+` appear, so the result never holds the `&`, `=` or `#` that
    * delimit a query.
    */
  function QuotePlus(s: string): (r: string)
    ensures |r| >= |s|
    ensures forall k :: 0 <= k < |r| ==> IsUnreserved(r[k]) || r[k] == '%' || r[k] == '+'
  {
    if s == [] then []
    else
      var head, rest := QuotePlusChar(s[0]), QuotePlus(s[1..]);
      assert forall k :: |head| <= k < |head| + |rest| ==> (head + rest)[k] == rest[k - |head|];
      head + rest
  }

  /** Quoting works character by character, so it distributes over concatenation. */
  lemma {:induction false} QuoteAppend(a: string, b: string)
    ensures Quote(a + b) == Quote(a) + Quote(b)
    decreases |a|
  {
    if a == [] {
      assert a + b == b;
    } else {
      assert (a + b)[0] == a[0] && (a + b)[1..] == a[1..] + b;
      QuoteAppend(a[1..], b);
      calc {
        Quote(a + b);
        QuoteChar(a[0]) + Quote(a[1..] + b);
        QuoteChar(a[0]) + (Quote(a[1..]) + Quote(b));
        (QuoteChar(a[0]) + Quote(a[1..])) + Quote(b);
      }
    }
  }

  lemma {:induction false} QuotePlusAppend(a: string, b: string)
    ensures QuotePlus(a + b) == QuotePlus(a) + QuotePlus(b)
    decreases |a|
  {
    if a == [] {
      assert a + b == b;
    } else {
      assert (a + b)[0] == a[0] && (a + b)[1..] == a[1..] + b;
      QuotePlusAppend(a[1..], b);
      calc {
        QuotePlus(a + b);
        QuotePlusChar(a[0]) + QuotePlus(a[1..] + b);
        QuotePlusChar(a[0]) + (QuotePlus(a[1..]) + QuotePlus(b));
        (QuotePlusChar(a[0]) + QuotePlus(a[1..])) + QuotePlus(b);
      }
    }
  }

  /** `quote` changes nothing exactly when every character is already path-safe. */
  lemma {:induction false} QuoteIdentityIff(s: string)
    ensures Quote(s) == s <==> forall k :: 0 <= k < |s| ==> IsPathSafe(s[k])
    decreases |s|
  {
    if s != [] {
      QuoteIdentityIff(s[1..]);
      var rest := Quote(s[1..]);
      if IsPathSafe(s[0]) {
        assert Quote(s) == [s[0]] + rest;
        assert Quote(s) == s <==> rest == s[1..];
        assert (forall k :: 0 <= k < |s| ==> IsPathSafe(s[k])) <==> (forall k :: 0 <= k < |s| - 1 ==> IsPathSafe(s[1..][k]));
      } else {
        assert |Quote(s)| >= 3 + |s| - 1;
      }
    }
  }

  /** Characters outside the unreserved set are never left as they are by `quote_plus`. */
  lemma {:induction false} QuotePlusIdentityIff(s: string)
    ensures QuotePlus(s) == s <==> forall k :: 0 <= k < |s| ==> IsUnreserved(s[k])
    decreases |s|
  {
    if s != [] {
      QuotePlusIdentityIff(s[1..]);
      var rest := QuotePlus(s[1..]);
      if IsUnreserved(s[0]) {
        assert QuotePlus(s) == [s[0]] + rest;
        assert (forall k :: 0 <= k < |s| ==> IsUnreserved(s[k])) <==> (forall k :: 0 <= k < |s| - 1 ==> IsUnreserved(s[1..][k]));
      } else if s[0] == ' ' {
        assert QuotePlus(s)[0] == '+';
      } else {
        assert |QuotePlus(s)| >= 3 + |s| - 1;
      }
    }
  }

  /** A directory-traversal payload made of path-safe characters passes through `quote` unchanged. */
  lemma QuoteTraversalPayload()
    ensures Quote("../../etc/passwd") == "../../etc/passwd"
  {
    var s := "../../etc/passwd";
    assert forall k :: 0 <= k < |s| ==> IsPathSafe(s[k]);
    QuoteIdentityIff(s);
  }

  /** A colon in a form value is escaped as `%3A`. */
  lemma QuotePlusColon()
    ensures QuotePlus(":") == "%3A"
  {
    assert Utf8(':') == [0x3A];
    assert EscapeBytes([]) == [];
    assert EscapeBytes([0x3A]) == "%3A";
  }

}
