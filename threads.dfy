/**
  * The interactive thread-count questions of the scanners: the stripped
  * answer is taken when it is all digits and inside the scanner's range,
  * otherwise the scanner's default is used.
  */
module Threads {
  import opened Text

  /** `int(a) if a.isdigit() and lo <= int(a) <= hi else default`, on the stripped answer `a`. */
  function Bounded(answer: string, lo: nat, hi: nat, default: nat): nat {
    var a := Strip(answer);
    if IsDigits(a) && lo <= DigitsValue(a) <= hi then DigitsValue(a) else default
  }

  /** The result is the default or a number in range that the answer spells. */
  lemma BoundedRange(answer: string, lo: nat, hi: nat, default: nat)
    ensures var r := Bounded(answer, lo, hi, default);
      r == default || (lo <= r <= hi && IsDigits(Strip(answer)) && r == DigitsValue(Strip(answer)))
  {
  }

  /** Every number in range, typed with surrounding blanks or not, is taken as given. */
  lemma BoundedAccepts(n: nat, pad: string, lo: nat, hi: nat, default: nat)
    requires lo <= n <= hi && AllSpace(pad)
    ensures Bounded(pad + NatToString(n) + pad, lo, hi, default) == n
  {
    var s := NatToString(n);
    NatToStringValue(n);
    assert IsStripped(s) by {
      assert !IsSpace(s[0]) && !IsSpace(s[|s| - 1]) by {
        assert IsDigit(s[0]) && IsDigit(s[|s| - 1]);
      }
    }
    StripOfPadded(pad, s, pad);
  }

  /** An answer that is not a run of digits, such as `-3` or `ten`, gives the default. */
  lemma BoundedRejects(answer: string, lo: nat, hi: nat, default: nat)
    requires !IsDigits(Strip(answer))
    ensures Bounded(answer, lo, hi, default) == default
  {
  }

  /** scanners/xss_scanner_selenium.py: 1..1000, default 50. */
  function SeleniumConcurrency(answer: string): nat {
    Bounded(answer, 1, 1000, 50)
  }

  /** scanners/xss_scanner.py: 0..100, default 5. */
  function XssConcurrency(answer: string): nat {
    Bounded(answer, 0, 100, 5)
  }

  /** scanners/sql_scanner.py and scanners/lfi_scanner.py: 0..1000, default 50. */
  function AsyncThreads(answer: string): nat {
    Bounded(answer, 0, 1000, 50)
  }

  /** scanners/or_scanner.py: 0..100, default 5. */
  function RedirectThreads(answer: string): nat {
    Bounded(answer, 0, 100, 5)
  }

  /** libs/scanners/xss_scanner.py: 0..10, default 5. */
  function LibsXssThreads(answer: string): nat {
    Bounded(answer, 0, 10, 5)
  }

  /**
    * Every answer gives the Selenium scanner at least one worker, so its
    * `min(concurrency, 5)` drivers are never zero; the other scanners accept 0.
    */
  lemma ConcurrencyRanges(answer: string)
    ensures 1 <= SeleniumConcurrency(answer) <= 1000
    ensures XssConcurrency(answer) <= 100 && RedirectThreads(answer) <= 100
    ensures AsyncThreads(answer) <= 1000 && LibsXssThreads(answer) <= 10
  {
  }

  /** A typed `0` is accepted by every scanner but the Selenium one. */
  lemma ZeroAccepted()
    ensures SeleniumConcurrency("0") == 50
    ensures XssConcurrency("0") == 0 && RedirectThreads("0") == 0
    ensures AsyncThreads("0") == 0 && LibsXssThreads("0") == 0
  {
    ZeroAnswer();
  }

  lemma ZeroAnswer()
    ensures Strip("0") == "0" && IsDigits("0") && DigitsValue("0") == 0
  {
    assert "" + "0" + "" == "0";
    StripOfPadded("", "0", "");
  }
}
