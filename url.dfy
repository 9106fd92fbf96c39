/** The parts of Foundation's `URL` that the client reads. Parsing a string into a URL
    (`URL(string:)`) is left to the platform and appears as a function parameter wherever
    the client calls it. */
module Urls {
  import opened Wrappers

  /** `scheme`, `host` and `port` are optional in Foundation; `relativePath` is always a string. */
  datatype Url = Url(scheme: Option<string>, host: Option<string>, port: Option<nat>, relativePath: string)

  /** The platform's `URL(string:)`: nil when the string is not a valid URL. */
  type UrlParser = string -> Option<Url>

  predicate IsDigit(c: char) { '0' <= c <= '9' }

  /** Swift's string interpolation of a non-negative `Int`: its decimal digits. */
  function DecimalString(n: nat): (s: string)
    ensures |s| > 0
    ensures forall i :: 0 <= i < |s| ==> IsDigit(s[i])
    ensures (|s| > 1 ==> s[0] != '0')
  {
    var d := ['0' + (n % 10) as char];
    if n < 10 then d else DecimalString(n / 10) + d
  }

  /** Reads decimal digits back; the partner of `DecimalString`. */
  function DecimalValue(s: string): nat
    requires forall i :: 0 <= i < |s| ==> IsDigit(s[i])
  {
    if s == [] then 0
    else
      assert IsDigit(s[|s| - 1]);
      10 * DecimalValue(s[..|s| - 1]) + (s[|s| - 1] as int - '0' as int) as nat
  }

  /** The interpolated port number reads back as the number itself. */
  lemma {:induction false} DecimalRoundTrip(n: nat)
    ensures DecimalValue(DecimalString(n)) == n
  {
    var s := DecimalString(n);
    if n >= 10 {
      DecimalRoundTrip(n / 10);
      assert s[..|s| - 1] == DecimalString(n / 10);
    }
  }
}
