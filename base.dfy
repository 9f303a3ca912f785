/** Shared vocabulary: optional values, decimal rendering of integers, string prefixes. */
module Base {

  /** Python's `None` / a present value. */
  datatype Option<+T> = None | Some(value: T) {
    /** The value if present, otherwise `default` (Python's `x if x is not None else default`). */
    function GetOr(default: T): T {
      match this
      case Some(v) => v
      case None => default
    }
  }

  const Digits: string := "0123456789"

  /** Numeric value of a non-empty run of decimal digits. */
  function DigitsValue(s: string): nat
    requires forall i :: 0 <= i < |s| ==> '0' <= s[i] <= '9'
  {
    if s == [] then 0 else 10 * DigitsValue(s[..|s| - 1]) + (s[|s| - 1] as int - '0' as int)
  }

  /** Decimal text of a natural number, most significant digit first, no leading zeros. */
  function NatToString(n: nat): (r: string)
    ensures 0 < |r|
    ensures forall i :: 0 <= i < |r| ==> '0' <= r[i] <= '9'
    ensures DigitsValue(r) == n
    ensures |r| == 1 <==> n < 10
    ensures 1 < |r| ==> r[0] != '0'
    decreases n
  {
    var last := [Digits[n % 10]];
    if n < 10 then last
    else
      var r := NatToString(n / 10) + last;
      assert r[..|r| - 1] == NatToString(n / 10);
      r
  }

  /** Python's `str(n)` (and JavaScript's template rendering) of an integer. */
  function IntToString(n: int): (r: string)
    ensures 0 < |r|
    ensures r[0] == '-' <==> n < 0
  {
    if n < 0 then "-" + NatToString(-n) else NatToString(n)
  }

  /** JavaScript's `s.startsWith(prefix)` / Python's `s.startswith(prefix)`. */
  predicate StartsWith(s: string, prefix: string) {
    |prefix| <= |s| && s[..|prefix|] == prefix
  }
}
