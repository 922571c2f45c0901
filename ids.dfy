/**
 * Identifiers built from template literals such as `venue-${n}`: a fixed prefix followed by the
 * decimal rendering of a non-negative integer (no sign, no leading zeros).
 */
module Ids {

  function Digit(d: nat): char
    requires d < 10
  {
    ('0' as int + d) as char
  }

  /** The decimal rendering JavaScript gives a non-negative integer in a template literal. */
  function NatToString(n: nat): (s: string)
    ensures 1 <= |s|
    ensures forall i :: 0 <= i < |s| ==> '0' <= s[i] <= '9'
    ensures n < 10 <==> |s| == 1
    ensures n == 0 <==> s == "0"
    ensures n > 0 ==> s[0] != '0'
    decreases n
  {
    if n < 10 then [Digit(n)] else NatToString(n / 10) + [Digit(n % 10)]
  }

  /** Reads a string of decimal digits back as a number: the inverse of NatToString. */
  function ParseDigits(s: string): nat
    decreases |s|
  {
    if |s| == 0 then 0
    else
      var c := s[|s| - 1];
      ParseDigits(s[..|s| - 1]) * 10 + (if '0' <= c <= '9' then c as int - '0' as int else 0)
  }

  lemma {:induction false} ParseNatToString(n: nat)
    ensures ParseDigits(NatToString(n)) == n
  {
    if n >= 10 {
      var s := NatToString(n);
      assert s[..|s| - 1] == NatToString(n / 10);
      ParseNatToString(n / 10);
    }
  }

  /** Distinct numbers render as distinct strings. */
  lemma NatToStringInjective(a: nat, b: nat)
    requires NatToString(a) == NatToString(b)
    ensures a == b
  {
    ParseNatToString(a);
    ParseNatToString(b);
  }

  /** `venue-${n}`: the prefix, then digits that read back as `n`. */
  function VenueId(n: nat): (s: string)
    ensures 6 < |s| && s[..6] == "venue-" && ParseDigits(s[6..]) == n
  {
    var digits := NatToString(n);
    ParseNatToString(n);
    assert ("venue-" + digits)[6..] == digits;
    "venue-" + digits
  }

  /** `app-${n}`: the prefix, then digits that read back as `n`. */
  function AppId(n: nat): (s: string)
    ensures 4 < |s| && s[..4] == "app-" && ParseDigits(s[4..]) == n
  {
    var digits := NatToString(n);
    ParseNatToString(n);
    assert ("app-" + digits)[4..] == digits;
    "app-" + digits
  }

  /** `user-${timestamp}`: the prefix, then digits that read back as the timestamp. */
  function UserId(timestamp: nat): (s: string)
    ensures 5 < |s| && s[..5] == "user-" && ParseDigits(s[5..]) == timestamp
  {
    var digits := NatToString(timestamp);
    ParseNatToString(timestamp);
    assert ("user-" + digits)[5..] == digits;
    "user-" + digits
  }

  /** After its prefix, each id is the decimal rendering of its number: digits, no leading zero. */
  lemma IdSuffixesAreDecimal(n: nat)
    ensures forall i :: 6 <= i < |VenueId(n)| ==> '0' <= VenueId(n)[i] <= '9'
    ensures forall i :: 4 <= i < |AppId(n)| ==> '0' <= AppId(n)[i] <= '9'
    ensures forall i :: 5 <= i < |UserId(n)| ==> '0' <= UserId(n)[i] <= '9'
    ensures n > 0 ==> VenueId(n)[6] != '0' && AppId(n)[4] != '0' && UserId(n)[5] != '0'
  {
  }

  /** Application ids built from distinct numbers are distinct. */
  lemma AppIdInjective(a: nat, b: nat)
    ensures AppId(a) == AppId(b) <==> a == b
  {
  }
}
