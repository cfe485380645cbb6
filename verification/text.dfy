/** The string formatting the command-line report relies on: decimal numbers (Ruby's integer
    interpolation) and Array#join. */
module Text {

  predicate IsDigit(c: char)
  {
    '0' <= c <= '9'
  }

  /** The decimal digit for d. */
  function Digit(d: nat): (c: char)
    requires d < 10
    ensures IsDigit(c) && c as int - '0' as int == d
  {
    "0123456789"[d]
  }

  /** The decimal numeral for n, without leading zeros. */
  function NatToString(n: nat): (r: string)
    ensures |r| > 0
    ensures forall i :: 0 <= i < |r| ==> IsDigit(r[i])
    ensures |r| > 1 ==> r[0] != '0'
    decreases n
  {
    if n < 10 then [Digit(n)] else NatToString(n / 10) + [Digit(n % 10)]
  }

  /** The number a string of decimal digits stands for. */
  function DigitsValue(s: string): nat
    requires forall i :: 0 <= i < |s| ==> IsDigit(s[i])
  {
    if s == [] then 0
    else
      assert IsDigit(s[|s| - 1]);
      DigitsValue(s[..|s| - 1]) * 10 + (s[|s| - 1] as int - '0' as int)
  }

  /** Reading back a formatted number gives the number. */
  lemma {:induction false} NatToStringRoundTrip(n: nat)
    ensures DigitsValue(NatToString(n)) == n
    decreases n
  {
    if n >= 10 {
      NatToStringRoundTrip(n / 10);
      var r := NatToString(n);
      assert r[..|r| - 1] == NatToString(n / 10);
    }
  }

  /** Array#join: the parts with sep between each two neighbours. */
  function Join(parts: seq<string>, sep: string): string
  {
    if parts == [] then ""
    else if |parts| == 1 then parts[0]
    else Join(parts[..|parts| - 1], sep) + sep + parts[|parts| - 1]
  }

  /** Joining five parts puts sep between each two neighbours. */
  lemma JoinFive(a: string, b: string, c: string, d: string, e: string, sep: string)
    ensures Join([a, b, c, d, e], sep) == a + sep + b + sep + c + sep + d + sep + e
  {
    assert [a, b][..1] == [a];
    assert Join([a, b], sep) == a + sep + b;
    assert [a, b, c][..2] == [a, b];
    assert Join([a, b, c], sep) == a + sep + b + sep + c;
    assert [a, b, c, d][..3] == [a, b, c];
    assert Join([a, b, c, d], sep) == a + sep + b + sep + c + sep + d;
    assert [a, b, c, d, e][..4] == [a, b, c, d];
  }
}
