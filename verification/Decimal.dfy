/** Printing a natural number as with the format `%d`, and reading it back. */
module Decimal {
  import opened Wrappers

  function Digit(d: nat): char
    requires d < 10
  {
    "0123456789"[d]
  }

  function Dec(n: nat): (s: string)
    ensures s != ""
  {
    if n < 10 then [Digit(n)] else Dec(n / 10) + [Digit(n % 10)]
  }

  function DigitValue(c: char): Option<nat> {
    if '0' <= c <= '9' then Some((c - '0') as nat) else None
  }

  function Parse(s: string): Option<nat> {
    if s == "" then None
    else
      var last := DigitValue(s[|s| - 1]);
      if last.None? then None
      else if |s| == 1 then last
      else
        var rest := Parse(s[..|s| - 1]);
        if rest.None? then None else Some(10 * rest.value + last.value)
  }

  lemma {:induction false} ParseDec(n: nat)
    ensures Parse(Dec(n)) == Some(n)
  {
    assert DigitValue(Digit(n % 10)) == Some(n % 10);
    if n >= 10 {
      ParseDec(n / 10);
      var s := Dec(n);
      assert s[..|s| - 1] == Dec(n / 10);
    }
  }
}
