/** Go's %d: decimal rendering of an integer, and its inverse. */
module Decimal {
  import opened Wrappers

  predicate AllDigits(s: string) {
    forall i | 0 <= i < |s| :: '0' <= s[i] <= '9'
  }

  function Digit(d: int): (c: char)
    requires 0 <= d < 10
    ensures '0' <= c <= '9' && c as int - '0' as int == d
  {
    ('0' as int + d) as char
  }

  /** The number a digit string denotes; the empty string denotes 0. */
  function Value(s: string): nat
    requires AllDigits(s)
  {
    if s == "" then 0
    else Value(s[..|s| - 1]) * 10 + (s[|s| - 1] as int - '0' as int)
  }

  function Nat(n: nat): (s: string)
    ensures s != "" && AllDigits(s) && Value(s) == n
  {
    if n < 10 then
      assert Value([Digit(n)][..0]) == 0;
      [Digit(n)]
    else
      var high := Nat(n / 10);
      var s := high + [Digit(n % 10)];
      assert s[..|s| - 1] == high;
      s
  }

  function Int(n: int): (s: string)
    ensures s != ""
  {
    if n < 0 then "-" + Nat(-n) else Nat(n)
  }

  function ParseInt(s: string): Option<int> {
    if s == "" then None
    else if s[0] == '-' then
      if s[1..] != "" && AllDigits(s[1..]) then
        var n: int := 0 - Value(s[1..]);
        Some(n)
      else None
    else if AllDigits(s) then Some(Value(s))
    else None
  }

  lemma IntRoundTrip(n: int)
    ensures ParseInt(Int(n)) == Some(n)
  {
    if n < 0 {
      assert Int(n)[1..] == Nat(-n);
    }
  }
}
