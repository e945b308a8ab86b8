/** Canonical decimal integers as Python prints them, and the strict reader for them. */
module Decimal {
  import opened State

  predicate IsDigit(c: char) {
    '0' <= c <= '9'
  }

  predicate AllDigits(s: string) {
    forall i :: 0 <= i < |s| ==> IsDigit(s[i])
  }

  function Digit(d: int): (c: char)
    requires 0 <= d < 10
    ensures IsDigit(c)
  {
    ('0' as int + d) as char
  }

  function PrintNat(n: nat): (s: string)
    ensures s != "" && AllDigits(s)
  {
    if n < 10 then [Digit(n)] else PrintNat(n / 10) + [Digit(n % 10)]
  }

  function Print(n: int): string {
    if n < 0 then "-" + PrintNat(-n) else PrintNat(n)
  }

  /** Leading zeros are accepted. */
  function ParseNat(s: string): nat
    requires AllDigits(s)
  {
    if s == "" then 0 else ParseNat(s[..|s| - 1]) * 10 + (s[|s| - 1] as int - '0' as int)
  }

  function Parse(s: string): Option<int> {
    if s != "" && s[0] == '-' then
      if s[1..] != "" && AllDigits(s[1..]) then Some(0 - ParseNat(s[1..])) else None
    else if s != "" && AllDigits(s) then Some(ParseNat(s)) else None
  }

  lemma {:induction false} ParsePrintNat(n: nat)
    ensures ParseNat(PrintNat(n)) == n
  {
    if n < 10 {
      assert [Digit(n)][..0] == "";
    } else {
      ParsePrintNat(n / 10);
      var s := PrintNat(n);
      assert s[..|s| - 1] == PrintNat(n / 10);
    }
  }

  lemma ParsePrint(n: int)
    ensures Parse(Print(n)) == Some(n)
  {
    if n < 0 {
      ParsePrintNat(-n);
      assert Print(n)[1..] == PrintNat(-n);
    } else {
      ParsePrintNat(n);
    }
  }

  /** A proper prefix of a canonical decimal is a smaller number. */
  lemma {:induction false} PrefixIsSmaller(n: nat, k: nat)
    requires 0 < k < |PrintNat(n)|
    ensures ParseNat(PrintNat(n)[..k]) < n
  {
    var front := PrintNat(n / 10);
    if k < |front| {
      PrefixIsSmaller(n / 10, k);
      assert PrintNat(n)[..k] == front[..k];
    } else {
      ParsePrintNat(n / 10);
      assert PrintNat(n)[..k] == front;
    }
  }

  lemma TornDecimal(n: nat, k: nat)
    requires k < |Print(n)|
    ensures Parse(Print(n)[..k]) != Some(n)
  {
    if k > 0 {
      PrefixIsSmaller(n, k);
      assert IsDigit(Print(n)[0]);
    }
  }

  lemma PrintInjective(m: int, n: int)
    requires Print(m) == Print(n)
    ensures m == n
  {
    ParsePrint(m);
    ParsePrint(n);
  }

  /** The last digit comes last, and a minus sign first. */
  lemma PrintsByDigits(n: int)
    ensures Print(0) == "0" && Print(7) == "7" && Print(10) == "10" && Print(-3) == "-3"
    ensures n > 0 ==> Print(0 - n) == "-" + Print(n) && Print(10 * n + 5) == Print(n) + "5"
  {
    assert PrintNat(1) == "1" && PrintNat(10) == PrintNat(1) + "0";
  }
}
