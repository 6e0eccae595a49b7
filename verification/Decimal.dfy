/** "%ld": decimal text of an integer, and the reader that undoes it. */
module Decimal {
  import opened Text

  predicate IsDigit(c: char) {
    '0' <= c <= '9'
  }

  function Digit(d: int): (c: char)
    requires 0 <= d < 10
    ensures IsDigit(c)
  {
    ('0' as int + d) as char
  }

  function PrintNat(n: nat): (s: string)
    ensures s != [] && forall i :: 0 <= i < |s| ==> IsDigit(s[i])
  {
    if n < 10 then [Digit(n)] else PrintNat(n / 10) + [Digit(n % 10)]
  }

  function Print(n: int): string {
    if n < 0 then "-" + PrintNat(-n) else PrintNat(n)
  }

  function ReadNat(s: string): Option<int> {
    if s == [] || !IsDigit(s[|s| - 1]) then None
    else
      var d := s[|s| - 1] as int - '0' as int;
      if |s| == 1 then Some(d)
      else
        match ReadNat(s[..|s| - 1])
        case Some(n) => Some(10 * n + d)
        case None => None
  }

  function Read(s: string): Option<int> {
    if s != [] && s[0] == '-' then
      match ReadNat(s[1..])
      case Some(n) => Some(-n)
      case None => None
    else ReadNat(s)
  }

  lemma {:induction false} ReadPrintNat(n: nat)
    ensures ReadNat(PrintNat(n)) == Some(n)
  {
    if n >= 10 {
      ReadPrintNat(n / 10);
      assert PrintNat(n)[..|PrintNat(n)| - 1] == PrintNat(n / 10);
    }
  }

  lemma ReadPrint(n: int)
    ensures Read(Print(n)) == Some(n)
  {
    ReadPrintNat(if n < 0 then -n else n);
  }

  function Pow10(k: nat): nat { if k == 0 then 1 else 10 * Pow10(k - 1) }

  lemma Pow10Four(k: nat)
    ensures Pow10(k + 4) == 10000 * Pow10(k)
  {
    assert Pow10(k + 1) == 10 * Pow10(k);
    assert Pow10(k + 2) == 10 * Pow10(k + 1);
    assert Pow10(k + 3) == 10 * Pow10(k + 2);
  }

  lemma {:induction false} PrintNatLength(n: nat, k: nat)
    requires n < Pow10(k) && k >= 1
    ensures |PrintNat(n)| <= k
  {
    if n >= 10 {
      PrintNatLength(n / 10, k - 1);
    }
  }

  /** Numbers of 32 bits, signed or not, print in at most 11 characters. */
  lemma WordLength(n: int)
    requires -0x8000_0000 <= n < 0x1_0000_0000
    ensures |Print(n)| <= 11
  {
    assert Pow10(2) == 100;
    Pow10Four(2);
    Pow10Four(6);
    PrintNatLength(if n < 0 then -n else n, 10);
  }

  /** A C long: at most 64 bits (32 on the ESP32, whose values are among these). */
  predicate IsLong(n: int) {
    -0x8000_0000_0000_0000 <= n < 0x8000_0000_0000_0000
  }

  /** It prints in at most 20 characters. */
  lemma LongLength(n: int)
    requires IsLong(n)
    ensures |Print(n)| <= 20
  {
    assert Pow10(3) == 1000;
    Pow10Four(3);
    Pow10Four(7);
    Pow10Four(11);
    Pow10Four(15);
    PrintNatLength(if n < 0 then -n else n, 19);
  }

  /** n without its last k decimal digits. */
  function Cut(n: nat, k: nat): nat {
    if k == 0 then n else Cut(n / 10, k - 1)
  }

  lemma {:induction false} NatDigit(n: nat, k: nat)
    requires k < |PrintNat(n)|
    ensures PrintNat(n)[|PrintNat(n)| - 1 - k] as int == '0' as int + Cut(n, k) % 10
    ensures n > 0 ==> PrintNat(n)[0] != '0'
  {
    if n >= 10 {
      var rest := PrintNat(n / 10);
      NatDigit(n / 10, if k > 0 then k - 1 else 0);
      if k > 0 {
        assert PrintNat(n)[|PrintNat(n)| - 1 - k] == rest[|rest| - 1 - (k - 1)];
      }
    }
  }

  /** Digit k from the right is the k-th decimal digit; '-' is before exactly the negative numbers; no leading zero. */
  lemma PrintExactly(n: int, k: nat)
    requires k < |Print(n)| - if n < 0 then 1 else 0
    ensures Print(n)[0] == '-' <==> n < 0
    ensures var a := if n < 0 then -n else n; Print(n)[|Print(n)| - 1 - k] as int == '0' as int + Cut(a, k) % 10
    ensures n != 0 ==> Print(n)[if n < 0 then 1 else 0] != '0'
  {
    var digits := PrintNat(if n < 0 then -n else n);
    NatDigit(if n < 0 then -n else n, k);
    assert Print(n)[|Print(n)| - 1 - k] == digits[|digits| - 1 - k];
  }
}
