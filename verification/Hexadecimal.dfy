/** "%02x" of bytes, and the reader that undoes it. */
module Hexadecimal {
  import opened Text

  type Byte = b: int | 0 <= b < 256

  function HexDigit(n: int): char
    requires 0 <= n < 16
  {
    if n < 10 then ('0' as int + n) as char else ('a' as int + n - 10) as char
  }

  function DigitValue(c: char): Option<int> {
    if '0' <= c <= '9' then Some(c as int - '0' as int)
    else if 'a' <= c <= 'f' then Some(c as int - 'a' as int + 10)
    else None
  }

  function Hex2(x: Byte): (h: string)
    ensures |h| == 2
  {
    [HexDigit(x / 16), HexDigit(x % 16)]
  }

  lemma HexDigitIs(n: int, digits: string)
    requires 0 <= n < 16 && digits == "0123456789abcdef"
    ensures HexDigit(n) == digits[n]
  {
  }

  /** High digit first, in lower case. */
  lemma Hex2Is(x: Byte, digits: string)
    requires digits == "0123456789abcdef"
    ensures Hex2(x) == [digits[x / 16], digits[x % 16]]
  {
    HexDigitIs(x / 16, digits);
    HexDigitIs(x % 16, digits);
  }

  function Hex(d: seq<Byte>): (h: string)
    ensures |h| == 2 * |d|
  {
    if d == [] then [] else Hex2(d[0]) + Hex(d[1..])
  }

  function Unhex(h: string): Option<seq<int>> {
    if h == [] then Some([])
    else if |h| == 1 then None
    else
      match (DigitValue(h[0]), DigitValue(h[1]), Unhex(h[2..]))
      case (Some(a), Some(b), Some(rest)) => Some([16 * a + b] + rest)
      case _ => None
  }

  lemma {:induction false} HexSnoc(d: seq<Byte>, x: Byte)
    ensures Hex(d + [x]) == Hex(d) + Hex2(x)
  {
    if d == [] {
      assert Hex([x]) == Hex2(x) + Hex([]);
    } else {
      assert (d + [x])[1..] == d[1..] + [x];
      HexSnoc(d[1..], x);
    }
  }

  lemma {:induction false} UnhexHex(d: seq<Byte>)
    ensures Unhex(Hex(d)) == Some(d)
  {
    if d != [] {
      UnhexHex(d[1..]);
      assert Hex(d)[0] == HexDigit(d[0] / 16) && Hex(d)[1] == HexDigit(d[0] % 16) && Hex(d)[2..] == Hex(d[1..]);
      assert 16 * (d[0] / 16) + d[0] % 16 == d[0] && [d[0]] + d[1..] == d;
      assert DigitValue(HexDigit(d[0] / 16)) == Some(d[0] / 16) && DigitValue(HexDigit(d[0] % 16)) == Some(d[0] % 16);
    }
  }
}
