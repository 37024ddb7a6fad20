/** The printf conversions the firmware uses. */
module Format {
  import opened Prelude

  function Digit(d: nat): char
    requires d < 16
  {
    if d < 10 then '0' + d as char else 'A' + (d - 10) as char
  }

  /** %u and %lld of a non-negative number. */
  function Decimal(n: nat): (s: string)
    ensures |s| > 0
    ensures forall i :: 0 <= i < |s| ==> '0' <= s[i] <= '9'
  {
    if n < 10 then [Digit(n)] else Decimal(n / 10) + [Digit(n % 10)]
  }

  lemma {:induction false} DecimalLength(n: nat, digits: nat)
    requires digits > 0 && n < Pow(10, digits)
    ensures |Decimal(n)| <= digits
  {
    if n >= 10 {
      assert digits > 1;
      DecimalLength(n / 10, digits - 1);
    }
  }

  /** The two hexadecimal digits of 16·high + low. */
  function HexFrom(high: nat, low: nat): (s: string)
    requires high + low / 16 < 16
    ensures |s| == 2
    decreases low
  {
    if low < 16 then [Digit(high), Digit(low)] else HexFrom(high + 1, low - 16)
  }

  /** %02X of each byte, separated by colons. */
  function MacText(mac: seq<Byte>): (s: string)
    ensures |s| == if |mac| == 0 then 0 else 3 * |mac| - 1
  {
    if |mac| == 0 then "" else
      var last := HexFrom(0, Last(mac));
      if |mac| == 1 then last else MacText(Front(mac)) + [':'] + last
  }

  lemma {:induction false} HexPair(high: nat, low: nat)
    requires high + low / 16 < 16
    ensures HexFrom(high, low) == [Digit(high + low / 16), Digit(low % 16)]
    decreases low
  {
    if low >= 16 {
      HexPair(high + 1, low - 16);
    }
  }

  lemma DigitIs(d: nat)
    requires d < 16
    ensures Digit(d) == "0123456789ABCDEF"[d]
  {
  }

  /** Two upper-case hexadecimal digits per byte, high half first, and colons between. */
  lemma {:induction false} MacTextAt(mac: seq<Byte>, i: nat)
    requires i < |mac|
    ensures MacText(mac)[3 * i] == "0123456789ABCDEF"[mac[i] / 16]
    ensures MacText(mac)[3 * i + 1] == "0123456789ABCDEF"[mac[i] % 16]
    ensures i + 1 < |mac| ==> MacText(mac)[3 * i + 2] == ':'
  {
    if i + 1 < |mac| {
      MacTextAt(Front(mac), i);
      assert MacText(mac)[..|MacText(Front(mac))|] == MacText(Front(mac));
      if i + 2 < |mac| {
        assert MacText(mac)[3 * i + 2] == MacText(Front(mac))[3 * i + 2];
      }
    } else {
      HexPair(0, mac[i]);
      DigitIs(mac[i] / 16);
      DigitIs(mac[i] % 16);
    }
  }

  function DottedQuad(ip: nat): string {
    Decimal(ip / 16777216 % 256) + "." + Decimal(ip / 65536 % 256) + "." +
    Decimal(ip / 256 % 256) + "." + Decimal(ip % 256)
  }

  function OrElse(s: string, default: string): string {
    if s == "" then default else s
  }
}
