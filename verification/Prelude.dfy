/** Small vocabulary shared by all modules. */
module Prelude {
  type Byte = x: int | 0 <= x < 256

  /** A six-byte hardware address. */
  type Mac = m: seq<Byte> | |m| == 6 witness [0, 0, 0, 0, 0, 0]

  const NO_MAC: Mac := [0, 0, 0, 0, 0, 0]

  const MICROS_PER_SECOND := 1_000_000
  const TWO_TO_THE_32 := 0x1_0000_0000

  datatype Option<+T> = None | Some(value: T)

  function Min(a: int, b: int): int {
    if a < b then a else b
  }

  function Max(a: int, b: int): int {
    if a < b then b else a
  }

  /** The whole second a microsecond clock reading falls in. */
  function Second(micros: nat): (s: nat)
    ensures s * 1_000_000 <= micros < (s + 1) * 1_000_000
  {
    micros / MICROS_PER_SECOND
  }

  /** C division: the quotient is truncated toward zero. */
  function TruncatedDiv(a: int, b: int): int
    requires b > 0
  {
    if a >= 0 then a / b else -((-a) / b)
  }

  /** Incrementing an unsigned 32-bit counter. */
  function Increment32(n: nat): nat {
    if n + 1 == TWO_TO_THE_32 then 0 else n + 1
  }

  function Pow(b: nat, e: nat): nat {
    if e == 0 then 1 else b * Pow(b, e - 1)
  }

  function Front<T>(s: seq<T>): seq<T>
    requires |s| > 0
  {
    s[..|s| - 1]
  }

  function Last<T>(s: seq<T>): T
    requires |s| > 0
  {
    s[|s| - 1]
  }

  /** The first `n` elements, or all of them when there are fewer. */
  function Take<T>(s: seq<T>, n: nat): seq<T> {
    if n < |s| then s[..n] else s
  }

  /** The last `n` elements, or all of them when there are fewer. */
  function Newest<T>(s: seq<T>, n: nat): seq<T> {
    if n < |s| then s[|s| - n..] else s
  }

  function Reverse<T>(s: seq<T>): (r: seq<T>)
    ensures |r| == |s|
  {
    seq(|s|, i requires 0 <= i < |s| => s[|s| - 1 - i])
  }

  lemma ReplacePushed<T>(s: seq<T>, a: T, b: T)
    ensures (s + [a])[|s| := b] == s + [b] && (s + [a])[|s|] == a
  {
  }
}
