/**
 * Addresses and entity ids. Every entity of the store is keyed by
 * `Bytes.toHexString()` of a chain address: "0x" followed by two lower-case
 * hexadecimal digits per byte.
 */
module Hex {

  /** One byte of an address or of a byte string. */
  newtype Byte = x: int | 0 <= x < 256

  /** A chain address as the event decoder hands it over (graph-ts `Bytes`). */
  type Address = seq<Byte>

  /** An entity key. */
  type Id = string

  predicate IsLowerHexDigit(c: char)
  {
    ('0' <= c <= '9') || ('a' <= c <= 'f')
  }

  /** The lower-case hexadecimal digit of a nibble. */
  function Digit(n: int): (c: char)
    requires 0 <= n < 16
    ensures IsLowerHexDigit(c)
    ensures DigitValue(c) == n
  {
    if n < 10 then ('0' as int + n) as char else ('a' as int + (n - 10)) as char
  }

  /** The nibble a lower-case hexadecimal digit stands for. */
  function DigitValue(c: char): int
    requires IsLowerHexDigit(c)
  {
    if c <= '9' then c as int - '0' as int else c as int - 'a' as int + 10
  }

  /** Two hexadecimal digits per byte, most significant nibble first. */
  function HexDigits(bs: seq<Byte>): (s: string)
    ensures |s| == 2 * |bs|
    ensures forall i :: 0 <= i < |s| ==> IsLowerHexDigit(s[i])
  {
    if bs == [] then []
    else [Digit(bs[0] as int / 16), Digit(bs[0] as int % 16)] + HexDigits(bs[1..])
  }

  /** `Bytes.toHexString()`: the canonical, lower-case form used as entity key. */
  function ToHexString(a: Address): (id: Id)
    ensures |id| == 2 + 2 * |a|
    ensures id[..2] == "0x"
    ensures forall i :: 2 <= i < |id| ==> IsLowerHexDigit(id[i])
  {
    "0x" + HexDigits(a)
  }

  /** Distinct byte strings never share their hexadecimal digits. */
  lemma {:induction false} HexDigitsInjective(a: seq<Byte>, b: seq<Byte>)
    requires HexDigits(a) == HexDigits(b)
    ensures a == b
  {
    if a != [] {
      assert |b| == |a|;
      var s := HexDigits(a);
      assert DigitValue(s[0]) == a[0] as int / 16 == b[0] as int / 16;
      assert DigitValue(s[1]) == a[0] as int % 16 == b[0] as int % 16;
      assert a[0] == b[0];
      assert HexDigits(a[1..]) == s[2..] == HexDigits(b[1..]);
      HexDigitsInjective(a[1..], b[1..]);
      assert a == [a[0]] + a[1..] && b == [b[0]] + b[1..];
    }
  }

  /**
   * Two addresses map to the same entity key exactly when they are the same
   * address, so keying the store by `toHexString()` neither merges nor splits
   * entities.
   */
  lemma ToHexStringInjective(a: Address, b: Address)
    ensures ToHexString(a) == ToHexString(b) <==> a == b
  {
    if ToHexString(a) == ToHexString(b) {
      assert HexDigits(a) == ToHexString(a)[2..] == ToHexString(b)[2..] == HexDigits(b);
      HexDigitsInjective(a, b);
    }
  }
}
