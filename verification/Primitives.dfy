/** Bytes, outpoints, hex digits and integer widths, shared by all parts. */
module Primitives {

  newtype byte = x: int | 0 <= x < 256

  type Txid = nat

  datatype OutPoint = OutPoint(txid: Txid, vout: nat)

  const I32_MAX: int := 0x7FFF_FFFF
  const U32_MAX: nat := 0xFFFF_FFFF
  const U64_MAX: nat := 0xFFFF_FFFF_FFFF_FFFF

  predicate IsHexLower(c: char) {
    '0' <= c <= '9' || 'a' <= c <= 'f'
  }

  predicate IsHexDigit(c: char) {
    IsHexLower(c) || 'A' <= c <= 'F'
  }

  function HexDigit(c: char): (n: nat)
    requires IsHexDigit(c)
    ensures n < 16
  {
    if '0' <= c <= '9' then c as int - '0' as int
    else if 'a' <= c <= 'f' then c as int - 'a' as int + 10
    else c as int - 'A' as int + 10
  }

  /** Lower-case printing, which reading inverts. */
  function HexChar(n: nat): (c: char)
    requires n < 16
    ensures IsHexLower(c) && HexDigit(c) == n
  {
    if n < 10 then '0' + n as char else 'a' + (n - 10) as char
  }
}
