/** UTF-8 as section 3 of RFC 3629 defines it. */
module Utf8 {
  import opened Wrappers

  type Byte = b: int | 0 <= b < 0x100

  /** Unicode scalar values: every code point that is not a surrogate. */
  predicate Scalar(cp: int) {
    0 <= cp < 0xD800 || 0xE000 <= cp < 0x11_0000
  }

  function EncodeScalar(cp: int): (bytes: seq<Byte>)
    requires Scalar(cp)
    ensures 1 <= |bytes| <= 4
  {
    if cp < 0x80 then [cp]
    else if cp < 0x800 then [0xC0 + cp / 0x40, 0x80 + cp % 0x40]
    else if cp < 0x1_0000 then [0xE0 + cp / 0x1000, 0x80 + cp / 0x40 % 0x40, 0x80 + cp % 0x40]
    else [0xF0 + cp / 0x4_0000, 0x80 + cp / 0x1000 % 0x40, 0x80 + cp / 0x40 % 0x40, 0x80 + cp % 0x40]
  }

  /** The length of a sequence that begins with this byte; 0 if none does. */
  function SequenceLength(b: Byte): (n: nat)
    ensures n <= 4
  {
    if b < 0x80 then 1 else if b < 0xC0 then 0 else if b < 0xE0 then 2 else if b < 0xF0 then 3 else if b < 0xF8 then 4 else 0
  }

  /** The number that the bits of a sequence hold, with its marker bits taken off. */
  function Bits(bytes: seq<Byte>): int
    requires 1 <= |bytes| <= 4
  {
    var b := (i: nat) requires i < |bytes| => bytes[i] as int;
    match |bytes|
    case 1 => b(0)
    case 2 => (b(0) - 0xC0) * 0x40 + (b(1) - 0x80)
    case 3 => (b(0) - 0xE0) * 0x1000 + (b(1) - 0x80) * 0x40 + (b(2) - 0x80)
    case _ => (b(0) - 0xF0) * 0x4_0000 + (b(1) - 0x80) * 0x1000 + (b(2) - 0x80) * 0x40 + (b(3) - 0x80)
  }

  /** The scalar value that a sequence encodes; None for overlong forms, surrogates and anything else
      that is no encoding. */
  function DecodeScalar(bytes: seq<Byte>): (cp: Option<int>)
    requires 1 <= |bytes| <= 4
    ensures cp.Some? ==> Scalar(cp.value) && EncodeScalar(cp.value) == bytes
  {
    if Scalar(Bits(bytes)) && EncodeScalar(Bits(bytes)) == bytes then Some(Bits(bytes)) else None
  }

  lemma DecodeInvertsEncode(cp: int)
    requires Scalar(cp)
    ensures DecodeScalar(EncodeScalar(cp)) == Some(cp)
    ensures SequenceLength(EncodeScalar(cp)[0]) == |EncodeScalar(cp)|
  {
    if cp >= 0x1_0000 {
      FourGroups(cp);
    } else if cp >= 0x800 {
      assert cp / 0x40 == cp / 0x1000 * 0x40 + cp / 0x40 % 0x40;
    }
  }

  lemma FourGroups(cp: int)
    requires 0 <= cp
    ensures cp == cp / 0x4_0000 * 0x4_0000 + cp / 0x1000 % 0x40 * 0x1000 + cp / 0x40 % 0x40 * 0x40 + cp % 0x40
  {
    assert cp / 0x40 / 0x40 == cp / 0x1000 && cp / 0x1000 / 0x40 == cp / 0x4_0000;
  }

  /** ASCII stands for itself, and in no other sequence is there an ASCII byte. */
  lemma AsciiStandsAlone(cp: int, b: Byte)
    requires Scalar(cp) && b < 0x80
    ensures b in EncodeScalar(cp) ==> cp == b && EncodeScalar(cp) == [b]
  {
  }
}
