/** `encodeURIComponent`, `decodeURIComponent` and `replace`, and how the key of an object goes
    through all three of them. Strings are sequences of Unicode scalar values. */
module PercentEncoding {
  import opened Wrappers
  import opened Sequences
  import opened Text
  import opened Utf8

  // ---------------------------------------------------------------- escapes

  predicate Unreserved(c: char) {
    'a' <= c <= 'z' || 'A' <= c <= 'Z' || IsDigit(c) || c in "-_.!~*'()"
  }

  function HexDigit(d: nat): (c: char)
    requires d < 16
    ensures HexValue(c) == Some(d)
  {
    if d < 10 then '0' + d as char else 'A' + (d - 10) as char
  }

  function HexValue(c: char): (d: Option<nat>)
    ensures d.Some? ==> d.value < 16
  {
    if '0' <= c <= '9' then Some((c - '0') as nat)
    else if 'A' <= c <= 'F' then Some(10 + (c - 'A') as nat)
    else if 'a' <= c <= 'f' then Some(10 + (c - 'a') as nat)
    else None
  }

  function Escape(b: Byte): (s: string)
    ensures |s| == 3 && s[0] == '%' && s[1] != '%' && s[2] != '%'
  {
    ['%', HexDigit(b / 16), HexDigit(b % 16)]
  }

  function EscapeAll(bytes: seq<Byte>): (s: string)
    ensures |s| == 3 * |bytes|
  {
    if bytes == [] then "" else Escape(bytes[0]) + EscapeAll(bytes[1..])
  }

  function EncodeChar(c: char): string {
    if Unreserved(c) then [c] else EscapeAll(EncodeScalar(c as int))
  }

  /** Letters, digits and nine marks stand for themselves; every other character becomes escapes, three characters
      for each byte of its UTF-8 form, in capitals. */
  lemma EncodeCharExactly(c: char)
    ensures EncodeChar(c) == [c] <==> 'a' <= c <= 'z' || 'A' <= c <= 'Z' || '0' <= c <= '9' || c in ['-', '_', '.', '!', '~', '*', '\'', '(', ')']
    ensures EncodeChar(c) != [c] ==>
      && |EncodeChar(c)| == 3 * |EncodeScalar(c as int)|
      && forall i | 0 <= i < |EncodeChar(c)| :: EncodeChar(c)[i] == '%' || '0' <= EncodeChar(c)[i] <= '9' || 'A' <= EncodeChar(c)[i] <= 'F'
  {
    EscapesAreCapital(EncodeScalar(c as int));
    assert c in "-_.!~*'()" <==> c in ['-', '_', '.', '!', '~', '*', '\'', '(', ')'];
  }

  lemma {:induction false} EscapesAreCapital(bytes: seq<Byte>)
    ensures forall i | 0 <= i < |EscapeAll(bytes)| ::
      EscapeAll(bytes)[i] == '%' || '0' <= EscapeAll(bytes)[i] <= '9' || 'A' <= EscapeAll(bytes)[i] <= 'F'
  {
    if bytes != [] {
      EscapesAreCapital(bytes[1..]);
    }
  }

  function EncodeURIComponent(s: string): string {
    if s == "" then "" else EncodeChar(s[0]) + EncodeURIComponent(s[1..])
  }

  /** The byte of an escape at the front. */
  function EscapedByte(s: string): Option<Byte> {
    if |s| < 3 || s[0] != '%' || HexValue(s[1]).None? || HexValue(s[2]).None? then None
    else Some(HexValue(s[1]).value * 16 + HexValue(s[2]).value)
  }

  /** The bytes of n escapes at the front. */
  function EscapedBytes(s: string, n: nat): (bytes: Option<seq<Byte>>)
    ensures bytes.Some? ==> |bytes.value| == n && 3 * n <= |s|
  {
    if n == 0 then Some([])
    else
      match EscapedByte(s)
      case None => None
      case Some(b) =>
        match EscapedBytes(s[3..], n - 1)
        case None => None
        case Some(bytes) => Some([b] + bytes)
  }

  /** None where the source throws. */
  function DecodeURIComponent(s: string): Option<string>
    decreases |s|
  {
    if s == "" then Some("")
    else if s[0] != '%' then Prepend(s[0], DecodeURIComponent(s[1..]))
    else
      match EscapedByte(s)
      case None => None
      case Some(b) =>
        var n := SequenceLength(b);
        if n == 0 then None
        else
          match EscapedBytes(s, n)
          case None => None
          case Some(bytes) =>
            if DecodeScalar(bytes).None? then None else Prepend(DecodeScalar(bytes).value as char, DecodeURIComponent(s[3 * n..]))
  }

  function Prepend(c: char, s: Option<string>): Option<string> {
    if s.Some? then Some([c] + s.value) else None
  }

  /** `s.replace(/pattern/g, with)` for a pattern that is a plain text. */
  function ReplaceAll(s: string, pattern: string, with: string): string
    requires pattern != ""
    decreases |s|
  {
    if s == "" then ""
    else if pattern <= s then with + ReplaceAll(s[|pattern|..], pattern, with)
    else [s[0]] + ReplaceAll(s[1..], pattern, with)
  }

  // ---------------------------------------------------------------- decoding undoes encoding

  lemma EscapedByteInverts(b: Byte, rest: string)
    ensures EscapedByte(Escape(b) + rest) == Some(b)
  {
    var s := Escape(b) + rest;
    assert s[1] == HexDigit(b / 16) && s[2] == HexDigit(b % 16);
  }

  lemma {:induction false} EscapedBytesInvert(bytes: seq<Byte>, rest: string)
    ensures EscapedBytes(EscapeAll(bytes) + rest, |bytes|) == Some(bytes)
  {
    if bytes != [] {
      var s := EscapeAll(bytes) + rest;
      Reassociate(Escape(bytes[0]), EscapeAll(bytes[1..]), rest);
      EscapedByteInverts(bytes[0], EscapeAll(bytes[1..]) + rest);
      assert s[3..] == EscapeAll(bytes[1..]) + rest;
      EscapedBytesInvert(bytes[1..], rest);
      assert [bytes[0]] + bytes[1..] == bytes;
    }
  }

  lemma DecodeEscapes(c: char, rest: string)
    ensures DecodeURIComponent(EscapeAll(EncodeScalar(c as int)) + rest) == Prepend(c, DecodeURIComponent(rest))
  {
    var bytes := EncodeScalar(c as int);
    var s := EscapeAll(bytes) + rest;
    DecodeInvertsEncode(c as int);
    Reassociate(Escape(bytes[0]), EscapeAll(bytes[1..]), rest);
    EscapedByteInverts(bytes[0], EscapeAll(bytes[1..]) + rest);
    EscapedBytesInvert(bytes, rest);
    assert s[0] == '%' && s[3 * |bytes|..] == rest;
  }

  lemma DecodeOrdinary(c: char, rest: string)
    requires c != '%'
    ensures DecodeURIComponent([c] + rest) == Prepend(c, DecodeURIComponent(rest))
  {
    assert ([c] + rest)[1..] == rest;
  }

  lemma DecodeChar(c: char, rest: string)
    ensures DecodeURIComponent(EncodeChar(c) + rest) == Prepend(c, DecodeURIComponent(rest))
  {
    if Unreserved(c) {
      DecodeOrdinary(c, rest);
    } else {
      DecodeEscapes(c, rest);
    }
  }

  lemma {:induction false} DecodeInvertsEncodeURIComponent(s: string)
    ensures DecodeURIComponent(EncodeURIComponent(s)) == Some(s)
  {
    if s != "" {
      var rest := s[1..];
      DecodeInvertsEncodeURIComponent(rest);
      DecodeChar(s[0], EncodeURIComponent(rest));
      assert [s[0]] + rest == s;
    }
  }
}
