/** Cutting log messages, which are strings of UTF-16 code units, to a number of UTF-8 bytes. */
module LogSplitting {
  import opened Wrappers
  import opened Utf8

  type CodeUnit = u: int | 0 <= u < 0x1_0000

  type Utf16 = seq<CodeUnit>

  predicate PairAt(s: Utf16, i: nat) {
    i + 1 < |s| && 0xD800 <= s[i] < 0xDC00 && 0xDC00 <= s[i + 1] < 0xE000
  }

  /** `str.codePointAt(i)`: the whole pair at its first half, the bare surrogate at its second. */
  function CodePointAt(s: Utf16, i: nat): (cp: int)
    requires i < |s|
    ensures 0 <= cp <= 0x10_FFFF
  {
    if PairAt(s, i) then
      var high: int, low: int := s[i], s[i + 1];
      0x1_0000 + (high - 0xD800) * 0x400 + (low - 0xDC00)
    else s[i]
  }

  /** It is the code point that the pair was made of. */
  lemma PairsJoin(cp: int)
    requires 0x1_0000 <= cp <= 0x10_FFFF
    ensures var pair := [0xD800 + (cp - 0x1_0000) / 0x400, 0xDC00 + (cp - 0x1_0000) % 0x400]; PairAt(pair, 0) && CodePointAt(pair, 0) == cp
  {
  }

  /** None where the source throws. */
  function CodePointUtf8ByteLength(codePoint: int): Option<nat> {
    if codePoint < 0 then None
    else if codePoint <= 0x7f then Some(1)
    else if codePoint <= 0x7ff then Some(2)
    else if codePoint <= 0xffff then Some(3)
    else if codePoint <= 0x10ffff then Some(4)
    else None
  }

  /** What the loop of `byteSubString` counts for the code unit at i. */
  function CountAt(s: Utf16, i: nat): (n: nat)
    requires i < |s|
    ensures CodePointUtf8ByteLength(CodePointAt(s, i)) == Some(n) && 1 <= n <= 4
  {
    CodePointUtf8ByteLength(CodePointAt(s, i)).value
  }

  /** What it counts for the first n code units. */
  function Count(s: Utf16, n: nat): nat
    requires n <= |s|
  {
    if n == 0 then 0 else Count(s, n - 1) + CountAt(s, n - 1)
  }

  /** `text` is the longest prefix of `str` whose count stays within the limit. */
  ghost predicate LongestCut(str: Utf16, limit: nat, text: Utf16, byteLength: nat) {
    && text <= str
    && byteLength == Count(str, |text|) <= limit
    && (|text| < |str| ==> Count(str, |text| + 1) > limit)
  }

  method ByteSubString(str: Utf16, maxLengthInBytes: nat) returns (text: Utf16, byteLength: nat)
    ensures LongestCut(str, maxLengthInBytes, text, byteLength)
    ensures text == str[..Cut(str, maxLengthInBytes)]
  {
    byteLength := 0;
    for i := 0 to |str|
      invariant byteLength == Count(str, i) <= maxLengthInBytes
    {
      var codePointLength := CodePointUtf8ByteLength(CodePointAt(str, i)).value;
      assert codePointLength == CountAt(str, i);
      if byteLength + codePointLength > maxLengthInBytes {
        CutIsLongest(str, maxLengthInBytes, i);
        return str[..i], byteLength;
      }
      byteLength := byteLength + codePointLength;
    }
    CutIsLongest(str, maxLengthInBytes, |str|);
    assert str[..|str|] == str;
    return str, byteLength;
  }

  /** The length of the longest prefix within the limit, searched for from the end. */
  function CutFrom(s: Utf16, limit: nat, n: nat): (k: nat)
    requires n <= |s|
    ensures k <= n && Count(s, k) <= limit
  {
    if Count(s, n) <= limit then n else CutFrom(s, limit, n - 1)
  }

  function Cut(s: Utf16, limit: nat): (k: nat)
    ensures k <= |s| && Count(s, k) <= limit
  {
    CutFrom(s, limit, |s|)
  }

  lemma {:induction false} CountGrows(s: Utf16, m: nat, n: nat)
    requires m <= n <= |s|
    ensures Count(s, m) + (n - m) <= Count(s, n) <= Count(s, m) + 4 * (n - m)
  {
    if m < n {
      CountGrows(s, m, n - 1);
    }
  }

  lemma CutFromBound(s: Utf16, limit: nat, n: nat, m: nat)
    requires m <= n <= |s| && Count(s, m) <= limit
    ensures CutFrom(s, limit, n) >= m
  {
  }

  lemma CutIsLongest(s: Utf16, limit: nat, n: nat)
    requires n <= |s| && Count(s, n) <= limit && (n < |s| ==> Count(s, n + 1) > limit)
    ensures Cut(s, limit) == n
  {
    CutFromBound(s, limit, |s|, n);
    var k := Cut(s, limit);
    if k > n {
      CountGrows(s, n + 1, k);
    }
  }

  /** A limit of four bytes or more always leaves room for one code unit. */
  lemma CutMakesProgress(s: Utf16, limit: nat)
    requires s != [] && limit >= 4
    ensures Cut(s, limit) > 0
  {
    assert Count(s, 1) == CountAt(s, 0);
    CutFromBound(s, limit, |s|, 1);
  }

  /** What follows the cut does not fit, and one code unit counts for at most four. */
  lemma CutLeavesNoRoom(s: Utf16, limit: nat)
    ensures Cut(s, limit) < |s| ==> Count(s, Cut(s, limit)) + 4 > limit
  {
    var k := Cut(s, limit);
    if k < |s| && Count(s, k + 1) <= limit {
      CutFromBound(s, limit, |s|, k + 1);
    }
  }

  // ---------------------------------------------------------------- the count is a safe bound

  /** The UTF-8 form of a UTF-16 string, with U+FFFD for a surrogate that has lost its other half. */
  function ToUtf8(s: Utf16): seq<Byte> {
    if s == [] then []
    else if PairAt(s, 0) then EncodeScalar(CodePointAt(s, 0)) + ToUtf8(s[2..])
    else EncodeScalar(if Scalar(s[0]) then s[0] else 0xFFFD) + ToUtf8(s[1..])
  }

  /** What the loop counts between two positions. */
  function CountBetween(s: Utf16, m: nat, n: nat): int
    requires m <= n <= |s|
  {
    Count(s, n) - Count(s, m)
  }

  /** The number of surrogate pairs that begin in the first n code units. */
  function Pairs(s: Utf16, n: nat): nat
    requires n <= |s|
  {
    if n == 0 then 0 else Pairs(s, n - 1) + if PairAt(s, n - 1) then 1 else 0
  }

  /** Whether a cut at n divides a pair. */
  predicate CutsPair(s: Utf16, n: nat) {
    n > 0 && PairAt(s, n - 1)
  }

  lemma {:induction false} CountExactlyFrom(s: Utf16, m: nat, n: nat)
    requires m <= n <= |s| && !CutsPair(s, m)
    ensures CountBetween(s, m, n)
         == |ToUtf8(s[m..n])| + 3 * (Pairs(s, n) - Pairs(s, m)) - (if m < n && CutsPair(s, n) then 2 else 0)
    decreases n - m
  {
    var t := s[m..n];
    if m < n {
      assert t[0] == s[m];
      assert Count(s, m + 1) == Count(s, m) + CountAt(s, m) && Pairs(s, m + 1) == Pairs(s, m) + if PairAt(s, m) then 1 else 0;
      if PairAt(s, m) && m + 1 < n {
        assert t[1] == s[m + 1] && PairAt(t, 0) && CodePointAt(t, 0) == CodePointAt(s, m);
        assert t[2..] == s[m + 2..n] && !PairAt(s, m + 1);
        assert Count(s, m + 2) == Count(s, m + 1) + CountAt(s, m + 1) && Pairs(s, m + 2) == Pairs(s, m + 1);
        CountExactlyFrom(s, m + 2, n);
        SizeOf(CodePointAt(s, m));
      } else if PairAt(s, m) {
        assert t == [s[m]] && t[1..] == [];
      } else {
        assert t[1..] == s[m + 1..n] && !PairAt(t, 0);
        CountExactlyFrom(s, m + 1, n);
        SizeOf(if Scalar(s[m]) then s[m] else 0xFFFD);
      }
    }
  }

  /** The size of the UTF-8 form of a scalar value, which the source takes of every code point. */
  lemma SizeOf(cp: int)
    requires Scalar(cp)
    ensures CodePointUtf8ByteLength(cp) == Some(|EncodeScalar(cp)|)
  {
  }

  /** The count is the size of the UTF-8 form, and three more for each surrogate pair, whose second half is
      counted again; a pair that is cut counts for one more. */
  lemma CountExactly(s: Utf16, n: nat)
    requires n <= |s|
    ensures Count(s, n) == |ToUtf8(s[..n])| + 3 * Pairs(s, n) - (if CutsPair(s, n) then 2 else 0)
  {
    CountExactlyFrom(s, 0, n);
    assert s[0..n] == s[..n];
  }

  lemma {:induction false} CountBoundsUtf8From(s: Utf16, m: nat, n: nat)
    requires m <= n <= |s|
    ensures |ToUtf8(s[m..n])| <= CountBetween(s, m, n)
    decreases n - m
  {
    var t := s[m..n];
    if m < n {
      var step := if PairAt(t, 0) then 2 else 1;
      assert t[step..] == s[m + step..n];
      CountBoundsUtf8From(s, m + step, n);
      assert t[0] == s[m];
      if PairAt(t, 0) {
        assert t[1] == s[m + 1];
        assert CodePointAt(t, 0) == CodePointAt(s, m);
      }
      assert Count(s, m + 1) == Count(s, m) + CountAt(s, m);
    }
  }

  /** Cut anywhere, even inside a surrogate pair, a prefix needs no more UTF-8 bytes than were counted. */
  lemma CountBoundsUtf8(s: Utf16, n: nat)
    requires n <= |s|
    ensures |ToUtf8(s[..n])| <= Count(s, n)
  {
    CountBoundsUtf8From(s, 0, n);
    assert s[0..n] == s[..n];
  }
}
