/** The path of a URL that `buildS3Url` writes for a key, and how `S3Locator` reads it back. */
module S3Keys {
  import opened Wrappers
  import opened Sequences
  import opened Text
  import opened Utf8
  import opened PercentEncoding
  import opened Urls

  /** `encodeURIComponent(key).replace(/%20/g, "+").replace(/%2F/g, "/")`. */
  function KeyPath(key: string): string {
    ReplaceAll(ReplaceAll(EncodeURIComponent(key), "%20", "+"), "%2F", "/")
  }

  /** `decodeURIComponent(pathname.replace(/\+/g, "%20"))`. */
  function ReadPath(pathname: string): (r: Option<string>)
    ensures StartsWith(pathname, "/") && r.Some? ==> StartsWith(r.value, "/")
  {
    DecodeURIComponent(ReplaceAll(pathname, "+", "%20"))
  }

  // ---------------------------------------------------------------- the path, one character at a time

  /** What stands for one character at each of the four stages. */
  datatype Stage = Encoded | Spaced | Written | Reread {
    function Piece(c: char): string {
      if c == ' ' then (if Encoded? || Reread? then "%20" else "+")
      else if c == '/' then (if Encoded? || Spaced? then "%2F" else "/")
      else EncodeChar(c)
    }

    function Pieces(s: string): string {
      FlatMap(Piece, s)
    }
  }

  lemma SpaceAndSlash()
    ensures EncodeChar(' ') == "%20" && EncodeChar('/') == "%2F" && Escape(0x20) == "%20" && Escape(0x2F) == "%2F"
  {
    assert EscapeAll([0x20]) == Escape(0x20) + EscapeAll([0x20][1..]);
    assert EscapeAll([0x2F]) == Escape(0x2F) + EscapeAll([0x2F][1..]);
  }

  lemma {:induction false} EncodedIsPieces(s: string)
    ensures EncodeURIComponent(s) == Encoded.Pieces(s)
  {
    if s != "" {
      SpaceAndSlash();
      EncodedIsPieces(s[1..]);
    }
  }

  // ---------------------------------------------------------------- replacing

  /** A pattern that begins with a percent sign is found at an escape or not at all. */
  lemma ReplaceEscape(b: Byte, rest: string, pattern: string, with: string)
    requires |pattern| == 3 && pattern[0] == '%'
    ensures ReplaceAll(Escape(b) + rest, pattern, with)
         == (if Escape(b) == pattern then with else Escape(b)) + ReplaceAll(rest, pattern, with)
  {
    var s := Escape(b) + rest;
    assert s[..3] == Escape(b) && s[3..] == rest;
    if Escape(b) != pattern {
      ReplaceNothing(s, 3, pattern, with);
    }
  }

  /** Characters at which the pattern does not begin stay. */
  lemma {:induction false} ReplaceNothing(s: string, n: nat, pattern: string, with: string)
    requires pattern != "" && n <= |s| && forall i | 0 <= i < n :: !(pattern <= s[i..])
    ensures ReplaceAll(s, pattern, with) == s[..n] + ReplaceAll(s[n..], pattern, with)
  {
    if n > 0 {
      assert s[0..] == s;
      assert forall i | 0 <= i < n - 1 :: s[1..][i..] == s[i + 1..];
      ReplaceNothing(s[1..], n - 1, pattern, with);
      assert s[1..][n - 1..] == s[n..];
      assert s[..n] == [s[0]] + s[1..][..n - 1];
    } else {
      assert s[0..] == s && s[..0] == "";
    }
  }

  lemma ReplaceOrdinary(c: char, rest: string, pattern: string, with: string)
    requires pattern != "" && pattern[0] != c
    ensures ReplaceAll([c] + rest, pattern, with) == [c] + ReplaceAll(rest, pattern, with)
  {
    assert ([c] + rest)[1..] == rest;
  }

  lemma {:induction false} ReplaceNoEscape(bytes: seq<Byte>, rest: string, b: Byte, with: string)
    requires b !in bytes
    ensures ReplaceAll(EscapeAll(bytes) + rest, Escape(b), with) == EscapeAll(bytes) + ReplaceAll(rest, Escape(b), with)
  {
    if bytes == [] {
      assert EscapeAll(bytes) + rest == rest;
    } else {
      EscapesDiffer(b, bytes[0]);
      Reassociate(Escape(bytes[0]), EscapeAll(bytes[1..]), rest);
      ReplaceEscape(bytes[0], EscapeAll(bytes[1..]) + rest, Escape(b), with);
      ReplaceNoEscape(bytes[1..], rest, b, with);
    }
  }

  lemma EscapesDiffer(a: Byte, b: Byte)
    ensures Escape(a) == Escape(b) <==> a == b
  {
    EscapedByteInverts(a, "");
    EscapedByteInverts(b, "");
  }

  /** A character that is no ASCII character b is untouched by the replacement of the escape of b. */
  lemma ReplaceChar(c: char, rest: string, b: Byte, with: string)
    requires b < 0x80 && c as int != b
    ensures ReplaceAll(EncodeChar(c) + rest, Escape(b), with) == EncodeChar(c) + ReplaceAll(rest, Escape(b), with)
  {
    if Unreserved(c) {
      ReplaceOrdinary(c, rest, Escape(b), with);
    } else {
      AsciiStandsAlone(c as int, b);
      ReplaceNoEscape(EncodeScalar(c as int), rest, b, with);
    }
  }

  lemma {:induction false} SpacesReplaced(s: string)
    ensures ReplaceAll(Encoded.Pieces(s), "%20", "+") == Spaced.Pieces(s)
  {
    if s != "" {
      var rest := Encoded.Pieces(s[1..]);
      SpaceAndSlash();
      SpacesReplaced(s[1..]);
      if s[0] == ' ' {
        ReplaceEscape(0x20, rest, "%20", "+");
      } else {
        ReplaceChar(s[0], rest, 0x20, "+");
      }
    }
  }

  lemma {:induction false} SlashesReplaced(s: string)
    ensures ReplaceAll(Spaced.Pieces(s), "%2F", "/") == Written.Pieces(s)
  {
    if s != "" {
      var rest := Spaced.Pieces(s[1..]);
      SpaceAndSlash();
      SlashesReplaced(s[1..]);
      if s[0] == '/' {
        ReplaceEscape(0x2F, rest, "%2F", "/");
      } else if s[0] == ' ' {
        ReplaceOrdinary('+', rest, "%2F", "/");
      } else {
        ReplaceChar(s[0], rest, 0x2F, "/");
      }
    }
  }

  /** The path of a key is written one character at a time. */
  lemma KeyPathIsPieces(key: string)
    ensures KeyPath(key) == Written.Pieces(key)
  {
    EncodedIsPieces(key);
    SpacesReplaced(key);
    SlashesReplaced(key);
  }

  // ---------------------------------------------------------------- reading

  /** No escape contains a plus sign, and a plus sign in a key is escaped. */
  lemma {:induction false} NoPlusInEscapes(bytes: seq<Byte>)
    ensures '+' !in EscapeAll(bytes)
  {
    if bytes != [] {
      NoPlusInEscapes(bytes[1..]);
    }
  }

  lemma ReplaceNoPlus(u: string, rest: string)
    requires '+' !in u
    ensures ReplaceAll(u + rest, "+", "%20") == u + ReplaceAll(rest, "+", "%20")
  {
    var s := u + rest;
    forall i | 0 <= i < |u| ensures !("+" <= s[i..]) {
      assert s[i..][0] == u[i];
    }
    ReplaceNothing(s, |u|, "+", "%20");
    assert s[..|u|] == u && s[|u|..] == rest;
  }

  lemma {:induction false} PlusesReplaced(s: string)
    ensures ReplaceAll(Written.Pieces(s), "+", "%20") == Reread.Pieces(s)
  {
    if s != "" {
      var rest := Written.Pieces(s[1..]);
      PlusesReplaced(s[1..]);
      if s[0] == ' ' {
        assert ("+" + rest)[1..] == rest;
      } else {
        if s[0] != '/' {
          NoPlusInEscapes(EncodeScalar(s[0] as int));
        }
        ReplaceNoPlus(Written.Piece(s[0]), rest);
      }
    }
  }

  lemma {:induction false} RereadDecodes(s: string)
    ensures DecodeURIComponent(Reread.Pieces(s)) == Some(s)
  {
    if s != "" {
      var rest := Reread.Pieces(s[1..]);
      SpaceAndSlash();
      RereadDecodes(s[1..]);
      if s[0] == '/' {
        DecodeOrdinary('/', rest);
      } else {
        DecodeChar(s[0], rest);
      }
      assert [s[0]] + s[1..] == s;
    }
  }

  /** Reading a written path gives the text back, whatever it contains. */
  lemma ReadInvertsWrite(s: string)
    ensures ReadPath(Written.Pieces(s)) == Some(s)
  {
    PlusesReplaced(s);
    RereadDecodes(s);
  }

  // ---------------------------------------------------------------- segments

  function AllWritten(parts: seq<string>): (paths: seq<string>)
    ensures |paths| == |parts| && forall i | 0 <= i < |parts| :: paths[i] == Written.Pieces(parts[i])
  {
    if parts == [] then [] else [Written.Pieces(parts[0])] + AllWritten(parts[1..])
  }

  lemma AllWrittenCons(p: string, parts: seq<string>)
    ensures AllWritten([p] + parts) == [Written.Pieces(p)] + AllWritten(parts)
  {
    assert ([p] + parts)[1..] == parts;
  }

  /** The segments of a written path are the written segments. */
  lemma {:induction false} SegmentsOfWritten(s: string)
    ensures Split(Written.Pieces(s), '/') == AllWritten(Split(s, '/'))
    decreases |s|
  {
    var p := Before(s, '/');
    NoSlashWritten(p);
    if p == s {
      SplitSingle(Written.Pieces(p), '/');
      AllWrittenCons(p, []);
      assert Split(s, '/') == [p] && [p] + [] == [p];
    } else {
      var rest := s[|p| + 1..];
      WrittenSlash(p, rest);
      assert s == p + ['/'] + rest;
      SplitCons(Written.Pieces(p), '/', Written.Pieces(rest));
      SegmentsOfWritten(rest);
      AllWrittenCons(p, Split(rest, '/'));
    }
  }

  lemma WrittenSlash(p: string, rest: string)
    ensures Written.Pieces(p + ['/'] + rest) == Written.Pieces(p) + ['/'] + Written.Pieces(rest)
  {
    FlatMapAround(Written.Piece, p, '/', rest);
  }

  lemma {:induction false} NoSlashWritten(s: string)
    requires '/' !in s
    ensures '/' !in Written.Pieces(s)
  {
    if s != "" {
      NoSlashWritten(s[1..]);
      NoSlashInEscapes(EncodeScalar(s[0] as int));
    }
  }

  lemma {:induction false} NoSlashInEscapes(bytes: seq<Byte>)
    ensures '/' !in EscapeAll(bytes)
  {
    if bytes != [] {
      NoSlashInEscapes(bytes[1..]);
    }
  }

  lemma WrittenLead(s: string)
    ensures Written.Pieces("/" + s) == "/" + Written.Pieces(s)
  {
    assert ("/" + s)[1..] == s;
  }

  lemma {:induction false} JoinWritten(parts: seq<string>)
    requires parts != []
    ensures Join(AllWritten(parts), "/") == Written.Pieces(Join(parts, "/"))
  {
    if |parts| > 1 {
      JoinWritten(parts[1..]);
      WrittenSlash(parts[0], Join(parts[1..], "/"));
      assert AllWritten(parts)[1..] == AllWritten(parts[1..]);
    }
  }

  lemma {:induction false} WrittenIsPathText(s: string)
    ensures AllPathChars(Written.Pieces(s))
  {
    if s != "" {
      WrittenIsPathText(s[1..]);
      EscapesArePathText(EncodeScalar(s[0] as int));
    }
  }

  lemma {:induction false} EscapesArePathText(bytes: seq<Byte>)
    ensures AllPathChars(EscapeAll(bytes))
  {
    if bytes != [] {
      EscapesArePathText(bytes[1..]);
    }
  }

  // ---------------------------------------------------------------- dots

  lemma EscapeOfDot(b: Byte)
    ensures Escape(b)[1] == '2' && LowerChar(Escape(b)[2]) == 'e' ==> b == 0x2E
  {
    assert HexValue('2') == Some(2) && HexValue('E') == Some(14);
  }

  /** The start of an escaped dot. */
  predicate StartsLikeDot(w: string) {
    w != "" && (w[0] == '.' || (|w| >= 3 && w[0] == '%' && w[1] == '2' && w[2] == 'e'))
  }

  /** What is written for a character other than a dot cannot be taken for one. */
  lemma NoDotInPiece(c: char, rest: string)
    requires c != '.'
    ensures !StartsLikeDot(Lower(Written.Piece(c) + rest))
  {
    if !Unreserved(c) && c != ' ' && c != '/' {
      var bytes := EncodeScalar(c as int);
      AsciiStandsAlone(c as int, 0x2E);
      assert bytes[0] in bytes;
      EscapeOfDot(bytes[0]);
      var w := Written.Piece(c) + rest;
      assert w[0] == '%' && w[1] == Escape(bytes[0])[1] && w[2] == Escape(bytes[0])[2];
    }
  }

  lemma WrittenCons(s: string)
    requires s != ""
    ensures Written.Pieces(s) == Written.Piece(s[0]) + Written.Pieces(s[1..])
    ensures s[0] == '.' ==> Lower(Written.Pieces(s)) == "." + Lower(Written.Pieces(s[1..]))
  {
    if s[0] == '.' {
      assert Written.Piece('.') == ".";
      assert Written.Pieces(s)[1..] == Written.Pieces(s[1..]);
    }
  }

  lemma WrittenDot(s: string)
    ensures Lower(Written.Pieces(s)) == "" <==> s == ""
    ensures Lower(Written.Pieces(s)) == "." <==> s == "."
    ensures Lower(Written.Pieces(s)) != "%2e"
  {
    if s != "" {
      WrittenCons(s);
      if s[0] != '.' {
        NoDotInPiece(s[0], Written.Pieces(s[1..]));
      } else if |s| > 1 {
        WrittenCons(s[1..]);
      }
    }
  }

  /** A written segment is taken for dots only if it is dots. */
  lemma KindOfWritten(s: string)
    ensures Kind(Written.Pieces(s)) == if s == "." then SingleDot else if s == ".." then DoubleDot else Ordinary
  {
    if s != "" {
      WrittenCons(s);
      if s[0] == '.' {
        WrittenDot(s[1..]);
        assert s == "." + s[1..];
        AfterDot(Lower(Written.Pieces(s[1..])));
        AfterDot(s[1..]);
      } else {
        NoDotInPiece(s[0], Written.Pieces(s[1..]));
      }
    }
  }

  lemma AfterDot(rest: string)
    ensures "." + rest == "." <==> rest == ""
    ensures "." + rest == ".." <==> rest == "."
    ensures "." + rest == ".%2e" <==> rest == "%2e"
  {
    var s := "." + rest;
    assert s[1..] == rest && "."[1..] == "" && ".."[1..] == "." && ".%2e"[1..] == "%2e";
  }

  predicate NoDots(segments: seq<string>) {
    forall i | 0 <= i < |segments| :: segments[i] != "." && segments[i] != ".."
  }

  /** No segment of the text is `.` or `..`. */
  predicate NoDotSegments(s: string) {
    NoDots(Split(s, '/'))
  }

  lemma DotsOfWritten(segments: seq<string>)
    ensures AllOrdinary(AllWritten(segments)) <==> NoDots(segments)
  {
    forall i | 0 <= i < |segments| {
      KindOfWritten(segments[i]);
    }
  }

  /** Segments that the parser leaves of written ones, as texts. */
  function Left(path: seq<string>, segments: seq<string>): seq<string>
    decreases |segments|
  {
    if segments == [] then path
    else
      var last, up := |segments| == 1, if path == [] then [] else path[..|path| - 1];
      if segments[0] == "." then Left(if last then path + [""] else path, segments[1..])
      else if segments[0] == ".." then Left(if last then up + [""] else up, segments[1..])
      else Left(path + [segments[0]], segments[1..])
  }

  lemma WrittenPush(path: seq<string>, s: string)
    ensures AllWritten(path + [s]) == AllWritten(path) + [Written.Pieces(s)]
  {
  }

  lemma WrittenPop(path: seq<string>)
    requires path != []
    ensures AllWritten(path[..|path| - 1]) == AllWritten(path)[..|path| - 1]
  {
  }

  lemma {:induction false} WalkWritten(path: seq<string>, segments: seq<string>)
    ensures Walk(AllWritten(path), AllWritten(segments)) == AllWritten(Left(path, segments))
    decreases |segments|
  {
    if segments != [] {
      var last, up := |segments| == 1, if path == [] then [] else path[..|path| - 1];
      KindOfWritten(segments[0]);
      assert Written.Pieces("") == "";
      if segments[0] == "." {
        WrittenPush(path, "");
        WalkWritten(if last then path + [""] else path, segments[1..]);
      } else if segments[0] == ".." {
        if path != [] {
          WrittenPop(path);
        }
        WrittenPush(up, "");
        WalkWritten(if last then up + [""] else up, segments[1..]);
      } else {
        WrittenPush(path, segments[0]);
        WalkWritten(path + [segments[0]], segments[1..]);
      }
    }
  }

  lemma {:induction false} LeftHasNoSlash(path: seq<string>, segments: seq<string>)
    requires forall i | 0 <= i < |path| :: '/' !in path[i]
    requires forall i | 0 <= i < |segments| :: '/' !in segments[i]
    ensures forall i | 0 <= i < |Left(path, segments)| :: '/' !in Left(path, segments)[i]
    decreases |segments|
  {
    if segments != [] {
      var last, up := |segments| == 1, if path == [] then [] else path[..|path| - 1];
      if segments[0] == "." {
        LeftHasNoSlash(if last then path + [""] else path, segments[1..]);
      } else if segments[0] == ".." {
        LeftHasNoSlash(if last then up + [""] else up, segments[1..]);
      } else {
        LeftHasNoSlash(path + [segments[0]], segments[1..]);
      }
    }
  }

  /** What is left of a text once the parser has worked its dots out. */
  function Normal(s: string): string {
    Join(Left([], Split(s, '/')), "/")
  }

  /** The path that the parser makes of a written text reads as what is left of the text. */
  lemma WrittenReadsAsNormal(s: string)
    ensures ReadPath("/" + Join(Walk([], Split(Written.Pieces(s), '/')), "/")) == Some("/" + Normal(s))
  {
    var segments := Split(s, '/');
    var left := Left([], segments);
    SegmentsOfWritten(s);
    WalkWritten([], segments);
    NothingElseIsLeft([], AllWritten(segments));
    JoinWritten(left);
    WrittenLead(Normal(s));
    ReadInvertsWrite("/" + Normal(s));
  }

  /** A text stays as it is exactly when none of its segments is dots. */
  lemma NormalExactly(s: string)
    ensures Normal(s) == s <==> NoDotSegments(s)
  {
    var segments := Split(s, '/');
    var left := Left([], segments);
    WalkWritten([], segments);
    DotsOfWritten(segments);
    NothingElseIsLeft([], AllWritten(segments));
    DotsOfWritten(left);
    LeftHasNoSlash([], segments);
    JoinInvertsSplit(s, '/');
    assert "/" == ['/'];
    SplitInvertsJoin(left, '/');
    if NoDotSegments(s) {
      NoDotsStay([], segments);
      assert [] + segments == segments;
    }
  }

  lemma {:induction false} NoDotsStay(path: seq<string>, segments: seq<string>)
    requires NoDots(segments)
    ensures Left(path, segments) == path + segments
    decreases |segments|
  {
    if segments == [] {
      assert path + segments == path;
    } else {
      NoDotsStay(path + [segments[0]], segments[1..]);
      assert path + [segments[0]] + segments[1..] == path + segments;
    }
  }
}
