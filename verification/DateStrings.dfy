/** Times as ISO strings, and the pattern by which stored strings are taken for times. */
module DateStrings {
  import opened Wrappers
  import opened Text

  /** A time in UTC, by its fields. */
  datatype Instant = Instant(year: int, month: nat, day: nat, hour: nat, minute: nat, second: nat, millisecond: nat) {
    /** In the range of a field each. How many days a month has is not part of the model. */
    predicate InRange() {
      && 1 <= month <= 12 && 1 <= day <= 31
      && hour < 24 && minute < 60 && second < 60 && millisecond < 1000
      && -999999 <= year <= 999999
    }

    predicate FourDigitYear() {
      0 <= year <= 9999
    }
  }

  /** What a `Date` holds: a time, no time at all, or whatever the engine makes of a text that matches
      the pattern and is not written as `toISOString` writes. */
  datatype Time = At(instant: Instant) | Invalid | ReadFrom(text: string)

  // ---------------------------------------------------------------- writing

  /** The last `width` decimal digits. */
  function Pad(n: nat, width: nat): (s: string)
    ensures |s| == width && AllDigits(s)
  {
    if width == 0 then "" else Pad(n / 10, width - 1) + [Digit(n % 10)]
  }

  function YearText(year: int): string
    requires -999999 <= year <= 999999
  {
    if 0 <= year <= 9999 then Pad(year, 4) else if year < 0 then "-" + Pad(-year, 6) else "+" + Pad(year, 6)
  }

  /** `toISOString`. */
  function ToIsoString(t: Instant): string
    requires t.InRange()
  {
    YearText(t.year) + "-" + Pad(t.month, 2) + "-" + Pad(t.day, 2) + "T"
    + Pad(t.hour, 2) + ":" + Pad(t.minute, 2) + ":" + Pad(t.second, 2) + "." + Pad(t.millisecond, 3) + "Z"
  }

  // ---------------------------------------------------------------- the pattern

  /** A digit up to a largest one, or one of some characters. */
  datatype Class = UpTo(d: char) | OneOf(cs: string) {
    predicate Has(c: char) {
      match this
      case UpTo(d) => '0' <= c <= d
      case OneOf(cs) => c in cs
    }
  }

  predicate Matches(classes: seq<Class>, s: string) {
    |s| == |classes| && forall i | 0 <= i < |s| :: classes[i].Has(s[i])
  }

  /** `\d{4}-[01]\d-[0-3]\dT[0-2]\d:[0-5]\d`. */
  const MINUTES: seq<Class> :=
    [UpTo('9'), UpTo('9'), UpTo('9'), UpTo('9'), OneOf("-"), UpTo('1'), UpTo('9'), OneOf("-"), UpTo('3'), UpTo('9'),
     OneOf("T"), UpTo('2'), UpTo('9'), OneOf(":"), UpTo('5'), UpTo('9')]

  /** `:[0-5]\d`. */
  const SECONDS: seq<Class> := [OneOf(":"), UpTo('5'), UpTo('9')]

  /** `[+-][0-2]\d:[0-5]\d`. */
  const OFFSET: seq<Class> := [OneOf("+-"), UpTo('2'), UpTo('9'), OneOf(":"), UpTo('5'), UpTo('9')]

  predicate Zone(s: string) {
    s == "Z" || Matches(OFFSET, s)
  }

  function DigitRun(s: string): (n: nat)
    ensures n <= |s|
  {
    if s == "" || !IsDigit(s[0]) then 0 else 1 + DigitRun(s[1..])
  }

  /** `isValidDateString` of a string: minutes, then perhaps seconds, then perhaps a fraction, then a zone. */
  predicate IsDateString(s: string) {
    && |s| >= 16 && Matches(MINUTES, s[..16])
    && (Zone(s[16..])
        || (|s| >= 19 && Matches(SECONDS, s[16..19])
            && (Zone(s[19..])
                || (|s| > 19 && s[19] == '.' && DigitRun(s[20..]) > 0 && Zone(s[20 + DigitRun(s[20..])..])))))
  }

  /** `YYYY-MM-DDThh:mm` with the first digits of month, day, hour and minute bounded. */
  predicate ToTheMinute(s: string) {
    && |s| == 16
    && IsDigit(s[0]) && IsDigit(s[1]) && IsDigit(s[2]) && IsDigit(s[3]) && s[4] == '-'
    && '0' <= s[5] <= '1' && IsDigit(s[6]) && s[7] == '-'
    && '0' <= s[8] <= '3' && IsDigit(s[9]) && s[10] == 'T'
    && '0' <= s[11] <= '2' && IsDigit(s[12]) && s[13] == ':'
    && '0' <= s[14] <= '5' && IsDigit(s[15])
  }

  /** `:ss`. */
  predicate ToTheSecond(s: string) {
    |s| == 3 && s[0] == ':' && '0' <= s[1] <= '5' && IsDigit(s[2])
  }

  /** A point and at least one digit. */
  predicate Fraction(s: string) {
    |s| >= 2 && s[0] == '.' && AllDigits(s[1..])
  }

  /** `Z`, or an offset `+hh:mm` or `-hh:mm`. */
  predicate IsZone(s: string) {
    || s == "Z"
    || (|s| == 6 && (s[0] == '+' || s[0] == '-') && '0' <= s[1] <= '2' && IsDigit(s[2]) && s[3] == ':' && '0' <= s[4] <= '5' && IsDigit(s[5]))
  }

  /** The parts of a date string: seconds may be left out, and so may a fraction of them. */
  predicate Parts(s: string, start: string, seconds: string, fraction: string, zone: string) {
    && s == start + seconds + fraction + zone && ToTheMinute(start) && IsZone(zone)
    && (seconds == "" || ToTheSecond(seconds))
    && (fraction == "" || (seconds != "" && Fraction(fraction)))
  }

  lemma ClassesExactly(s: string)
    ensures Matches(MINUTES, s) <==> ToTheMinute(s)
    ensures Matches(SECONDS, s) <==> ToTheSecond(s)
    ensures Zone(s) <==> IsZone(s)
  {
    MinutesExactly(s);
    if |s| == 3 {
      assert Matches(SECONDS, s) <==> SECONDS[0].Has(s[0]) && SECONDS[1].Has(s[1]) && SECONDS[2].Has(s[2]);
    }
    if |s| == 6 {
      assert Matches(OFFSET, s) <==> OFFSET[0].Has(s[0]) && OFFSET[1].Has(s[1]) && OFFSET[2].Has(s[2])
                                     && OFFSET[3].Has(s[3]) && OFFSET[4].Has(s[4]) && OFFSET[5].Has(s[5]);
    }
  }

  lemma MinutesExactly(s: string)
    ensures Matches(MINUTES, s) <==> ToTheMinute(s)
  {
    if |s| == 16 {
      assert (forall i | 0 <= i < 16 :: MINUTES[i].Has(s[i])) <==>
             (forall i | 0 <= i < 8 :: MINUTES[i].Has(s[i])) && (forall i | 8 <= i < 16 :: MINUTES[i].Has(s[i]));
    }
  }

  lemma {:induction false} RunOfDigits(digits: string, rest: string)
    requires AllDigits(digits) && (rest == "" || !IsDigit(rest[0]))
    ensures DigitRun(digits + rest) == |digits|
  {
    if digits == "" {
      assert digits + rest == rest;
    } else {
      RunOfDigits(digits[1..], rest);
      assert (digits + rest)[1..] == digits[1..] + rest;
    }
  }

  lemma {:induction false} RunIsDigits(s: string)
    ensures AllDigits(s[..DigitRun(s)])
  {
    if s != "" && IsDigit(s[0]) {
      RunIsDigits(s[1..]);
      assert s[..DigitRun(s)] == [s[0]] + s[1..][..DigitRun(s[1..])];
    }
  }

  /** The pattern takes exactly the texts of these parts: with or without seconds, with or without a fraction of any
      length after seconds, and with `Z` or an offset. */
  lemma IsDateStringExactly(s: string)
    ensures IsDateString(s) <==>
              exists start: string, seconds: string, fraction: string, zone: string :: Parts(s, start, seconds, fraction, zone)
  {
    if IsDateString(s) {
      DateStringHasParts(s);
    }
    if start: string, seconds: string, fraction: string, zone: string :| Parts(s, start, seconds, fraction, zone) {
      PartsMakeDateString(s, start, seconds, fraction, zone);
    }
  }

  lemma DateStringHasParts(s: string)
    requires IsDateString(s)
    ensures exists start: string, seconds: string, fraction: string, zone: string :: Parts(s, start, seconds, fraction, zone)
  {
    ClassesExactly(s[..16]);
    ClassesExactly(s[16..]);
    if Zone(s[16..]) {
      InParts(s, 16, 16, 16);
      assert Parts(s, s[..16], s[16..16], s[16..16], s[16..]);
    } else {
      ClassesExactly(s[16..19]);
      ClassesExactly(s[19..]);
      if Zone(s[19..]) {
        InParts(s, 16, 19, 19);
        assert Parts(s, s[..16], s[16..19], s[19..19], s[19..]);
      } else {
        var end := 20 + DigitRun(s[20..]);
        FractionFound(s, end);
        assert Parts(s, s[..16], s[16..19], s[19..end], s[end..]);
      }
    }
  }

  lemma InParts(s: string, i: nat, j: nat, k: nat)
    requires i <= j <= k <= |s|
    ensures s == s[..i] + s[i..j] + s[j..k] + s[k..]
  {
  }

  lemma FractionFound(s: string, end: nat)
    requires |s| > 19 && s[19] == '.' && DigitRun(s[20..]) > 0 && end == 20 + DigitRun(s[20..]) && Zone(s[end..])
    ensures Fraction(s[19..end]) && IsZone(s[end..]) && s == s[..16] + s[16..19] + s[19..end] + s[end..]
  {
    RunIsDigits(s[20..]);
    ClassesExactly(s[end..]);
    InParts(s, 16, 19, end);
    assert s[19..end][1..] == s[20..][..end - 20];
  }

  lemma PartsMakeDateString(s: string, start: string, seconds: string, fraction: string, zone: string)
    requires Parts(s, start, seconds, fraction, zone)
    ensures IsDateString(s)
  {
    ClassesExactly(start);
    ClassesExactly(zone);
    assert s[..16] == start;
    if seconds == "" {
      assert s[16..] == zone;
    } else {
      ClassesExactly(seconds);
      assert s[16..19] == seconds;
      if fraction == "" {
        assert s[19..] == zone;
      } else {
        var digits := fraction[1..];
        RunOfDigits(digits, zone);
        assert s[19] == fraction[0] && s[20..] == digits + zone;
        assert (digits + zone)[|digits|..] == zone && s[20 + |digits|..] == (digits + zone)[|digits|..];
      }
    }
  }

  // ---------------------------------------------------------------- reading

  /** The fields of a text with the lengths that `toISOString` gives a year of four digits. */
  function Fields(s: string): Option<Instant> {
    if |s| != 24 || !AllDigits(s[0..4] + s[5..7] + s[8..10] + s[11..13] + s[14..16] + s[17..19] + s[20..23]) then None
    else
      DigitsOfParts(s);
      Some(Instant(ParseDecimal(s[0..4]), ParseDecimal(s[5..7]), ParseDecimal(s[8..10]), ParseDecimal(s[11..13]),
                   ParseDecimal(s[14..16]), ParseDecimal(s[17..19]), ParseDecimal(s[20..23])))
  }

  lemma DigitsOfParts(s: string)
    requires |s| == 24 && AllDigits(s[0..4] + s[5..7] + s[8..10] + s[11..13] + s[14..16] + s[17..19] + s[20..23])
    ensures AllDigits(s[0..4]) && AllDigits(s[5..7]) && AllDigits(s[8..10]) && AllDigits(s[11..13])
    ensures AllDigits(s[14..16]) && AllDigits(s[17..19]) && AllDigits(s[20..23])
  {
    var all := s[0..4] + s[5..7] + s[8..10] + s[11..13] + s[14..16] + s[17..19] + s[20..23];
    assert all[0..4] == s[0..4] && all[4..6] == s[5..7] && all[6..8] == s[8..10] && all[8..10] == s[11..13];
    assert all[10..12] == s[14..16] && all[12..14] == s[17..19] && all[14..17] == s[20..23];
  }

  /** `new Date(s)` for a string that matches the pattern. */
  function NewDate(s: string): Time {
    match Fields(s)
    case Some(t) => if t.InRange() && ToIsoString(t) == s then At(t) else ReadFrom(s)
    case None => ReadFrom(s)
  }

  // ---------------------------------------------------------------- the round trip of a time

  function Pow10(w: nat): nat {
    if w == 0 then 1 else 10 * Pow10(w - 1)
  }

  lemma {:induction false} ParseInvertsPad(n: nat, width: nat)
    requires n < Pow10(width)
    ensures ParseDecimal(Pad(n, width)) == n
  {
    if width > 0 {
      ParseInvertsPad(n / 10, width - 1);
      assert Pad(n, width)[..width - 1] == Pad(n / 10, width - 1);
    }
  }

  lemma IsoParts(t: Instant)
    requires t.InRange() && t.FourDigitYear()
    ensures var s := ToIsoString(t);
            && |s| == 24
            && s[0..4] == Pad(t.year, 4) && s[5..7] == Pad(t.month, 2) && s[8..10] == Pad(t.day, 2)
            && s[11..13] == Pad(t.hour, 2) && s[14..16] == Pad(t.minute, 2) && s[17..19] == Pad(t.second, 2)
            && s[20..23] == Pad(t.millisecond, 3)
            && s[4] == '-' && s[7] == '-' && s[10] == 'T' && s[13] == ':' && s[16] == ':' && s[19] == '.' && s[23] == 'Z'
  {
  }

  lemma PowersOfTen()
    ensures Pow10(2) == 100 && Pow10(3) == 1000 && Pow10(4) == 10000
  {
  }

  /** A text with these fields in it, padded. */
  ghost predicate Holds(s: string, t: Instant)
    requires t.FourDigitYear()
  {
    && |s| == 24
    && s[0..4] == Pad(t.year, 4) && s[5..7] == Pad(t.month, 2) && s[8..10] == Pad(t.day, 2)
    && s[11..13] == Pad(t.hour, 2) && s[14..16] == Pad(t.minute, 2) && s[17..19] == Pad(t.second, 2)
    && s[20..23] == Pad(t.millisecond, 3)
  }

  lemma FieldsFrom(s: string, t: Instant)
    requires t.InRange() && t.FourDigitYear() && Holds(s, t)
    ensures Fields(s) == Some(t)
  {
    PowersOfTen();
    ParseInvertsPad(t.year, 4);
    ParseInvertsPad(t.month, 2);
    ParseInvertsPad(t.day, 2);
    ParseInvertsPad(t.hour, 2);
    ParseInvertsPad(t.minute, 2);
    ParseInvertsPad(t.second, 2);
    ParseInvertsPad(t.millisecond, 3);
  }

  lemma FieldsOfIso(t: Instant)
    requires t.InRange() && t.FourDigitYear()
    ensures Fields(ToIsoString(t)) == Some(t)
  {
    IsoParts(t);
    FieldsFrom(ToIsoString(t), t);
  }

  /** The first digit of a number of two digits is no larger than that of its bound. */
  lemma FirstDigit(n: nat, d: nat)
    requires n < 10 * d + 10 && d < 10
    ensures UpTo(Digit(d)).Has(Pad(n, 2)[0]) && UpTo('9').Has(Pad(n, 2)[1])
  {
    assert Pad(n, 2) == Pad(n / 10, 1) + [Digit(n % 10)];
    assert Pad(n / 10, 1) == Pad(n / 10 / 10, 0) + [Digit(n / 10 % 10)];
  }

  lemma StartFrom(s: string, t: Instant)
    requires t.InRange() && t.FourDigitYear() && Holds(s, t)
    requires s[4] == '-' && s[7] == '-' && s[10] == 'T' && s[13] == ':'
    ensures Matches(MINUTES, s[..16])
  {
    FirstDigit(t.month, 1);
    FirstDigit(t.day, 3);
    FirstDigit(t.hour, 2);
    FirstDigit(t.minute, 5);
    assert s[5] == s[5..7][0] && s[6] == s[5..7][1] && s[8] == s[8..10][0] && s[9] == s[8..10][1];
    assert s[11] == s[11..13][0] && s[12] == s[11..13][1] && s[14] == s[14..16][0] && s[15] == s[14..16][1];
    assert s[0] == s[0..4][0] && s[1] == s[0..4][1] && s[2] == s[0..4][2] && s[3] == s[0..4][3];
  }

  lemma IsoStart(t: Instant)
    requires t.InRange() && t.FourDigitYear()
    ensures Matches(MINUTES, ToIsoString(t)[..16])
  {
    IsoParts(t);
    StartFrom(ToIsoString(t), t);
  }

  lemma IsoEnd(t: Instant)
    requires t.InRange() && t.FourDigitYear()
    ensures var s := ToIsoString(t); Matches(SECONDS, s[16..19]) && DigitRun(s[20..]) == 3 && s[23..] == "Z"
  {
    var s := ToIsoString(t);
    IsoParts(t);
    FirstDigit(t.second, 5);
    assert s[17] == s[17..19][0] && s[18] == s[17..19][1];
    assert s[20] == s[20..23][0] && s[21] == s[20..23][1] && s[22] == s[20..23][2];
    var rest := s[20..];
    assert rest[1..] == s[21..] && rest[1..][1..] == s[22..] && s[22..][1..] == s[23..];
    assert DigitRun(s[23..]) == 0 && DigitRun(s[22..]) == 1 && DigitRun(s[21..]) == 2;
  }

  /** A written time is taken for a time exactly if its year has four digits. */
  lemma IsoIsDateString(t: Instant)
    requires t.InRange()
    ensures IsDateString(ToIsoString(t)) <==> t.FourDigitYear()
  {
    var s := ToIsoString(t);
    if t.FourDigitYear() {
      IsoStart(t);
      IsoEnd(t);
      IsoParts(t);
    } else {
      assert s[0] == '-' || s[0] == '+';
      assert s[..16][0] == s[0] && !MINUTES[0].Has(s[0]);
    }
  }

  /** Reading a written time gives it back. */
  lemma NewDateInverts(t: Instant)
    requires t.InRange() && t.FourDigitYear()
    ensures NewDate(ToIsoString(t)) == At(t)
  {
    FieldsOfIso(t);
  }
}
