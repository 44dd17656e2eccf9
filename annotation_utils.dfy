/**
 * Building a new highlight record (src/utils/annotationUtils.ts): two-digit
 * padding, the PDF date string `D:YYYYMMDDHHmmSS` with an optional `+HH'mm'`
 * offset (the date format of section 7.9.4 of ISO 32000-1), and the record
 * with its fixed defaults.
 */
module AnnotationUtils {
  import opened Wrappers
  import opened Types
  import opened Annotations

  // ---------------------------------------------------------------------------
  // Decimal digits: JavaScript's number-to-string conversion on whole numbers

  predicate IsDigit(c: char)
  {
    '0' <= c <= '9'
  }

  predicate AllDigits(s: string)
  {
    forall i :: 0 <= i < |s| ==> IsDigit(s[i])
  }

  function DigitChar(d: nat): (c: char)
    requires d < 10
    ensures IsDigit(c)
  {
    ('0' as int + d) as char
  }

  function DigitValue(c: char): (d: nat)
    requires IsDigit(c)
    ensures d < 10 && DigitChar(d) == c
  {
    c as int - '0' as int
  }

  /** `String(n)` for a whole number n: its decimal digits, without leading zeros. */
  function DecimalString(n: nat): (s: string)
    ensures 1 <= |s| && AllDigits(s)
  {
    if n < 10 then [DigitChar(n)]
    else DecimalString(n / 10) + [DigitChar(n % 10)]
  }

  /** Reads a string of decimal digits back as a number. */
  function DecimalValue(s: string): nat
    requires AllDigits(s)
  {
    if s == [] then 0 else DecimalValue(s[..|s| - 1]) * 10 + DigitValue(s[|s| - 1])
  }

  /** DecimalValue undoes DecimalString. */
  lemma {:induction false} DecimalRoundTrip(n: nat)
    ensures DecimalValue(DecimalString(n)) == n
  {
    var s := DecimalString(n);
    if n >= 10 {
      assert s[..|s| - 1] == DecimalString(n / 10);
      DecimalRoundTrip(n / 10);
    }
  }

  /** `String.prototype.slice(-2)`: the last two characters, or all of a shorter string. */
  function SliceLastTwo(s: string): string
  {
    if |s| >= 2 then s[|s| - 2..] else s
  }

  /**
   * `stringify`: "0" followed by the number, cut to its last two characters.
   * The result is always the two low decimal digits of n, zero-padded.
   */
  function Stringify(n: nat): (s: string)
    ensures |s| == 2 && AllDigits(s)
  {
    SliceLastTwo("0" + DecimalString(n))
  }

  /** The last two characters of `String(n)` are its units and, from 10 on, its tens digit. */
  lemma DecimalStringLowDigits(n: nat)
    ensures var s := DecimalString(n);
      s[|s| - 1] == DigitChar(n % 10) &&
      (n >= 10 ==> |s| >= 2 && s[|s| - 2] == DigitChar((n / 10) % 10))
  {
    if n >= 10 {
      var t := DecimalString(n / 10);
      assert DecimalString(n) == t + [DigitChar(n % 10)];
      if n / 10 < 10 {
        assert t == [DigitChar(n / 10)];
      } else {
        assert t == DecimalString(n / 100) + [DigitChar((n / 10) % 10)];
      }
    }
  }

  /** `stringify` yields the tens and units digits of n, so "07" for 7 and "23" for 123. */
  lemma StringifyDigits(n: nat)
    ensures Stringify(n) == [DigitChar((n / 10) % 10), DigitChar(n % 10)]
  {
    DecimalStringLowDigits(n);
    var s := "0" + DecimalString(n);
    if n < 10 {
      assert (n / 10) % 10 == 0;
      assert s == ['0', DigitChar(n)];
    }
  }

  /** The padded value reads back as n modulo 100, so exactly n for 0..99. */
  lemma StringifyValue(n: nat)
    ensures |Stringify(n)| == 2 && AllDigits(Stringify(n))
    ensures DecimalValue(Stringify(n)) == n % 100
    ensures n < 100 ==> DecimalValue(Stringify(n)) == n
  {
    StringifyDigits(n);
    TwoDigitValue((n / 10) % 10, n % 10);
    LowDigits(n);
  }

  /** Two digit characters read back as a two-digit number. */
  lemma TwoDigitValue(hi: nat, lo: nat)
    requires hi < 10 && lo < 10
    ensures DecimalValue([DigitChar(hi), DigitChar(lo)]) == hi * 10 + lo
  {
    var s := [DigitChar(hi), DigitChar(lo)];
    var h := [DigitChar(hi)];
    assert s[..|s| - 1] == h;
    assert h[..|h| - 1] == [];
    assert DigitValue(DigitChar(hi)) == hi;
    assert DigitValue(DigitChar(lo)) == lo;
    assert DecimalValue(h) == hi;
  }

  /** The tens and units digits of n make up n modulo 100. */
  lemma LowDigits(n: nat)
    ensures ((n / 10) % 10) * 10 + n % 10 == n % 100
  {
    var q, r := n / 100, n % 100;
    assert n == 100 * q + r;
    assert n / 10 == 10 * q + r / 10;
    assert (n / 10) % 10 == r / 10;
    assert n % 10 == r % 10;
  }

  // ---------------------------------------------------------------------------
  // PDF date strings

  /**
   * What `getDateString` reads from a JavaScript `Date`: the local calendar
   * fields (month counted from 0) and, when `Date.toString()` matches
   * `GMT(.\w+)`, the matched text after "GMT" (for example "+0700").
   */
  datatype DateFields = DateFields(
    fullYear: nat,
    month: nat,
    day: nat,
    hours: nat,
    minutes: nat,
    seconds: nat,
    gmtOffset: Option<string>)

  /** `String.prototype.substr(start, length)` for non-negative arguments. */
  function Substr(s: string, start: nat, length: nat): (r: string)
    ensures |r| <= length
  {
    var b := if start <= |s| then start else |s|;
    var e := if start + length <= |s| then start + length else |s|;
    s[b..e]
  }

  /** The offset as `HH'mm'`: its first three characters, a quote, the next five at most, a quote. */
  function TimezoneSuffix(tz: string): string
  {
    Substr(tz, 0, 3) + "'" + Substr(tz, 3, 5) + "'"
  }

  /** The calendar part: "D:", the full year, then month+1, day, hours, minutes, seconds on two digits each. */
  function CalendarString(d: DateFields): string
  {
    "D:" + DecimalString(d.fullYear) + TimeFields(d)
  }

  /** `getDateString`: the calendar part, followed by the offset suffix when one was found. */
  function GetDateString(d: DateFields): (s: string)
    ensures |s| >= 12 && s[..2] == "D:"
    ensures d.gmtOffset.None? <==> |s| == 12 + |DecimalString(d.fullYear)|
  {
    match d.gmtOffset
    case None => CalendarString(d)
    case Some(tz) => CalendarString(d) + TimezoneSuffix(tz)
  }

  /**
   * Where each field sits in a date string: with k the number of digits of the
   * year, "D:" at 0, the year at 2 (reading back as the year), then the padded
   * month+1, day, hours, minutes and seconds at 2+k, 4+k, ..., 10+k, and the
   * offset suffix (or nothing) from 12+k on (DateStringSegments).
   * StringifyValue reads each padded field back as its value modulo 100.
   */
  lemma DateStringLayout(d: DateFields)
    ensures IsPdfDateOf(Some(GetDateString(d)), d)
  {
    var s := GetDateString(d);
    var k := |DecimalString(d.fullYear)|;
    DateStringSegments(d);
    YearAt(s, d.fullYear);
    FieldsFromTimeFields(s, 2 + k, d);
  }

  /** The year's digits sit at offset 2 and read back as the year. */
  predicate YearAtTwo(s: string, year: nat)
  {
    var k := |DecimalString(year)|;
    2 + k <= |s| && AllDigits(s[2..2 + k]) && DecimalValue(s[2..2 + k]) == year
  }

  /** The year's digits found at offset 2 read back as the year. */
  lemma YearAt(s: string, year: nat)
    requires 2 + |DecimalString(year)| <= |s| && s[2..2 + |DecimalString(year)|] == DecimalString(year)
    ensures YearAtTwo(s, year)
  {
    DecimalRoundTrip(year);
  }

  /** The padded month+1, day, hours, minutes and seconds, two characters each from `off` on. */
  predicate FieldsAt(s: string, off: nat, d: DateFields)
  {
    && off + 10 <= |s|
    && s[off..off + 2] == Stringify(d.month + 1)
    && s[off + 2..off + 4] == Stringify(d.day)
    && s[off + 4..off + 6] == Stringify(d.hours)
    && s[off + 6..off + 8] == Stringify(d.minutes)
    && s[off + 8..off + 10] == Stringify(d.seconds)
  }

  /** The ten field digits found at an offset hold the five fields in order. */
  lemma FieldsFromTimeFields(s: string, off: nat, d: DateFields)
    requires off + 10 <= |s| && s[off..off + 10] == TimeFields(d)
    ensures FieldsAt(s, off, d)
  {
    TimeFieldsSegments(d);
    TenAt(s, off, TimeFields(d));
  }

  /** Ten characters found at an offset, cut two by two. */
  lemma TenAt(s: string, off: nat, t: string)
    requires |t| == 10 && off + 10 <= |s| && s[off..off + 10] == t
    ensures s[off..off + 2] == t[0..2] && s[off + 2..off + 4] == t[2..4]
    ensures s[off + 4..off + 6] == t[4..6] && s[off + 6..off + 8] == t[6..8]
    ensures s[off + 8..off + 10] == t[8..10]
  {
    assert forall i :: 0 <= i < 10 ==> s[off + i] == t[i];
  }

  /** A date string is "D:", the year's digits, the ten field digits and the offset suffix, end to end. */
  lemma DateStringSegments(d: DateFields)
    ensures var s := GetDateString(d);
      var y := DecimalString(d.fullYear);
      var k := |y|;
      && |s| >= 12 + k
      && s[..2] == "D:"
      && s[2..2 + k] == y
      && s[2 + k..12 + k] == TimeFields(d)
      && AllDigits(s[2..12 + k])
      && (d.gmtOffset.None? ==> |s| == 12 + k)
      && (d.gmtOffset.Some? ==> s[12 + k..] == TimezoneSuffix(d.gmtOffset.value))
  {
    var y := DecimalString(d.fullYear);
    var t := TimeFields(d);
    var x := if d.gmtOffset.None? then "" else TimezoneSuffix(d.gmtOffset.value);
    assert GetDateString(d) == "D:" + y + t + x;
    FourParts("D:", y, t, x);
    ConcatAllDigits(y, t);
  }

  /** Digit strings stay digit strings when concatenated. */
  lemma ConcatAllDigits(a: string, b: string)
    requires AllDigits(a) && AllDigits(b)
    ensures AllDigits(a + b)
  {
    forall i | 0 <= i < |a + b| ensures IsDigit((a + b)[i]) {
      if i >= |a| {
        assert (a + b)[i] == b[i - |a|];
      }
    }
  }

  /** The five two-digit fields after the year: month+1, day, hours, minutes, seconds. */
  function TimeFields(d: DateFields): (t: string)
    ensures |t| == 10 && AllDigits(t)
  {
    var t := Stringify(d.month + 1) + Stringify(d.day) + Stringify(d.hours)
      + Stringify(d.minutes) + Stringify(d.seconds);
    ConcatAllDigits(Stringify(d.month + 1), Stringify(d.day));
    ConcatAllDigits(Stringify(d.month + 1) + Stringify(d.day), Stringify(d.hours));
    ConcatAllDigits(Stringify(d.month + 1) + Stringify(d.day) + Stringify(d.hours), Stringify(d.minutes));
    ConcatAllDigits(Stringify(d.month + 1) + Stringify(d.day) + Stringify(d.hours) + Stringify(d.minutes),
                    Stringify(d.seconds));
    t
  }

  /** The ten characters of TimeFields, two by two. */
  lemma TimeFieldsSegments(d: DateFields)
    ensures var t := TimeFields(d);
      && t[0..2] == Stringify(d.month + 1)
      && t[2..4] == Stringify(d.day)
      && t[4..6] == Stringify(d.hours)
      && t[6..8] == Stringify(d.minutes)
      && t[8..10] == Stringify(d.seconds)
  {
    FiveFields([], Stringify(d.month + 1), Stringify(d.day), Stringify(d.hours),
               Stringify(d.minutes), Stringify(d.seconds));
    assert [] + Stringify(d.month + 1) == Stringify(d.month + 1);
  }

  /** A prefix followed by five two-character fields, cut at the field boundaries. */
  lemma FiveFields(p: string, f1: string, f2: string, f3: string, f4: string, f5: string)
    requires |f1| == |f2| == |f3| == |f4| == |f5| == 2
    ensures var c := p + f1 + f2 + f3 + f4 + f5;
      var k := |p|;
      && |c| == k + 10
      && c[..k] == p
      && c[k..k + 2] == f1 && c[k + 2..k + 4] == f2 && c[k + 4..k + 6] == f3
      && c[k + 6..k + 8] == f4 && c[k + 8..k + 10] == f5
  {
  }

  /** Four strings laid end to end, cut back at their boundaries. */
  lemma FourParts(a: string, b: string, c: string, e: string)
    ensures var s := a + b + c + e;
      && s[..|a|] == a
      && s[|a|..|a| + |b|] == b
      && s[|a| + |b|..|a| + |b| + |c|] == c
      && s[|a|..|a| + |b| + |c|] == b + c
      && s[|a| + |b| + |c|..] == e
  {
  }

  /** A signed hours-and-minutes offset such as "+0700" becomes "+07'00'". */
  lemma TimezoneSuffixOfOffset(tz: string)
    requires |tz| == 5
    ensures TimezoneSuffix(tz) == tz[..3] + "'" + tz[3..] + "'"
    ensures |TimezoneSuffix(tz)| == 7
  {
  }

  /** A four-digit year gives the fixed-width string: 16 characters, or 23 with an offset like "+0700". */
  lemma DateStringWidth(d: DateFields)
    requires 1000 <= d.fullYear <= 9999
    requires d.gmtOffset.Some? ==> |d.gmtOffset.value| == 5
    ensures |GetDateString(d)| == if d.gmtOffset.None? then 16 else 23
  {
    var n := d.fullYear;
    assert DecimalString(n) == DecimalString(n / 10) + [DigitChar(n % 10)];
    assert DecimalString(n / 10) == DecimalString(n / 100) + [DigitChar((n / 10) % 10)];
    assert DecimalString(n / 100) == DecimalString(n / 1000) + [DigitChar((n / 100) % 10)];
    assert |DecimalString(n)| == 4;
  }

  // ---------------------------------------------------------------------------
  // The new annotation record

  const HighlightColor: seq<int> := [255, 237, 0]
  const HighlightBorder := BorderStyle([3], 0, 1, 0, 1)

  /**
   * `getNormalizeAnnotation`: a highlight record with fixed defaults around the
   * given id, rect and quads.  The two dates come from two separate clock reads,
   * the modification date first.
   */
  function GetNormalizeAnnotation(id: string, rect: Rect, quadPoints: seq<Quad>,
                                  modifiedAt: DateFields, createdAt: DateFields): (a: Annotation)
    ensures a.id == id && a.rect == rect && a.quadPoints == Some(quadPoints)
    ensures a.modificationDate == Some(GetDateString(modifiedAt)) && a.creationDate == Some(GetDateString(createdAt))
    ensures IsPdfDateOf(a.modificationDate, modifiedAt) && IsPdfDateOf(a.creationDate, createdAt)
  {
    DateStringLayout(modifiedAt);
    DateStringLayout(createdAt);
    Annotation(
      annotationFlags := 4,
      annotationType := 9,
      color := Some(HighlightColor),
      hasAppearance := true,
      id := id,
      rect := rect,
      subtype := "Highlight",
      borderStyle := HighlightBorder,
      hasPopup := Some(true),
      contents := Some(""),
      modificationDate := Some(GetDateString(modifiedAt)),
      creationDate := Some(GetDateString(createdAt)),
      quadPoints := Some(quadPoints),
      title := Some(""))
  }

  /**
   * A date string of the record is a PDF date of the clock read it came from:
   * "D:", then the year reading back as the clock's year, then the padded
   * month+1, day, hours, minutes and seconds.
   */
  predicate IsPdfDateOf(s: Option<string>, d: DateFields)
  {
    var k := |DecimalString(d.fullYear)|;
    && s.Some? && |s.value| >= 12 + k && s.value[..2] == "D:"
    && YearAtTwo(s.value, d.fullYear)
    && FieldsAt(s.value, 2 + k, d)
  }

  /**
   * Besides id, rect, quads and dates, the record carries the fixed highlight
   * defaults.
   */
  lemma NormalizedAnnotationFields(id: string, rect: Rect, quadPoints: seq<Quad>,
                                   modifiedAt: DateFields, createdAt: DateFields)
    ensures var a := GetNormalizeAnnotation(id, rect, quadPoints, modifiedAt, createdAt);
      && a.annotationFlags == 4 && a.annotationType == 9 && a.subtype == "Highlight"
      && a.color == Some([255, 237, 0])
      && a.borderStyle.width == 1 && a.borderStyle.style == 1 && a.borderStyle.dashArray == [3]
      && a.borderStyle.horizontalCornerRadius == 0 && a.borderStyle.verticalCornerRadius == 0
      && a.hasPopup == Some(true) && a.hasAppearance
      && a.contents == Some("") && a.title == Some("")
  {
  }
}
