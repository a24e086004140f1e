/**
 The start-time segment of a log file name: the verbs `%04d%02d%02d-%02d%02d%02d`
 applied to the year, month, day, hour, minute and second of a time, and the
 decoder that reads such a segment back.
 */
module Stamp {
  import opened Wrappers
  import opened Decimal
  import opened Strings

  /** The calendar fields of a time, already extracted in its time zone. */
  datatype DateTime = DateTime(year: nat, month: nat, day: nat, hour: nat, minute: nat, second: nat)

  /** The ranges within which every field fits its field width. */
  predicate Valid(t: DateTime) {
    && t.year <= 9999
    && 1 <= t.month <= 12
    && 1 <= t.day <= 31
    && t.hour <= 23
    && t.minute <= 59
    && t.second <= 59
  }

  /** `YYYYMMDD-HHMMSS`: fifteen characters, a '-' at index 8, digits elsewhere. */
  predicate IsStampShape(s: string) {
    && |s| == 15
    && s[8] == '-'
    && forall i :: 0 <= i < 15 && i != 8 ==> IsDigit(s[i])
  }

  /** The segment as the name formatter prints it. */
  function Format(t: DateTime): (s: string)
    ensures Valid(t) ==> IsStampShape(s)
  {
    var s := Join(PadDecimal(t.year, 4), PadDecimal(t.month, 2), PadDecimal(t.day, 2),
      PadDecimal(t.hour, 2), PadDecimal(t.minute, 2), PadDecimal(t.second, 2));
    assert Valid(t) ==> IsStampShape(s) by {
      if Valid(t) {
        FieldWidths(t);
        JoinShape(PadDecimal(t.year, 4), PadDecimal(t.month, 2), PadDecimal(t.day, 2),
          PadDecimal(t.hour, 2), PadDecimal(t.minute, 2), PadDecimal(t.second, 2));
      }
    }
    s
  }

  /** The date fields, a '-', and the time-of-day fields, side by side. */
  function Join(y: string, mo: string, d: string, h: string, mi: string, se: string): string {
    y + mo + d + "-" + h + mi + se
  }

  /** Fields of digits of widths 4, 2, 2, 2, 2, 2 join into the stamp shape,
      and each field sits at its fixed offset. */
  lemma JoinShape(y: string, mo: string, d: string, h: string, mi: string, se: string)
    requires |y| == 4 && |mo| == 2 && |d| == 2 && |h| == 2 && |mi| == 2 && |se| == 2
    requires AllDigits(y) && AllDigits(mo) && AllDigits(d)
    requires AllDigits(h) && AllDigits(mi) && AllDigits(se)
    ensures IsStampShape(Join(y, mo, d, h, mi, se))
    ensures var s := Join(y, mo, d, h, mi, se);
      && s[0..4] == y && s[4..6] == mo && s[6..8] == d
      && s[9..11] == h && s[11..13] == mi && s[13..15] == se
  {
    var s := Join(y, mo, d, h, mi, se);
    assert s[0..4] == y;
    assert s[4..6] == mo;
    assert s[6..8] == d;
    assert s[9..11] == h;
    assert s[11..13] == mi;
    assert s[13..15] == se;
    forall i | 0 <= i < 15 && i != 8
      ensures IsDigit(s[i])
    {
      if i < 4 {
        assert s[i] == y[i];
      } else if i < 6 {
        assert s[i] == mo[i - 4];
      } else if i < 8 {
        assert s[i] == d[i - 6];
      } else if i < 11 {
        assert s[i] == h[i - 9];
      } else if i < 13 {
        assert s[i] == mi[i - 11];
      } else {
        assert s[i] == se[i - 13];
      }
    }
  }

  lemma FieldWidths(t: DateTime)
    requires Valid(t)
    ensures |PadDecimal(t.year, 4)| == 4
    ensures |PadDecimal(t.month, 2)| == 2
    ensures |PadDecimal(t.day, 2)| == 2
    ensures |PadDecimal(t.hour, 2)| == 2
    ensures |PadDecimal(t.minute, 2)| == 2
    ensures |PadDecimal(t.second, 2)| == 2
  {
    assert Pow10(2) == 100;
    assert Pow10(4) == 10000;
    PadDecimalWidth(t.year, 4);
    PadDecimalWidth(t.month, 2);
    PadDecimalWidth(t.day, 2);
    PadDecimalWidth(t.hour, 2);
    PadDecimalWidth(t.minute, 2);
    PadDecimalWidth(t.second, 2);
  }

  /** Reads a segment of the stamp shape back into its six fields; None for
      any other string. */
  function ParseStamp(s: string): (r: Option<DateTime>)
    ensures r.Some? <==> IsStampShape(s)
    ensures r.Some? ==> r.value.year < 10000 && r.value.month < 100 && r.value.day < 100
    ensures r.Some? ==> r.value.hour < 100 && r.value.minute < 100 && r.value.second < 100
  {
    if IsStampShape(s) then
      assert Pow10(2) == 100;
      assert Pow10(4) == 10000;
      Some(DateTime(
        ParseDecimal(s[0..4]), ParseDecimal(s[4..6]), ParseDecimal(s[6..8]),
        ParseDecimal(s[9..11]), ParseDecimal(s[11..13]), ParseDecimal(s[13..15])))
    else
      None
  }

  /** Reading back a printed stamp gives the time printed. */
  lemma FormatParse(t: DateTime)
    requires Valid(t)
    ensures ParseStamp(Format(t)) == Some(t)
  {
    FieldWidths(t);
    JoinShape(PadDecimal(t.year, 4), PadDecimal(t.month, 2), PadDecimal(t.day, 2),
      PadDecimal(t.hour, 2), PadDecimal(t.minute, 2), PadDecimal(t.second, 2));
  }

  /** Distinct valid times print as distinct stamps. */
  lemma FormatInjective(t1: DateTime, t2: DateTime)
    requires Valid(t1) && Valid(t2)
    ensures Format(t1) == Format(t2) <==> t1 == t2
  {
    FormatParse(t1);
    FormatParse(t2);
  }

  /** Chronological order of times: by year, then month, day, hour,
      minute and second. */
  predicate Before(t1: DateTime, t2: DateTime) {
    || t1.year < t2.year
    || (t1.year == t2.year && t1.month < t2.month)
    || (t1.year == t2.year && t1.month == t2.month && t1.day < t2.day)
    || (t1.year == t2.year && t1.month == t2.month && t1.day == t2.day && t1.hour < t2.hour)
    || (t1.year == t2.year && t1.month == t2.month && t1.day == t2.day && t1.hour == t2.hour
        && t1.minute < t2.minute)
    || (t1.year == t2.year && t1.month == t2.month && t1.day == t2.day && t1.hour == t2.hour
        && t1.minute == t2.minute && t1.second < t2.second)
  }

  /** One more fixed-width field appended: the longer strings compare as the
      shorter ones do, and on a tie as the new fields do. */
  lemma AppendField(a1: string, a2: string, f1: string, f2: string)
    requires |a1| == |a2|
    ensures LexLess(a1 + f1, a2 + f2) <==> LexLess(a1, a2) || (a1 == a2 && LexLess(f1, f2))
    ensures a1 + f1 == a2 + f2 <==> a1 == a2 && f1 == f2
  {
    LexLessConcat(a1, f1, a2, f2);
    ConcatEqual(a1, f1, a2, f2);
  }

  /** Stamps sort in time order: a file name's start-time segment compared
      as a string orders valid times chronologically. */
  lemma FormatOrder(t1: DateTime, t2: DateTime)
    requires Valid(t1) && Valid(t2)
    ensures Before(t1, t2) <==> LexLess(Format(t1), Format(t2))
  {
    FieldWidths(t1);
    FieldWidths(t2);
    assert Pow10(2) == 100;
    assert Pow10(4) == 10000;
    var y1, y2 := PadDecimal(t1.year, 4), PadDecimal(t2.year, 4);
    var mo1, mo2 := PadDecimal(t1.month, 2), PadDecimal(t2.month, 2);
    var d1, d2 := PadDecimal(t1.day, 2), PadDecimal(t2.day, 2);
    var h1, h2 := PadDecimal(t1.hour, 2), PadDecimal(t2.hour, 2);
    var mi1, mi2 := PadDecimal(t1.minute, 2), PadDecimal(t2.minute, 2);
    var se1, se2 := PadDecimal(t1.second, 2), PadDecimal(t2.second, 2);
    PadDecimalOrder(t1.year, t2.year, 4);
    PadDecimalOrder(t1.month, t2.month, 2);
    PadDecimalOrder(t1.day, t2.day, 2);
    PadDecimalOrder(t1.hour, t2.hour, 2);
    PadDecimalOrder(t1.minute, t2.minute, 2);
    PadDecimalOrder(t1.second, t2.second, 2);
    PadDecimalInjective(t1.year, t2.year, 4);
    PadDecimalInjective(t1.month, t2.month, 2);
    PadDecimalInjective(t1.day, t2.day, 2);
    PadDecimalInjective(t1.hour, t2.hour, 2);
    PadDecimalInjective(t1.minute, t2.minute, 2);
    PadDecimalInjective(t1.second, t2.second, 2);
    AppendField(y1, y2, mo1, mo2);
    AppendField(y1 + mo1, y2 + mo2, d1, d2);
    AppendField(y1 + mo1 + d1, y2 + mo2 + d2, "-", "-");
    assert !LexLess("-", "-");
    AppendField(y1 + mo1 + d1 + "-", y2 + mo2 + d2 + "-", h1, h2);
    AppendField(y1 + mo1 + d1 + "-" + h1, y2 + mo2 + d2 + "-" + h2, mi1, mi2);
    AppendField(y1 + mo1 + d1 + "-" + h1 + mi1, y2 + mo2 + d2 + "-" + h2 + mi2, se1, se2);
  }
}
