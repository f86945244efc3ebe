/**
 * Calendar dates as the source reads them from a JavaScript `Date`: the local
 * year, month index and day, and the `YYYY-MM-DD` text built from them by
 * `toIsoDate` in the filters drawer and by the insert path of the expense sheet.
 */
module Dates {
  import opened Wrappers
  import opened Text
  import opened Numerals

  /** `getMonth()`: January is 0. */
  type MonthIndex = m: int | 0 <= m < 12
  /** `getDate()` */
  type DayOfMonth = d: int | 1 <= d <= 31 witness 1

  /**
   * A `Date` seen through its local calendar fields (`getFullYear`,
   * `getMonth`, `getDate`); `InvalidDate` is one whose `getTime()` is NaN.
   */
  datatype JsDate = InvalidDate | LocalDate(year: int, month: MonthIndex, day: DayOfMonth)

  function JoinDate(y: string, m: string, d: string): string {
    y + "-" + m + "-" + d
  }

  /** The text `${y}-${mm}-${dd}` with month and day padded to two digits and the year as `String(y)`. */
  function FormatLocalDate(year: int, month: MonthIndex, day: DayOfMonth): (r: string)
    ensures r == JoinDate(IntToString(year), Digits(month + 1, 2), Digits(day, 2))
  {
    Pad2IsDigits(month + 1);
    Pad2IsDigits(day);
    JoinDate(IntToString(year), PadStart2(NatToString(month + 1)), PadStart2(NatToString(day)))
  }

  /** `toIsoDate(d)`: undefined for a missing or invalid date, else its local `YYYY-MM-DD` text. */
  function ToIsoDate(d: Option<JsDate>): (r: Option<string>)
    ensures r.None? <==> (d.None? || d.value.InvalidDate?)
    ensures r.Some? ==> r.value == JoinDate(IntToString(d.value.year), Digits(d.value.month + 1, 2), Digits(d.value.day, 2))
  {
    match d
    case None => None
    case Some(InvalidDate) => None
    case Some(LocalDate(y, m, da)) => Some(FormatLocalDate(y, m, da))
  }

  predicate HasFourDigitYear(d: JsDate) {
    d.LocalDate? && 1000 <= d.year <= 9999
  }

  /** Chronological order of two valid dates, field by field. */
  predicate Before(a: JsDate, b: JsDate)
    requires a.LocalDate? && b.LocalDate?
  {
    || a.year < b.year
    || (a.year == b.year && a.month < b.month)
    || (a.year == b.year && a.month == b.month && a.day < b.day)
  }

  /** With a four-digit year every field of the text is fixed-width. */
  lemma IsoDateFields(d: JsDate)
    requires HasFourDigitYear(d)
    ensures ToIsoDate(Some(d)) == Some(JoinDate(Digits(d.year, 4), Digits(d.month + 1, 2), Digits(d.day, 2)))
  {
    Pow10Values();
    NatToStringIsDigits(d.year, 4);
  }

  /** With a four-digit year the text is exactly ten characters: `YYYY-MM-DD`. */
  lemma IsoDateLayout(d: JsDate)
    requires HasFourDigitYear(d)
    ensures ToIsoDate(Some(d)).Some?
    ensures var s := ToIsoDate(Some(d)).value;
            |s| == 10 && s[4] == '-' && s[7] == '-'
            && s[..4] == Digits(d.year, 4) && s[5..7] == Digits(d.month + 1, 2) && s[8..] == Digits(d.day, 2)
  {
    IsoDateFields(d);
    JoinDateLayout(Digits(d.year, 4), Digits(d.month + 1, 2), Digits(d.day, 2));
  }

  /** Where the fields sit in a joined `YYYY-MM-DD` text. */
  lemma JoinDateLayout(y: string, m: string, da: string)
    requires |y| == 4 && |m| == 2 && |da| == 2
    ensures var s := JoinDate(y, m, da);
            |s| == 10 && s[4] == '-' && s[7] == '-' && s[..4] == y && s[5..7] == m && s[8..] == da
  {
    var s := JoinDate(y, m, da);
    assert s[..4] == y;
    assert s[5..7] == m;
    assert s[8..] == da;
  }

  /**
   * For four-digit years the text order of `YYYY-MM-DD` strings is the
   * chronological order, and distinct dates have distinct texts; this is what
   * lets the source compare dates as strings.
   */
  lemma IsoDateOrder(a: JsDate, b: JsDate)
    requires HasFourDigitYear(a) && HasFourDigitYear(b)
    ensures ToIsoDate(Some(a)).Some? && ToIsoDate(Some(b)).Some?
    ensures var sa, sb := ToIsoDate(Some(a)).value, ToIsoDate(Some(b)).value;
            (sa == sb <==> a == b) && (LexLess(sa, sb) <==> Before(a, b))
  {
    IsoDateFields(a);
    IsoDateFields(b);
    FieldTextsCompareLikeNumbers(a, b);
    FieldsOrder(Digits(a.year, 4), Digits(a.month + 1, 2), Digits(a.day, 2),
                Digits(b.year, 4), Digits(b.month + 1, 2), Digits(b.day, 2),
                a.year, a.month + 1, a.day, b.year, b.month + 1, b.day);
  }

  /** Each fixed-width field text compares like the number it shows. */
  lemma FieldTextsCompareLikeNumbers(a: JsDate, b: JsDate)
    requires HasFourDigitYear(a) && HasFourDigitYear(b)
    ensures |Digits(a.year, 4)| == |Digits(b.year, 4)| && |Digits(a.month + 1, 2)| == |Digits(b.month + 1, 2)|
    ensures (Digits(a.year, 4) == Digits(b.year, 4) <==> a.year == b.year)
            && (LexLess(Digits(a.year, 4), Digits(b.year, 4)) <==> a.year < b.year)
    ensures (Digits(a.month + 1, 2) == Digits(b.month + 1, 2) <==> a.month == b.month)
            && (LexLess(Digits(a.month + 1, 2), Digits(b.month + 1, 2)) <==> a.month < b.month)
    ensures (Digits(a.day, 2) == Digits(b.day, 2) <==> a.day == b.day)
            && (LexLess(Digits(a.day, 2), Digits(b.day, 2)) <==> a.day < b.day)
  {
    Pow10Values();
    DigitsOrder(a.year, b.year, 4);
    DigitsOrder(a.month + 1, b.month + 1, 2);
    DigitsOrder(a.day, b.day, 2);
  }

  /** Joined fields that each compare like numbers compare like the number triples. */
  lemma FieldsOrder(y1: string, m1: string, d1: string, y2: string, m2: string, d2: string,
                    ny1: int, nm1: int, nd1: int, ny2: int, nm2: int, nd2: int)
    requires |y1| == |y2| && |m1| == |m2|
    requires (y1 == y2 <==> ny1 == ny2) && (LexLess(y1, y2) <==> ny1 < ny2)
    requires (m1 == m2 <==> nm1 == nm2) && (LexLess(m1, m2) <==> nm1 < nm2)
    requires (d1 == d2 <==> nd1 == nd2) && (LexLess(d1, d2) <==> nd1 < nd2)
    ensures JoinDate(y1, m1, d1) == JoinDate(y2, m2, d2) <==> ny1 == ny2 && nm1 == nm2 && nd1 == nd2
    ensures LexLess(JoinDate(y1, m1, d1), JoinDate(y2, m2, d2))
            <==> ny1 < ny2 || (ny1 == ny2 && (nm1 < nm2 || (nm1 == nm2 && nd1 < nd2)))
  {
    DashJoinOrder(y1, m1, d1, y2, m2, d2);
  }

  lemma DashPrefixOrder(x: string, y: string)
    ensures ("-" + x == "-" + y <==> x == y) && (LexLess("-" + x, "-" + y) <==> LexLess(x, y))
  {
    LexLessConcat("-", x, "-", y);
    LexLessIrreflexive("-");
    ConcatEqual("-", x, "-", y);
  }

  lemma FieldThenRest(m1: string, d1: string, m2: string, d2: string)
    requires |m1| == |m2|
    ensures (m1 + ("-" + d1) == m2 + ("-" + d2)) <==> m1 == m2 && d1 == d2
    ensures LexLess(m1 + ("-" + d1), m2 + ("-" + d2)) <==> LexLess(m1, m2) || (m1 == m2 && LexLess(d1, d2))
  {
    DashPrefixOrder(d1, d2);
    LexLessConcat(m1, "-" + d1, m2, "-" + d2);
    ConcatEqual(m1, "-" + d1, m2, "-" + d2);
  }

  /** Two `y-m-d` texts whose year and month fields have equal widths compare field by field. */
  lemma DashJoinOrder(y1: string, m1: string, d1: string, y2: string, m2: string, d2: string)
    requires |y1| == |y2| && |m1| == |m2|
    ensures JoinDate(y1, m1, d1) == JoinDate(y2, m2, d2) <==> y1 == y2 && m1 == m2 && d1 == d2
    ensures LexLess(JoinDate(y1, m1, d1), JoinDate(y2, m2, d2))
            <==> LexLess(y1, y2) || (y1 == y2 && (LexLess(m1, m2) || (m1 == m2 && LexLess(d1, d2))))
  {
    var u1, u2 := m1 + ("-" + d1), m2 + ("-" + d2);
    FieldThenRest(m1, d1, m2, d2);
    FieldThenRest(y1, u1, y2, u2);
    assert JoinDate(y1, m1, d1) == y1 + ("-" + u1);
    assert JoinDate(y2, m2, d2) == y2 + ("-" + u2);
  }

  /** The year is not padded: year 999 gives a nine-character text. */
  lemma UnpaddedYear()
    ensures ToIsoDate(Some(LocalDate(999, 0, 5))) == Some("999-01-05")
  {
    assert NatToString(9) == "9";
    assert NatToString(99) == NatToString(9) + "9";
    assert NatToString(999) == NatToString(99) + "9";
    assert IntToString(999) == "999";
    assert Digits(1, 2) == "01" && Digits(5, 2) == "05";
    assert JoinDate("999", "01", "05") == "999-01-05";
  }
}
