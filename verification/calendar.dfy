/**
 * What the calendar shows for a day: the per-day rule of `renderCalendar`
 * and the `DD-MM-YYYY` text of `formatDate`.
 */
module Calendar {
  import opened Wrappers
  import opened Seqs
  import opened JsValues
  import opened Bookings
  import opened Unification

  // ---------------------------------------------------------------- day classification

  /** The two attributes set on a day cell: `data-source` and `data-overbooking`. */
  datatype DayMark = DayMark(dataSource: string, overbooking: bool)

  /**
   * No bucket: `none`; a bucket of one entry: that entry's source; two or
   * more entries: `Overbooking`, with the overbooking flag set. A present
   * but empty bucket would make the source read `bookings[0].source` of
   * nothing, so buckets must not be empty.
   */
  function Classify(bookingsMap: BookingsMap, d: Day): (r: DayMark)
    requires d in bookingsMap ==> bookingsMap[d] != []
    ensures r.dataSource == "none" <==> d !in bookingsMap
    ensures r.overbooking <==> d in bookingsMap && |bookingsMap[d]| >= 2
    ensures r.dataSource == "Overbooking" <==> r.overbooking
    ensures d in bookingsMap && |bookingsMap[d]| == 1
      ==> r.dataSource == SourceName(bookingsMap[d][0].source)
  {
    if d in bookingsMap then
      var bookings := bookingsMap[d];
      var isOverbooked := |bookings| > 1;
      var source := if isOverbooked then "Overbooking" else SourceName(bookings[0].source);
      DayMark(source, isOverbooked)
    else DayMark("none", false)
  }

  /**
   * On the unified map, a day is `none` exactly when no reservation covers
   * it, shows the source of the one reservation covering it when there is
   * exactly one, and is an overbooking exactly when two or more
   * reservations cover it, whatever their sources.
   */
  lemma ClassifyUnified(airbnbData: seq<Reservation>, bookingData: seq<Reservation>, d: Day)
    ensures var ts := Unified(airbnbData, bookingData);
      var m := BuildMap(ts);
      var covering := PresentIndices(Hits(ts, d));
      && (d in m ==> m[d] != [])
      && (Classify(m, d).dataSource == "none" <==> |covering| == 0)
      && (|covering| == 1 ==>
            && covering[0] < |ts|
            && Classify(m, d) == DayMark(SourceName(ts[covering[0]].source), false))
      && (Classify(m, d).overbooking <==> |covering| >= 2)
      && (Classify(m, d).dataSource == "Overbooking" <==> |covering| >= 2)
  {
    var ts := Unified(airbnbData, bookingData);
    BucketExact(ts, d);
    BuildMapBuckets(ts, d);
  }

  // ---------------------------------------------------------------- formatDate

  /**
   * What the getters of a Date return: `getFullYear()`, `getMonth()`
   * (0 for January) and `getDate()` (the day of the month).
   */
  datatype JsDate = JsDate(fullYear: int, month: int, date: int)

  /** A Date whose getters give an actual calendar day. */
  predicate ValidDate(t: JsDate)
  {
    0 <= t.month <= 11 && 1 <= t.date <= 31
  }

  /** `String(n).padStart(2, '0')` for a number, `"NaN"` for NaN. */
  function TwoDigits(n: Option<int>): (r: string)
    ensures n.None? ==> r == "NaN"
    ensures n.Some? && 0 <= n.value < 100 ==> r == PaddedPart(n.value)
  {
    match n
    case None => "NaN"
    case Some(k) => PadStartZeros(IntString(k), 2)
  }

  /**
   * `formatDate`: day, month (1-based) and year of the parsed date joined
   * by `-`; an Invalid Date (`None`) gives `NaN-NaN-NaN`.
   */
  function FormatDate(date: Option<JsDate>): (r: string)
    ensures date.None? ==> r == "NaN-NaN-NaN"
  {
    match date
    case None => TwoDigits(None) + "-" + TwoDigits(None) + "-" + "NaN"
    case Some(t) => TwoDigits(Some(t.date)) + "-" + TwoDigits(Some(t.month + 1)) + "-" + IntString(t.fullYear)
  }

  /**
   * For a valid date with a year from 0 on, the text splits on `-` into
   * exactly three parts: two digits that read back as the day of the
   * month, two digits that read back as the 1-based month, and the digits
   * of the year.
   */
  lemma FormatDateParts(t: JsDate)
    requires ValidDate(t) && t.fullYear >= 0
    ensures var parts := Split(FormatDate(Some(t)), '-');
      && |parts| == 3
      && |parts[0]| == 2 && AllDigits(parts[0], 10) && ParseInt(parts[0]) == Some(t.date)
      && |parts[1]| == 2 && AllDigits(parts[1], 10) && ParseInt(parts[1]) == Some(t.month + 1)
      && AllDigits(parts[2], 10) && ParseInt(parts[2]) == Some(t.fullYear)
  {
    FormatDateSplit(t);
    PaddedPartReads(t.date);
    PaddedPartReads(t.month + 1);
    YearReads(t.fullYear);
  }

  lemma FormatDateSplit(t: JsDate)
    requires ValidDate(t) && t.fullYear >= 0
    ensures Split(FormatDate(Some(t)), '-')
      == [PaddedPart(t.date), PaddedPart(t.month + 1), Decimal(t.fullYear)]
  {
    FormatDateJoin(t);
    SplitJoin([PaddedPart(t.date), PaddedPart(t.month + 1), Decimal(t.fullYear)], '-');
  }

  lemma PaddedPartReads(n: nat)
    requires n < 100
    ensures ParseInt(PaddedPart(n)) == Some(n)
  {
    ParseIntPaddedDecimal(n, 2);
  }

  lemma YearReads(y: nat)
    ensures AllDigits(Decimal(y), 10) && ParseInt(Decimal(y)) == Some(y)
  {
    ParseIntPaddedDecimal(y, 0);
    assert PadStartZeros(Decimal(y), 0) == Decimal(y);
  }

  /** A day or month number as two digits, `0`-padded. */
  function PaddedPart(n: nat): (r: string)
    requires n < 100
    ensures |r| == 2 && AllDigits(r, 10) && '-' !in r
  {
    var r := PadStartZeros(Decimal(n), 2);
    DigitsHaveNoDash(r);
    r
  }

  lemma FormatDateJoin(t: JsDate)
    requires ValidDate(t) && t.fullYear >= 0
    ensures '-' !in Decimal(t.fullYear)
    ensures FormatDate(Some(t))
      == Join([PaddedPart(t.date), PaddedPart(t.month + 1), Decimal(t.fullYear)], '-')
  {
    var dd, mm, yyyy := PaddedPart(t.date), PaddedPart(t.month + 1), Decimal(t.fullYear);
    DigitsHaveNoDash(yyyy);
    assert TwoDigits(Some(t.date)) == dd;
    assert TwoDigits(Some(t.month + 1)) == mm;
    assert IntString(t.fullYear) == yyyy;
    assert Join([mm, yyyy], '-') == mm + "-" + yyyy by {
      assert [mm, yyyy][1..] == [yyyy];
    }
    assert Join([dd, mm, yyyy], '-') == dd + "-" + (mm + "-" + yyyy) by {
      assert [dd, mm, yyyy][1..] == [mm, yyyy];
    }
    assert dd + "-" + (mm + "-" + yyyy) == dd + "-" + mm + "-" + yyyy;
  }

  lemma DigitsHaveNoDash(s: string)
    requires AllDigits(s, 10)
    ensures '-' !in s
  {
  }
}
