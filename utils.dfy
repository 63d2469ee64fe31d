/**
  `Utils`: the Brzycki one-rep-max estimate, the date-range label of the chart and the
  list of days between two dates; also Swift's `Int(_: Double)` conversion.
 */
module Utils {
  import opened Wrappers
  import opened Calendar
  import opened Text

  /**
    `calculateOneRepMax(reps:weightInPounds:)`: the Brzycki estimate
    weight * 36 / (37 - reps) for 1 to 36 repetitions, and 0 for any other count.
    Read backwards, the lifted weight is the estimate scaled by (37 - reps) / 36.
   */
  function CalculateOneRepMax(reps: int, weightInPounds: real): (r: real)
    ensures !(1 <= reps <= 36) ==> r == 0.0
  {
    if 1 <= reps < 37 then weightInPounds * 36.0 / (37.0 - reps as real) else 0.0
  }

  /**
    In range, the estimate times (37 - reps) is 36 times the weight; a single repetition
    estimates the weight itself.
   */
  lemma OneRepMaxScaled(reps: int, weightInPounds: real)
    requires 1 <= reps <= 36
    ensures CalculateOneRepMax(reps, weightInPounds) * (37 - reps) as real == weightInPounds * 36.0
    ensures reps == 1 ==> CalculateOneRepMax(reps, weightInPounds) == weightInPounds
  {
  }

  /** An estimate from a set of 1 to 36 repetitions is never below the lifted weight. */
  lemma OneRepMaxAtLeastWeight(reps: int, weightInPounds: real)
    requires 1 <= reps <= 36 && weightInPounds >= 0.0
    ensures CalculateOneRepMax(reps, weightInPounds) >= weightInPounds
  {
    var r, k := CalculateOneRepMax(reps, weightInPounds), (37 - reps) as real;
    OneRepMaxScaled(reps, weightInPounds);
    assert r * k == weightInPounds * 36.0;
    MulMonotone(weightInPounds, k, 36.0);
    CancelNonStrict(weightInPounds, r, k);
  }

  /** For a positive weight, more repetitions give a strictly larger estimate. */
  lemma OneRepMaxIncreasing(a: int, b: int, weightInPounds: real)
    requires 1 <= a < b <= 36 && weightInPounds > 0.0
    ensures CalculateOneRepMax(a, weightInPounds) < CalculateOneRepMax(b, weightInPounds)
  {
    var ra, rb := CalculateOneRepMax(a, weightInPounds), CalculateOneRepMax(b, weightInPounds);
    OneRepMaxScaled(a, weightInPounds);
    OneRepMaxScaled(b, weightInPounds);
    SameProductSmallerFactor(ra, rb, (37 - a) as real, (37 - b) as real, weightInPounds * 36.0);
  }

  /** Two factorings of one positive product: the smaller cofactor goes with the larger factor. */
  lemma SameProductSmallerFactor(x: real, y: real, kx: real, ky: real, p: real)
    requires 0.0 < ky < kx && p > 0.0 && x * kx == p && y * ky == p
    ensures x < y
  {
    PositiveFactor(y, ky, p);
    MulLess(y, ky, kx);
    CancelPositive(x, y, kx);
  }

  lemma MulMonotone(x: real, a: real, b: real)
    requires x >= 0.0 && a <= b
    ensures x * a <= x * b
  {
  }

  lemma CancelNonStrict(x: real, y: real, k: real)
    requires k > 0.0 && x * k <= y * k
    ensures x <= y
  {
  }

  lemma PositiveFactor(x: real, k: real, p: real)
    requires k > 0.0 && p > 0.0 && x * k == p
    ensures x > 0.0
  {
  }

  lemma MulLess(x: real, a: real, b: real)
    requires x > 0.0 && a < b
    ensures x * a < x * b
  {
  }

  lemma CancelPositive(x: real, y: real, k: real)
    requires k > 0.0 && x * k < y * k
    ensures x < y
  {
  }

  /** The worked values: 10 x 200 lb gives 266.67 lb; 0 or 37 repetitions give 0. */
  lemma OneRepMaxExamples()
    ensures CalculateOneRepMax(10, 200.0) == 800.0 / 3.0
    ensures CalculateOneRepMax(37, 200.0) == 0.0
    ensures CalculateOneRepMax(0, 200.0) == 0.0
  {
  }

  /**
    The integer part of `x`, rounding toward zero, as `Int(x)` gives for a finite `Double`
    within the 64-bit range; `Int(x)` traps outside that range, while `Trunc` is total.
   */
  function Trunc(x: real): (n: int)
    ensures x >= 0.0 ==> 0 <= n && n as real <= x < n as real + 1.0
    ensures x < 0.0 ==> n <= 0 && n as real - 1.0 < x <= n as real
  {
    if x >= 0.0 then x.Floor else -((-x).Floor)
  }

  /** Truncation never decreases when its argument grows. */
  lemma TruncMonotone(x: real, y: real)
    requires x <= y
    ensures Trunc(x) <= Trunc(y)
  {
    if x < 0.0 && y < 0.0 {
      assert -y <= -x;
      assert (-y).Floor <= (-x).Floor;
    }
  }

  /** `calendar.shortMonthSymbols[month - 1]` in English. */
  function MonthSymbol(month: int): (s: string)
    requires 1 <= month <= 12
    ensures |s| == 3
  {
    ["Jan", "Feb", "Mar", "Apr", "May", "Jun", "Jul", "Aug", "Sep", "Oct", "Nov", "Dec"][month - 1]
  }

  predicate IsSpace(c: char) {
    c == ' '
  }

  /**
    `dateRangeString(lowerDate:upperDate:yearOnly:)`: just the upper year when `yearOnly`;
    otherwise "{lower year} {lower month} {lower day} - " followed, when the years differ,
    by the upper year with no space after it, then "{upper month} {upper day}".
   */
  function DateRangeString(lowerDate: Date, upperDate: Date, yearOnly: bool): string {
    if yearOnly then IntToString(upperDate.year)
    else
      var head := IntToString(lowerDate.year) + " " + MonthSymbol(lowerDate.month) + " "
        + IntToString(lowerDate.day) + " - ";
      var upperYear := if lowerDate.year != upperDate.year then IntToString(upperDate.year) else "";
      head + upperYear + MonthSymbol(upperDate.month) + " " + IntToString(upperDate.day)
  }

  lemma JoinSix(a: string, b: string, c: string, d: string, e: string, f: string)
    ensures Join([a, b, c, d, e, f], ' ') == a + " " + b + " " + c + " " + d + " " + e + " " + f
  {
    var w := [a, b, c, d, e, f];
    assert w[1..] == [b, c, d, e, f];
    assert w[2..] == [c, d, e, f];
    assert w[3..] == [d, e, f];
    assert w[4..] == [e, f];
    assert w[5..] == [f];
    assert Join([e, f], ' ') == e + " " + f;
    assert Join([d, e, f], ' ') == d + " " + (e + " " + f);
    assert Join([c, d, e, f], ' ') == c + " " + (d + " " + (e + " " + f));
    assert Join([b, c, d, e, f], ' ') == b + " " + (c + " " + (d + " " + (e + " " + f)));
    assert Join(w, ' ') == a + " " + (b + " " + (c + " " + (d + " " + (e + " " + f))));
  }

  /** A year-only label reads back as the upper date's year. */
  lemma YearOnlyLabelRoundTrip(lowerDate: Date, upperDate: Date)
    requires IntMin <= upperDate.year <= IntMax
    ensures ParseInt(DateRangeString(lowerDate, upperDate, true)) == Some(upperDate.year)
  {
    IntRoundTrip(upperDate.year);
  }

  /** A label has no space exactly when it is year-only. */
  lemma LabelYearOnlyIff(lowerDate: Date, upperDate: Date, yearOnly: bool)
    ensures Free(DateRangeString(lowerDate, upperDate, yearOnly), IsSpace) <==> yearOnly
  {
    if yearOnly {
      IntToStringFree(upperDate.year, IsSpace);
    } else {
      var year := IntToString(lowerDate.year);
      var rest := MonthSymbol(lowerDate.month) + " " + IntToString(lowerDate.day) + " - "
        + (if lowerDate.year != upperDate.year then IntToString(upperDate.year) else "")
        + MonthSymbol(upperDate.month) + " " + IntToString(upperDate.day);
      assert DateRangeString(lowerDate, upperDate, false) == year + " " + rest;
      assert (year + " " + rest)[|year|] == ' ';
    }
  }

  /** The six space-separated words of a full label. */
  function LabelWordList(lowerDate: Date, upperDate: Date): seq<string> {
    var upperYear := if lowerDate.year != upperDate.year then IntToString(upperDate.year) else "";
    [IntToString(lowerDate.year), MonthSymbol(lowerDate.month), IntToString(lowerDate.day),
     "-", upperYear + MonthSymbol(upperDate.month), IntToString(upperDate.day)]
  }

  lemma LabelIsJoin(lowerDate: Date, upperDate: Date)
    ensures Join(LabelWordList(lowerDate, upperDate), ' ') == DateRangeString(lowerDate, upperDate, false)
  {
    var w := LabelWordList(lowerDate, upperDate);
    JoinSix(w[0], w[1], w[2], w[3], w[4], w[5]);
    assert " - " == " " + "-" + " ";
  }

  /**
    The words of a full label: lower year, lower month, lower day, "-", the upper month
    (preceded by the upper year, glued to it, when the years differ) and the upper day;
    the numbers read back as the dates' own.
   */
  lemma LabelWords(lowerDate: Date, upperDate: Date)
    requires IntMin <= lowerDate.year <= IntMax && IntMin <= upperDate.year <= IntMax
    ensures var w := Split(DateRangeString(lowerDate, upperDate, false), IsSpace);
      && |w| == 6
      && ParseInt(w[0]) == Some(lowerDate.year)
      && w[1] == MonthSymbol(lowerDate.month)
      && ParseInt(w[2]) == Some(lowerDate.day)
      && w[3] == "-"
      && w[4] == (if lowerDate.year != upperDate.year then IntToString(upperDate.year) else "")
                 + MonthSymbol(upperDate.month)
      && ParseInt(w[5]) == Some(upperDate.day)
  {
    var words := LabelWordList(lowerDate, upperDate);
    IntToStringFree(lowerDate.year, IsSpace);
    IntToStringFree(lowerDate.day, IsSpace);
    IntToStringFree(upperDate.day, IsSpace);
    IntToStringFree(upperDate.year, IsSpace);
    assert Free(words[1], IsSpace);
    assert Free(words[3], IsSpace);
    assert Free(words[4], IsSpace);
    assert forall i :: 0 <= i < |words| ==> Free(words[i], IsSpace);
    LabelIsJoin(lowerDate, upperDate);
    SplitJoin(words, ' ', IsSpace);
    IntRoundTrip(lowerDate.year);
    IntRoundTrip(lowerDate.day);
    IntRoundTrip(upperDate.day);
  }

  lemma Digits2024()
    ensures IntToString(2024) == "2024"
  {
    assert NatToDigits(20) == "20";
    assert NatToDigits(202) == "202";
  }

  lemma Digits2023()
    ensures IntToString(2023) == "2023"
  {
    assert NatToDigits(20) == "20";
    assert NatToDigits(202) == "202";
  }

  /** The label of a window inside one year. */
  lemma LabelSameYearExample()
    ensures DateRangeString(DateTime(2024, 2, 15, 0), DateTime(2024, 3, 15, 0), false)
            == "2024 Feb 15 - Mar 15"
  {
    Digits2024();
    assert IntToString(15) == "15";
    assert MonthSymbol(2) == "Feb" && MonthSymbol(3) == "Mar";
    var head := "2024" + " " + "Feb" + " " + "15" + " - ";
    assert head == "2024 Feb 15 - ";
    var tail := "" + "Mar" + " " + "15";
    assert tail == "Mar 15";
    assert "2024 Feb 15 - Mar 15" == head + tail;
  }

  /**
    The label of a window across a new year: the upper year runs into the month name
    ("2024Jan"), where the comment on `dateRangeString` promises "YYYY MMM DD".
   */
  lemma LabelNewYearExample()
    ensures DateRangeString(DateTime(2023, 12, 31, 0), DateTime(2024, 1, 30, 0), false)
            == "2023 Dec 31 - 2024Jan 30"
  {
    Digits2024();
    Digits2023();
    assert IntToString(31) == "31";
    assert IntToString(30) == "30";
    assert MonthSymbol(12) == "Dec" && MonthSymbol(1) == "Jan";
    var head := "2023" + " " + "Dec" + " " + "31" + " - ";
    assert head == "2023 Dec 31 - ";
    var tail := "2024" + "Jan" + " " + "30";
    assert tail == "2024Jan 30";
    assert "2023 Dec 31 - 2024Jan 30" == head + tail;
  }

  /**
    The days from `start` to `end`: the midnight of `start`, of the next day, and so on
    while that day at the time of `start` is not after `end`.
   */
  function DaysFrom(start: Date, end: Date): (days: seq<Date>)
    decreases Seconds(end) - Seconds(start)
  {
    if Seconds(end) < Seconds(start) then []
    else [Midnight(start)] + DaysFrom(NextDay(start), end)
  }

  /** The i-th listed day is the midnight of `start` plus i days. */
  lemma {:induction false} DaysFromAt(start: Date, end: Date, i: int)
    requires 0 <= i < |DaysFrom(start, end)|
    ensures DaysFrom(start, end)[i] == Midnight(AddDays(start, i))
    decreases Seconds(end) - Seconds(start)
  {
    if i > 0 {
      DaysFromAt(NextDay(start), end, i - 1);
      assert AddDays(start, i) == AddDays(NextDay(start), i - 1);
    }
  }

  /**
    One day per calendar day from the day of `start` to the day of `end`, both included,
    except that the last day is left out when its time of day would pass `end`.
   */
  lemma {:induction false} DaysFromLength(start: Date, end: Date)
    ensures |DaysFrom(start, end)| ==
      if Seconds(end) < Seconds(start) then 0
      else DayNumber(end) - DayNumber(start) + (if start.second <= end.second then 1 else 0)
    decreases Seconds(end) - Seconds(start)
  {
    if Seconds(start) <= Seconds(end) {
      DaysFromLength(NextDay(start), end);
    }
  }

  /** The listed days are midnights, one day apart, starting at the day of `start`. */
  lemma DaysFromShape(start: Date, end: Date)
    ensures Seconds(start) <= Seconds(end) ==> |DaysFrom(start, end)| >= 1
    ensures forall i :: 0 <= i < |DaysFrom(start, end)| ==>
      DaysFrom(start, end)[i].second == 0 && DayNumber(DaysFrom(start, end)[i]) == DayNumber(start) + i
    ensures forall i, j :: 0 <= i < j < |DaysFrom(start, end)| ==>
      Seconds(DaysFrom(start, end)[i]) < Seconds(DaysFrom(start, end)[j])
  {
    var days := DaysFrom(start, end);
    forall i | 0 <= i < |days|
      ensures days[i].second == 0 && DayNumber(days[i]) == DayNumber(start) + i
    {
      DaysFromAt(start, end, i);
    }
  }

  /**
    `datesBetween(startDate:endDate:)`: nil when `startDate` is after `endDate`; otherwise
    the midnights of `startDate`, the day after, and so on up to `endDate`.
   */
  method DatesBetween(startDate: Date, endDate: Date) returns (r: Option<seq<Date>>)
    ensures r.None? <==> Seconds(endDate) < Seconds(startDate)
    ensures r.Some? ==> r.value == DaysFrom(startDate, endDate)
    ensures r.Some? ==> |r.value| >= 1 && Midnight(startDate) == r.value[0]
    ensures r.Some? ==> forall i :: 0 <= i < |r.value| ==> r.value[i] == Midnight(AddDays(startDate, i))
  {
    if Seconds(endDate) < Seconds(startDate) {
      return None;
    }
    var dates: seq<Date> := [];
    var currentDate := startDate;
    while Seconds(currentDate) <= Seconds(endDate)
      invariant dates + DaysFrom(currentDate, endDate) == DaysFrom(startDate, endDate)
      decreases Seconds(endDate) - Seconds(currentDate)
    {
      var nextDate := DateByAdding(Component.Day, 1, currentDate);
      assert nextDate == NextDay(currentDate);
      assert DaysFrom(currentDate, endDate) == [Midnight(currentDate)] + DaysFrom(nextDate, endDate);
      dates := dates + [Midnight(currentDate)];
      currentDate := nextDate;
    }
    assert DaysFrom(currentDate, endDate) == [];
    r := Some(dates);
    forall i | 0 <= i < |dates| ensures dates[i] == Midnight(AddDays(startDate, i)) {
      DaysFromAt(startDate, endDate, i);
    }
  }
}
