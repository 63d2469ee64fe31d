/** The span of the chart window (`TimeFrame`): a week, a month or a year. */
module TimeFrames {
  import opened Wrappers
  import Calendar

  datatype TimeFrame = Week | Month | Year
  {
    /** The `String` raw value of the case. */
    function RawValue(): string {
      match this
      case Week => "week"
      case Month => "month"
      case Year => "year"
    }

    /** `id`: the case itself (`Identifiable`). */
    function Id(): TimeFrame {
      this
    }

    /** `description`: the raw value, capitalized. */
    function Description(): string {
      Capitalized(RawValue())
    }

    /** `unit`: the calendar component one window spans. */
    function Unit(): Calendar.Component {
      match this
      case Week => Calendar.Component.WeekOfYear
      case Month => Calendar.Component.Month
      case Year => Calendar.Component.Year
    }
  }

  /** `TimeFrame.allCases`, in declaration order. */
  const AllCases: seq<TimeFrame> := [Week, Month, Year]

  /** `TimeFrame(rawValue:)`. */
  function FromRawValue(s: string): (r: Option<TimeFrame>)
    ensures r.Some? ==> r.value.RawValue() == s
  {
    if s == "week" then Some(Week)
    else if s == "month" then Some(Month)
    else if s == "year" then Some(Year)
    else None
  }

  function ToUpper(c: char): char {
    if 'a' <= c <= 'z' then (c as int - 32) as char else c
  }

  function ToLower(c: char): char {
    if 'A' <= c <= 'Z' then (c as int + 32) as char else c
  }

  /** `String.capitalized` on ASCII text: each word's first letter upper case, the rest lower. */
  function Capitalized(s: string): (r: string)
    ensures |r| == |s|
  {
    seq(|s|, i requires 0 <= i < |s| => if i == 0 || s[i - 1] == ' ' then ToUpper(s[i]) else ToLower(s[i]))
  }

  /** `allCases` lists every case exactly once. */
  lemma AllCasesOnce(t: TimeFrame)
    ensures multiset(AllCases)[t] == 1
  {
    assert AllCases == [Week] + [Month] + [Year];
  }

  /** The raw value identifies the case: `TimeFrame(rawValue: t.rawValue) == t`. */
  lemma RawValueRoundTrip(t: TimeFrame)
    ensures FromRawValue(t.RawValue()) == Some(t)
  {
    match t
    case Week =>
    case Month =>
      assert "month" != "week";
    case Year =>
      assert "year" != "week" && "year" != "month";
  }

  /** The labels shown in the time-frame picker. */
  lemma DescriptionValues()
    ensures Week.Description() == "Week"
    ensures Month.Description() == "Month"
    ensures Year.Description() == "Year"
  {
    assert Capitalized("week") == "Week";
    assert Capitalized("month") == "Month";
    assert Capitalized("year") == "Year";
  }

  /** Distinct cases have distinct ids, units and descriptions. */
  lemma CasesDistinct(a: TimeFrame, b: TimeFrame)
    requires a != b
    ensures a.Id() != b.Id() && a.Unit() != b.Unit() && a.Description() != b.Description()
  {
    DescriptionValues();
    assert |"Week"| == 4 && |"Month"| == 5 && |"Year"| == 4;
    assert "Week"[0] != "Year"[0];
  }
}
