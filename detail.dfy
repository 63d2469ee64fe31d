/**
  `ExerciseDetailViewModel`: the chart of one exercise over a window of days one
  `TimeFrame` wide, which the user moves backward and forward.
 */
module ExerciseDetail {
  import opened Wrappers
  import opened Calendar
  import opened Models
  import opened Utils
  import opened Maxima
  import opened TimeFrames
  import opened Managers

  /** `records.map { $0.oneRM }`. */
  function OneRMs(rs: seq<ExerciseRecord>): (values: seq<real>)
    ensures |values| == |rs| && forall i :: 0 <= i < |rs| ==> values[i] == rs[i].oneRM
  {
    seq(|rs|, i requires 0 <= i < |rs| => rs[i].oneRM)
  }

  /** `records.mapValues { $0.map { record in record.oneRM } }`. */
  function OneRMData(records: map<Date, seq<ExerciseRecord>>): (data: map<Date, seq<real>>)
    ensures data.Keys == records.Keys
    ensures forall d :: d in records ==> data[d] == OneRMs(records[d])
  {
    map d | d in records :: OneRMs(records[d])
  }

  /** `exerciseOneRMData[day]?.max() ?? 0`: the best 1RM of the day, 0 on a day without one. */
  function DayBest(data: map<Date, seq<real>>, day: Date): real {
    if day in data && data[day] != [] then Max(data[day]) else 0.0
  }

  lemma DayBestSpec(data: map<Date, seq<real>>, day: Date)
    ensures day !in data || data[day] == [] ==> DayBest(data, day) == 0.0
    ensures day in data && data[day] != [] ==>
      DayBest(data, day) in data[day] && forall i :: 0 <= i < |data[day]| ==> data[day][i] <= DayBest(data, day)
  {
  }

  /** The chart points of the listed days, one per day in order. */
  function DailyPoints(data: map<Date, seq<real>>, days: seq<Date>): (points: seq<DailyOneRM>)
    ensures |points| == |days|
    decreases |days|
  {
    if days == [] then []
    else
      var n := |days| - 1;
      DailyPoints(data, days[..n]) + [DailyOneRM(days[n], Trunc(DayBest(data, days[n])))]
  }

  /** The i-th point is the i-th day with the integer part of its best 1RM. */
  lemma {:induction false} DailyPointsAt(data: map<Date, seq<real>>, days: seq<Date>, i: int)
    requires 0 <= i < |days|
    ensures DailyPoints(data, days)[i] == DailyOneRM(days[i], Trunc(DayBest(data, days[i])))
    decreases |days|
  {
    var n := |days| - 1;
    if i < n {
      DailyPointsAt(data, days[..n], i);
    }
  }

  /** The running `maxOneRM` of the loop: 0 folded with `max` over the days' best values. */
  function WindowMax(data: map<Date, seq<real>>, days: seq<Date>): real
    decreases |days|
  {
    if days == [] then 0.0
    else
      var n := |days| - 1;
      Larger(WindowMax(data, days[..n]), DayBest(data, days[n]))
  }

  /** The window maximum is at least 0 and every day's best, and is 0 or some day's best. */
  lemma {:induction false} WindowMaxSpec(data: map<Date, seq<real>>, days: seq<Date>)
    ensures WindowMax(data, days) >= 0.0
    ensures forall i :: 0 <= i < |days| ==> DayBest(data, days[i]) <= WindowMax(data, days)
    ensures WindowMax(data, days) == 0.0 || exists i :: 0 <= i < |days| && WindowMax(data, days) == DayBest(data, days[i])
    decreases |days|
  {
    if days != [] {
      var n := |days| - 1;
      WindowMaxSpec(data, days[..n]);
      assert forall i :: 0 <= i < n ==> days[..n][i] == days[i];
    }
  }

  /** `maxOneRM` bounds the chart: it is at least 0 and at least every point's value. */
  lemma PointsWithinMax(data: map<Date, seq<real>>, days: seq<Date>)
    ensures Trunc(WindowMax(data, days)) >= 0
    ensures forall i :: 0 <= i < |days| ==> DailyPoints(data, days)[i].value <= Trunc(WindowMax(data, days))
  {
    WindowMaxSpec(data, days);
    forall i | 0 <= i < |days|
      ensures DailyPoints(data, days)[i].value <= Trunc(WindowMax(data, days))
    {
      DailyPointsAt(data, days, i);
      TruncMonotone(DayBest(data, days[i]), WindowMax(data, days));
    }
  }

  /** The listed days that are the first day of their week, in order. */
  function WeekStarts(days: seq<Date>): seq<Date>
    decreases |days|
  {
    if days == [] then []
    else
      var n := |days| - 1;
      WeekStarts(days[..n]) + (if days[n] == StartOfWeek(days[n]) then [days[n]] else [])
  }

  /** `startOfWeekDates` holds exactly the window's days that start a week. */
  lemma {:induction false} WeekStartsMembers(days: seq<Date>)
    ensures forall d :: d in WeekStarts(days) <==> d in days && d == StartOfWeek(d)
    decreases |days|
  {
    if days != [] {
      var n := |days| - 1;
      WeekStartsMembers(days[..n]);
      assert days == days[..n] + [days[n]];
    }
  }

  /** Increasing days give increasing week starts. */
  lemma {:induction false} WeekStartsIncreasing(days: seq<Date>)
    requires forall i, j :: 0 <= i < j < |days| ==> Seconds(days[i]) < Seconds(days[j])
    ensures forall i, j :: 0 <= i < j < |WeekStarts(days)| ==> Seconds(WeekStarts(days)[i]) < Seconds(WeekStarts(days)[j])
    decreases |days|
  {
    if days != [] {
      var n := |days| - 1;
      WeekStartsIncreasing(days[..n]);
      WeekStartsMembers(days[..n]);
      var front := WeekStarts(days[..n]);
      forall k | 0 <= k < |front| ensures Seconds(front[k]) < Seconds(days[n]) {
        assert front[k] in days[..n];
      }
    }
  }

  /**
    Two dates a month or a year apart keep the day of the month, unless one of them had
    to be moved back to the last day of its shorter month.
   */
  predicate SameDayClamped(lower: Date, upper: Date) {
    || lower.day == upper.day
    || (lower.day < upper.day && lower.day == DaysInMonth(lower.year, lower.month))
    || (upper.day < lower.day && upper.day == DaysInMonth(upper.year, upper.month))
  }

  /** One `TimeFrame` unit separates `lower` from `upper`, at the same time of day. */
  predicate Spans(t: TimeFrame, lower: Date, upper: Date) {
    && upper.second == lower.second
    && match t
       case Week => DayNumber(upper) == DayNumber(lower) + DaysPerWeek
       case Month =>
         MonthIndex(upper.year, upper.month) == MonthIndex(lower.year, lower.month) + 1
         && SameDayClamped(lower, upper)
       case Year => upper.year == lower.year + 1 && upper.month == lower.month && SameDayClamped(lower, upper)
  }

  /** The first window of a month frame ending on 15 March 2024 starts on 15 February. */
  lemma MonthBackExample()
    ensures DateByAdding(TimeFrame.Month.Unit(), -1, DateTime(2024, 3, 15, 0)) == DateTime(2024, 2, 15, 0)
    ensures DateByAdding(TimeFrame.Month.Unit(), -1, DateTime(2024, 3, 31, 0)) == DateTime(2024, 2, 29, 0)
    ensures DateByAdding(TimeFrame.Year.Unit(), 1, DateTime(2024, 2, 29, 0)) == DateTime(2025, 2, 28, 0)
    ensures !Spans(TimeFrame.Month, DateTime(2024, 2, 1, 0), DateTime(2024, 3, 15, 0))
  {
  }

  /** Going one unit back from a date, or one unit forward, spans one unit. */
  lemma ShiftSpans(t: TimeFrame, d: Date)
    ensures Spans(t, DateByAdding(t.Unit(), -1, d), d)
    ensures Spans(t, d, DateByAdding(t.Unit(), 1, d))
  {
  }

  const NoDataMessage: string := "There is no exercise data!"
  const RangeFailureMessage: string := "Failed to calcuate date range"

  /** What the view shows of a window: the chart, its label, its bounds and the two flags. */
  datatype WindowView = WindowView(
    dailyOneRMs: seq<DailyOneRM>,
    maxOneRM: int,
    startOfWeekDates: seq<Date>,
    dateRangeString: string,
    currentLowerDate: Option<Date>,
    currentUpperDate: Option<Date>,
    backwardButtonDisabled: bool,
    forwardButtonDisabled: bool)

  /**
    The view of the window from `lower` to `upper`: a point per day, their maximum, the
    week starts, the label, the bounds, and a flag for each end the window reaches or
    passes of the days with data.
   */
  function ViewOf(data: map<Date, seq<real>>, lowerExerciseDate: Date, upperExerciseDate: Date,
                  yearOnly: bool, lower: Date, upper: Date): WindowView
  {
    var days := DaysFrom(lower, upper);
    WindowView(DailyPoints(data, days), Trunc(WindowMax(data, days)), WeekStarts(days),
               DateRangeString(lower, upper, yearOnly), Some(lower), Some(upper),
               Seconds(lower) <= Seconds(lowerExerciseDate), Seconds(upper) >= Seconds(upperExerciseDate))
  }

  /**
    A window's view has one point per day from the day of `lower` on, each the integer
    part of that day's best 1RM; its maximum is at least 0 and at least every point; its
    week starts are exactly the window's days that start a week, in increasing order.
   */
  lemma ViewOfFacts(data: map<Date, seq<real>>, lowerExerciseDate: Date, upperExerciseDate: Date,
                    yearOnly: bool, lower: Date, upper: Date)
    requires Seconds(lower) <= Seconds(upper)
    ensures var v := ViewOf(data, lowerExerciseDate, upperExerciseDate, yearOnly, lower, upper);
      && |v.dailyOneRMs| == DayNumber(upper) - DayNumber(lower) + (if lower.second <= upper.second then 1 else 0)
      && (forall i :: 0 <= i < |v.dailyOneRMs| ==>
            v.dailyOneRMs[i].date == Midnight(AddDays(lower, i))
            && v.dailyOneRMs[i].value == Trunc(DayBest(data, Midnight(AddDays(lower, i)))))
      && v.maxOneRM >= 0
      && (forall i :: 0 <= i < |v.dailyOneRMs| ==> v.dailyOneRMs[i].value <= v.maxOneRM)
      && (forall d :: d in v.startOfWeekDates <==> d in DaysFrom(lower, upper) && d == StartOfWeek(d))
      && (forall i, j :: 0 <= i < j < |v.startOfWeekDates| ==>
            Seconds(v.startOfWeekDates[i]) < Seconds(v.startOfWeekDates[j]))
  {
    var days := DaysFrom(lower, upper);
    DaysFromLength(lower, upper);
    DaysFromShape(lower, upper);
    PointsWithinMax(data, days);
    WeekStartsMembers(days);
    WeekStartsIncreasing(days);
    forall i | 0 <= i < |days|
      ensures DailyPoints(data, days)[i] == DailyOneRM(Midnight(AddDays(lower, i)), Trunc(DayBest(data, Midnight(AddDays(lower, i)))))
    {
      DaysFromAt(lower, upper, i);
      DailyPointsAt(data, days, i);
    }
  }

  /** A view that agrees with the window's view part by part is the window's view. */
  lemma ViewOfParts(data: map<Date, seq<real>>, lowerExerciseDate: Date, upperExerciseDate: Date,
                    yearOnly: bool, lower: Date, upper: Date, v: WindowView)
    requires v.dailyOneRMs == DailyPoints(data, DaysFrom(lower, upper))
    requires v.maxOneRM == Trunc(WindowMax(data, DaysFrom(lower, upper)))
    requires v.startOfWeekDates == WeekStarts(DaysFrom(lower, upper))
    requires v.dateRangeString == DateRangeString(lower, upper, yearOnly)
    requires v.currentLowerDate == Some(lower) && v.currentUpperDate == Some(upper)
    requires v.backwardButtonDisabled == (Seconds(lower) <= Seconds(lowerExerciseDate))
    requires v.forwardButtonDisabled == (Seconds(upper) >= Seconds(upperExerciseDate))
    ensures v == ViewOf(data, lowerExerciseDate, upperExerciseDate, yearOnly, lower, upper)
  {
  }

  /** The inputs of a window's view, which moving the window leaves alone. */
  datatype Inputs = Inputs(
    currentTimeFrame: TimeFrame,
    exerciseOneRMData: map<Date, seq<real>>,
    upperExerciseDate: Date,
    lowerExerciseDate: Date)

  predicate RangeFails(r: (Option<Date>, Option<Date>)) {
    r.0.None? || r.1.None? || Seconds(r.1.value) < Seconds(r.0.value)
  }

  class ExerciseDetailViewModel {
    var viewState: ViewState
    var backwardButtonDisabled: bool
    var forwardButtonDisabled: bool
    var dailyOneRMs: seq<DailyOneRM>
    var maxOneRM: int
    var currentTimeFrame: TimeFrame
    const exercise: string
    const dataManager: WorkoutDataManager
    var exerciseOneRMData: map<Date, seq<real>>
    var upperExerciseDate: Date
    var lowerExerciseDate: Date
    var currentUpperDate: Option<Date>
    var currentLowerDate: Option<Date>
    var dateRangeString: string
    var startOfWeekDates: seq<Date>

    /** `now` stands for `Date.now`, the initial value of both data bounds. */
    constructor (exercise: string, dataManager: WorkoutDataManager, now: Date)
      ensures this.exercise == exercise && this.dataManager == dataManager
      ensures viewState == Idle && backwardButtonDisabled && forwardButtonDisabled
      ensures dailyOneRMs == [] && maxOneRM == 0 && currentTimeFrame == TimeFrame.Month
      ensures exerciseOneRMData == map[] && upperExerciseDate == now && lowerExerciseDate == now
      ensures currentUpperDate.None? && currentLowerDate.None?
      ensures dateRangeString == "" && startOfWeekDates == []
    {
      this.exercise := exercise;
      this.dataManager := dataManager;
      viewState := Idle;
      backwardButtonDisabled := true;
      forwardButtonDisabled := true;
      dailyOneRMs := [];
      maxOneRM := 0;
      currentTimeFrame := TimeFrame.Month;
      exerciseOneRMData := map[];
      upperExerciseDate := now;
      lowerExerciseDate := now;
      currentUpperDate := None;
      currentLowerDate := None;
      dateRangeString := "";
      startOfWeekDates := [];
    }

    ghost function Shown(): WindowView
      reads this`dailyOneRMs, this`maxOneRM, this`startOfWeekDates, this`dateRangeString,
               this`currentLowerDate, this`currentUpperDate, this`backwardButtonDisabled, this`forwardButtonDisabled
    {
      WindowView(dailyOneRMs, maxOneRM, startOfWeekDates, dateRangeString,
                 currentLowerDate, currentUpperDate, backwardButtonDisabled, forwardButtonDisabled)
    }

    ghost function Given(): Inputs
      reads this`currentTimeFrame, this`exerciseOneRMData, this`upperExerciseDate, this`lowerExerciseDate
    {
      Inputs(currentTimeFrame, exerciseOneRMData, upperExerciseDate, lowerExerciseDate)
    }

    /** The view shows the window from `lower` to `upper`. */
    ghost predicate ShowsWindow(lower: Date, upper: Date)
      reads this`dailyOneRMs, this`maxOneRM, this`startOfWeekDates, this`dateRangeString,
               this`currentLowerDate, this`currentUpperDate, this`backwardButtonDisabled, this`forwardButtonDisabled,
            this`currentTimeFrame, this`exerciseOneRMData, this`upperExerciseDate, this`lowerExerciseDate
    {
      Shown() == ViewOf(exerciseOneRMData, lowerExerciseDate, upperExerciseDate,
                        currentTimeFrame == TimeFrame.Year, lower, upper)
    }

    /**
      `getDateRange(isBackward:)`: the first window ends at the latest day with data; a
      step back ends the day before the current window starts, a step forward starts the
      day after it ends; each window is one unit wide. Navigating before any window was
      shown gives no range.
     */
    function GetDateRange(isBackward: Option<bool>): (r: (Option<Date>, Option<Date>))
      reads this
      ensures r.0.Some? <==> r.1.Some?
      ensures r.1.Some? <==> isBackward.None? || (currentLowerDate.Some? && currentUpperDate.Some?)
      ensures r.1.Some? ==> Seconds(r.0.value) < Seconds(r.1.value) && Spans(currentTimeFrame, r.0.value, r.1.value)
      ensures isBackward.None? ==> r.1 == Some(upperExerciseDate)
      ensures isBackward != Some(false) && r.1.Some? ==>
        r.0.value == DateByAdding(currentTimeFrame.Unit(), -1, r.1.value)
      ensures isBackward == Some(false) && r.0.Some? ==>
        r.1.value == DateByAdding(currentTimeFrame.Unit(), 1, r.0.value)
      ensures isBackward == Some(true) && r.1.Some? ==>
        && DayNumber(r.1.value) == DayNumber(currentLowerDate.value) - 1
        && r.1.value.second == currentLowerDate.value.second
        && Seconds(r.1.value) < Seconds(currentLowerDate.value)
      ensures isBackward == Some(false) && r.0.Some? ==>
        && DayNumber(r.0.value) == DayNumber(currentUpperDate.value) + 1
        && r.0.value.second == currentUpperDate.value.second
        && Seconds(currentUpperDate.value) < Seconds(r.0.value)
    {
      var t := currentTimeFrame;
      if isBackward.None? then
        ShiftSpans(t, upperExerciseDate);
        (Some(DateByAdding(t.Unit(), -1, upperExerciseDate)), Some(upperExerciseDate))
      else if currentLowerDate.Some? && currentUpperDate.Some? then
        if isBackward.value then
          var upper := DateByAdding(Component.Day, -1, currentLowerDate.value);
          ShiftSpans(t, upper);
          (Some(DateByAdding(t.Unit(), -1, upper)), Some(upper))
        else
          var lower := DateByAdding(Component.Day, 1, currentUpperDate.value);
          ShiftSpans(t, lower);
          (Some(lower), Some(DateByAdding(t.Unit(), 1, lower)))
      else
        (None, None)
    }

    /**
      `loadOneRMDataForTimeFrame(isBackward:)`: without a range (or with one that runs
      backward) the view fails and shows what it showed; otherwise it shows the new
      window. No flag is consulted before moving.
     */
    method LoadOneRMDataForTimeFrame(isBackward: Option<bool>)
      modifies this
      ensures Given() == old(Given())
      ensures RangeFails(old(GetDateRange(isBackward))) ==>
        viewState == Failed(RangeFailureMessage) && Shown() == old(Shown())
      ensures var r := old(GetDateRange(isBackward));
        !RangeFails(r) ==> viewState == old(viewState) && ShowsWindow(r.0.value, r.1.value)
    {
      var range := GetDateRange(isBackward);
      var datesBetween: Option<seq<Date>> := None;
      if range.0.Some? && range.1.Some? {
        datesBetween := DatesBetween(range.0.value, range.1.value);
      }
      if datesBetween.None? {
        viewState := Failed(RangeFailureMessage);
        return;
      }
      ShowWindow(range.0.value, range.1.value, datesBetween.value);
    }

    /** The updates after the guard: the chart of `days`, the label, the bounds and the flags. */
    method ShowWindow(lowerDate: Date, upperDate: Date, days: seq<Date>)
      requires days == DaysFrom(lowerDate, upperDate)
      modifies this`dailyOneRMs, this`maxOneRM, this`startOfWeekDates, this`dateRangeString,
               this`currentLowerDate, this`currentUpperDate, this`backwardButtonDisabled, this`forwardButtonDisabled
      ensures ShowsWindow(lowerDate, upperDate)
    {
      var data, yearOnly := exerciseOneRMData, currentTimeFrame == TimeFrame.Year;
      var points, best, weekStarts := ChartDays(data, days);
      var rangeText := DateRangeString(lowerDate, upperDate, yearOnly);
      var atLower := Seconds(lowerDate) <= Seconds(lowerExerciseDate);
      var atUpper := Seconds(upperDate) >= Seconds(upperExerciseDate);
      var view := WindowView(points, Trunc(best), weekStarts, rangeText, Some(lowerDate), Some(upperDate), atLower, atUpper);
      ViewOfParts(data, lowerExerciseDate, upperExerciseDate, yearOnly, lowerDate, upperDate, view);
      Show(view);
    }

    /** The published properties take the values of `view`. */
    method Show(view: WindowView)
      modifies this`dailyOneRMs, this`maxOneRM, this`startOfWeekDates, this`dateRangeString,
               this`currentLowerDate, this`currentUpperDate, this`backwardButtonDisabled, this`forwardButtonDisabled
      ensures Shown() == view
    {
      dailyOneRMs := view.dailyOneRMs;
      maxOneRM := view.maxOneRM;
      startOfWeekDates := view.startOfWeekDates;
      dateRangeString := view.dateRangeString;
      currentLowerDate := view.currentLowerDate;
      currentUpperDate := view.currentUpperDate;
      backwardButtonDisabled := view.backwardButtonDisabled;
      forwardButtonDisabled := view.forwardButtonDisabled;
    }

    /**
      What the data-bound part of `loadData()` makes of the exercise's records `got`:
      none, or an empty dictionary, fail the view and change nothing else; otherwise the
      data bounds become the earliest and latest days with records, each day keeps its
      records' 1RMs, the first window is shown and the view is finished.
     */
    twostate predicate SetUpFrom(got: Option<map<Date, seq<ExerciseRecord>>>)
      reads this
    {
      && currentTimeFrame == old(currentTimeFrame)
      && (got.None? || got.value == map[] ==>
          viewState == Failed(NoDataMessage) && Given() == old(Given()) && Shown() == old(Shown()))
      && (got.Some? && got.value != map[] ==>
          && viewState == Finished
          && upperExerciseDate in got.value && lowerExerciseDate in got.value
          && (forall d :: d in got.value ==> Seconds(lowerExerciseDate) <= Seconds(d) <= Seconds(upperExerciseDate))
          && exerciseOneRMData.Keys == got.value.Keys
          && (forall d :: d in got.value ==> exerciseOneRMData[d] == OneRMs(got.value[d]))
          && ShowsWindow(DateByAdding(currentTimeFrame.Unit(), -1, upperExerciseDate), upperExerciseDate))
    }

    /** `loadData()`: the records come from the store's `getExerciseRecords(_:)`. */
    method LoadData()
      requires dataManager.Valid()
      modifies this
      ensures SetUpFrom(dataManager.GetExerciseRecords(exercise))
    {
      viewState := Loading;
      var records := dataManager.GetExerciseRecords(exercise);
      SetUp(records);
    }

    /** The body of the task in `loadData()` once the records have arrived. */
    method SetUp(records: Option<map<Date, seq<ExerciseRecord>>>)
      modifies this
      ensures SetUpFrom(records)
    {
      if records.None? || records.value == map[] {
        viewState := Failed(NoDataMessage);
        return;
      }
      lowerExerciseDate, upperExerciseDate := KeyBounds(records.value.Keys);
      exerciseOneRMData := OneRMData(records.value);
      assert GetDateRange(None) == (Some(DateByAdding(currentTimeFrame.Unit(), -1, upperExerciseDate)), Some(upperExerciseDate));
      LoadOneRMDataForTimeFrame(None);
      viewState := Finished;
    }
  }

  /**
    The loop of `loadOneRMDataForTimeFrame`: one point per day, the running maximum of
    the days' best values from 0, and the days that start a week.
   */
  method ChartDays(data: map<Date, seq<real>>, days: seq<Date>)
    returns (points: seq<DailyOneRM>, best: real, weekStarts: seq<Date>)
    ensures points == DailyPoints(data, days)
    ensures best == WindowMax(data, days)
    ensures weekStarts == WeekStarts(days)
  {
    points, best, weekStarts := [], 0.0, [];
    for i := 0 to |days|
      invariant points == DailyPoints(data, days[..i])
      invariant best == WindowMax(data, days[..i])
      invariant weekStarts == WeekStarts(days[..i])
    {
      assert days[..i + 1][..i] == days[..i];
      var day := days[i];
      var dailyMaxRM := if day in data && data[day] != [] then Max(data[day]) else 0.0;
      points := points + [DailyOneRM(day, Trunc(dailyMaxRM))];
      best := Larger(best, dailyMaxRM);
      if day == StartOfWeek(day) {
        weekStarts := weekStarts + [day];
      }
    }
    assert days[..|days|] == days;
  }

  /** `keys.min()!` and `keys.max()!`: the earliest and the latest of the days. */
  method KeyBounds(days: set<Date>) returns (earliest: Date, latest: Date)
    requires days != {}
    ensures earliest in days && latest in days
    ensures forall d :: d in days ==> Seconds(earliest) <= Seconds(d) <= Seconds(latest)
  {
    var first :| first in days;
    earliest, latest := first, first;
    var remaining := days - {first};
    while remaining != {}
      invariant remaining <= days && earliest in days && latest in days
      invariant forall d :: d in days && d !in remaining ==> Seconds(earliest) <= Seconds(d) <= Seconds(latest)
      decreases |remaining|
    {
      var d :| d in remaining;
      if Seconds(d) < Seconds(earliest) {
        earliest := d;
      }
      if Seconds(d) > Seconds(latest) {
        latest := d;
      }
      remaining := remaining - {d};
    }
  }
}
