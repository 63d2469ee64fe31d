/**
  `ExerciseListViewModel`: after loading the data, one summary per exercise, holding
  the best estimated 1RM ever recorded for it.
 */
module ExerciseList {
  import opened Wrappers
  import opened Calendar
  import opened Models
  import opened Utils
  import opened Maxima
  import opened Managers

  /** The 1RMs of the records of `exercise`, in array order, flagged records included. */
  function OneRMsOf(rs: seq<ExerciseRecord>, exercise: string): seq<real>
    decreases |rs|
  {
    if rs == [] then []
    else
      var n := |rs| - 1;
      OneRMsOf(rs[..n], exercise) + (if rs[n].exercise == exercise then [rs[n].oneRM] else [])
  }

  /** A value is listed exactly when some record of the exercise carries it. */
  lemma {:induction false} OneRMsOfMembers(rs: seq<ExerciseRecord>, exercise: string)
    ensures forall v :: v in OneRMsOf(rs, exercise) <==>
      exists p :: 0 <= p < |rs| && rs[p].exercise == exercise && rs[p].oneRM == v
    decreases |rs|
  {
    if rs != [] {
      var n := |rs| - 1;
      OneRMsOfMembers(rs[..n], exercise);
      forall v ensures v in OneRMsOf(rs, exercise) <==>
        exists p :: 0 <= p < |rs| && rs[p].exercise == exercise && rs[p].oneRM == v
      {
        if v in OneRMsOf(rs[..n], exercise) {
          var p :| 0 <= p < n && rs[..n][p].exercise == exercise && rs[..n][p].oneRM == v;
          assert rs[p] == rs[..n][p];
        }
        if exists p :: 0 <= p < |rs| && rs[p].exercise == exercise && rs[p].oneRM == v {
          var p :| 0 <= p < |rs| && rs[p].exercise == exercise && rs[p].oneRM == v;
          if p < n {
            assert rs[..n][p] == rs[p];
          }
        }
      }
    }
  }

  /** Some day of `byDay` holds a record whose 1RM is `v`. */
  predicate Occurs(byDay: map<Date, seq<ExerciseRecord>>, v: real) {
    exists d, i :: d in byDay && 0 <= i < |byDay[d]| && byDay[d][i].oneRM == v
  }

  /**
    `exerciseRecords.values.flatMap { $0 }.map { $0.oneRM }`: every 1RM of every day,
    the days taken in the dictionary's own (unspecified) order.
   */
  method AllOneRMs(byDay: map<Date, seq<ExerciseRecord>>) returns (values: seq<real>)
    ensures forall v :: v in values <==> Occurs(byDay, v)
    ensures values == [] <==> forall d :: d in byDay ==> byDay[d] == []
  {
    values := [];
    var remaining := byDay.Keys;
    while remaining != {}
      invariant remaining <= byDay.Keys
      invariant forall v :: v in values <==>
        exists d, i :: d in byDay && d !in remaining && 0 <= i < |byDay[d]| && byDay[d][i].oneRM == v
      invariant values == [] <==> forall d :: d in byDay && d !in remaining ==> byDay[d] == []
      decreases |remaining|
    {
      var d :| d in remaining;
      var dayValues := seq(|byDay[d]|, i requires 0 <= i < |byDay[d]| => byDay[d][i].oneRM);
      forall v ensures v in dayValues <==> exists i :: 0 <= i < |byDay[d]| && byDay[d][i].oneRM == v {
        if v in dayValues {
          var i :| 0 <= i < |dayValues| && dayValues[i] == v;
          assert byDay[d][i].oneRM == v;
        }
        if exists i :: 0 <= i < |byDay[d]| && byDay[d][i].oneRM == v {
          var i :| 0 <= i < |byDay[d]| && byDay[d][i].oneRM == v;
          assert dayValues[i] == v;
        }
      }
      values := values + dayValues;
      remaining := remaining - {d};
    }
  }

  /**
    The 1RMs of the day-by-day records of an exercise are those of its records: every
    day with a record of the exercise is present, and holds exactly that day's records.
   */
  lemma DayRecordsOneRMs(rs: seq<ExerciseRecord>, exercise: string, byDay: map<Date, seq<ExerciseRecord>>)
    requires forall d :: d in byDay <==> exists p :: 0 <= p < |rs| && Files(rs[p], exercise, d)
    requires forall d :: d in byDay ==> byDay[d] == Matching(rs, exercise, d)
    ensures forall v :: Occurs(byDay, v) <==> v in OneRMsOf(rs, exercise)
  {
    OneRMsOfMembers(rs, exercise);
    forall v ensures Occurs(byDay, v) <==> v in OneRMsOf(rs, exercise) {
      if Occurs(byDay, v) {
        var d, i :| d in byDay && 0 <= i < |byDay[d]| && byDay[d][i].oneRM == v;
        MatchingMembers(rs, exercise, d);
        assert byDay[d][i] in Matching(rs, exercise, d);
      }
      if v in OneRMsOf(rs, exercise) {
        var p :| 0 <= p < |rs| && rs[p].exercise == exercise && rs[p].oneRM == v;
        var d := Midnight(rs[p].date);
        assert Files(rs[p], exercise, d);
        MatchingMembers(rs, exercise, d);
        var i :| 0 <= i < |byDay[d]| && byDay[d][i] == rs[p];
      }
    }
  }

  /** The summary of an exercise with at least one record: the integer part of its best 1RM. */
  function SummaryOf(rs: seq<ExerciseRecord>, exercise: string): ExerciseSummary
    requires OneRMsOf(rs, exercise) != []
  {
    ExerciseSummary(exercise, Trunc(Max(OneRMsOf(rs, exercise))))
  }

  /** The best 1RM of an exercise is one of its records' and no record of it exceeds it. */
  lemma SummaryIsBest(rs: seq<ExerciseRecord>, exercise: string)
    requires OneRMsOf(rs, exercise) != []
    ensures exists p :: (0 <= p < |rs| && rs[p].exercise == exercise
      && SummaryOf(rs, exercise).latestMaxOneRM == Trunc(rs[p].oneRM))
    ensures forall p :: 0 <= p < |rs| && rs[p].exercise == exercise ==>
      Trunc(rs[p].oneRM) <= SummaryOf(rs, exercise).latestMaxOneRM
  {
    OneRMsOfMembers(rs, exercise);
    var best := Max(OneRMsOf(rs, exercise));
    forall p | 0 <= p < |rs| && rs[p].exercise == exercise
      ensures Trunc(rs[p].oneRM) <= Trunc(best)
    {
      assert rs[p].oneRM in OneRMsOf(rs, exercise);
      TruncMonotone(rs[p].oneRM, best);
    }
  }

  /** The summaries of `names`, in order, leaving out names without records. */
  function Summaries(rs: seq<ExerciseRecord>, names: seq<string>): seq<ExerciseSummary>
    decreases |names|
  {
    if names == [] then []
    else
      var n := |names| - 1;
      Summaries(rs, names[..n])
        + (if OneRMsOf(rs, names[n]) != [] then [SummaryOf(rs, names[n])] else [])
  }

  /**
    Each summary is that of one of the names, and a name has a summary exactly when it
    has records; distinct names give summaries with distinct exercises.
   */
  lemma {:induction false} SummariesSpec(rs: seq<ExerciseRecord>, names: seq<string>)
    ensures forall i :: 0 <= i < |Summaries(rs, names)| ==>
      var s := Summaries(rs, names)[i];
      s.exercise in names && OneRMsOf(rs, s.exercise) != [] && s == SummaryOf(rs, s.exercise)
    ensures forall e :: e in names && OneRMsOf(rs, e) != [] ==>
      exists i :: 0 <= i < |Summaries(rs, names)| && Summaries(rs, names)[i].exercise == e
    ensures (forall i, j :: 0 <= i < j < |names| ==> names[i] != names[j]) ==>
      forall i, j :: 0 <= i < j < |Summaries(rs, names)| ==>
        Summaries(rs, names)[i].exercise != Summaries(rs, names)[j].exercise
    decreases |names|
  {
    if names != [] {
      var n := |names| - 1;
      SummariesSpec(rs, names[..n]);
      var front := Summaries(rs, names[..n]);
      var all := Summaries(rs, names);
      assert names == names[..n] + [names[n]];
      assert forall i :: 0 <= i < |front| ==> all[i] == front[i];
      forall e | e in names && OneRMsOf(rs, e) != []
        ensures exists i :: 0 <= i < |all| && all[i].exercise == e
      {
        if e != names[n] {
          assert e in names[..n];
          var i :| 0 <= i < |front| && front[i].exercise == e;
          assert all[i].exercise == e;
        } else {
          assert all[|front|].exercise == e;
        }
      }
      if forall i, j :: 0 <= i < j < |names| ==> names[i] != names[j] {
        assert forall i, j :: 0 <= i < j < n ==> names[..n][i] != names[..n][j];
        forall i | 0 <= i < |front| ensures front[i].exercise != names[n] {
          var e := front[i].exercise;
          assert e in names[..n];
          var k :| 0 <= k < n && names[..n][k] == e;
          assert names[k] == e;
        }
      }
    }
  }

  class ExerciseListViewModel {
    var viewState: ViewState
    var exerciseSummaries: seq<ExerciseSummary>
    const dataManager: WorkoutDataManager

    constructor (workoutDataManager: WorkoutDataManager)
      ensures viewState == Idle && exerciseSummaries == [] && dataManager == workoutDataManager
    {
      viewState := Idle;
      exerciseSummaries := [];
      dataManager := workoutDataManager;
    }

    /**
      `loadData()`, with the fetch's outcome as `fetched`: a failed load fails the view
      with no summaries; otherwise the batch is stored and the view lists, once each, every
      stored exercise with the integer part of its best 1RM over all of its records.
     */
    method LoadData(fetched: Result<seq<ExerciseRecord>, string>)
      requires dataManager.Valid()
      modifies this, dataManager
      ensures dataManager.Valid()
      ensures fetched.Failure? ==>
        && viewState == Failed(fetched.error) && exerciseSummaries == []
        && dataManager.records == old(dataManager.records)
      ensures fetched.Success? ==>
        && viewState == Finished
        && dataManager.records == old(dataManager.records) + fetched.value
        && ListsEveryExercise()
    {
      viewState := Loading;
      exerciseSummaries := [];
      var failure := dataManager.LoadWorkoutData(fetched);
      if failure.Some? {
        viewState := Failed(failure.value);
        return;
      }
      Summarize();
      viewState := Finished;
    }

    /**
      The summaries match the manager's records: each is the summary of an exercise with
      records, every indexed exercise has one, and no exercise has two.
     */
    ghost predicate ListsEveryExercise()
      reads this, dataManager
      requires dataManager.Valid()
    {
      && (forall i :: 0 <= i < |exerciseSummaries| ==>
            var s := exerciseSummaries[i];
            OneRMsOf(dataManager.records, s.exercise) != [] && s == SummaryOf(dataManager.records, s.exercise))
      && (forall e :: (exists i :: 0 <= i < |exerciseSummaries| && exerciseSummaries[i].exercise == e)
                        <==> e in dataManager.recordsIndex)
      && (forall i, j :: 0 <= i < j < |exerciseSummaries| ==>
            exerciseSummaries[i].exercise != exerciseSummaries[j].exercise)
    }

    /** The summary loop of `loadData()`, over the manager's exercise list. */
    method Summarize()
      requires dataManager.Valid()
      modifies this`exerciseSummaries
      ensures ListsEveryExercise()
    {
      var allExercises := dataManager.ExerciseList();
      var rs := dataManager.records;
      exerciseSummaries := [];
      for k := 0 to |allExercises|
        invariant exerciseSummaries == Summaries(rs, allExercises[..k])
      {
        assert allExercises[..k + 1][..k] == allExercises[..k];
        var exercise := allExercises[k];
        var exerciseRecords := dataManager.GetExerciseRecords(exercise);
        if exerciseRecords.Some? {
          var allPRValues := AllOneRMs(exerciseRecords.value);
          DayRecordsOneRMs(rs, exercise, exerciseRecords.value);
          if allPRValues != [] {
            var maxPR := Max(allPRValues);
            MaxOfSameValues(allPRValues, OneRMsOf(rs, exercise));
            exerciseSummaries := exerciseSummaries + [ExerciseSummary(exercise, Trunc(maxPR))];
          }
        } else {
          OneRMsOfMembers(rs, exercise);
        }
      }
      assert allExercises[..|allExercises|] == allExercises;
      SummariesSpec(rs, allExercises);
      IndexedHaveRecords(rs);
    }
  }

  /** Every indexed exercise has at least one record, hence a summary. */
  lemma IndexedHaveRecords(rs: seq<ExerciseRecord>)
    ensures forall e :: e in BuildIndex(rs) <==> OneRMsOf(rs, e) != []
  {
    BuildIndexKeys(rs);
    forall e ensures e in BuildIndex(rs) <==> OneRMsOf(rs, e) != [] {
      OneRMsOfMembers(rs, e);
      if e in BuildIndex(rs) {
        var p :| 0 <= p < |rs| && rs[p].exercise == e;
        assert rs[p].oneRM in OneRMsOf(rs, e);
      }
    }
  }
}
