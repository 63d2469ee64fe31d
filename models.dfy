/** The app's plain value types: records, summaries, chart points and view states. */
module Models {
  import opened Wrappers
  import opened Calendar

  /** One logged set; only `isDeleted` ever changes after creation (soft delete). */
  datatype ExerciseRecord = ExerciseRecord(
    date: Date,
    exercise: string,
    repetitions: int,
    weightInPounds: real,
    oneRM: real,
    isDeleted: bool)

  /** A row of the exercise list; `id` is the exercise name. */
  datatype ExerciseSummary = ExerciseSummary(exercise: string, latestMaxOneRM: int)
  {
    function Id(): string {
      exercise
    }
  }

  /** One chart point: a day and its best estimated 1RM, truncated to an integer. */
  datatype DailyOneRM = DailyOneRM(date: Date, value: int)

  /** The state a screen shows; a failure carries the error's description. */
  datatype ViewState = Idle | Loading | Finished | Failed(message: string)
  {
    /** `error`: the description of a failure, nil in every other state. */
    function Error(): (r: Option<string>)
      ensures r.Some? <==> Failed?
    {
      if Failed? then Some(message) else None
    }
  }
}
