/**
  `WorkoutDataManager`: the append-only record array, its secondary index
  (exercise -> midnight day -> positions in the array) and the cursor that keeps
  already indexed positions from being indexed again.
 */
module Managers {
  import opened Wrappers
  import opened Calendar
  import opened Models

  /** exercise name -> midnight of a day -> positions into the record array. */
  type Index = map<string, map<Date, seq<int>>>

  /** The positions filed under (exercise, day), or none when either key is absent. */
  function Lookup(index: Index, exercise: string, day: Date): seq<int> {
    if exercise in index && day in index[exercise] then index[exercise][day] else []
  }

  /**
    `recordsIndex[exercise, default: [:]][day, default: []].append(p)`: files position `p`
    under (exercise, day) and leaves every other entry alone.
   */
  function Insert(index: Index, exercise: string, day: Date, p: int): Index {
    var inner := if exercise in index then index[exercise] else map[];
    var list := if day in inner then inner[day] else [];
    index[exercise := inner[day := list + [p]]]
  }

  /** Inserting appends `p` to its own entry, creating it if need be, and nothing else. */
  lemma InsertFacts(index: Index, exercise: string, day: Date, p: int)
    ensures var r := Insert(index, exercise, day, p);
      && (forall e, d :: Lookup(r, e, d) == Lookup(index, e, d) + (if e == exercise && d == day then [p] else []))
      && (forall e :: e in r <==> e in index || e == exercise)
      && (forall e, d :: e in r && d in r[e] <==> (e in index && d in index[e]) || (e == exercise && d == day))
  {
  }

  /** The index that filing the records one by one, in array order, produces. */
  function BuildIndex(rs: seq<ExerciseRecord>): Index
    decreases |rs|
  {
    if rs == [] then map[]
    else
      var n := |rs| - 1;
      Insert(BuildIndex(rs[..n]), rs[n].exercise, Midnight(rs[n].date), n)
  }

  predicate Files(r: ExerciseRecord, exercise: string, day: Date) {
    r.exercise == exercise && Midnight(r.date) == day
  }

  /** Reference definition: the positions of the records of `exercise` on `day`, ascending. */
  function Positions(rs: seq<ExerciseRecord>, exercise: string, day: Date): seq<int>
    decreases |rs|
  {
    if rs == [] then []
    else
      var n := |rs| - 1;
      Positions(rs[..n], exercise, day) + (if Files(rs[n], exercise, day) then [n] else [])
  }

  /** Reference definition: the records of `exercise` on `day`, in array order. */
  function Matching(rs: seq<ExerciseRecord>, exercise: string, day: Date): seq<ExerciseRecord>
    decreases |rs|
  {
    if rs == [] then []
    else
      var n := |rs| - 1;
      Matching(rs[..n], exercise, day) + (if Files(rs[n], exercise, day) then [rs[n]] else [])
  }

  /** `indices.map { records[$0] }`. */
  function Gather(rs: seq<ExerciseRecord>, ps: seq<int>): (r: seq<ExerciseRecord>)
    requires forall i :: 0 <= i < |ps| ==> 0 <= ps[i] < |rs|
    ensures |r| == |ps| && forall i :: 0 <= i < |ps| ==> r[i] == rs[ps[i]]
  {
    seq(|ps|, i requires 0 <= i < |ps| => rs[ps[i]])
  }

  /** The records of one exercise in `s`, in order. */
  function OfExercise(s: seq<ExerciseRecord>, exercise: string): seq<ExerciseRecord>
    decreases |s|
  {
    if s == [] then []
    else (if s[0].exercise == exercise then [s[0]] else []) + OfExercise(s[1..], exercise)
  }

  /**
    The listed positions are exactly those of the matching records, each in range,
    strictly increasing.
   */
  lemma PositionsSpec(rs: seq<ExerciseRecord>, exercise: string, day: Date)
    ensures var ps := Positions(rs, exercise, day);
      && (forall i :: 0 <= i < |ps| ==> 0 <= ps[i] < |rs| && Files(rs[ps[i]], exercise, day))
      && (forall i, j :: 0 <= i < j < |ps| ==> ps[i] < ps[j])
      && (forall p :: 0 <= p < |rs| && Files(rs[p], exercise, day) ==> p in ps)
  {
    PositionsSound(rs, exercise, day);
    PositionsComplete(rs, exercise, day);
  }

  lemma {:induction false} PositionsSound(rs: seq<ExerciseRecord>, exercise: string, day: Date)
    ensures forall i :: 0 <= i < |Positions(rs, exercise, day)| ==>
      0 <= Positions(rs, exercise, day)[i] < |rs| && Files(rs[Positions(rs, exercise, day)[i]], exercise, day)
    ensures forall i, j :: 0 <= i < j < |Positions(rs, exercise, day)| ==>
      Positions(rs, exercise, day)[i] < Positions(rs, exercise, day)[j]
    decreases |rs|
  {
    if rs != [] {
      var n := |rs| - 1;
      PositionsSound(rs[..n], exercise, day);
      var front := Positions(rs[..n], exercise, day);
      var ps := Positions(rs, exercise, day);
      assert ps == front + (if Files(rs[n], exercise, day) then [n] else []);
      forall i | 0 <= i < |front| ensures 0 <= front[i] < n && Files(rs[front[i]], exercise, day) {
        assert rs[..n][front[i]] == rs[front[i]];
      }
    }
  }

  lemma {:induction false} PositionsComplete(rs: seq<ExerciseRecord>, exercise: string, day: Date)
    ensures forall p :: 0 <= p < |rs| && Files(rs[p], exercise, day) ==> p in Positions(rs, exercise, day)
    decreases |rs|
  {
    if rs != [] {
      var n := |rs| - 1;
      PositionsComplete(rs[..n], exercise, day);
      var front := Positions(rs[..n], exercise, day);
      assert Positions(rs, exercise, day) == front + (if Files(rs[n], exercise, day) then [n] else []);
      forall p | 0 <= p < n && Files(rs[p], exercise, day) ensures p in front {
        assert rs[..n][p] == rs[p];
      }
    }
  }

  lemma PositionsNonEmpty(rs: seq<ExerciseRecord>, exercise: string, day: Date)
    ensures Positions(rs, exercise, day) != [] <==> exists p :: 0 <= p < |rs| && Files(rs[p], exercise, day)
  {
    PositionsSpec(rs, exercise, day);
  }

  /** Reading the records at the listed positions gives the matching records. */
  lemma {:induction false} GatherPositions(rs: seq<ExerciseRecord>, exercise: string, day: Date)
    ensures var ps := Positions(rs, exercise, day);
      (forall i :: 0 <= i < |ps| ==> 0 <= ps[i] < |rs|) && Gather(rs, ps) == Matching(rs, exercise, day)
    decreases |rs|
  {
    PositionsSpec(rs, exercise, day);
    if rs != [] {
      var n := |rs| - 1;
      GatherPositions(rs[..n], exercise, day);
      PositionsSpec(rs[..n], exercise, day);
      var front := Positions(rs[..n], exercise, day);
      assert Gather(rs, front) == Gather(rs[..n], front);
    }
  }

  /** Building over one more record files that record's position. */
  lemma IndexOneMore(rs: seq<ExerciseRecord>, n: int)
    requires 0 <= n < |rs|
    ensures BuildIndex(rs[..n + 1]) == Insert(BuildIndex(rs[..n]), rs[n].exercise, Midnight(rs[n].date), n)
  {
    assert rs[..n + 1][..n] == rs[..n];
  }

  /** Every lookup in the index built from the records gives the reference positions. */
  lemma {:induction false} BuildIndexLookup(rs: seq<ExerciseRecord>)
    ensures forall e, d :: Lookup(BuildIndex(rs), e, d) == Positions(rs, e, d)
    decreases |rs|
  {
    if rs != [] {
      var n := |rs| - 1;
      BuildIndexLookup(rs[..n]);
      InsertFacts(BuildIndex(rs[..n]), rs[n].exercise, Midnight(rs[n].date), n);
    }
  }

  /** An entry exists exactly when there is something to list in it: none is ever empty. */
  lemma {:induction false} BuildIndexEntries(rs: seq<ExerciseRecord>)
    ensures forall e, d :: e in BuildIndex(rs) && d in BuildIndex(rs)[e] <==> Positions(rs, e, d) != []
    decreases |rs|
  {
    if rs != [] {
      var n := |rs| - 1;
      BuildIndexEntries(rs[..n]);
      InsertFacts(BuildIndex(rs[..n]), rs[n].exercise, Midnight(rs[n].date), n);
    }
  }

  /** The exercises of the index are exactly the exercises of the records. */
  lemma {:induction false} BuildIndexKeys(rs: seq<ExerciseRecord>)
    ensures forall e :: e in BuildIndex(rs) <==> exists p :: 0 <= p < |rs| && rs[p].exercise == e
    decreases |rs|
  {
    if rs != [] {
      var n := |rs| - 1;
      BuildIndexKeys(rs[..n]);
      InsertFacts(BuildIndex(rs[..n]), rs[n].exercise, Midnight(rs[n].date), n);
      forall e
        ensures e in BuildIndex(rs) <==> exists p :: 0 <= p < |rs| && rs[p].exercise == e
      {
        if e in BuildIndex(rs[..n]) {
          var p :| 0 <= p < n && rs[..n][p].exercise == e;
          assert rs[p].exercise == e;
        }
        if exists p :: 0 <= p < |rs| && rs[p].exercise == e {
          var p :| 0 <= p < |rs| && rs[p].exercise == e;
          if p < n {
            assert rs[..n][p].exercise == e;
          }
        }
      }
    }
  }

  /** A listed entry: in-range positions whose records read back as the matching records. */
  lemma EntryFacts(rs: seq<ExerciseRecord>, exercise: string, day: Date)
    requires exercise in BuildIndex(rs) && day in BuildIndex(rs)[exercise]
    ensures var ps := BuildIndex(rs)[exercise][day];
      (forall i :: 0 <= i < |ps| ==> 0 <= ps[i] < |rs|) && Gather(rs, ps) == Matching(rs, exercise, day)
  {
    BuildIndexLookup(rs);
    assert Lookup(BuildIndex(rs), exercise, day) == BuildIndex(rs)[exercise][day];
    GatherPositions(rs, exercise, day);
  }

  /** Every listed entry holds in-range positions of the records it is filed under. */
  lemma IndexSound(rs: seq<ExerciseRecord>, exercise: string, day: Date)
    ensures var ps := Lookup(BuildIndex(rs), exercise, day);
      && (forall i :: 0 <= i < |ps| ==> 0 <= ps[i] < |rs| && Files(rs[ps[i]], exercise, day))
      && (forall i, j :: 0 <= i < j < |ps| ==> ps[i] < ps[j])
  {
    BuildIndexLookup(rs);
    PositionsSpec(rs, exercise, day);
  }

  /** Records that agree on date and exercise, whatever their flags, build the same index. */
  predicate SameKeys(a: seq<ExerciseRecord>, b: seq<ExerciseRecord>) {
    |a| == |b| && forall p :: 0 <= p < |a| ==> a[p].date == b[p].date && a[p].exercise == b[p].exercise
  }

  lemma {:induction false} BuildIndexIgnoresFlags(a: seq<ExerciseRecord>, b: seq<ExerciseRecord>)
    requires SameKeys(a, b)
    ensures BuildIndex(a) == BuildIndex(b)
    decreases |a|
  {
    if a != [] {
      var n := |a| - 1;
      assert SameKeys(a[..n], b[..n]);
      BuildIndexIgnoresFlags(a[..n], b[..n]);
    }
  }

  /** `firstIndex(where: { $0.date == date && $0.exercise == exercise })`. */
  function FirstMatch(rs: seq<ExerciseRecord>, date: Date, exercise: string): (r: Option<nat>)
    ensures r.Some? ==> r.value < |rs| && rs[r.value].date == date && rs[r.value].exercise == exercise
    ensures r.Some? ==> forall q :: 0 <= q < r.value ==> !(rs[q].date == date && rs[q].exercise == exercise)
    ensures r.None? ==> forall q :: 0 <= q < |rs| ==> !(rs[q].date == date && rs[q].exercise == exercise)
    decreases |rs|
  {
    if rs == [] then None
    else if rs[0].date == date && rs[0].exercise == exercise then Some(0)
    else match FirstMatch(rs[1..], date, exercise)
      case None => None
      case Some(i) => Some(i + 1)
  }

  /** The first match depends on dates and exercises only. */
  lemma FirstMatchSameKeys(a: seq<ExerciseRecord>, b: seq<ExerciseRecord>, date: Date, exercise: string)
    requires SameKeys(a, b)
    ensures FirstMatch(a, date, exercise) == FirstMatch(b, date, exercise)
  {
    var ra, rb := FirstMatch(a, date, exercise), FirstMatch(b, date, exercise);
    if ra.Some? && rb.Some? {
      assert !(ra.value < rb.value) && !(rb.value < ra.value);
    }
  }

  /** One soft delete: flags the first record with the input's date and exercise, if any. */
  function Flag(rs: seq<ExerciseRecord>, input: ExerciseRecord): seq<ExerciseRecord> {
    match FirstMatch(rs, input.date, input.exercise)
    case None => rs
    case Some(i) => rs[i := rs[i].(isDeleted := true)]
  }

  /** The soft deletes of `inputs`, applied in order. */
  function DeleteAll(rs: seq<ExerciseRecord>, inputs: seq<ExerciseRecord>): seq<ExerciseRecord>
    decreases |inputs|
  {
    if inputs == [] then rs
    else Flag(DeleteAll(rs, inputs[..|inputs| - 1]), inputs[|inputs| - 1])
  }

  /** Some input's first match, in the records before any deletion, is position `p`. */
  predicate Hit(rs: seq<ExerciseRecord>, inputs: seq<ExerciseRecord>, p: int) {
    exists k :: 0 <= k < |inputs| && FirstMatch(rs, inputs[k].date, inputs[k].exercise) == Some(p)
  }

  /**
    Deleting flags a record exactly when it was already flagged or is the first match of
    some input; nothing else about any record, nor their number, changes.
   */
  lemma {:induction false} DeleteAllSpec(rs: seq<ExerciseRecord>, inputs: seq<ExerciseRecord>)
    ensures SameKeys(DeleteAll(rs, inputs), rs)
    ensures forall p :: 0 <= p < |rs| ==>
      DeleteAll(rs, inputs)[p] == rs[p].(isDeleted := rs[p].isDeleted || Hit(rs, inputs, p))
    decreases |inputs|
  {
    if inputs != [] {
      var m := |inputs| - 1;
      var front := inputs[..m];
      DeleteAllSpec(rs, front);
      var before := DeleteAll(rs, front);
      FirstMatchSameKeys(before, rs, inputs[m].date, inputs[m].exercise);
      forall p | 0 <= p < |rs|
        ensures DeleteAll(rs, inputs)[p] == rs[p].(isDeleted := rs[p].isDeleted || Hit(rs, inputs, p))
      {
        if Hit(rs, inputs, p) {
          var k :| 0 <= k < |inputs| && FirstMatch(rs, inputs[k].date, inputs[k].exercise) == Some(p);
          if k < m {
            assert front[k] == inputs[k];
          }
        }
        if Hit(rs, front, p) {
          var k :| 0 <= k < |front| && FirstMatch(rs, front[k].date, front[k].exercise) == Some(p);
          assert inputs[k] == front[k];
        }
      }
    }
  }

  /** Inputs that match no stored record change nothing. */
  lemma DeleteNothing(rs: seq<ExerciseRecord>, inputs: seq<ExerciseRecord>)
    requires forall k, q :: 0 <= k < |inputs| && 0 <= q < |rs| ==>
      !(rs[q].date == inputs[k].date && rs[q].exercise == inputs[k].exercise)
    ensures DeleteAll(rs, inputs) == rs
  {
    DeleteAllSpec(rs, inputs);
    forall k | 0 <= k < |inputs| ensures FirstMatch(rs, inputs[k].date, inputs[k].exercise).None? {
    }
  }

  /** `exerciseIndex.mapValues { indices in indices.map { records[$0] } }`. */
  function RecordsByDay(rs: seq<ExerciseRecord>, days: map<Date, seq<int>>): (r: map<Date, seq<ExerciseRecord>>)
    requires forall d :: d in days ==> forall i :: 0 <= i < |days[d]| ==> 0 <= days[d][i] < |rs|
    ensures r.Keys == days.Keys
  {
    map d | d in days :: Gather(rs, days[d])
  }

  /**
    The day map of an indexed exercise: one entry per day the exercise was done, holding
    that day's records of the exercise in array order.
   */
  lemma RecordsByDaySpec(rs: seq<ExerciseRecord>, exercise: string)
    requires exercise in BuildIndex(rs)
    ensures var days := BuildIndex(rs)[exercise];
      forall d :: d in days ==> forall i :: 0 <= i < |days[d]| ==> 0 <= days[d][i] < |rs|
    ensures var m := RecordsByDay(rs, BuildIndex(rs)[exercise]);
      && (forall d :: d in m <==> exists p :: 0 <= p < |rs| && Files(rs[p], exercise, d))
      && (forall d :: d in m ==> m[d] == Matching(rs, exercise, d))
  {
    var days := BuildIndex(rs)[exercise];
    forall d | d in days
      ensures (forall i :: 0 <= i < |days[d]| ==> 0 <= days[d][i] < |rs|)
              && Gather(rs, days[d]) == Matching(rs, exercise, d)
    {
      EntryFacts(rs, exercise, d);
    }
    BuildIndexEntries(rs);
    forall d ensures d in days <==> exists p :: 0 <= p < |rs| && Files(rs[p], exercise, d) {
      PositionsNonEmpty(rs, exercise, d);
    }
  }

  class WorkoutDataManager {
    var records: seq<ExerciseRecord>
    var recordsIndex: Index
    var lastRecordIndex: int

    /** Every record is indexed, and the index is the one its records build. */
    ghost predicate Valid()
      reads this
    {
      lastRecordIndex == |records| - 1 && recordsIndex == BuildIndex(records)
    }

    constructor ()
      ensures Valid() && records == []
    {
      records := [];
      recordsIndex := map[];
      lastRecordIndex := -1;
    }

    /**
      `exerciseList`: the index's exercise names, each once, in an order the dictionary
      leaves unspecified.
     */
    method ExerciseList() returns (names: seq<string>)
      ensures forall e :: e in names <==> e in recordsIndex
      ensures forall i, j :: 0 <= i < j < |names| ==> names[i] != names[j]
    {
      var remaining := recordsIndex.Keys;
      names := [];
      while remaining != {}
        invariant remaining <= recordsIndex.Keys
        invariant forall e :: e in names <==> e in recordsIndex && e !in remaining
        invariant forall i, j :: 0 <= i < j < |names| ==> names[i] != names[j]
        decreases |remaining|
      {
        var e :| e in remaining;
        names := names + [e];
        remaining := remaining - {e};
      }
    }

    /**
      `loadWorkoutData(in:)` after the fetch: a failed fetch rethrows and changes nothing;
      an empty batch changes nothing; otherwise the batch is appended and indexed.
     */
    method LoadWorkoutData(fetched: Result<seq<ExerciseRecord>, string>) returns (outcome: Option<string>)
      requires Valid()
      modifies this
      ensures Valid()
      ensures outcome.Some? <==> fetched.Failure?
      ensures fetched.Failure? ==> outcome == Some(fetched.error)
      ensures fetched.Success? ==> records == old(records) + fetched.value
      ensures (fetched.Failure? || fetched.value == []) ==>
        records == old(records) && recordsIndex == old(recordsIndex) && lastRecordIndex == old(lastRecordIndex)
    {
      if fetched.Failure? {
        return Some(fetched.error);
      }
      var newRecords := fetched.value;
      if newRecords != [] {
        records := records + newRecords;
        UpdateIndex();
      }
      return None;
    }

    /**
      `updateIndex()`: files the positions after the cursor, and only those, then moves
      the cursor to the last record.
     */
    method UpdateIndex()
      requires -1 <= lastRecordIndex < |records|
      requires recordsIndex == BuildIndex(records[..lastRecordIndex + 1])
      modifies this
      ensures Valid()
      ensures records == old(records)
    {
      var index := lastRecordIndex + 1;
      while index < |records|
        invariant records == old(records) && lastRecordIndex == old(lastRecordIndex)
        invariant lastRecordIndex + 1 <= index <= |records|
        invariant recordsIndex == BuildIndex(records[..index])
      {
        var midnight := Midnight(records[index].date);
        var exercise := records[index].exercise;
        var inner := if exercise in recordsIndex then recordsIndex[exercise] else map[];
        var list := if midnight in inner then inner[midnight] else [];
        IndexOneMore(records, index);
        recordsIndex := recordsIndex[exercise := inner[midnight := list + [index]]];
        index := index + 1;
      }
      assert records[..index] == records;
      lastRecordIndex := |records| - 1;
    }

    /**
      `getExerciseRecords(_:)`: nil for an exercise with no records; otherwise, for each
      day the exercise was done, its records of that day in array order, flagged ones too.
     */
    function GetExerciseRecords(exercise: string): (r: Option<map<Date, seq<ExerciseRecord>>>)
      reads this
      requires Valid()
      ensures r.None? <==> forall p :: 0 <= p < |records| ==> records[p].exercise != exercise
      ensures r.Some? ==> forall d :: d in r.value <==> exists p :: 0 <= p < |records| && Files(records[p], exercise, d)
      ensures r.Some? ==> forall d :: d in r.value ==> r.value[d] == Matching(records, exercise, d)
    {
      BuildIndexKeys(records);
      if exercise !in recordsIndex then None
      else
        RecordsByDaySpec(records, exercise);
        Some(RecordsByDay(records, recordsIndex[exercise]))
    }

    /**
      `getExerciseRecords(byDate:)`: the records on `date` of every exercise, one exercise
      after another; each exercise's share keeps array order.
     */
    method GetExerciseRecordsByDate(date: Date) returns (result: seq<ExerciseRecord>, ghost names: seq<string>)
      requires Valid()
      ensures forall e :: e in names <==> e in recordsIndex
      ensures forall i, j :: 0 <= i < j < |names| ==> names[i] != names[j]
      ensures result == Blocks(records, names, date)
      ensures forall e :: OfExercise(result, e) == Matching(records, e, date)
      ensures forall i :: 0 <= i < |result| ==> Midnight(result[i].date) == date
    {
      var exercises := ExerciseList();
      names := exercises;
      result := [];
      var k := 0;
      assert exercises[..k] == [];
      while k < |exercises|
        invariant 0 <= k <= |exercises|
        invariant result == Blocks(records, exercises[..k], date)
      {
        var exercise := exercises[k];
        var found: seq<ExerciseRecord> := [];
        if exercise in recordsIndex && date in recordsIndex[exercise] {
          EntryFacts(records, exercise, date);
          found := Gather(records, recordsIndex[exercise][date]);
        } else {
          MatchingEmpty(records, exercise, date);
        }
        BlocksStep(records, exercises, k, date);
        result := result + found;
        k := k + 1;
      }
      assert exercises[..k] == exercises;
      BlocksProjection(records, exercises, date);
      BlocksOnDay(records, exercises, date);
      ByDateDone(records, date, exercises, result);
    }

    /**
      `deleteRecords(_:)`: for each input in turn, flags the first stored record with the
      same date and exercise; the index and the cursor stay as they are.
     */
    method DeleteRecords(inputs: seq<ExerciseRecord>)
      requires Valid()
      modifies this
      ensures Valid()
      ensures records == DeleteAll(old(records), inputs)
      ensures recordsIndex == old(recordsIndex) && lastRecordIndex == old(lastRecordIndex)
    {
      var k := 0;
      while k < |inputs|
        invariant 0 <= k <= |inputs|
        invariant records == DeleteAll(old(records), inputs[..k])
        invariant recordsIndex == old(recordsIndex) && lastRecordIndex == old(lastRecordIndex)
      {
        var record := inputs[k];
        var index := FirstMatch(records, record.date, record.exercise);
        if index.Some? {
          records := records[index.value := records[index.value].(isDeleted := true)];
        }
        assert inputs[..k + 1][..k] == inputs[..k];
        k := k + 1;
      }
      assert inputs[..k] == inputs;
      DeleteAllSpec(old(records), inputs);
      BuildIndexIgnoresFlags(records, old(records));
    }
  }

  /** The records on `day` of each exercise of `names` in turn, one block per exercise. */
  function Blocks(rs: seq<ExerciseRecord>, names: seq<string>, day: Date): seq<ExerciseRecord>
    decreases |names|
  {
    if names == [] then []
    else
      var n := |names| - 1;
      Blocks(rs, names[..n], day) + Matching(rs, names[n], day)
  }

  /** One more name adds its block at the end. */
  lemma BlocksStep(rs: seq<ExerciseRecord>, names: seq<string>, k: int, day: Date)
    requires 0 <= k < |names|
    ensures Blocks(rs, names[..k + 1], day) == Blocks(rs, names[..k], day) + Matching(rs, names[k], day)
  {
    assert names[..k + 1][..k] == names[..k];
  }

  lemma {:induction false} OfExerciseAppend(a: seq<ExerciseRecord>, b: seq<ExerciseRecord>, e: string)
    ensures OfExercise(a + b, e) == OfExercise(a, e) + OfExercise(b, e)
    decreases |a|
  {
    if a != [] {
      OfExerciseAppend(a[1..], b, e);
      var head := if a[0].exercise == e then [a[0]] else [];
      assert (a + b)[0] == a[0] && (a + b)[1..] == a[1..] + b;
      assert OfExercise(a + b, e) == head + OfExercise(a[1..] + b, e);
      assert OfExercise(a, e) == head + OfExercise(a[1..], e);
      assert head + (OfExercise(a[1..], e) + OfExercise(b, e)) == (head + OfExercise(a[1..], e)) + OfExercise(b, e);
    } else {
      assert a + b == b;
    }
  }

  /** The records of `exercise` on a day, filtered by exercise `e`. */
  lemma {:induction false} OfExerciseMatching(rs: seq<ExerciseRecord>, exercise: string, day: Date, e: string)
    ensures OfExercise(Matching(rs, exercise, day), e) == if e == exercise then Matching(rs, exercise, day) else []
    decreases |rs|
  {
    if rs != [] {
      var n := |rs| - 1;
      OfExerciseMatching(rs[..n], exercise, day, e);
      var last := if Files(rs[n], exercise, day) then [rs[n]] else [];
      OfExerciseAppend(Matching(rs[..n], exercise, day), last, e);
      if last != [] {
        assert OfExercise(last, e) == (if rs[n].exercise == e then [rs[n]] else []) + OfExercise([], e);
      }
    }
  }

  /** The records of `exercise` on `day` are the stored records filed under them. */
  lemma {:induction false} MatchingMembers(rs: seq<ExerciseRecord>, exercise: string, day: Date)
    ensures forall x :: x in Matching(rs, exercise, day) <==>
      exists p :: 0 <= p < |rs| && rs[p] == x && Files(x, exercise, day)
    decreases |rs|
  {
    if rs != [] {
      var n := |rs| - 1;
      MatchingMembers(rs[..n], exercise, day);
      forall x ensures x in Matching(rs, exercise, day) <==>
        exists p :: 0 <= p < |rs| && rs[p] == x && Files(x, exercise, day)
      {
        if x in Matching(rs[..n], exercise, day) {
          var p :| 0 <= p < n && rs[..n][p] == x && Files(x, exercise, day);
          assert rs[p] == x;
        }
        if exists p :: 0 <= p < |rs| && rs[p] == x && Files(x, exercise, day) {
          var p :| 0 <= p < |rs| && rs[p] == x && Files(x, exercise, day);
          if p < n {
            assert rs[..n][p] == x;
          }
        }
      }
    }
  }

  lemma {:induction false} MatchingOnDay(rs: seq<ExerciseRecord>, exercise: string, day: Date)
    ensures forall i :: 0 <= i < |Matching(rs, exercise, day)| ==> Files(Matching(rs, exercise, day)[i], exercise, day)
    decreases |rs|
  {
    if rs != [] {
      MatchingOnDay(rs[..|rs| - 1], exercise, day);
    }
  }

  lemma {:induction false} MatchingAbsent(rs: seq<ExerciseRecord>, exercise: string, day: Date)
    requires exercise !in BuildIndex(rs)
    ensures Matching(rs, exercise, day) == []
  {
    BuildIndexLookup(rs);
    GatherPositions(rs, exercise, day);
    PositionsNonEmpty(rs, exercise, day);
  }

  /** No entry for (exercise, day) in the built index: no matching records. */
  lemma MatchingEmpty(rs: seq<ExerciseRecord>, exercise: string, day: Date)
    requires !(exercise in BuildIndex(rs) && day in BuildIndex(rs)[exercise])
    ensures Matching(rs, exercise, day) == []
  {
    BuildIndexEntries(rs);
    GatherPositions(rs, exercise, day);
  }

  /**
    With distinct names, each exercise's share of the blocks is its records of the day
    when it is one of the names, and nothing otherwise.
   */
  lemma {:induction false} BlocksProjection(rs: seq<ExerciseRecord>, names: seq<string>, day: Date)
    requires forall i, j :: 0 <= i < j < |names| ==> names[i] != names[j]
    ensures forall e :: OfExercise(Blocks(rs, names, day), e) == if e in names then Matching(rs, e, day) else []
    decreases |names|
  {
    if names != [] {
      var n := |names| - 1;
      BlocksProjection(rs, names[..n], day);
      assert names == names[..n] + [names[n]];
      assert names[n] !in names[..n];
      forall e ensures OfExercise(Blocks(rs, names, day), e) == if e in names then Matching(rs, e, day) else [] {
        ByDateStepOne(rs, day, names[..n], names[n], Blocks(rs, names[..n], day), e);
      }
    }
  }

  /** Every record of the blocks is on the day. */
  lemma {:induction false} BlocksOnDay(rs: seq<ExerciseRecord>, names: seq<string>, day: Date)
    ensures forall i :: 0 <= i < |Blocks(rs, names, day)| ==> Midnight(Blocks(rs, names, day)[i].date) == day
    decreases |names|
  {
    if names != [] {
      var n := |names| - 1;
      BlocksOnDay(rs, names[..n], day);
      AppendOnDay(rs, day, names[n], Blocks(rs, names[..n], day));
      assert Blocks(rs, names, day) == Blocks(rs, names[..n], day) + Matching(rs, names[n], day);
    }
  }

  /** Appending a day's matching records keeps every collected record on that day. */
  lemma AppendOnDay(rs: seq<ExerciseRecord>, day: Date, exercise: string, result: seq<ExerciseRecord>)
    requires forall i :: 0 <= i < |result| ==> Midnight(result[i].date) == day
    ensures var all := result + Matching(rs, exercise, day);
      forall i :: 0 <= i < |all| ==> Midnight(all[i].date) == day
  {
    MatchingOnDay(rs, exercise, day);
  }

  lemma ByDateStepOne(rs: seq<ExerciseRecord>, day: Date, done: seq<string>, exercise: string,
                      result: seq<ExerciseRecord>, e: string)
    requires exercise !in done
    requires OfExercise(result, e) == if e in done then Matching(rs, e, day) else []
    ensures OfExercise(result + Matching(rs, exercise, day), e)
      == if e in done + [exercise] then Matching(rs, e, day) else []
  {
    OfExerciseAppend(result, Matching(rs, exercise, day), e);
    OfExerciseMatching(rs, exercise, day, e);
  }

  /** After the by-date loop: every exercise of the records has had its turn. */
  lemma ByDateDone(rs: seq<ExerciseRecord>, day: Date, exercises: seq<string>, result: seq<ExerciseRecord>)
    requires forall e :: e in exercises <==> e in BuildIndex(rs)
    requires forall e :: OfExercise(result, e) == if e in exercises then Matching(rs, e, day) else []
    ensures forall e :: OfExercise(result, e) == Matching(rs, e, day)
  {
    forall e | e !in exercises ensures Matching(rs, e, day) == [] {
      MatchingAbsent(rs, e, day);
    }
  }
}
