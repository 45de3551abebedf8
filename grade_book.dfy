/** Student grades and their attempt bookkeeping (src/features/courses/course-controller.ts):
    `submitAnswer`, `createNewStudentGrade`, `generateRandomSeed` and the backfill loops of
    `createGradesForUserEnrollment`, `createGradesForQuestion` and `syncMissingGrades`.

    The grade table holds at most one grade per (user, question) pair. The store queries that
    find the pairs still lacking a grade are inputs, and so is every draw of `Math.random`. */
module GradeBook {
  import opened Outcomes
  import opened JsValues
  import opened MissingGrades

  /** A score as the renderer reports it: a number between 0 and 1. */
  type Score = r: real | 0.0 <= r <= 1.0

  function Max(a: Score, b: Score): Score {
    if a >= b then a else b
  }

  /** Seeds are drawn from [0, SEED_RANGE). */
  const SEED_RANGE := 999999

  /** A value `Math.random` can return. */
  type Draw = r: real | 0.0 <= r < 1.0

  /** `generateRandomSeed`: `Math.floor(draw * 999999)` for the draw `Math.random` returned. */
  function SeedFromDraw(draw: Draw): (seed: int)
    ensures 0 <= seed < SEED_RANGE
  {
    (draw * SEED_RANGE as real).Floor
  }

  /** Every seed of the range is the seed of some draw. */
  lemma EverySeedReachable(seed: int)
    requires 0 <= seed < SEED_RANGE
    ensures exists draw: Draw :: SeedFromDraw(draw) == seed
  {
    var draw: Draw := seed as real / SEED_RANGE as real;
    assert draw * SEED_RANGE as real == seed as real;
    assert SeedFromDraw(draw) == seed;
  }

  /** The pair a grade belongs to; the table has at most one grade per key. */
  datatype GradeKey = GradeKey(userId: int, questionId: int)

  /** The stored columns of a student grade, as a value. */
  datatype GradeRecord = GradeRecord(
    id: int,
    userId: int,
    questionId: int,
    randomSeed: int,
    bestScore: Score,
    overallBestScore: Score,
    numAttempts: nat,
    firstAttempts: Score,
    latestAttempts: Score)

  /** The grade `createNewStudentGrade` stores: every score and the attempt count are 0. */
  function NewGrade(id: int, userId: int, questionId: int, seed: int): (g: GradeRecord)
    ensures g.id == id && g.userId == userId && g.questionId == questionId
    ensures g.randomSeed == seed
    ensures g.bestScore == g.overallBestScore == g.firstAttempts == g.latestAttempts == 0.0
    ensures g.numAttempts == 0
  {
    GradeRecord(id, userId, questionId, seed, 0.0, 0.0, 0, 0.0, 0.0)
  }

  /** The grade after one submitted answer with the given score. */
  function AfterAttempt(g: GradeRecord, score: Score): (r: GradeRecord)
    ensures r.overallBestScore >= g.overallBestScore && r.overallBestScore >= score
    ensures r.overallBestScore == g.overallBestScore || r.overallBestScore == score
    ensures r.bestScore == r.overallBestScore
    ensures r.numAttempts == g.numAttempts + 1
    ensures r.firstAttempts == if g.numAttempts == 0 then score else g.firstAttempts
    ensures r.latestAttempts == score
    ensures r.id == g.id && r.userId == g.userId && r.questionId == g.questionId
    ensures r.randomSeed == g.randomSeed
  {
    var best := Max(g.overallBestScore, score);
    g.(bestScore := best, overallBestScore := best, numAttempts := g.numAttempts + 1,
       firstAttempts := if g.numAttempts + 1 == 1 then score else g.firstAttempts,
       latestAttempts := score)
  }

  /** The grade after answers with the given scores, in order. */
  function AfterAttempts(g: GradeRecord, scores: seq<Score>): GradeRecord
  {
    if scores == [] then g
    else AfterAttempt(AfterAttempts(g, scores[..|scores| - 1]), scores[|scores| - 1])
  }

  /** What a grade created by `createNewStudentGrade` holds after any number of answers: the
      attempt count is the number of answers, the best score is the largest score (0 when
      there is none), the first and latest attempts are the first and the last score, and
      the seed never changes. */
  lemma {:induction false} AttemptsFromNewGrade(id: int, userId: int, questionId: int, seed: int,
                                                 scores: seq<Score>)
    ensures var g := AfterAttempts(NewGrade(id, userId, questionId, seed), scores);
      && g.numAttempts == |scores|
      && g.bestScore == g.overallBestScore
      && (forall i :: 0 <= i < |scores| ==> scores[i] <= g.overallBestScore)
      && (g.overallBestScore == 0.0 || exists i :: 0 <= i < |scores| && scores[i] == g.overallBestScore)
      && g.firstAttempts == (if scores == [] then 0.0 else scores[0])
      && g.latestAttempts == (if scores == [] then 0.0 else scores[|scores| - 1])
      && g.randomSeed == seed && g.id == id && g.userId == userId && g.questionId == questionId
  {
    if scores != [] {
      var n := |scores| - 1;
      AttemptsFromNewGrade(id, userId, questionId, seed, scores[..n]);
      var before := AfterAttempts(NewGrade(id, userId, questionId, seed), scores[..n]);
      var g := AfterAttempt(before, scores[n]);
      forall i | 0 <= i < |scores|
        ensures scores[i] <= g.overallBestScore
      {
        if i < n {
          assert scores[..n][i] == scores[i];
        }
      }
      if before.overallBestScore != 0.0 && g.overallBestScore == before.overallBestScore {
        var i :| 0 <= i < n && scores[..n][i] == before.overallBestScore;
        assert scores[i] == g.overallBestScore;
      }
      if n > 0 {
        assert scores[..n][0] == scores[0];
      }
    }
  }

  /** The best score never goes down, whatever answers follow. */
  lemma {:induction false} BestScoreNeverDecreases(g: GradeRecord, scores: seq<Score>)
    ensures AfterAttempts(g, scores).overallBestScore >= g.overallBestScore
    ensures AfterAttempts(g, scores).numAttempts == g.numAttempts + |scores|
    ensures AfterAttempts(g, scores).randomSeed == g.randomSeed
  {
    if scores != [] {
      BestScoreNeverDecreases(g, scores[..|scores| - 1]);
    }
  }

  /** The `StudentWorkbook` row `submitAnswer` creates. */
  datatype Workbook = Workbook(
    studentGradeId: int,
    userId: int,
    questionId: int,
    randomSeed: int,
    submitted: JsValue,
    result: Score,
    time: int)

  /** The workbook row for an answer to the grade g (as it is after the answer). */
  function WorkbookFor(g: GradeRecord, userId: int, submitted: JsValue, score: Score, time: int)
    : (w: Workbook)
    ensures w.studentGradeId == g.id && w.questionId == g.questionId
    ensures w.randomSeed == g.randomSeed && w.result == score
    ensures w.userId == userId && w.submitted == submitted && w.time == time
  {
    Workbook(g.id, userId, g.questionId, g.randomSeed, submitted, score, time)
  }

  /** A stored student grade; the identifying columns never change. */
  class StudentGrade {
    const id: int
    const userId: int
    const questionId: int
    var randomSeed: int
    var bestScore: Score
    var overallBestScore: Score
    var numAttempts: nat
    var firstAttempts: Score
    var latestAttempts: Score

    /** The row `createNewStudentGrade` inserts. */
    constructor (id: int, userId: int, questionId: int, seed: int)
      ensures Snapshot() == NewGrade(id, userId, questionId, seed)
    {
      this.id := id;
      this.userId := userId;
      this.questionId := questionId;
      randomSeed := seed;
      bestScore := 0.0;
      overallBestScore := 0.0;
      numAttempts := 0;
      firstAttempts := 0.0;
      latestAttempts := 0.0;
    }

    function Snapshot(): GradeRecord
      reads this
    {
      GradeRecord(id, userId, questionId, randomSeed, bestScore, overallBestScore, numAttempts,
                  firstAttempts, latestAttempts)
    }

    /** The field updates `submitAnswer` makes before saving the grade. */
    method RecordAttempt(score: Score)
      modifies this
      ensures Snapshot() == AfterAttempt(old(Snapshot()), score)
    {
      var best := Max(overallBestScore, score);
      bestScore := best;
      overallBestScore := best;
      numAttempts := numAttempts + 1;
      if numAttempts == 1 {
        firstAttempts := score;
      }
      latestAttempts := score;
    }
  }

  /** The store's one-grade-per-(user, question) constraint. Its name is not part of this
      model, and the store refusing a second grade for a pair is an assumption of it. */
  const GRADE_PER_PAIR := Unlisted("unique grade per user and question")

  /** The error `createNewStudentGrade` rejects with when the store refuses the row. */
  const CREATE_GRADE_FAILURE :=
    Wrapped("Could not create new student grade", DbCause(UniqueViolation(GRADE_PER_PAIR)))

  /** What `submitAnswer` resolves with: the grade and its new workbook row, or null twice. */
  datatype Submission = Submission(grade: StudentGrade?, workbook: Option<Workbook>)

  /** The student grades and workbook rows of the store. */
  class GradeTable {
    var grades: map<GradeKey, StudentGrade>
    var workbooks: seq<Workbook>
    /** The id the store gives the next grade it inserts. */
    var nextGradeId: int
    /** The stored grades as values. */
    ghost var records: map<GradeKey, GradeRecord>

    /** Each grade is filed under the (user, question) pair its own constant columns name, so
        no grade is filed under two pairs; its id was already given out; `records` holds the
        current value of each. */
    ghost predicate Valid()
      reads this, grades.Values
    {
      && grades.Keys == records.Keys
      && forall k :: k in grades ==>
        && grades[k].userId == k.userId && grades[k].questionId == k.questionId
        && grades[k].id < nextGradeId
        && grades[k].Snapshot() == records[k]
    }

    constructor ()
      ensures Valid() && records == map[] && workbooks == []
    {
      grades := map[];
      workbooks := [];
      nextGradeId := 1;
      records := map[];
    }

    /** `submitAnswer`: without a grade for the pair nothing changes and both results are
        null. Otherwise the grade records the attempt and one workbook row is appended. The
        save and the workbook insert are neither caught nor in a transaction: saveError and
        insertError are the store's answers to them. A failed save stores nothing (the updated
        instance is dropped with the rejection); a failed insert leaves the saved grade in
        place. Either rejects with the raw store error. */
    method SubmitAnswer(userId: int, questionId: int, score: Score, submitted: JsValue, now: int,
                        saveError: Option<DbError>, insertError: Option<DbError>)
      returns (r: Result<Submission>)
      requires Valid()
      modifies this, if GradeKey(userId, questionId) in grades
                     then {grades[GradeKey(userId, questionId)]} else {}
      ensures Valid()
      ensures grades == old(grades) && nextGradeId == old(nextGradeId)
      ensures var key := GradeKey(userId, questionId);
        if key !in old(grades) then
          r == Ok(Submission(null, None)) && records == old(records) && workbooks == old(workbooks)
        else if saveError.Some? then
          && r == Err(StoreFailure(saveError.value))
          && records == old(records) && workbooks == old(workbooks)
        else
          && records == old(records)[key := AfterAttempt(old(records)[key], score)]
          && if insertError.Some? then
               r == Err(StoreFailure(insertError.value)) && workbooks == old(workbooks)
             else
               var w := WorkbookFor(records[key], userId, submitted, score, now);
               r == Ok(Submission(old(grades)[key], Some(w))) && workbooks == old(workbooks) + [w]
    {
      var key := GradeKey(userId, questionId);
      if key !in grades {
        return Ok(Submission(null, None));
      }
      if saveError.Some? {
        return Err(StoreFailure(saveError.value));
      }
      var grade := grades[key];
      grade.RecordAttempt(score);
      records := records[key := grade.Snapshot()];
      if insertError.Some? {
        return Err(StoreFailure(insertError.value));
      }
      var w := WorkbookFor(grade.Snapshot(), userId, submitted, score, now);
      workbooks := workbooks + [w];
      r := Ok(Submission(grade, Some(w)));
    }

    /** `createNewStudentGrade`: inserts a zero-initialised grade with the seed of the draw,
        or rejects, storing nothing, when the pair already has a grade. */
    method CreateNewStudentGrade(userId: int, questionId: int, draw: Draw)
      returns (r: Result<StudentGrade>)
      requires Valid()
      modifies this
      ensures Valid() && workbooks == old(workbooks)
      ensures var key := GradeKey(userId, questionId);
        if key in old(grades) then
          && r == Err(CREATE_GRADE_FAILURE) && unchanged(this)
        else
          && r.Ok? && fresh(r.value)
          && grades == old(grades)[key := r.value]
          && records == old(records)[key :=
               NewGrade(old(nextGradeId), userId, questionId, SeedFromDraw(draw))]
          && nextGradeId == old(nextGradeId) + 1
    {
      var key := GradeKey(userId, questionId);
      if key in grades {
        return Err(CREATE_GRADE_FAILURE);
      }
      var g := new StudentGrade(nextGradeId, userId, questionId, SeedFromDraw(draw));
      grades := grades[key := g];
      nextGradeId := nextGradeId + 1;
      records := records[key := g.Snapshot()];
      r := Ok(g);
    }

    /** One turn of the backfill loop: the grade for the i-th pair, after the first i were
        created. */
    method CreateNext(pairs: seq<GradeKey>, draws: seq<Draw>, i: nat,
                      ghost initial: map<GradeKey, GradeRecord>, ghost firstId: int)
      returns (r: Result<StudentGrade>)
      requires Valid()
      requires |draws| == |pairs| && i < |pairs|
      requires Insertable(initial.Keys, pairs[..i])
      requires nextGradeId == firstId + i
      requires records == Backfilled(initial, pairs[..i], draws[..i], firstId)
      modifies this
      ensures Valid() && workbooks == old(workbooks)
      ensures r.Ok? <==> Insertable(initial.Keys, pairs[..i + 1])
      ensures r.Ok? ==>
        && nextGradeId == firstId + i + 1
        && records == Backfilled(initial, pairs[..i + 1], draws[..i + 1], firstId)
      ensures r.Err? ==> r.error == CREATE_GRADE_FAILURE && records == old(records)
    {
      InsertableStep(initial.Keys, pairs, i);
      BackfilledKeys(initial, pairs[..i], draws[..i], firstId, pairs[i]);
      BackfilledStep(initial, pairs, draws, firstId, i);
      r := CreateNewStudentGrade(pairs[i].userId, pairs[i].questionId, draws[i]);
    }

    /** The `asyncForEach` over the pairs still lacking a grade: one `createNewStudentGrade`
        per pair, in order, each with its own draw, stopping at the first rejection. Resolves
        with the number of pairs. */
    method CreateGrades(pairs: seq<GradeKey>, draws: seq<Draw>)
      returns (r: Result<nat>, ghost created: nat)
      requires Valid()
      requires |draws| == |pairs|
      modifies this
      ensures Valid() && workbooks == old(workbooks)
      ensures r.Ok? <==> Insertable(old(grades).Keys, pairs)
      ensures r.Ok? ==>
        r.value == |pairs| && records == Backfilled(old(records), pairs, draws, old(nextGradeId))
      ensures r.Err? ==> r.error == CREATE_GRADE_FAILURE
      ensures r.Err? ==>
        && created < |pairs| && Insertable(old(grades).Keys, pairs[..created])
        && !Insertable(old(grades).Keys, pairs[..created + 1])
        && records == Backfilled(old(records), pairs[..created], draws[..created], old(nextGradeId))
    {
      ghost var keys := grades.Keys;
      ghost var initial := records;
      var i := 0;
      while i < |pairs|
        invariant 0 <= i <= |pairs|
        invariant Valid() && workbooks == old(workbooks)
        invariant Insertable(keys, pairs[..i])
        invariant nextGradeId == old(nextGradeId) + i
        invariant records == Backfilled(initial, pairs[..i], draws[..i], old(nextGradeId))
      {
        var grade := CreateNext(pairs, draws, i, initial, old(nextGradeId));
        if grade.Err? {
          InsertablePrefix(keys, pairs, i + 1);
          return Err(grade.error), i;
        }
        i := i + 1;
      }
      assert pairs[..i] == pairs;
      assert draws[..i] == draws;
      r, created := Ok(|pairs|), |pairs|;
    }

    /** `createGradesForUserEnrollment`: a grade for the user on each question the query found
        without one. */
    method CreateGradesForUserEnrollment(userId: int, questionIds: seq<int>, draws: seq<Draw>)
      returns (r: Result<nat>, ghost created: nat)
      requires Valid()
      requires |draws| == |questionIds|
      modifies this
      ensures Valid() && workbooks == old(workbooks)
      ensures r.Ok? <==> Insertable(old(grades).Keys, ForUser(userId, questionIds))
      ensures r.Ok? ==> r.value == |questionIds|
      ensures r.Ok? ==>
        records == Backfilled(old(records), ForUser(userId, questionIds), draws, old(nextGradeId))
      ensures r.Err? ==> r.error == CREATE_GRADE_FAILURE
      ensures r.Err? ==> var pairs := ForUser(userId, questionIds);
        && created < |pairs| && Insertable(old(grades).Keys, pairs[..created])
        && !Insertable(old(grades).Keys, pairs[..created + 1])
        && records == Backfilled(old(records), pairs[..created], draws[..created], old(nextGradeId))
    {
      r, created := CreateGrades(ForUser(userId, questionIds), draws);
    }

    /** `createGradesForQuestion`: a grade on the question for each user the query found
        without one. */
    method CreateGradesForQuestion(questionId: int, userIds: seq<int>, draws: seq<Draw>)
      returns (r: Result<nat>, ghost created: nat)
      requires Valid()
      requires |draws| == |userIds|
      modifies this
      ensures Valid() && workbooks == old(workbooks)
      ensures r.Ok? <==> Insertable(old(grades).Keys, ForQuestion(questionId, userIds))
      ensures r.Ok? ==> r.value == |userIds|
      ensures r.Ok? ==>
        records == Backfilled(old(records), ForQuestion(questionId, userIds), draws, old(nextGradeId))
      ensures r.Err? ==> r.error == CREATE_GRADE_FAILURE
      ensures r.Err? ==> var pairs := ForQuestion(questionId, userIds);
        && created < |pairs| && Insertable(old(grades).Keys, pairs[..created])
        && !Insertable(old(grades).Keys, pairs[..created + 1])
        && records == Backfilled(old(records), pairs[..created], draws[..created], old(nextGradeId))
    {
      r, created := CreateGrades(ForQuestion(questionId, userIds), draws);
    }

    /** `syncMissingGrades`: the pairs `findMissingGrades` flattens out of the query's student
        rows, each given a grade. */
    method SyncMissingGrades(students: seq<StudentRow>, draws: seq<Draw>)
      returns (r: Result<()>, ghost created: nat)
      requires Valid()
      requires |draws| == |MissingResults(students)|
      modifies this
      ensures Valid() && workbooks == old(workbooks)
      ensures var pairs := PairsOf(MissingResults(students));
        && (r.Ok? <==> Insertable(old(grades).Keys, pairs))
        && (r.Ok? ==> records == Backfilled(old(records), pairs, draws, old(nextGradeId)))
      ensures r.Err? ==> r.error == CREATE_GRADE_FAILURE
      ensures r.Err? ==> var pairs := PairsOf(MissingResults(students));
        && created < |pairs| && Insertable(old(grades).Keys, pairs[..created])
        && !Insertable(old(grades).Keys, pairs[..created + 1])
        && records == Backfilled(old(records), pairs[..created], draws[..created], old(nextGradeId))
    {
      var missing := FindMissingGrades(students);
      var outcome;
      outcome, created := CreateGrades(PairsOf(missing), draws);
      r := if outcome.Ok? then Ok(()) else Err(outcome.error);
    }
  }

  function ForUser(userId: int, questionIds: seq<int>): (pairs: seq<GradeKey>)
    ensures |pairs| == |questionIds|
    ensures forall i :: 0 <= i < |pairs| ==> pairs[i] == GradeKey(userId, questionIds[i])
  {
    seq(|questionIds|, i requires 0 <= i < |questionIds| => GradeKey(userId, questionIds[i]))
  }

  function ForQuestion(questionId: int, userIds: seq<int>): (pairs: seq<GradeKey>)
    ensures |pairs| == |userIds|
    ensures forall i :: 0 <= i < |pairs| ==> pairs[i] == GradeKey(userIds[i], questionId)
  {
    seq(|userIds|, i requires 0 <= i < |userIds| => GradeKey(userIds[i], questionId))
  }

  /** The (user, question) pair of each missing-grade result. */
  function PairsOf(missing: seq<MissingGrade>): (pairs: seq<GradeKey>)
    ensures |pairs| == |missing|
    ensures forall i :: 0 <= i < |pairs| ==>
      pairs[i] == GradeKey(missing[i].student.id, missing[i].question.id)
  {
    seq(|missing|, i requires 0 <= i < |missing| =>
      GradeKey(missing[i].student.id, missing[i].question.id))
  }

  /** Each pair in turn can be inserted: it has no grade yet and none is created for it
      earlier in the list. */
  predicate Insertable(keys: set<GradeKey>, pairs: seq<GradeKey>)
  {
    pairs == [] ||
    (var n := |pairs| - 1;
     Insertable(keys, pairs[..n]) && pairs[n] !in keys && pairs[n] !in pairs[..n])
  }

  /** The grades after the i-th pair of the list got the i-th draw's seed and id firstId + i. */
  function Backfilled(records: map<GradeKey, GradeRecord>, pairs: seq<GradeKey>, draws: seq<Draw>,
                      firstId: int): map<GradeKey, GradeRecord>
    requires |draws| == |pairs|
  {
    if pairs == [] then records
    else
      var n := |pairs| - 1;
      Backfilled(records, pairs[..n], draws[..n], firstId)[pairs[n] :=
        NewGrade(firstId + n, pairs[n].userId, pairs[n].questionId, SeedFromDraw(draws[n]))]
  }

  /** The backfill adds exactly the listed pairs. */
  lemma {:induction false} BackfilledKeys(records: map<GradeKey, GradeRecord>, pairs: seq<GradeKey>,
                                          draws: seq<Draw>, firstId: int, k: GradeKey)
    requires |draws| == |pairs|
    ensures k in Backfilled(records, pairs, draws, firstId) <==> k in records || k in pairs
  {
    if pairs != [] {
      var n := |pairs| - 1;
      BackfilledKeys(records, pairs[..n], draws[..n], firstId, k);
      assert pairs == pairs[..n] + [pairs[n]];
    }
  }

  lemma BackfilledStep(records: map<GradeKey, GradeRecord>, pairs: seq<GradeKey>, draws: seq<Draw>,
                       firstId: int, i: nat)
    requires |draws| == |pairs|
    requires i < |pairs|
    ensures Backfilled(records, pairs[..i + 1], draws[..i + 1], firstId) ==
      Backfilled(records, pairs[..i], draws[..i], firstId)[pairs[i] :=
        NewGrade(firstId + i, pairs[i].userId, pairs[i].questionId, SeedFromDraw(draws[i]))]
  {
    assert pairs[..i + 1][..i] == pairs[..i];
    assert draws[..i + 1][..i] == draws[..i];
  }

  lemma InsertableStep(keys: set<GradeKey>, pairs: seq<GradeKey>, i: nat)
    requires i < |pairs|
    ensures Insertable(keys, pairs[..i + 1]) <==>
      Insertable(keys, pairs[..i]) && pairs[i] !in keys && pairs[i] !in pairs[..i]
  {
    assert pairs[..i + 1][..i] == pairs[..i];
  }

  lemma {:induction false} InsertablePrefix(keys: set<GradeKey>, pairs: seq<GradeKey>, i: nat)
    requires i <= |pairs|
    ensures Insertable(keys, pairs) ==> Insertable(keys, pairs[..i])
    decreases |pairs|
  {
    if i < |pairs| {
      var n := |pairs| - 1;
      assert pairs[..n][..i] == pairs[..i];
      InsertablePrefix(keys, pairs[..n], i);
    } else {
      assert pairs[..i] == pairs;
    }
  }

  /** The pairs can all be inserted exactly when none has a grade yet and none repeats. */
  lemma {:induction false} InsertableIff(keys: set<GradeKey>, pairs: seq<GradeKey>)
    ensures Insertable(keys, pairs) <==>
      (forall i :: 0 <= i < |pairs| ==> pairs[i] !in keys)
      && (forall i, j :: 0 <= i < j < |pairs| ==> pairs[i] != pairs[j])
  {
    if pairs != [] {
      var n := |pairs| - 1;
      InsertableIff(keys, pairs[..n]);
      assert forall i :: 0 <= i < n ==> pairs[..n][i] == pairs[i];
    }
  }

  /** A successful backfill keeps every earlier grade and adds, for the i-th pair, a new
      zero-initialised grade with id firstId + i and the seed of the i-th draw, and nothing
      else. */
  lemma {:induction false} BackfilledGrades(records: map<GradeKey, GradeRecord>,
                                            pairs: seq<GradeKey>, draws: seq<Draw>, firstId: int)
    requires |draws| == |pairs|
    requires Insertable(records.Keys, pairs)
    ensures Backfilled(records, pairs, draws, firstId).Keys ==
      records.Keys + (set i | 0 <= i < |pairs| :: pairs[i])
    ensures forall k :: k in records ==> Backfilled(records, pairs, draws, firstId)[k] == records[k]
    ensures forall i :: 0 <= i < |pairs| ==>
      Backfilled(records, pairs, draws, firstId)[pairs[i]] ==
        NewGrade(firstId + i, pairs[i].userId, pairs[i].questionId, SeedFromDraw(draws[i]))
  {
    if pairs != [] {
      var n := |pairs| - 1;
      BackfilledGrades(records, pairs[..n], draws[..n], firstId);
      forall i | 0 <= i < n
        ensures pairs[..n][i] == pairs[i] && draws[..n][i] == draws[i] && pairs[i] != pairs[n]
      {
        assert pairs[n] !in pairs[..n];
      }
      assert (set i | 0 <= i < |pairs| :: pairs[i]) ==
        (set i | 0 <= i < n :: pairs[..n][i]) + {pairs[n]};
    }
  }
}
