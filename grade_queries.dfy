/** The decision logic of `getGrades` and `getQuestion` (src/features/courses/course-controller.ts).

    `getGrades` accepts exactly one of four filters (course, unit, topic, question), joins
    the content tables above the question up to the filtered level, filters on that level's
    id, and either lists the matching grades (question filter) or aggregates them per
    student. The SQL it builds is left to the store; the model states which filter, which
    joins and which projection it asks for.

    `getQuestion` posts the question's problem to the renderer with the seed of the
    student's grade, or 666 when the student has none. */
module GradeQueries {
  import opened Outcomes
  import opened JsValues
  import opened RendererHelper
  import opened GradeBook

  /** `options.where` of `getGrades`; `Undefined` is a filter not given. */
  datatype GradeFilter = GradeFilter(courseId: JsValue, questionId: JsValue, topicId: JsValue,
                                     unitId: JsValue)

  /** The filters in the order the count lists them. */
  function FilterValues(f: GradeFilter): seq<JsValue> {
    [f.courseId, f.questionId, f.topicId, f.unitId]
  }

  /** The `reduce` that counts the filters that are set (neither null nor undefined). */
  function SetFilterCount(values: seq<JsValue>): (n: nat)
    ensures n <= |values|
    ensures n == 0 <==> forall i :: 0 <= i < |values| ==> IsNil(values[i])
    ensures n == |values| <==> forall i :: 0 <= i < |values| ==> !IsNil(values[i])
    ensures n == |SetPositions(values)|
  {
    if values == [] then
      assert SetPositions(values) == {};
      0
    else
      var last := |values| - 1;
      assert forall i :: 0 <= i < last ==> values[..last][i] == values[i];
      var here: set<int> := if IsNil(values[last]) then {} else {last};
      assert SetPositions(values) == SetPositions(values[..last]) + here;
      assert SetPositions(values[..last]) * here == {};
      SetFilterCount(values[..last]) + IsSet(values[last])
  }

  /** The positions of the filters that are set. */
  function SetPositions(values: seq<JsValue>): set<int> {
    set i | 0 <= i < |values| && !IsNil(values[i])
  }

  /** What one filter adds to the count: `!_.isNil(val) && 1 || 0`. */
  function IsSet(v: JsValue): nat {
    if !IsNil(v) then 1 else 0
  }

  /** Exactly one filter is set. */
  predicate OneFilterSet(f: GradeFilter) {
    || (!IsNil(f.courseId) && IsNil(f.questionId) && IsNil(f.topicId) && IsNil(f.unitId))
    || (IsNil(f.courseId) && !IsNil(f.questionId) && IsNil(f.topicId) && IsNil(f.unitId))
    || (IsNil(f.courseId) && IsNil(f.questionId) && !IsNil(f.topicId) && IsNil(f.unitId))
    || (IsNil(f.courseId) && IsNil(f.questionId) && IsNil(f.topicId) && !IsNil(f.unitId))
  }

  /** The count is 1 exactly when one filter is set. */
  lemma CountIsOneIff(f: GradeFilter)
    ensures SetFilterCount(FilterValues(f)) == 1 <==> OneFilterSet(f)
  {
    var v := FilterValues(f);
    assert v[..1][..0] == [];
    assert SetFilterCount(v[..1]) == IsSet(f.courseId);
    assert v[..2][..1] == v[..1];
    assert SetFilterCount(v[..2]) == IsSet(f.courseId) + IsSet(f.questionId);
    assert v[..3][..2] == v[..2];
    assert SetFilterCount(v[..3]) == IsSet(f.courseId) + IsSet(f.questionId) + IsSet(f.topicId);
    assert v[..4] == v;
  }

  /** The content tables `getGrades` can join above the question. */
  datatype Level = CourseLevel | UnitLevel | TopicLevel

  /** An include: the table joined and the includes nested in it. */
  datatype Join = Join(level: Level, children: seq<Join>)

  /** The tables a list of includes joins, at any depth. */
  function Joined(joins: seq<Join>): set<Level>
    decreases joins
  {
    if joins == [] then {}
    else {joins[0].level} + Joined(joins[0].children) + Joined(joins[1..])
  }

  /** The table one step further from the question. */
  function Parent(level: Level): Option<Level> {
    match level
    case TopicLevel => Some(UnitLevel)
    case UnitLevel => Some(CourseLevel)
    case CourseLevel => None
  }

  /** The includes form one chain up from the question: none, or a single include of the
      table `next`, whose own includes chain on from that table. */
  predicate ChainedFrom(joins: seq<Join>, next: Option<Level>)
    decreases joins
  {
    joins == [] ||
    (|joins| == 1 && next.Some? && joins[0].level == next.value
     && ChainedFrom(joins[0].children, Parent(next.value)))
  }

  /** The includes nested in the question include: topic, inside it unit, inside that course.
      Once a level is filtered on, it and every level between it and the question are joined
      (`includeOthers`). */
  function QuestionIncludes(f: GradeFilter): (joins: seq<Join>)
    ensures ChainedFrom(joins, Some(TopicLevel))
    ensures CourseLevel in Joined(joins) <==> !IsNil(f.courseId)
    ensures UnitLevel in Joined(joins) <==> !IsNil(f.courseId) || !IsNil(f.unitId)
    ensures TopicLevel in Joined(joins) <==>
      !IsNil(f.courseId) || !IsNil(f.unitId) || !IsNil(f.topicId)
  {
    var includeCourse := !IsNil(f.courseId);
    var unitInclude := if includeCourse then [Join(CourseLevel, [])] else [];
    var includeUnit := includeCourse || !IsNil(f.unitId);
    var topicInclude := if includeUnit then [Join(UnitLevel, unitInclude)] else [];
    var includeTopic := includeUnit || !IsNil(f.topicId);
    var joins := if includeTopic then [Join(TopicLevel, topicInclude)] else [];
    assert Joined(unitInclude) == if includeCourse then {CourseLevel} else {};
    assert Joined(topicInclude) == if includeUnit then {UnitLevel} + Joined(unitInclude) else {};
    joins
  }

  /** The column a where entry filters on: the id of the course, unit, topic or question
      reached from the grade's question. */
  datatype WherePath = CoursePath | UnitPath | TopicPath | QuestionPath

  /** The table a where path needs joined; the question itself always is. */
  function PathLevel(path: WherePath): Option<Level> {
    match path
    case CoursePath => Some(CourseLevel)
    case UnitPath => Some(UnitLevel)
    case TopicPath => Some(TopicLevel)
    case QuestionPath => None
  }

  type Where = seq<(WherePath, JsValue)>

  function WhereEntries(f: GradeFilter): Where {
    [(CoursePath, f.courseId), (UnitPath, f.unitId), (TopicPath, f.topicId),
     (QuestionPath, f.questionId)]
  }

  function OmitEntries(entries: Where, drop: JsValue -> bool): (kept: Where)
    ensures forall e :: e in kept <==> e in entries && !drop(e.1)
  {
    if entries == [] then []
    else if drop(entries[0].1) then OmitEntries(entries[1..], drop)
    else [entries[0]] + OmitEntries(entries[1..], drop)
  }

  /** The where clause as written: `omitBy(_.isUndefined)`, which keeps a null filter. */
  function WhereAsWritten(f: GradeFilter): (w: Where)
    ensures forall e :: e in w <==> e in WhereEntries(f) && !e.1.Undefined?
  {
    OmitEntries(WhereEntries(f), IsUndefined)
  }

  /** The where clause with `omitBy(_.isNil)`, matching the count: only set filters remain. */
  function WhereClause(f: GradeFilter): (w: Where)
    ensures forall e :: e in w <==> e in WhereEntries(f) && !IsNil(e.1)
  {
    OmitEntries(WhereEntries(f), IsNil)
  }

  /** A null course filter next to a question filter passes the count, yet the written where
      clause still filters on the course id, a table that is not joined. */
  lemma WhereAsWrittenUsesUnjoinedCourse()
    ensures var f := GradeFilter(Null, Num(5), Undefined, Undefined);
      && SetFilterCount(FilterValues(f)) == 1
      && (CoursePath, Null) in WhereAsWritten(f)
      && CourseLevel !in Joined(QuestionIncludes(f))
  {
    var f := GradeFilter(Null, Num(5), Undefined, Undefined);
    CountIsOneIff(f);
    assert (CoursePath, Null) in WhereEntries(f);
  }

  /** With exactly one filter set, the where clause holds that one filter, and every column
      it filters on belongs to a joined table. */
  lemma WhereOnlyOnJoinedTables(f: GradeFilter)
    requires OneFilterSet(f)
    ensures exists e :: e in WhereClause(f)
    ensures forall e :: e in WhereClause(f) ==>
      !IsNil(e.1) && (PathLevel(e.0).Some? ==> PathLevel(e.0).value in Joined(QuestionIncludes(f)))
    ensures forall e1, e2 :: e1 in WhereClause(f) && e2 in WhereClause(f) ==> e1 == e2
  {
    var entries := WhereEntries(f);
    if !IsNil(f.courseId) {
      assert entries[0] in WhereClause(f);
    } else if !IsNil(f.unitId) {
      assert entries[1] in WhereClause(f);
    } else if !IsNil(f.topicId) {
      assert entries[2] in WhereClause(f);
    } else {
      assert entries[3] in WhereClause(f);
    }
  }

  /** Two drop tests that agree on every value of the entries keep the same entries. */
  lemma {:induction false} OmitEntriesAgree(entries: Where, drop: JsValue -> bool,
                                            drop': JsValue -> bool)
    requires forall i :: 0 <= i < |entries| ==> drop(entries[i].1) == drop'(entries[i].1)
    ensures OmitEntries(entries, drop) == OmitEntries(entries, drop')
  {
    if entries != [] {
      assert forall i :: 0 <= i < |entries[1..]| ==> entries[1..][i] == entries[i + 1];
      OmitEntriesAgree(entries[1..], drop, drop');
    }
  }

  /** No filter is null: what every caller that keeps to the declared `number | undefined`
      filter types passes. */
  predicate NoNullFilter(f: GradeFilter) {
    !f.courseId.Null? && !f.questionId.Null? && !f.topicId.Null? && !f.unitId.Null?
  }

  /** Without a null filter the written where clause is the corrected one; with one filter
      set, `WhereOnlyOnJoinedTables` then applies to it as well. */
  lemma WhereAsWrittenWithoutNull(f: GradeFilter)
    requires NoNullFilter(f)
    ensures WhereAsWritten(f) == WhereClause(f)
  {
    OmitEntriesAgree(WhereEntries(f), IsUndefined, IsNil);
  }

  /** What `getGrades` selects: per grade its id, best score and attempt count, or per
      student (grouped by the user's id and name) the aggregate counts. */
  datatype Projection = PerGrade | PerStudent

  /** The query `getGrades` hands to the store. */
  datatype GradeQuery = GradeQuery(where: Where, questionJoins: seq<Join>, projection: Projection)

  /** `getGrades`: rejects unless exactly one filter is set; otherwise the query filters on
      that one level, joins up to it, and lists grades only for a question filter. */
  function GetGrades(f: GradeFilter): (r: Result<GradeQuery>)
    ensures r.Ok? <==> OneFilterSet(f)
    ensures r.Err? ==> r.error == FilterCount(SetFilterCount(FilterValues(f)))
    ensures r.Err? ==> SetFilterCount(FilterValues(f)) != 1
    ensures r.Ok? ==> (r.value.projection == PerGrade <==> !IsNil(f.questionId))
    ensures r.Ok? ==> r.value.where == WhereAsWritten(f)
    ensures r.Ok? ==> r.value.questionJoins == QuestionIncludes(f)
  {
    CountIsOneIff(f);
    var count := SetFilterCount(FilterValues(f));
    if count != 1 then Err(FilterCount(count))
    else
      var projection := if !IsNil(f.questionId) then PerGrade else PerStudent;
      Ok(GradeQuery(WhereAsWritten(f), QuestionIncludes(f), projection))
  }

  /** The seed `getQuestion` asks for when the student has no grade for the question. */
  const FALLBACK_SEED := 666

  /** The renderer arguments of `getQuestion`: the question's problem path, the seed and the
      caller's form URL; every other argument is not given. */
  function QuestionParameters(path: string, seed: int, formURL: JsValue): (p: ProblemParameters)
    ensures WellTyped(p)
    ensures p.sourceFilePath == Str(path) && p.problemSeed == Num(seed) && p.formURL == formURL
  {
    ProblemParameters(
      sourceFilePath := Str(path), problemSource := Undefined, problemSeed := Num(seed),
      formURL := formURL, baseURL := Undefined, outputformat := Undefined,
      lanugage := Undefined, showHints := Undefined, showSolutions := Undefined,
      permissionLevel := Undefined, problemNumber := Undefined, numCorrect := Undefined,
      numIncorrect := Undefined, processAnswers := Undefined, format := Undefined,
      formData := Undefined, showCorrectAnswers := Undefined)
  }

  /** The renderer is sent exactly one seed: the one given. */
  lemma SeedReachesTheRenderer(p: ProblemParameters, seed: int)
    requires WellTyped(p)
    requires p.problemSeed == Num(seed)
    ensures ValuesUnder(Encoded(MergedFormData(p)), "problemSeed") == [Num(seed)]
  {
    RequestParamAt(p, 2);
    ParamPosted(p, PARAM_NAMES[2], Num(seed));
  }

  /** `getQuestion`: the seed is the student's grade's seed, or 666 without a grade. A
      question that does not exist fails with a TypeError before anything is posted. The
      renderer's data is resolved wrapped as `{ rendererData }`. The question's problem path
      is what the store's question lookup found. */
  method GetQuestion(table: GradeTable, questionPath: Option<string>, userId: int,
                     questionId: int, formURL: JsValue, reply: RendererReply)
    returns (seed: int, posted: seq<Field>, r: Result<JsValue>)
    ensures var key := GradeKey(userId, questionId);
      seed == if key in table.grades then table.grades[key].randomSeed else FALLBACK_SEED
    ensures questionPath.None? ==>
      posted == [] && r == Err(TypeFailure(ReadOfNull("webworkQuestionPath")))
    ensures questionPath.Some? ==>
      var formData := MergedFormData(QuestionParameters(questionPath.value, seed, formURL));
      if AppendRejects(formData) then
        posted == [] && r == Err(TypeFailure(AppendOfNil))
      else
        && posted == Encoded(formData)
        && ValuesUnder(posted, "problemSeed") == [Num(seed)]
        && (reply.Answered? ==> r == Ok(Obj([("rendererData", reply.data)])))
        && (reply.Rejected? ==> r == Err(ClassifyFailure(reply.failure)))
  {
    var key := GradeKey(userId, questionId);
    seed := if key in table.grades then table.grades[key].randomSeed else FALLBACK_SEED;
    if questionPath.None? {
      return seed, [], Err(TypeFailure(ReadOfNull("webworkQuestionPath")));
    }
    var params := QuestionParameters(questionPath.value, seed, formURL);
    var rendererData;
    posted, rendererData := GetProblem(params, reply);
    SeedReachesTheRenderer(params, seed);
    r := match rendererData
      case Ok(data) => Ok(Obj([("rendererData", data)]))
      case Err(e) => Err(e);
  }
}
