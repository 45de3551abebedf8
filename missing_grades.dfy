/** The flattening loop of `findMissingGrades` (src/features/courses/course-controller.ts).
    The store query that returns the students, each with the questions of their enrolled
    courses that still lack a grade, is an input: a list of student rows whose nesting
    (enrollment, course units, unit topics, topic questions) is the query's include tree.
    The loop walks that tree and pushes one (student, question) pair per question, in order. */
module MissingGrades {

  datatype QuestionRow = QuestionRow(id: int)
  datatype TopicRow = TopicRow(questions: seq<QuestionRow>)
  datatype UnitRow = UnitRow(topics: seq<TopicRow>)
  /** A student enrollment row; `units` are the units of its course. */
  datatype EnrollmentRow = EnrollmentRow(units: seq<UnitRow>)
  datatype StudentRow = StudentRow(id: int, enrollments: seq<EnrollmentRow>)

  /** One pushed result: `{ student, question }`. */
  datatype MissingGrade = MissingGrade(student: StudentRow, question: QuestionRow)

  /** f applied to each element in order, the results joined. */
  function Flatten<T>(xs: seq<T>, f: T -> seq<MissingGrade>): seq<MissingGrade>
  {
    if xs == [] then [] else Flatten(xs[..|xs| - 1], f) + f(xs[|xs| - 1])
  }

  function TopicResults(student: StudentRow, topic: TopicRow): seq<MissingGrade>
  {
    Flatten(topic.questions, (q: QuestionRow) => [MissingGrade(student, q)])
  }

  function UnitResults(student: StudentRow, unit: UnitRow): seq<MissingGrade>
  {
    Flatten(unit.topics, (t: TopicRow) => TopicResults(student, t))
  }

  function EnrollmentResults(student: StudentRow, enrollment: EnrollmentRow): seq<MissingGrade>
  {
    Flatten(enrollment.units, (u: UnitRow) => UnitResults(student, u))
  }

  function StudentResults(student: StudentRow): seq<MissingGrade>
  {
    Flatten(student.enrollments, (e: EnrollmentRow) => EnrollmentResults(student, e))
  }

  /** Everything the loop pushes, in the order it pushes it. */
  function MissingResults(students: seq<StudentRow>): seq<MissingGrade>
  {
    Flatten(students, StudentResults)
  }

  /** The question belongs to a topic of a unit of a course the student is enrolled in. */
  predicate Reaches(student: StudentRow, question: QuestionRow)
  {
    exists e, u, t :: e in student.enrollments && u in e.units && t in u.topics
      && question in t.questions
  }

  lemma {:induction false} FlattenMember<T>(xs: seq<T>, f: T -> seq<MissingGrade>, m: MissingGrade)
    ensures m in Flatten(xs, f) <==> exists i :: 0 <= i < |xs| && m in f(xs[i])
  {
    if xs != [] {
      var n := |xs| - 1;
      FlattenMember(xs[..n], f, m);
      if exists i :: 0 <= i < |xs| && m in f(xs[i]) {
        var i :| 0 <= i < |xs| && m in f(xs[i]);
        if i < n {
          assert xs[..n][i] == xs[i];
        }
      }
      if m in Flatten(xs[..n], f) {
        var i :| 0 <= i < n && m in f(xs[..n][i]);
        assert xs[..n][i] == xs[i];
      }
    }
  }

  /** Membership in a flattened list, stated over the elements rather than their indices. */
  lemma FlattenMemberOf<T>(xs: seq<T>, f: T -> seq<MissingGrade>, m: MissingGrade)
    ensures m in Flatten(xs, f) <==> exists x :: x in xs && m in f(x)
  {
    FlattenMember(xs, f, m);
    if exists x :: x in xs && m in f(x) {
      var x :| x in xs && m in f(x);
      var i :| 0 <= i < |xs| && xs[i] == x;
    }
  }

  /** A pair is among the results exactly when its student is one of the rows and its question
      is reached through one of that student's enrollments. */
  lemma MissingResultsMembers(students: seq<StudentRow>, m: MissingGrade)
    ensures m in MissingResults(students) <==> m.student in students && Reaches(m.student, m.question)
  {
    FlattenMemberOf(students, StudentResults, m);
    forall s | s in students
      ensures m in StudentResults(s) <==> m.student == s && Reaches(s, m.question)
    {
      FlattenMemberOf(s.enrollments, (e: EnrollmentRow) => EnrollmentResults(s, e), m);
      forall e | e in s.enrollments
        ensures m in EnrollmentResults(s, e) <==>
          m.student == s && exists u, t :: u in e.units && t in u.topics && m.question in t.questions
      {
        FlattenMemberOf(e.units, (u: UnitRow) => UnitResults(s, u), m);
        forall u | u in e.units
          ensures m in UnitResults(s, u) <==>
            m.student == s && exists t :: t in u.topics && m.question in t.questions
        {
          FlattenMemberOf(u.topics, (t: TopicRow) => TopicResults(s, t), m);
          forall t | t in u.topics
            ensures m in TopicResults(s, t) <==> m.student == s && m.question in t.questions
          {
            FlattenMemberOf(t.questions, (q: QuestionRow) => [MissingGrade(s, q)], m);
          }
        }
      }
    }
  }

  lemma FlattenStep<T>(xs: seq<T>, f: T -> seq<MissingGrade>, i: nat)
    requires i < |xs|
    ensures Flatten(xs[..i + 1], f) == Flatten(xs[..i], f) + f(xs[i])
  {
    assert xs[..i + 1][..i] == xs[..i];
  }

  /** `findMissingGrades` after its query: the nested `forEach` loops that push the results.
      Each `forEach` callback is a method of its own below. */
  method FindMissingGrades(students: seq<StudentRow>) returns (results: seq<MissingGrade>)
    ensures results == MissingResults(students)
  {
    results := [];
    var i := 0;
    while i < |students|
      invariant 0 <= i <= |students|
      invariant results == Flatten(students[..i], StudentResults)
    {
      FlattenStep(students, StudentResults, i);
      results := PushStudent(results, students[i]);
      i := i + 1;
    }
    assert students[..i] == students;
  }

  method PushStudent(results: seq<MissingGrade>, student: StudentRow)
    returns (out: seq<MissingGrade>)
    ensures out == results + StudentResults(student)
  {
    ghost var f := (e: EnrollmentRow) => EnrollmentResults(student, e);
    out := results;
    var j := 0;
    while j < |student.enrollments|
      invariant 0 <= j <= |student.enrollments|
      invariant out == results + Flatten(student.enrollments[..j], f)
    {
      FlattenStep(student.enrollments, f, j);
      out := PushEnrollment(out, student, student.enrollments[j]);
      j := j + 1;
    }
    assert student.enrollments[..j] == student.enrollments;
  }

  method PushEnrollment(results: seq<MissingGrade>, student: StudentRow, enrollment: EnrollmentRow)
    returns (out: seq<MissingGrade>)
    ensures out == results + EnrollmentResults(student, enrollment)
  {
    ghost var f := (u: UnitRow) => UnitResults(student, u);
    out := results;
    var k := 0;
    while k < |enrollment.units|
      invariant 0 <= k <= |enrollment.units|
      invariant out == results + Flatten(enrollment.units[..k], f)
    {
      FlattenStep(enrollment.units, f, k);
      out := PushUnit(out, student, enrollment.units[k]);
      k := k + 1;
    }
    assert enrollment.units[..k] == enrollment.units;
  }

  method PushUnit(results: seq<MissingGrade>, student: StudentRow, unit: UnitRow)
    returns (out: seq<MissingGrade>)
    ensures out == results + UnitResults(student, unit)
  {
    ghost var f := (t: TopicRow) => TopicResults(student, t);
    out := results;
    var l := 0;
    while l < |unit.topics|
      invariant 0 <= l <= |unit.topics|
      invariant out == results + Flatten(unit.topics[..l], f)
    {
      FlattenStep(unit.topics, f, l);
      out := PushTopic(out, student, unit.topics[l]);
      l := l + 1;
    }
    assert unit.topics[..l] == unit.topics;
  }

  method PushTopic(results: seq<MissingGrade>, student: StudentRow, topic: TopicRow)
    returns (out: seq<MissingGrade>)
    ensures out == results + TopicResults(student, topic)
  {
    ghost var f := (q: QuestionRow) => [MissingGrade(student, q)];
    out := results;
    var m := 0;
    while m < |topic.questions|
      invariant 0 <= m <= |topic.questions|
      invariant out == results + Flatten(topic.questions[..m], f)
    {
      FlattenStep(topic.questions, f, m);
      out := out + [MissingGrade(student, topic.questions[m])];
      m := m + 1;
    }
    assert topic.questions[..m] == topic.questions;
  }
}
