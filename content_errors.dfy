/** How the course controller's create and update operations translate a store error into
    a domain error (the `catch` blocks of createCourse, createUnit, createTopic, updateTopic,
    updateUnit, createQuestion and createStudentEnrollment). A recognised unique-constraint
    violation becomes AlreadyExistsError, a recognised foreign-key violation NotFoundError,
    and every other error, an unrecognised constraint name included, a WrappedError that
    carries the original error. */
module ContentErrors {
  import opened Outcomes

  const UNKNOWN_ERROR := "Unknown error occurred"

  function Unknown(e: DbError): Error {
    Wrapped(UNKNOWN_ERROR, DbCause(e))
  }

  function CreateCourseFailure(e: DbError): (r: Error)
    ensures r.AlreadyExists? <==> e == UniqueViolation(UniqueCourseCode)
    ensures r.NotFound? <==> e == ForeignKeyViolation(ForeignKeyCurriculum)
    ensures r.AlreadyExists? || r.NotFound? || r == Unknown(e)
  {
    match e
    case UniqueViolation(UniqueCourseCode) =>
      AlreadyExists("A course already exists with this course code")
    case ForeignKeyViolation(ForeignKeyCurriculum) =>
      NotFound("Could not create the course since the given curriculum does not exist")
    case _ => Unknown(e)
  }

  function CreateUnitFailure(e: DbError): (r: Error)
    ensures r.AlreadyExists? <==>
      e == UniqueViolation(UniqueNamePerCourse) || e == UniqueViolation(UniqueOrderPerCourse)
    ensures r.NotFound? <==> e == ForeignKeyViolation(ForeignKeyCourse)
    ensures r.AlreadyExists? || r.NotFound? || r == Unknown(e)
  {
    match e
    case UniqueViolation(UniqueNamePerCourse) =>
      AlreadyExists("A unit with that name already exists within this course")
    case UniqueViolation(UniqueOrderPerCourse) =>
      AlreadyExists("A unit already exists with this order")
    case ForeignKeyViolation(ForeignKeyCourse) =>
      NotFound("The given course was not found to create the unit")
    case _ => Unknown(e)
  }

  function CreateTopicFailure(e: DbError): (r: Error)
    ensures r.AlreadyExists? <==>
      e == UniqueViolation(UniqueNamePerUnit) || e == UniqueViolation(UniqueOrderPerUnit)
    ensures r.NotFound? <==>
      e == ForeignKeyViolation(ForeignKeyUnit) || e == ForeignKeyViolation(ForeignKeyTopicType)
    ensures r.AlreadyExists? || r.NotFound? || r == Unknown(e)
  {
    match e
    case UniqueViolation(UniqueNamePerUnit) =>
      AlreadyExists("A topic with that name already exists within this unit")
    case UniqueViolation(UniqueOrderPerUnit) =>
      AlreadyExists("A topic already exists with this unit order")
    case ForeignKeyViolation(ForeignKeyUnit) =>
      NotFound("Given unit id")
    case ForeignKeyViolation(ForeignKeyTopicType) =>
      NotFound("Invalid topic type provided")
    case _ => Unknown(e)
  }

  /** updateTopic recognises only the unique constraints: no update raises NotFoundError. */
  function UpdateTopicFailure(e: DbError): (r: Error)
    ensures r.AlreadyExists? <==>
      e == UniqueViolation(UniqueNamePerUnit) || e == UniqueViolation(UniqueOrderPerUnit)
    ensures r.AlreadyExists? || r == Unknown(e)
  {
    match e
    case UniqueViolation(UniqueNamePerUnit) =>
      AlreadyExists("A topic with that name already exists within this unit")
    case UniqueViolation(UniqueOrderPerUnit) =>
      AlreadyExists("A topic already exists with this unit order")
    case _ => Unknown(e)
  }

  /** updateUnit recognises only the unique constraints: no update raises NotFoundError. */
  function UpdateUnitFailure(e: DbError): (r: Error)
    ensures r.AlreadyExists? <==>
      e == UniqueViolation(UniqueNamePerCourse) || e == UniqueViolation(UniqueOrderPerCourse)
    ensures r.AlreadyExists? || r == Unknown(e)
  {
    match e
    case UniqueViolation(UniqueNamePerCourse) =>
      AlreadyExists("A unit with that name already exists within this course")
    case UniqueViolation(UniqueOrderPerCourse) =>
      AlreadyExists("A unit already exists with this order")
    case _ => Unknown(e)
  }

  function CreateQuestionFailure(e: DbError): (r: Error)
    ensures r.AlreadyExists? <==> e == UniqueViolation(UniqueOrderPerTopic)
    ensures r.NotFound? <==> e == ForeignKeyViolation(ForeignKeyTopic)
    ensures r.AlreadyExists? || r.NotFound? || r == Unknown(e)
  {
    match e
    case UniqueViolation(UniqueOrderPerTopic) =>
      AlreadyExists("A question with this topic order already exists")
    case ForeignKeyViolation(ForeignKeyTopic) =>
      NotFound("Could not create the question because the given topic does not exist")
    case _ => Unknown(e)
  }

  /** createStudentEnrollment turns EVERY foreign-key violation into NotFoundError, whatever
      constraint it names. */
  function CreateEnrollmentFailure(e: DbError): (r: Error)
    ensures r.NotFound? <==> e.ForeignKeyViolation?
    ensures r.AlreadyExists? <==> e == UniqueViolation(UniqueUserPerCourse)
    ensures r.AlreadyExists? || r.NotFound? || r == Unknown(e)
  {
    match e
    case ForeignKeyViolation(_) => NotFound("User or course was not found")
    case UniqueViolation(UniqueUserPerCourse) =>
      AlreadyExists("This user is already enrolled in this course")
    case _ => Unknown(e)
  }

  /** An update of a unit or topic answers a store error exactly as the matching create does,
      except for the foreign-key violations that only the create recognises. */
  lemma UpdateAgreesWithCreate(e: DbError)
    ensures !e.ForeignKeyViolation? ==> UpdateUnitFailure(e) == CreateUnitFailure(e)
    ensures !e.ForeignKeyViolation? ==> UpdateTopicFailure(e) == CreateTopicFailure(e)
    ensures e.ForeignKeyViolation? ==> UpdateUnitFailure(e) == Unknown(e)
    ensures e.ForeignKeyViolation? ==> UpdateTopicFailure(e) == Unknown(e)
  {
  }

  /** No translation confuses the two kinds of violation, and every unrecognised error keeps
      the original store error as its cause. */
  lemma TranslationsRespectErrorKind(e: DbError)
    ensures CreateCourseFailure(e).AlreadyExists? || CreateUnitFailure(e).AlreadyExists?
            || CreateTopicFailure(e).AlreadyExists? || CreateQuestionFailure(e).AlreadyExists?
            || CreateEnrollmentFailure(e).AlreadyExists?
            ==> e.UniqueViolation?
    ensures CreateCourseFailure(e).NotFound? || CreateUnitFailure(e).NotFound?
            || CreateTopicFailure(e).NotFound? || CreateQuestionFailure(e).NotFound?
            || CreateEnrollmentFailure(e).NotFound?
            ==> e.ForeignKeyViolation?
    ensures e.UniqueViolation? && e.constraint.Unlisted? ==>
      CreateCourseFailure(e) == CreateUnitFailure(e) == CreateTopicFailure(e)
      == UpdateTopicFailure(e) == UpdateUnitFailure(e) == CreateQuestionFailure(e)
      == CreateEnrollmentFailure(e) == Unknown(e)
  {
  }
}
