/** Outcomes shared by the course controller and the renderer helper: optional values,
    results, the errors the persistence store and the renderer raise, and the domain errors
    (NotFoundError, AlreadyExistsError, WrappedError) the controller throws. */
module Outcomes {

  datatype Option<+T> = None | Some(value: T)

  /** A promise that resolved with a value or rejected with an error. */
  datatype Result<+T> = Ok(value: T) | Err(error: Error)

  /** The named constraints of the store whose violation the controller recognises, one per
      constant of the models' `constraints` tables; `Unlisted` is any other constraint name. */
  datatype Constraint =
    | UniqueCourseCode | ForeignKeyCurriculum
    | UniqueNamePerCourse | UniqueOrderPerCourse | ForeignKeyCourse
    | UniqueNamePerUnit | UniqueOrderPerUnit | ForeignKeyUnit | ForeignKeyTopicType
    | UniqueOrderPerTopic | ForeignKeyTopic
    | UniqueUserPerCourse
    | Unlisted(name: string)

  /** An error raised by the store: a UniqueConstraintError or a ForeignKeyConstraintError
      naming the violated constraint, or any other failure. */
  datatype DbError =
    | UniqueViolation(constraint: Constraint)
    | ForeignKeyViolation(constraint: Constraint)
    | OtherDbError

  /** The response an HTTP error came with: its status and its body as text. */
  datatype HttpResponse = HttpResponse(status: int, data: string)

  /** A failure of the renderer call: an axios error (with the response, if the server
      answered at all) or any other application error. */
  datatype RendererFailure =
    | HttpFailure(response: Option<HttpResponse>)
    | ApplicationFailure

  /** The original error a WrappedError carries. */
  datatype Cause = DbCause(db: DbError) | RendererCause(failure: RendererFailure)

  /** What a TypeError the runtime raises was about. Its message text differs between
      runtime versions, so only the failed operation is recorded. */
  datatype TypeFault =
    | ReadOfNull(property: string)
    | AppendOfNil

  /** What an operation throws. `FilterCount(found)` is the plain error "One filter must be
      set but found <found>"; `TypeFailure` is a TypeError no handler catches; `StoreFailure`
      is a store error that propagates untranslated. */
  datatype Error =
    | NotFound(message: string)
    | AlreadyExists(message: string)
    | Wrapped(message: string, cause: Cause)
    | FilterCount(found: nat)
    | TypeFailure(fault: TypeFault)
    | StoreFailure(db: DbError)
}
