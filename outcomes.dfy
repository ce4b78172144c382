/** Failure-carrying results shared by every service of the backend.
    A failure is the HTTP exception kind the service raises together with the
    i18n key (or literal text) of its message, so that the order in which the
    services test their conditions stays observable. */
module Outcomes {

  datatype Option<+T> = None | Some(value: T)

  /** The exception classes the services throw. `InternalError` stands for a
      plain `Error`, a failed save and any other non-HTTP exception, which the
      framework answers with status 500. */
  datatype Kind = NotFound | Forbidden | Unauthorized | Conflict | BadRequest | InternalError

  datatype Failure = Failure(kind: Kind, message: string)

  datatype Result<+T> = Ok(value: T) | Err(failure: Failure) {
    predicate Fails(kind: Kind, message: string) {
      Err? && failure == Failure(kind, message)
    }
  }

  /** A call with no value to return: it passes or raises. */
  datatype Outcome = Pass | Fail(failure: Failure)

  /** JavaScript truthiness of a nullable string column: null and "" are falsy. */
  predicate Truthy(s: Option<string>) {
    s.Some? && s.value != ""
  }
}
