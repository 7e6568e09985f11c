/** `stark_assert` and the exception it raises: a failed check becomes a
    `StarkException` that carries an error code and a message. */
module ErrorHandling {
  import opened Wrappers

  /** A member of an `ErrorCode` enum, known by its name. */
  datatype ErrorCode = ErrorCode(name: string)

  const INVALID_CONTRACT_DEFINITION := ErrorCode("INVALID_CONTRACT_DEFINITION")
  const SECURITY_ERROR := ErrorCode("SECURITY_ERROR")

  datatype StarkException = StarkException(code: ErrorCode, message: string)

  /** `stark_assert(condition, code=code, message=message)` */
  function StarkAssert(condition: bool, code: ErrorCode, message: string): (r: Outcome<StarkException>)
    ensures r.Pass? <==> condition
    ensures r.Fail? ==> r.error.code == code && r.error.message == message
  {
    if condition then Pass else Fail(StarkException(code, message))
  }
}
