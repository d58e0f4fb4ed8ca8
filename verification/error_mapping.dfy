/**
 * The older, stateless error helper (src/utils/errorHandler.js): it maps whatever
 * was thrown to a `{ message, code, statusCode }` triple, and builds coded errors.
 *
 * The message keys it consults (`MESSAGES.VALIDATION_ERROR`, `MESSAGES.NETWORK_ERROR`,
 * `MESSAGES.GENERIC_ERROR`) do not exist in src/constants/index.js, so the literal
 * fallbacks after `||` are always the ones used.
 */
module ErrorMapping {
  import opened Wrappers

  const VALIDATION_ERROR := "VALIDATION_ERROR"
  const AUTH_ERROR := "AUTH_ERROR"
  const NETWORK_ERROR := "NETWORK_ERROR"
  const GENERIC_ERROR := "GENERIC_ERROR"

  const INVALID_DATA_TEXT := "Dữ liệu không hợp lệ"
  const NETWORK_TEXT := "Lỗi kết nối mạng"
  const GENERIC_TEXT := "Đã xảy ra lỗi không xác định"

  /** This file's own `AppError` class: a message, a code and a status. */
  datatype AppError = AppError(message: string, code: string, statusCode: int)

  /**
   * What reaches `handleError`: one of its `AppError`s, any other value whose
   * `name` property is read (`None` when it has none), or `null`/`undefined`,
   * on which reading `name` throws.
   */
  datatype Thrown = App(error: AppError) | Other(name: Option<string>) | Nullish

  datatype Reported = Reported(message: string, code: string, statusCode: int)

  /** `handleError(error)`; `None` when reading `error.name` throws a `TypeError`. */
  function HandleError(thrown: Thrown): (r: Option<Reported>)
    ensures r.None? <==> thrown.Nullish?
    ensures thrown.App? ==> r == Some(Reported(thrown.error.message, thrown.error.code, thrown.error.statusCode))
    ensures thrown.Other? && thrown.name == Some("ValidationError") ==>
      r == Some(Reported(INVALID_DATA_TEXT, VALIDATION_ERROR, 400))
    ensures thrown.Other? && thrown.name == Some("NetworkError") ==>
      r == Some(Reported(NETWORK_TEXT, NETWORK_ERROR, 500))
    ensures thrown.Other? && thrown.name != Some("ValidationError") && thrown.name != Some("NetworkError") ==>
      r == Some(Reported(GENERIC_TEXT, GENERIC_ERROR, 500))
  {
    match thrown
    case App(e) => Some(Reported(e.message, e.code, e.statusCode))
    case Other(name) =>
      if name == Some("ValidationError") then Some(Reported(INVALID_DATA_TEXT, VALIDATION_ERROR, 400))
      else if name == Some("NetworkError") then Some(Reported(NETWORK_TEXT, NETWORK_ERROR, 500))
      else Some(Reported(GENERIC_TEXT, GENERIC_ERROR, 500))
    case Nullish => None
  }

  /** `createValidationError` */
  function CreateValidationError(message: string): (e: AppError)
    ensures e.message == message && e.code == VALIDATION_ERROR && e.statusCode == 400
  {
    AppError(message, VALIDATION_ERROR, 400)
  }

  /** `createAuthError` */
  function CreateAuthError(message: string): (e: AppError)
    ensures e.message == message && e.code == AUTH_ERROR && e.statusCode == 401
  {
    AppError(message, AUTH_ERROR, 401)
  }

  /** `createNetworkError` */
  function CreateNetworkError(message: string): (e: AppError)
    ensures e.message == message && e.code == NETWORK_ERROR && e.statusCode == 500
  {
    AppError(message, NETWORK_ERROR, 500)
  }

  /** Round trip: an error built by a factory is reported with exactly what it was built from. */
  lemma FactoriesRoundTrip(message: string)
    ensures HandleError(App(CreateValidationError(message))) == Some(Reported(message, VALIDATION_ERROR, 400))
    ensures HandleError(App(CreateAuthError(message))) == Some(Reported(message, AUTH_ERROR, 401))
    ensures HandleError(App(CreateNetworkError(message))) == Some(Reported(message, NETWORK_ERROR, 500))
  {
  }

  /** Anything other than an `AppError` is reported with a fixed text, never its own message. */
  lemma ForeignReportsFixedText(thrown: Thrown)
    requires thrown.Other?
    ensures HandleError(thrown).Some?
    ensures HandleError(thrown).value.message in {INVALID_DATA_TEXT, NETWORK_TEXT, GENERIC_TEXT}
    ensures HandleError(thrown).value.statusCode == (if thrown.name == Some("ValidationError") then 400 else 500)
  {
  }
}
