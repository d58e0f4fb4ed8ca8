/**
 * The application error handler (src/lib/errorHandler.js): typed application
 * errors, the conversion of anything thrown into one, the message shown to the user
 * and the bounded in-memory error log, newest entry first.
 *
 * Error ids and timestamps come from the clock and a random source; they are
 * parameters here.
 */
module ErrorHandler {
  import opened Wrappers

  const VALIDATION_ERROR := "VALIDATION_ERROR"
  const AUTH_ERROR := "AUTH_ERROR"
  const NETWORK_ERROR := "NETWORK_ERROR"
  const STORAGE_ERROR := "STORAGE_ERROR"
  const FILE_ERROR := "FILE_ERROR"
  const GENERIC_ERROR := "GENERIC_ERROR"

  const GENERIC_TEXT := "Đã xảy ra lỗi không xác định"
  const LOGIN_FAILED_TEXT := "Tên đăng nhập hoặc mật khẩu không đúng"
  const NETWORK_TEXT := "Lỗi kết nối mạng"
  const FILE_TYPE_TEXT := "Định dạng file không hợp lệ"
  const STORAGE_TEXT := "Lỗi lưu trữ dữ liệu"

  /** `maxLogSize` */
  const MAX_LOG := 100

  /** A value in an error's `details`; `Null` is `null`. */
  datatype Detail = Null | Text(text: string) | Number(n: int) | Object(fields: map<string, string>)

  /**
   * An `AppError`. Every subclass keeps the name `AppError`, since the base
   * constructor assigns the name after the subclass's `super` call.
   */
  datatype AppError = AppError(message: string, code: string, statusCode: int, details: map<string, Detail>, timestamp: string)

  function OrNull(v: Option<string>): Detail {
    if v.Some? then Text(v.value) else Null
  }

  function NumberOrNull(v: Option<int>): Detail {
    if v.Some? then Number(v.value) else Null
  }

  // ---------------------------------------------------------------------------
  // Subclasses and their factory methods
  // ---------------------------------------------------------------------------

  function ValidationError(message: string, field: Option<string>, value: Option<string>, now: string): (e: AppError)
    ensures e.message == message && e.code == VALIDATION_ERROR && e.statusCode == 400
    ensures e.details.Keys == {"field", "value"}
    ensures e.details["field"] == OrNull(field) && e.details["value"] == OrNull(value)
  {
    AppError(message, VALIDATION_ERROR, 400, map["field" := OrNull(field), "value" := OrNull(value)], now)
  }

  function AuthError(message: string, action: Option<string>, now: string): (e: AppError)
    ensures e.message == message && e.code == AUTH_ERROR && e.statusCode == 401
    ensures e.details.Keys == {"action"} && e.details["action"] == OrNull(action)
  {
    AppError(message, AUTH_ERROR, 401, map["action" := OrNull(action)], now)
  }

  function NetworkError(message: string, url: Option<string>, httpMethod: Option<string>, now: string): (e: AppError)
    ensures e.message == message && e.code == NETWORK_ERROR && e.statusCode == 500
    ensures e.details.Keys == {"url", "method"}
    ensures e.details["url"] == OrNull(url) && e.details["method"] == OrNull(httpMethod)
  {
    AppError(message, NETWORK_ERROR, 500, map["url" := OrNull(url), "method" := OrNull(httpMethod)], now)
  }

  function FileError(message: string, fileName: Option<string>, fileSize: Option<int>, now: string): (e: AppError)
    ensures e.message == message && e.code == FILE_ERROR && e.statusCode == 400
    ensures e.details.Keys == {"fileName", "fileSize"}
    ensures e.details["fileName"] == OrNull(fileName) && e.details["fileSize"] == NumberOrNull(fileSize)
  {
    AppError(message, FILE_ERROR, 400, map["fileName" := OrNull(fileName), "fileSize" := NumberOrNull(fileSize)], now)
  }

  function StorageError(message: string, key: Option<string>, now: string): (e: AppError)
    ensures e.message == message && e.code == STORAGE_ERROR && e.statusCode == 500
    ensures e.details.Keys == {"key"} && e.details["key"] == OrNull(key)
  {
    AppError(message, STORAGE_ERROR, 500, map["key" := OrNull(key)], now)
  }

  /** The status each of the five typed errors carries: 400 for a client fault, else 401 or 500. */
  lemma SubclassStatuses(message: string, now: string)
    ensures ValidationError(message, None, None, now).statusCode == FileError(message, None, None, now).statusCode == 400
    ensures AuthError(message, None, now).statusCode == 401
    ensures NetworkError(message, None, None, now).statusCode == StorageError(message, None, now).statusCode == 500
    ensures ValidationError(message, None, None, now).code != FileError(message, None, None, now).code
  {
  }

  // ---------------------------------------------------------------------------
  // Converting what was thrown
  // ---------------------------------------------------------------------------

  /**
   * What reaches `handleError`: an `AppError`, another `Error` (its `name` and
   * `message`), or any other value (its `String(...)` rendering).
   */
  datatype Thrown = App(error: AppError) | Native(name: string, message: string) | NonError(text: string)

  /** `getErrorCode`: only the names `ValidationError` and `NetworkError` get their own code. */
  function ErrorCode(name: string): (code: string)
    ensures name == "ValidationError" <==> code == VALIDATION_ERROR
    ensures name == "NetworkError" <==> code == NETWORK_ERROR
    ensures code in {VALIDATION_ERROR, NETWORK_ERROR, GENERIC_ERROR}
  {
    if name == "ValidationError" then VALIDATION_ERROR
    else if name == "NetworkError" then NETWORK_ERROR
    else GENERIC_ERROR
  }

  /** The `AppError` `handleError` works with; `context` is the caller's context object. */
  function Process(thrown: Thrown, context: map<string, string>, now: string): (e: AppError)
    ensures thrown.App? ==> e == thrown.error
    ensures thrown.Native? ==>
      && e.message == thrown.message && e.code == ErrorCode(thrown.name) && e.statusCode == 500
      && e.details == map["originalError" := Text(thrown.name), "context" := Object(context)]
    ensures thrown.NonError? ==>
      && e.message == thrown.text && e.code == GENERIC_ERROR && e.statusCode == 500
      && e.details == map["context" := Object(context)]
  {
    match thrown
    case App(error) => error
    case Native(name, message) =>
      AppError(message, ErrorCode(name), 500, map["originalError" := Text(name), "context" := Object(context)], now)
    case NonError(text) => AppError(text, GENERIC_ERROR, 500, map["context" := Object(context)], now)
  }

  /**
   * `getUserFriendlyMessage`: validation, auth and file errors show their own
   * message unless it is empty; network and storage errors always show fixed text;
   * any other code shows the generic text.
   */
  function FriendlyMessage(e: AppError): (m: string)
    ensures e.code in {VALIDATION_ERROR, AUTH_ERROR, FILE_ERROR} && e.message != "" ==> m == e.message
    ensures e.code == VALIDATION_ERROR && e.message == "" ==> m == GENERIC_TEXT
    ensures e.code == AUTH_ERROR && e.message == "" ==> m == LOGIN_FAILED_TEXT
    ensures e.code == FILE_ERROR && e.message == "" ==> m == FILE_TYPE_TEXT
    ensures e.code == NETWORK_ERROR ==> m == NETWORK_TEXT
    ensures e.code == STORAGE_ERROR ==> m == STORAGE_TEXT
    ensures e.code !in {VALIDATION_ERROR, AUTH_ERROR, FILE_ERROR, NETWORK_ERROR, STORAGE_ERROR} ==> m == GENERIC_TEXT
  {
    if e.code == VALIDATION_ERROR then (if e.message == "" then GENERIC_TEXT else e.message)
    else if e.code == AUTH_ERROR then (if e.message == "" then LOGIN_FAILED_TEXT else e.message)
    else if e.code == NETWORK_ERROR then NETWORK_TEXT
    else if e.code == FILE_ERROR then (if e.message == "" then FILE_TYPE_TEXT else e.message)
    else if e.code == STORAGE_ERROR then STORAGE_TEXT
    else GENERIC_TEXT
  }

  /** The user never sees an empty message. */
  lemma FriendlyMessageNonEmpty(e: AppError)
    ensures FriendlyMessage(e) != ""
  {
  }

  /** Which text the user sees depends only on the code and the message, never on details or time. */
  lemma FriendlyMessageIgnoresDetails(e: AppError, details: map<string, Detail>, timestamp: string, statusCode: int)
    ensures FriendlyMessage(e.(details := details, timestamp := timestamp, statusCode := statusCode)) == FriendlyMessage(e)
  {
  }

  // ---------------------------------------------------------------------------
  // The log
  // ---------------------------------------------------------------------------

  /** A log entry: the error's `toJSON()` plus a generated id. */
  datatype Entry = Entry(name: string, message: string, code: string, statusCode: int,
    details: map<string, Detail>, timestamp: string, id: string)

  function ToEntry(e: AppError, id: string): (r: Entry)
    ensures r.name == "AppError" && r.id == id
    ensures r.message == e.message && r.code == e.code && r.statusCode == e.statusCode
    ensures r.details == e.details && r.timestamp == e.timestamp
  {
    Entry("AppError", e.message, e.code, e.statusCode, e.details, e.timestamp, id)
  }

  /**
   * `logError`: the entry goes to the front, and the log is cut back to its first
   * `MAX_LOG` entries when longer.
   */
  function LogError(log: seq<Entry>, entry: Entry): (r: seq<Entry>)
    ensures |r| == if |log| + 1 > MAX_LOG then MAX_LOG else |log| + 1
    ensures r[0] == entry
    ensures forall i :: 1 <= i < |r| ==> r[i] == log[i - 1]
  {
    var grown := [entry] + log;
    if |grown| > MAX_LOG then grown[..MAX_LOG] else grown
  }

  /** The log of a fresh handler after logging `entries` in order. */
  function LogAll(entries: seq<Entry>): (r: seq<Entry>)
    decreases |entries|
  {
    if entries == [] then []
    else LogError(LogAll(entries[..|entries| - 1]), entries[|entries| - 1])
  }

  /**
   * The log holds the last `MAX_LOG` entries logged (all of them when fewer),
   * newest first.
   */
  lemma {:induction false} LogKeepsNewest(entries: seq<Entry>)
    ensures |LogAll(entries)| == if |entries| > MAX_LOG then MAX_LOG else |entries|
    ensures forall i :: 0 <= i < |LogAll(entries)| ==> LogAll(entries)[i] == entries[|entries| - 1 - i]
    decreases |entries|
  {
    if entries != [] {
      var init := entries[..|entries| - 1];
      LogKeepsNewest(init);
      var r := LogAll(entries);
      forall i | 0 <= i < |r| ensures r[i] == entries[|entries| - 1 - i] {
        if i > 0 {
          assert r[i] == LogAll(init)[i - 1];
          assert init[|init| - 1 - (i - 1)] == entries[|entries| - 1 - i];
        }
      }
    }
  }

  /** `getErrorLog` returns a copy: the same entries in the same order. */
  function GetErrorLog(log: seq<Entry>): (r: seq<Entry>)
    ensures |r| == |log| && forall i :: 0 <= i < |r| ==> r[i] == log[i]
  {
    log[..]
  }

  /** `clearErrorLog` */
  function ClearErrorLog(log: seq<Entry>): (r: seq<Entry>)
    ensures r == []
  {
    []
  }

  // ---------------------------------------------------------------------------
  // handleError
  // ---------------------------------------------------------------------------

  /** What `handleError` returns to the caller. */
  datatype UserError = UserError(message: string, code: string, statusCode: int, timestamp: string, id: string)

  /**
   * `handleError(error, context)`: the processed error is logged under `logId`
   * and reported to the caller under `userId` (two separate random ids).
   */
  function HandleError(log: seq<Entry>, thrown: Thrown, context: map<string, string>, now: string,
                       logId: string, userId: string): (r: (seq<Entry>, UserError))
    ensures |r.0| == if |log| + 1 > MAX_LOG then MAX_LOG else |log| + 1
    ensures r.0[0] == ToEntry(Process(thrown, context, now), logId)
    ensures forall i :: 1 <= i < |r.0| ==> r.0[i] == log[i - 1]
    ensures r.1.message == FriendlyMessage(Process(thrown, context, now)) && r.1.id == userId
    ensures r.1.code == r.0[0].code && r.1.statusCode == r.0[0].statusCode && r.1.timestamp == r.0[0].timestamp
  {
    var e := Process(thrown, context, now);
    (LogError(log, ToEntry(e, logId)), UserError(FriendlyMessage(e), e.code, e.statusCode, e.timestamp, userId))
  }

  /** The user's report and the newest log entry agree on the code and status. */
  lemma ReportMatchesLog(log: seq<Entry>, thrown: Thrown, context: map<string, string>, now: string,
                         logId: string, userId: string)
    ensures var (l, u) := HandleError(log, thrown, context, now, logId, userId);
      l[0].code == u.code && l[0].statusCode == u.statusCode && l[0].timestamp == u.timestamp
  {
  }

  /** Anything that is not an `AppError` is reported with status 500. */
  lemma ForeignErrorsAre500(log: seq<Entry>, thrown: Thrown, context: map<string, string>, now: string,
                            logId: string, userId: string)
    requires !thrown.App?
    ensures HandleError(log, thrown, context, now, logId, userId).1.statusCode == 500
  {
  }

  /** A handled validation error keeps its 400 and shows its own message when it has one. */
  lemma HandledValidationError(log: seq<Entry>, message: string, now: string, logId: string, userId: string)
    requires message != ""
    ensures var u := HandleError(log, App(ValidationError(message, None, None, now)), map[], now, logId, userId).1;
      u.message == message && u.code == VALIDATION_ERROR && u.statusCode == 400
  {
  }

  /** A network error's own message is never shown, whatever was thrown. */
  lemma NetworkMessageHidden(log: seq<Entry>, message: string, now: string, logId: string, userId: string)
    ensures HandleError(log, Native("NetworkError", message), map[], now, logId, userId).1.message == NETWORK_TEXT
    ensures HandleError(log, App(NetworkError(message, None, None, now)), map[], now, logId, userId).1.message == NETWORK_TEXT
  {
  }
}
