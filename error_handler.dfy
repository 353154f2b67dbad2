/**
 * The last-resort error middleware of the HTTP server (server/index.js). Whatever error reaches it
 * becomes a JSON body `{ error: { message, code } }` with the error's own status. The values read
 * from the error follow JavaScript's `||`: a missing status, or status 0, falls back to 500; a
 * missing or empty code falls back to "INTERNAL_ERROR". In production, and only for status 500,
 * the message is replaced by a generic one. The environment (`NODE_ENV`) is a parameter; the
 * console logging is left out.
 */
module ErrorHandler {
  import opened Wrappers
  import opened ServerDb
  import TemplateService
  import ContactService

  datatype ErrorInfo = ErrorInfo(message: string, code: string)
  datatype ErrorResponse = ErrorResponse(status: int, error: ErrorInfo)

  const GenericMessage: string := "Internal Server Error"
  const DefaultCode: string := "INTERNAL_ERROR"

  predicate IsProduction(env: Option<string>) {
    env == Some("production")
  }

  /** `err.status || 500`. */
  function StatusOf(e: Error): (s: int)
    ensures s != 0
    ensures e.status.Some? && e.status.value != 0 <==> s == e.status.GetOr(0)
    ensures s != 500 ==> e.status == Some(s)
  {
    if e.status.Some? && e.status.value != 0 then e.status.value else 500
  }

  /** `err.code || 'INTERNAL_ERROR'`. */
  function CodeOf(e: Error): (c: string)
    ensures c != ""
    ensures e.code.Some? && e.code.value != "" <==> c == e.code.GetOr("")
    ensures c != DefaultCode ==> e.code == Some(c)
  {
    if e.code.Some? && e.code.value != "" then e.code.value else DefaultCode
  }

  /** The response the middleware sends for `e` when `NODE_ENV` is `env`. */
  function Handle(e: Error, env: Option<string>): (r: ErrorResponse)
    ensures r.status == StatusOf(e) && r.error.code == CodeOf(e)
    ensures r.error.message == e.message || r.error.message == GenericMessage
    ensures r.error.message != e.message ==> IsProduction(env) && r.status == 500
  {
    var status := StatusOf(e);
    ErrorResponse(status, ErrorInfo(if IsProduction(env) && status == 500 then GenericMessage else e.message, CodeOf(e)))
  }

  /** The message is masked exactly for a 500 in production; everywhere else the error's message is sent. */
  lemma MaskedExactlyInProduction(e: Error, env: Option<string>)
    ensures Handle(e, env).error.message == GenericMessage <==> (IsProduction(env) && StatusOf(e) == 500) || e.message == GenericMessage
    ensures !IsProduction(env) ==> Handle(e, env).error.message == e.message
  {
  }

  /** Status and code never depend on the environment. */
  lemma EnvironmentOnlyTouchesMessage(e: Error, env1: Option<string>, env2: Option<string>)
    ensures Handle(e, env1).status == Handle(e, env2).status
    ensures Handle(e, env1).error.code == Handle(e, env2).error.code
  {
  }

  /** The template service's not-found error keeps its 404 and its message in every environment. */
  lemma TemplateNotFoundAnswer(env: Option<string>)
    ensures Handle(TemplateService.NotFound, env) == ErrorResponse(404, ErrorInfo("Template not found", DefaultCode))
  {
  }

  /**
   * A database error carries a code but no status: it becomes a 500 that keeps the database's code,
   * and in production its text is hidden.
   */
  lemma DatabaseErrorAnswer(env: Option<string>)
    ensures var r := Handle(ContactService.UniqueViolation, env);
            && r.status == 500 && r.error.code == "23505"
            && (IsProduction(env) <==> r.error.message == GenericMessage)
  {
  }
}
