/** Error reporting helpers: a message for each HTTP status, the conversion of
    any caught value into an `ApiError`, and a local check of a JWT's expiry. */
module ErrorHandler {
  import opened Base
  import opened Strings

  // The longer messages are written as two literals: the verifier sees the
  // characters of a short literal only.
  const BadRequest := "Solicitud inválida." + " Verifica los datos ingresados."
  const Unauthorized := "No autorizado." + " Por favor, inicia sesión de nuevo."
  const Forbidden := "Acceso denegado." + " No tienes permiso para realizar esta acción."
  const NotFound := "Recurso no encontrado."
  const Conflict := "Conflicto: El usuario o recurso ya existe."
  const Unprocessable := "Datos inválidos." + " Verifica el formato de los campos."
  const ServerError := "Error del servidor. Intenta más tarde."
  const Unavailable := "El servidor no está disponible." + " Intenta más tarde."

  /** The statuses that have a message of their own. */
  predicate IsListed(status: int) {
    status in {400, 401, 403, 404, 409, 422, 500, 502, 503, 504}
  }

  /** The message for an unlisted status. */
  function UnknownMessage(status: int): string {
    "Ocurrió un error desconocido (" + IntToString(status) + ")."
  }

  /** The `switch` of `getErrorMessage`, without the context prefix. */
  function StatusMessage(status: int): string {
    if status == 400 then BadRequest
    else if status == 401 then Unauthorized
    else if status == 403 then Forbidden
    else if status == 404 then NotFound
    else if status == 409 then Conflict
    else if status == 422 then Unprocessable
    else if status == 500 then ServerError
    else if status == 502 || status == 503 || status == 504 then Unavailable
    else UnknownMessage(status)
  }

  /** `getErrorMessage`: the message always ends with the status's own text;
      it is that text alone exactly when the context is absent or empty
      (falsy), and otherwise is the context and ": " before it. */
  function GetErrorMessage(status: int, context: string): (msg: string)
    ensures |StatusMessage(status)| <= |msg| && msg[|msg| - |StatusMessage(status)|..] == StatusMessage(status)
    ensures msg == StatusMessage(status) <==> context == ""
    ensures context != "" ==> |context| < |msg| && msg[..|context|] == context
    ensures context != "" ==>
              |msg| == |context| + 2 + |StatusMessage(status)| && msg[|context|..|msg| - |StatusMessage(status)|] == ": "
  {
    var text := StatusMessage(status);
    if context != "" then
      Separated(context, ": ", text);
      context + ": " + text
    else
      assert "" + text == text;
      text
  }

  /** The three parts of `a + b + c` can be read back. */
  lemma Separated(a: string, b: string, c: string)
    requires b != ""
    ensures var m := a + b + c;
      && |m| == |a| + |b| + |c| && m[..|a|] == a && m[|a|..|m| - |c|] == b && m[|m| - |c|..] == c
      && m != c
  {
  }

  /** The context is recoverable: messages with different contexts differ. */
  lemma ContextIsRecoverable(status: int, c1: string, c2: string)
    requires GetErrorMessage(status, c1) == GetErrorMessage(status, c2)
    ensures c1 == c2
  {
    var t := StatusMessage(status);
    var m := GetErrorMessage(status, c1);
    if c1 != "" && c2 != "" {
      assert c1 + ": " == m[..|m| - |t|] == c2 + ": ";
      assert c1 == (c1 + ": ")[..|c1|];
      assert c2 == (c2 + ": ")[..|c2|];
    }
  }

  /** Listed statuses have pairwise different messages, except 502, 503 and
      504, which share one. */
  lemma ListedMessages(s1: int, s2: int)
    requires IsListed(s1) && IsListed(s2)
    ensures StatusMessage(s1) == StatusMessage(s2) <==> s1 == s2 || (s1 in {502, 503, 504} && s2 in {502, 503, 504})
  {
    ListedInitials();
    assert |ServerError| != |Unavailable|;
  }

  lemma ListedInitials()
    ensures BadRequest[0] == 'S' && Unauthorized[0] == 'N' && Forbidden[0] == 'A' && NotFound[0] == 'R'
    ensures Conflict[0] == 'C' && Unprocessable[0] == 'D' && ServerError[0] == 'E' && Unavailable[0] == 'E'
  {
  }

  /** An unlisted status is reported with its number, so different unlisted
      statuses are told apart, and no listed message is used for one. */
  lemma UnlistedMessages(s1: int, s2: int)
    requires !IsListed(s1) && !IsListed(s2)
    ensures StatusMessage(s1) == StatusMessage(s2) <==> s1 == s2
    ensures forall s :: IsListed(s) ==> StatusMessage(s) != StatusMessage(s1)
  {
    var prefix := "Ocurrió un error desconocido (";
    if StatusMessage(s1) == StatusMessage(s2) {
      var m := StatusMessage(s1);
      assert m[|prefix|..|m| - 2] == IntToString(s1);
      assert StatusMessage(s2)[|prefix|..|m| - 2] == IntToString(s2);
      IntToStringInjective(s1, s2);
    }
    forall s | IsListed(s)
      ensures StatusMessage(s) != StatusMessage(s1)
    {
      // every listed message starts with another letter than 'O'
      assert UnknownMessage(s1)[0] == 'O';
      ListedInitials();
    }
  }

  // ---------------------------------------------------------------- handleAxiosError

  /** `error.response.data`, read for `message` and `error`; a missing or falsy
      field is `""`. */
  datatype ResponseData = ResponseData(message: string, error: string)

  /** `error.response`; a missing or 0 status is `0`. */
  datatype ErrorResponse = ErrorResponse(status: int, data: Option<ResponseData>)

  /** What `handleAxiosError` may be given: an axios error, another `Error`,
      or a value that is not an `Error` at all. */
  datatype ErrorValue =
    | AxiosError(response: Option<ErrorResponse>, message: string)
    | PlainError(message: string)
    | NotAnError

  /** The `code` of an `ApiError`: a status, or the string `'UNKNOWN'`. */
  datatype ErrorCode = Status(status: int) | Unknown

  /** `ApiError`; `details` is absent when the constructor was not given it. */
  datatype ApiError = ApiError(code: ErrorCode, message: string, details: Option<string>)

  const UnknownError := "Error desconocido"

  /** `error.response?.status || 0`. */
  function StatusOf(response: Option<ErrorResponse>): int {
    if response.Some? then response.value.status else 0
  }

  /** `a || b`, for strings, where only `""` is falsy. */
  function Or(a: string, b: string): string {
    if a != "" then a else b
  }

  /** The server's detailed message: its `message`, else its `error`, else the
      axios error's own message. */
  function ServerDetails(response: Option<ErrorResponse>, message: string): string {
    var data := if response.Some? then response.value.data else None;
    if data.Some? then Or(data.value.message, Or(data.value.error, message)) else message
  }

  function HandleAxiosError(error: ErrorValue, context: string): (r: ApiError)
    ensures error.AxiosError? <==> r.code.Status?
    ensures error.AxiosError? ==> r.code == Status(StatusOf(error.response))
    ensures error.AxiosError? ==> r.message == GetErrorMessage(r.code.status, context)
    ensures error.AxiosError? ==> r.details == Some(ServerDetails(error.response, error.message))
    ensures !error.AxiosError? ==> r.details == None
    ensures error.PlainError? ==> r.message == error.message
    ensures error.NotAnError? ==> r.message == UnknownError
  {
    match error
    case AxiosError(response, message) =>
      var status := StatusOf(response);
      ApiError(Status(status), GetErrorMessage(status, context), Some(ServerDetails(response, message)))
    case PlainError(message) => ApiError(Unknown, message, None)
    case NotAnError => ApiError(Unknown, UnknownError, None)
  }

  /** An axios error without a response is reported as status 0, an unknown
      error that names the 0. */
  lemma NoResponseIsStatusZero(message: string, context: string)
    ensures HandleAxiosError(AxiosError(None, message), context)
      == ApiError(Status(0), GetErrorMessage(0, context), Some(message))
    ensures StatusMessage(0) == UnknownMessage(0)
  {
  }

  /** The details are the first non-empty of the server's `message`, the
      server's `error` and the error's own message, and are empty only when all
      three are. */
  lemma DetailsPreferTheServer(status: int, data: ResponseData, message: string, context: string)
    ensures var d := HandleAxiosError(AxiosError(Some(ErrorResponse(status, Some(data))), message), context).details.value;
      && (data.message != "" ==> d == data.message)
      && (data.message == "" && data.error != "" ==> d == data.error)
      && (data.message == "" && data.error == "" ==> d == message)
      && (d == "" <==> data.message == "" && data.error == "" && message == "")
  {
  }

  /** A response without a body, like no response at all, leaves the axios
      error's own message as the details. */
  lemma DetailsWithoutData(response: Option<ErrorResponse>, message: string, context: string)
    requires response.None? || response.value.data.None?
    ensures HandleAxiosError(AxiosError(response, message), context).details == Some(message)
  {
  }

  /** Only axios errors use the context. */
  lemma ContextOnlyForAxiosErrors(error: ErrorValue, c1: string, c2: string)
    requires !error.AxiosError?
    ensures HandleAxiosError(error, c1) == HandleAxiosError(error, c2)
  {
  }

  // ---------------------------------------------------------------- isTokenExpired

  /** The decoded payload of a JWT; `exp` (seconds since the epoch) is `None`
      when it is missing or falsy. */
  datatype JwtPayload = JwtPayload(exp: Option<int>)

  /** `isTokenExpired`. `payload` is what `JSON.parse(atob(...))` makes of the
      middle part, `None` when decoding or parsing throws or gives `null`;
      `nowMs` is `Date.now()`. */
  function IsTokenExpired(token: string, payload: Option<JwtPayload>, nowMs: int): bool {
    if |Split(token, '.')| != 3 then true
    else if payload.None? then true
    else if payload.value.exp.None? || payload.value.exp.value == 0 then false
    else nowMs >= payload.value.exp.value * 1000
  }

  /** The verdict for each shape of token. */
  lemma TokenExpiryCases(token: string, payload: Option<JwtPayload>, nowMs: int)
    ensures Count(token, '.') != 2 ==> IsTokenExpired(token, payload, nowMs)
    ensures Count(token, '.') == 2 && payload.None? ==> IsTokenExpired(token, payload, nowMs)
    ensures Count(token, '.') == 2 && payload.Some? && (payload.value.exp.None? || payload.value.exp.value == 0)
      ==> !IsTokenExpired(token, payload, nowMs)
    ensures Count(token, '.') == 2 && payload.Some? && payload.value.exp.Some? && payload.value.exp.value != 0
      ==> (IsTokenExpired(token, payload, nowMs) <==> nowMs >= payload.value.exp.value * 1000)
  {
  }

  /** Once expired, a token stays expired. */
  lemma ExpiryIsPermanent(token: string, payload: Option<JwtPayload>, t1: int, t2: int)
    requires t1 <= t2 && IsTokenExpired(token, payload, t1)
    ensures IsTokenExpired(token, payload, t2)
  {
  }

  /** A token with three parts and an expiry is valid up to the millisecond
      before it, and expired from that millisecond on. */
  lemma ExpiryBoundary(token: string, exp: int)
    requires Count(token, '.') == 2 && exp != 0
    ensures !IsTokenExpired(token, Some(JwtPayload(Some(exp))), exp * 1000 - 1)
    ensures IsTokenExpired(token, Some(JwtPayload(Some(exp))), exp * 1000)
  {
  }
}
