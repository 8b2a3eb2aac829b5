/**
 * The response envelopes: `ApiError` (what handlers throw), `ApiResponse`
 * (what they send on success) and the error-handling middleware that turns
 * a thrown value into an HTTP status and a JSON body.
 */
module Envelope {
  import opened Wrappers

  /**
   * An ApiError's `statusCode` is stored exactly as given. Most callers pass
   * a number; the one-argument form `new ApiError("Note not found")` puts a
   * string there.
   */
  datatype StatusCode = Code(n: int) | TextCode(s: string)

  /** `errors`: the default empty array, or a field-path → message object. */
  datatype ErrorDetails = ErrorList(items: seq<string>) | FieldMessages(byPath: map<string, string>)

  /** JSON `null`. */
  datatype Null = Null

  /** An ApiError: `data` is always null and `success` always false. */
  datatype ApiError = ApiError(statusCode: StatusCode, message: string, errors: ErrorDetails)
  {
    const data: Null := Null
    const success: bool := false
  }

  const DefaultErrorMessage: string := "An unexpected error occurred. Please Try again later."

  /** `new ApiError(statusCode, message, errors)`; an omitted argument takes its default. */
  function NewApiError(statusCode: StatusCode, message: Option<string>, errors: Option<ErrorDetails>): (e: ApiError)
    ensures e.statusCode == statusCode
    ensures message.Some? ==> e.message == message.value
    ensures message.None? ==> e.message == DefaultErrorMessage
    ensures errors.Some? ==> e.errors == errors.value
    ensures errors.None? ==> e.errors == ErrorList([])
    ensures !e.success && e.data == Null
  {
    ApiError(statusCode,
             match message case Some(m) => m case None => DefaultErrorMessage,
             match errors case Some(d) => d case None => ErrorList([]))
  }

  /**
   * What a handler throws: an ApiError, or any other exception (a TypeError
   * on a missing object, a Mongoose ValidationError, a JSON SyntaxError),
   * recorded only by its kind.
   */
  datatype Thrown = Raised(error: ApiError) | Unexpected(kind: string)

  /** `throw new ApiError(code, message)`. */
  function Raise(code: int, message: string): (t: Thrown)
    ensures t.Raised? && t.error.statusCode == Code(code) && t.error.message == message
    ensures t.error.errors == ErrorList([])
  {
    Raised(NewApiError(Code(code), Some(message), None))
  }

  /** The handler failed by throwing an ApiError whose status is `code`. */
  predicate FailsWith<T>(r: Result<T, Thrown>, code: int) {
    r.Failure? && r.error.Raised? && r.error.error.statusCode == Code(code)
  }

  /** An ApiResponse: `success` is the string "success", whatever the status code. */
  datatype ApiResponse<T> = ApiResponse(statusCode: int, data: T, message: string)
  {
    const success: string := "success"
  }

  const DefaultResponseMessage: string := "Everything went well"

  /** `new ApiResponse(statusCode, data, message)`. */
  function NewApiResponse<T>(statusCode: int, data: T, message: Option<string>): (r: ApiResponse<T>)
    ensures r.statusCode == statusCode && r.data == data
    ensures message.Some? ==> r.message == message.value
    ensures message.None? ==> r.message == DefaultResponseMessage
    ensures r.success == "success"
  {
    ApiResponse(statusCode, data, match message case Some(m) => m case None => DefaultResponseMessage)
  }

  /** A response's `data` when it carries no document: `{}` or `null`. */
  datatype NoData = EmptyObject | NullData

  /** What a handler produces: a success envelope, or what it threw. */
  type Reply<T> = Result<ApiResponse<T>, Thrown>

  /** `res.status(code).json(new ApiResponse(code, data, message))`. */
  function Respond<T>(code: int, data: T, message: string): (r: Reply<T>)
    ensures r.Success? && r.value.statusCode == code && r.value.data == data && r.value.message == message
  {
    Success(NewApiResponse(code, data, Some(message)))
  }

  /** The two bodies the error handler sends. */
  datatype ErrorBody =
    | ApiErrorBody(success: bool, message: string, errors: ErrorDetails, data: Null)
    | GenericBody(success: bool, message: string)

  datatype ErrorReply = ErrorReply(status: StatusCode, body: ErrorBody)

  const GenericMessage: string := "An unexpected error occurred. Please try again later."

  /** The error-handling middleware. */
  function HandleError(t: Thrown): (r: ErrorReply)
    ensures t.Raised? ==> r.status == t.error.statusCode
    ensures t.Raised? ==> r.body.ApiErrorBody? && r.body.message == t.error.message && r.body.errors == t.error.errors
    ensures t.Unexpected? ==> r.status == Code(500) && r.body.GenericBody?
    ensures !r.body.success
  {
    match t
    case Raised(e) => ErrorReply(e.statusCode, ApiErrorBody(e.success, e.message, e.errors, e.data))
    case Unexpected(_) => ErrorReply(Code(500), GenericBody(false, GenericMessage))
  }

  /** The generic reply is the same for every unexpected error: its cause never reaches the client. */
  lemma GenericReplyHidesCause(a: string, b: string)
    ensures HandleError(Unexpected(a)) == HandleError(Unexpected(b))
    ensures HandleError(Unexpected(a)).body.message == GenericMessage
  {
  }
}
