/** The JSON envelope every API response uses (`ApiResponse` and
    `ApiError` in packages/shared/src/types/api.ts). */
module ApiResponse {
  import opened Wrappers

  datatype ApiError = ApiError(code: string, message: string)

  /** A response: HTTP status, then the envelope's fields. */
  datatype Reply<T> = Reply(status: int, success: bool, data: Option<T>, error: Option<ApiError>, timestamp: int)

  /** A failure response carrying `code` and `message`. */
  function ErrorReply<T>(status: int, code: string, message: string, nowMs: int): (r: Reply<T>)
    ensures !r.success && r.data.None? && r.error == Some(ApiError(code, message)) && r.status == status
  {
    Reply(status, false, None, Some(ApiError(code, message)), nowMs)
  }
}
