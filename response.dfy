/**
 * The uniform response envelope every endpoint answers with
 * (src/utils/response.utils.ts). The transport status is 200 in every
 * helper; the outcome lives in `errorCode`.
 */
module Response {
  import opened Wrappers

  /** `ApiResponse<T>`; `data` is `null` on every error. */
  datatype ApiResponse<T> = ApiResponse(status: int, errorCode: int, message: string, data: Option<T>)
  {
    predicate IsSuccess() { errorCode == CodeSuccess }
  }

  // The `ErrorCode` enumeration.
  const CodeSuccess := 0
  const CodeUserNotExist := 101
  const CodeInvalidPassword := 102
  const CodeUserDisabled := 103
  const CodeTokenGenerateFailed := 104
  const CodeServerError := 500
  const CodeUnauthorized := 401
  const CodeForbidden := 403
  const CodeNotFound := 404
  const CodeValidationError := 422
  const CodeUserAlreadyExist := 409

  /** The error codes the `errors.*` helpers use. */
  const ErrorHelperCodes: seq<int> := [CodeUserNotExist, CodeUserAlreadyExist, CodeInvalidPassword, CodeUserDisabled,
    CodeTokenGenerateFailed, CodeServerError, CodeUnauthorized, CodeForbidden, CodeNotFound, CodeValidationError]

  /** `success(data, message = '操作成功')`. */
  function Success<T>(data: T, message: string := "操作成功"): (r: ApiResponse<T>)
    ensures r.IsSuccess() && r.status == 200
    ensures r.data == Some(data) && r.message == message
  {
    ApiResponse(200, CodeSuccess, message, Some(data))
  }

  /** `error(errorCode, message, status = 200)`. */
  function Error<T>(errorCode: int, message: string, status: int := 200): (r: ApiResponse<T>)
    ensures r.data == None && r.status == status
    ensures r.errorCode == errorCode && r.message == message
  {
    ApiResponse(status, errorCode, message, None)
  }

  // The `errors.*` shortcuts, each with its default message.

  function UserNotExist<T>(message: string := "用户不存在"): ApiResponse<T> { Error(CodeUserNotExist, message) }
  function UserAlreadyExist<T>(message: string := "用户已存在"): ApiResponse<T> { Error(CodeUserAlreadyExist, message) }
  function InvalidPassword<T>(message: string := "密码错误"): ApiResponse<T> { Error(CodeInvalidPassword, message) }
  function UserDisabled<T>(message: string := "用户账号已被禁用"): ApiResponse<T> { Error(CodeUserDisabled, message) }
  function TokenGenerateFailed<T>(message: string := "生成认证令牌失败"): ApiResponse<T> { Error(CodeTokenGenerateFailed, message) }
  function ServerError<T>(message: string := "服务器内部错误"): ApiResponse<T> { Error(CodeServerError, message) }
  function Unauthorized<T>(message: string := "未授权访问"): ApiResponse<T> { Error(CodeUnauthorized, message) }
  function Forbidden<T>(message: string := "禁止访问"): ApiResponse<T> { Error(CodeForbidden, message) }
  function NotFound<T>(message: string := "资源不存在"): ApiResponse<T> { Error(CodeNotFound, message) }
  function ValidationError<T>(message: string := "数据验证错误"): ApiResponse<T> { Error(CodeValidationError, message) }

  /** The helper `errors.<name>` applied to `message`, by its position in `ErrorHelperCodes`. */
  function ErrorHelper<T>(k: nat, message: string): ApiResponse<T>
    requires k < |ErrorHelperCodes|
  {
    match k
    case 0 => UserNotExist(message)
    case 1 => UserAlreadyExist(message)
    case 2 => InvalidPassword(message)
    case 3 => UserDisabled(message)
    case 4 => TokenGenerateFailed(message)
    case 5 => ServerError(message)
    case 6 => Unauthorized(message)
    case 7 => Forbidden(message)
    case 8 => NotFound(message)
    case _ => ValidationError(message)
  }

  /**
   * Every `errors.*` helper answers with transport status 200, no data,
   * a non-zero code of its own (so no error reads as a success), and the
   * caller's message.
   */
  lemma ErrorHelpersShape<T>(k: nat, message: string)
    requires k < |ErrorHelperCodes|
    ensures var r := ErrorHelper<T>(k, message);
      r.status == 200 && r.data.None? && !r.IsSuccess()
      && r.errorCode == ErrorHelperCodes[k] && r.message == message
  {
  }

  /** The helpers' codes are pairwise distinct, so the code alone names the helper that built a response. */
  lemma ErrorHelperCodesDistinct()
    ensures forall i, j | 0 <= i < j < |ErrorHelperCodes| :: ErrorHelperCodes[i] != ErrorHelperCodes[j]
  {
  }

  /**
   * A caller tells a success from an error by `errorCode` alone: `success`
   * answers code 0 with its data, and no `errors.*` helper does, whatever
   * the messages.
   */
  lemma SuccessDistinguishedFromErrors<T>(data: T, message: string, k: nat, errorMessage: string)
    requires k < |ErrorHelperCodes|
    ensures Success(data, message).IsSuccess() && Success(data, message).data == Some(data)
    ensures !ErrorHelper<T>(k, errorMessage).IsSuccess()
    ensures Success(data, message).errorCode != ErrorHelper<T>(k, errorMessage).errorCode
  {
    ErrorHelpersShape<T>(k, errorMessage);
  }

  /** The codes the ingestion and publishing paths rely on, and the defaults when no message is given. */
  lemma CodesAndDefaults<T>(m: string, data: T)
    ensures ValidationError<T>(m).errorCode == 422 && ServerError<T>(m).errorCode == 500
    ensures NotFound<T>(m).errorCode == 404
    ensures Success(data).message == "操作成功" && ValidationError<T>().message == "数据验证错误"
    ensures ServerError<T>().message == "服务器内部错误" && NotFound<T>().message == "资源不存在"
  {
  }

  /** `error.message || fallback`: the message a service answers when its database call throws. */
  function MessageOr(message: string, fallback: string): (r: string)
    ensures r == fallback <==> message == "" || message == fallback
    ensures r == message || r == fallback
  {
    if message != "" then message else fallback
  }
}
