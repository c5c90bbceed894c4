/** The error carrier raised by the token service and the response envelope
    returned to callers. */
module Responses {
  import opened Wrappers

  /** The HTTP status code an authentication failure carries by default. */
  const StatusUnauthorized: int := 401

  /** An authentication failure: its messages (null when none were given) and its status code. */
  datatype UnauthorizedException = UnauthorizedException(errorMessages: Option<seq<string>>, statusCode: int)

  /** The exception's constructor; `statusCode` is `None` when the argument is
      omitted, in which case 401 Unauthorized applies. */
  function NewUnauthorized(errorMessages: Option<seq<string>>, statusCode: Option<int>): (r: UnauthorizedException)
    ensures r.errorMessages == errorMessages
    ensures statusCode.None? ==> r.statusCode == StatusUnauthorized
    ensures statusCode.Some? ==> r.statusCode == statusCode.value
  {
    UnauthorizedException(errorMessages, statusCode.OrElse(StatusUnauthorized))
  }

  /** The token pair handed to a client; the payload the envelope carries. */
  datatype TokenResponse = TokenResponse(jwt: string, refreshToken: string, refreshTokenExpiry: int)

  /** The response envelope, with its data instantiated at `TokenResponse`;
      `data` is `None` where the data is left at its default, which is also how
      the envelope without data is represented. */
  datatype Response = Response(messages: seq<string>, isSuccessful: bool, data: Option<TokenResponse>)

  /** An already completed task, as `Task.FromResult` builds it. */
  datatype Task<T> = Completed(result: T)

  function Fail(): (r: Response)
    ensures !r.isSuccessful && r.messages == [] && r.data.None?
  {
    Response([], false, None)
  }

  function FailWith(message: string): (r: Response)
    ensures !r.isSuccessful && r.messages == [message] && r.data.None?
  {
    Response([message], false, None)
  }

  function FailWithAll(messages: seq<string>): (r: Response)
    ensures !r.isSuccessful && r.messages == messages && r.data.None?
  {
    Response(messages, false, None)
  }

  function Success(): (r: Response)
    ensures r.isSuccessful && r.messages == [] && r.data.None?
  {
    Response([], true, None)
  }

  function SuccessWith(message: string): (r: Response)
    ensures r.isSuccessful && r.messages == [message] && r.data.None?
  {
    Response([message], true, None)
  }

  /** Only the non-generic envelope has this overload. */
  function SuccessWithAll(messages: seq<string>): (r: Response)
    ensures r.isSuccessful && r.messages == messages && r.data.None?
  {
    Response(messages, true, None)
  }

  function SuccessData(data: TokenResponse): (r: Response)
    ensures r.isSuccessful && r.messages == [] && r.data == Some(data)
  {
    Response([], true, Some(data))
  }

  function SuccessDataWith(data: TokenResponse, message: string): (r: Response)
    ensures r.isSuccessful && r.messages == [message] && r.data == Some(data)
  {
    Response([message], true, Some(data))
  }

  function SuccessDataWithAll(data: TokenResponse, messages: seq<string>): (r: Response)
    ensures r.isSuccessful && r.messages == messages && r.data == Some(data)
  {
    Response(messages, true, Some(data))
  }

  function FailAsync(): (r: Task<Response>)
    ensures r.result == Fail()
  {
    Completed(Fail())
  }

  function FailWithAsync(message: string): (r: Task<Response>)
    ensures r.result == FailWith(message)
  {
    Completed(FailWith(message))
  }

  function FailWithAllAsync(messages: seq<string>): (r: Task<Response>)
    ensures r.result == FailWithAll(messages)
  {
    Completed(FailWithAll(messages))
  }

  function SuccessAsync(): (r: Task<Response>)
    ensures r.result == Success()
  {
    Completed(Success())
  }

  function SuccessWithAsync(message: string): (r: Task<Response>)
    ensures r.result == SuccessWith(message)
  {
    Completed(SuccessWith(message))
  }

  function SuccessWithAllAsync(messages: seq<string>): (r: Task<Response>)
    ensures r.result == SuccessWithAll(messages)
  {
    Completed(SuccessWithAll(messages))
  }

  function SuccessDataAsync(data: TokenResponse): (r: Task<Response>)
    ensures r.result == SuccessData(data)
  {
    Completed(SuccessData(data))
  }

  function SuccessDataWithAsync(data: TokenResponse, message: string): (r: Task<Response>)
    ensures r.result == SuccessDataWith(data, message)
  {
    Completed(SuccessDataWith(data, message))
  }

  function SuccessDataWithAllAsync(data: TokenResponse, messages: seq<string>): (r: Task<Response>)
    ensures r.result == SuccessDataWithAll(data, messages)
  {
    Completed(SuccessDataWithAll(data, messages))
  }
}
