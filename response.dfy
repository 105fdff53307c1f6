/** The response envelope (response.dto.ts). Its four fields are set once at
    construction; as a datatype value the envelope cannot be altered afterwards. */
module Responses {
  import opened Wrappers

  /** `ResponseDto`: a success flag, optional data, an optional message and an optional
      list of errors of type `E`. */
  datatype ResponseDto<T, E> = ResponseDto(
    success: bool, data: Option<T>, message: Option<string>, errors: Option<seq<E>>)

  /** `ResponseDto.success(data, message)`. */
  function Success<T, E>(data: T, message: Option<string>): (r: ResponseDto<T, E>)
    ensures r.success && r.data == Some(data) && r.message == message && r.errors == None
  {
    ResponseDto(true, Some(data), message, None)
  }

  /** `ResponseDto.error(message, errors)`. */
  function Error<T, E>(message: string, errors: Option<seq<E>>): (r: ResponseDto<T, E>)
    ensures !r.success && r.data == None && r.message == Some(message) && r.errors == errors
  {
    ResponseDto(false, None, Some(message), errors)
  }

  /** Among envelopes built by the two factories, the flag is true exactly for those built
      by `Success`, and the factories' arguments can be read back. */
  lemma FlagTellsFactory<T, E>(r: ResponseDto<T, E>)
    requires (exists d: T, m :: r == Success(d, m)) || (exists m, e :: r == Error(m, e))
    ensures r.success <==> exists d: T, m :: r == Success(d, m)
    ensures r.success ==> r == Success(r.data.value, r.message)
    ensures !r.success ==> r == Error(r.message.value, r.errors)
  {
    if r.success {
      var d: T, m :| r == Success(d, m);
    } else {
      var m, e :| r == Error(m, e);
    }
  }
}
