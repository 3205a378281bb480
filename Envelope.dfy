/** A nullable value: `None` stands for C#'s `null`. */
module Optional {
  datatype Option<+T> = None | Some(value: T)
}

/**
 * The response envelope of API/Models/Response.cs.
 * Every service operation hands its outcome back through `Success` or `Fail`.
 */
module Envelope {
  import opened Optional

  /** The members of System.Net.HttpStatusCode that the services use. */
  datatype Status = OK | NoContent | BadRequest | NotFound | InternalServerError

  /** `Data` is `None` where the C# object leaves it at `default(T)`. */
  datatype Response<T> = Response(isSuccess: bool, message: Option<string>, data: Option<T>, status: Status)

  /** `Response<T>.Success(data, message = null, status = OK)`. */
  function Success<T>(data: T, message: Option<string> := None, status: Status := OK): (r: Response<T>)
    ensures r.isSuccess && r.data == Some(data)
    ensures r.message == message && r.status == status
  {
    Response(true, message, Some(data), status)
  }

  /** `Response<T>.Fail(message, status = BadRequest)`: no payload. */
  function Fail<T>(message: string, status: Status := BadRequest): (r: Response<T>)
    ensures !r.isSuccess && r.data == None
    ensures r.message == Some(message) && r.status == status
  {
    Response(false, Some(message), None, status)
  }

  /** The shape every envelope built by the two factories has. */
  predicate WellFormed<T>(r: Response<T>)
  {
    && (r.isSuccess <==> r.data.Some?)
    && (!r.isSuccess ==> r.message.Some?)
  }

  /** The factories build well-formed envelopes, and every well-formed envelope is built by one of them. */
  lemma FactoriesBuildExactlyWellFormed<T>(r: Response<T>)
    ensures WellFormed(r) <==>
              || (r.data.Some? && r == Success(r.data.value, r.message, r.status))
              || (r.message.Some? && r == Fail(r.message.value, r.status))
  {
  }

  /** The default statuses: OK for `Success`, BadRequest for `Fail`. */
  lemma DefaultStatuses<T>(data: T, message: string)
    ensures Success(data).status == OK && Success(data).message == None
    ensures Fail<T>(message).status == BadRequest
  {
  }
}
