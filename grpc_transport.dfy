/**
 * The backend's gRPC transport (grpcService/pkg/user/transport.go): the decoders from wire requests
 * to the shared records, the encoders from the shared records to wire responses, and the server
 * methods that return a nil response whenever the go-kit handler reports an error.
 */
module GrpcTransport {
  import opened Wrappers
  import opened Errors
  import opened Entities
  import Proto

  /** A response record an endpoint hands to an encoder, behind an `interface{}`. */
  datatype Response =
    | CreateResponse(create: CreateUserResponse)
    | GetResponse(get: GetUserResponse)
    | DeleteResponse(delete: DeleteUserResponse)

  /** The error every failed type assertion reports. */
  const WrongMessage: Error := Custom(NewGrpcError())

  function DecodeCreateUserRequest(request: Proto.Request): (r: Result<CreateUserRequest, Error>)
    ensures r.Failure? <==> !request.CreateRequest?
    ensures r.Failure? ==> r.error == WrongMessage
  {
    match request
    case CreateRequest(res) => Success(CreateUserRequest(res.name, res.pass, res.age, res.email))
    case _ => Failure(WrongMessage)
  }

  /** An unchecked type assertion: any other response would panic. Never reports an error. */
  function EncodeCreateUserResponse(response: Response): (r: Result<Proto.CreateUserResponse, Error>)
    requires response.CreateResponse?
    ensures r.Success? && r.value.status.Some?
  {
    var res := response.create;
    var status := Proto.Status(res.status.code, res.status.message);
    Success(Proto.CreateUserResponse(Some(status), res.userId))
  }

  function DecodeGetUserRequest(request: Proto.Request): (r: Result<GetUserRequest, Error>)
    ensures r.Failure? <==> !request.GetRequest?
    ensures r.Failure? ==> r.error == WrongMessage
  {
    match request
    case GetRequest(res) => Success(GetUserRequest(res.userId))
    case _ => Failure(WrongMessage)
  }

  /** Copies Id, Name and Age; the wire message's Email is never set. */
  function EncodeGetUserResponse(response: Response): (r: Result<Proto.GetUserResponse, Error>)
    ensures r.Failure? <==> !response.GetResponse?
    ensures r.Failure? ==> r.error == WrongMessage
    ensures r.Success? ==> r.value.email == ""
  {
    match response
    case GetResponse(res) => Success(Proto.GetUserResponse(res.id, res.name, res.age, ""))
    case _ => Failure(WrongMessage)
  }

  function DecodeDeleteUserRequest(request: Proto.Request): (r: Result<DeleteUserRequest, Error>)
    ensures r.Failure? <==> !request.DeleteRequest?
    ensures r.Failure? ==> r.error == WrongMessage
  {
    match request
    case DeleteRequest(res) => Success(DeleteUserRequest(res.userId))
    case _ => Failure(WrongMessage)
  }

  /** An unchecked type assertion: any other response would panic. Never reports an error. */
  function EncodeDeleteUserRequest(response: Response): (r: Result<Proto.DeleteUserResponse, Error>)
    requires response.DeleteResponse?
    ensures r.Success? && r.value.status.Some?
  {
    var resp := response.delete;
    Success(Proto.DeleteUserResponse(Some(Proto.Status(resp.status.code, resp.status.message))))
  }

  /**
   * A server method given what ServeGRPC returned: the error with a nil response, or the response
   * asserted to the method's message type (an unchecked assertion, hence the requires).
   */
  function ServerCreateUser(served: Result<Proto.Response, Error>): (r: (Option<Proto.CreateUserResponse>, Option<Error>))
    requires served.Success? ==> served.value.CreateResponse?
    ensures r.1.Some? <==> served.Failure?
    ensures r.1.Some? ==> r.0.None? && r.1.value == served.error
    ensures r.1.None? ==> r.0 == Some(served.value.create)
  {
    match served
    case Failure(err) => (None, Some(err))
    case Success(resp) => (Some(resp.create), None)
  }

  function ServerGetUser(served: Result<Proto.Response, Error>): (r: (Option<Proto.GetUserResponse>, Option<Error>))
    requires served.Success? ==> served.value.GetResponse?
    ensures r.1.Some? <==> served.Failure?
    ensures r.1.Some? ==> r.0.None? && r.1.value == served.error
    ensures r.1.None? ==> r.0 == Some(served.value.get)
  {
    match served
    case Failure(err) => (None, Some(err))
    case Success(resp) => (Some(resp.get), None)
  }

  function ServerDeleteUser(served: Result<Proto.Response, Error>): (r: (Option<Proto.DeleteUserResponse>, Option<Error>))
    requires served.Success? ==> served.value.DeleteResponse?
    ensures r.1.Some? <==> served.Failure?
    ensures r.1.Some? ==> r.0.None? && r.1.value == served.error
    ensures r.1.None? ==> r.0 == Some(served.value.delete)
  {
    match served
    case Failure(err) => (None, Some(err))
    case Success(resp) => (Some(resp.delete), None)
  }

  /** Decoding a create request copies the four fields; decoding get and delete requests copies the id. */
  lemma DecodersCopy(c: Proto.CreateUserRequest, g: Proto.GetUserRequest, d: Proto.DeleteUserRequest)
    ensures DecodeCreateUserRequest(Proto.CreateRequest(c)) == Success(CreateUserRequest(c.name, c.pass, c.age, c.email))
    ensures DecodeGetUserRequest(Proto.GetRequest(g)) == Success(GetUserRequest(g.userId))
    ensures DecodeDeleteUserRequest(Proto.DeleteRequest(d)) == Success(DeleteUserRequest(d.userId))
  {
  }

  /** The encoders copy the Status pair and the user id; a get response loses only its Email. */
  lemma EncodersCopy(c: CreateUserResponse, g: GetUserResponse, d: DeleteUserResponse)
    ensures EncodeCreateUserResponse(CreateResponse(c)).value
            == Proto.CreateUserResponse(Some(Proto.Status(c.status.code, c.status.message)), c.userId)
    ensures EncodeGetUserResponse(GetResponse(g)).value == Proto.GetUserResponse(g.id, g.name, g.age, "")
    ensures EncodeDeleteUserRequest(DeleteResponse(d)).value
            == Proto.DeleteUserResponse(Some(Proto.Status(d.status.code, d.status.message)))
  {
  }
}
