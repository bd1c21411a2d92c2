/**
 * The two tiers' conversions meet on the wire: what the edge's mapper sends, the backend's decoders
 * read back unchanged, and what the backend's encoders send, the edge's mapper reads back, except
 * for the email of a get response, which the backend never puts on the wire. An error crosses as a
 * gRPC status, and the edge receives the client's status error rather than the backend's error.
 */
module Wire {
  import opened Wrappers
  import opened Errors
  import opened Entities
  import Proto
  import HttpMapper
  import GrpcTransport
  import GrpcService
  import HttpService

  /** Every request the edge sends is decoded by the backend into the record the edge started from. */
  lemma RequestsRoundTrip(c: CreateUserRequest, g: GetUserRequest, d: DeleteUserRequest)
    ensures GrpcTransport.DecodeCreateUserRequest(Proto.CreateRequest(HttpMapper.CreateToProto(c))) == Success(c)
    ensures GrpcTransport.DecodeGetUserRequest(Proto.GetRequest(HttpMapper.GetToProto(g))) == Success(g)
    ensures GrpcTransport.DecodeDeleteUserRequest(Proto.DeleteRequest(HttpMapper.DeleteToProto(d))) == Success(d)
  {
    GrpcTransport.DecodersCopy(HttpMapper.CreateToProto(c), HttpMapper.GetToProto(g), HttpMapper.DeleteToProto(d));
  }

  /**
   * Create and delete responses come back to the edge unchanged; a get response comes back with
   * its email emptied and everything else kept.
   */
  lemma ResponsesRoundTrip(c: CreateUserResponse, g: GetUserResponse, d: DeleteUserResponse)
    ensures var m := GrpcTransport.EncodeCreateUserResponse(GrpcTransport.CreateResponse(c)).value;
      m.status.Some? && HttpMapper.CreateFromProto(m) == c
    ensures var m := GrpcTransport.EncodeGetUserResponse(GrpcTransport.GetResponse(g));
      m.Success? && HttpMapper.GetFromProto(m.value) == g.(email := "")
    ensures var m := GrpcTransport.EncodeDeleteUserRequest(GrpcTransport.DeleteResponse(d)).value;
      m.status.Some? && HttpMapper.DeleteFromProto(m) == d
  {
    GrpcTransport.EncodersCopy(c, g, d);
  }

  /**
   * The edge repository's GetUser served by the backend: map the request to its message, decode
   * it, run the backend service, encode its answer, and map the message back. Whatever error the
   * server method returns, the gRPC server sends its status and the client returns that status as
   * its error, which the edge repository hands on as it is.
   */
  function RemoteGetUser(backend: GrpcService.Repository, rq: GetUserRequest): (r: Result<GetUserResponse, Error>)
    ensures r.Success? <==> backend.getUser(rq.userID).Success?
    ensures r.Failure? ==> r.error == Remote(GRPCStatus(GrpcService.LookupErrorFor(backend.getUser(rq.userID).error)))
  {
    match GrpcTransport.DecodeGetUserRequest(Proto.GetRequest(HttpMapper.GetToProto(rq)))
    case Failure(err) => Failure(Remote(ToStatus(err)))
    case Success(req) =>
      var (resp, err) := GrpcService.GetUserOutcome(backend, req);
      var served: Result<Proto.Response, Error> :=
        if err.Some? then Failure(err.value)
        else
          match GrpcTransport.EncodeGetUserResponse(GrpcTransport.GetResponse(resp))
          case Failure(e) => Failure(e)
          case Success(m) => Success(Proto.GetResponse(m));
      var (m, e) := GrpcTransport.ServerGetUser(served);
      if e.Some? then Failure(Remote(ToStatus(e.value))) else Success(HttpMapper.GetFromProto(m.value))
  }

  /**
   * As written, a user missing from the store reaches the edge as the gRPC client's NotFound status
   * error, which is none of the taxonomy's types, so CustomToHttp answers 500 rather than 404.
   */
  lemma EdgeMissingUserIs500(edge: HttpService.Repository, backend: GrpcService.Repository, rq: GetUserRequest)
    requires rq.userID != "" && backend.getUser(rq.userID) == Failure(NoRows)
    ensures var repo := edge.(getUser := (q: GetUserRequest) => RemoteGetUser(backend, q));
      var err := HttpService.GetUserOutcome(repo, rq).1;
      && err == Some(Remote(GrpcStatus(NotFound, "user not found")))
      && CustomToHttp(err.value) == StatusInternalServerError
  {
  }

  /**
   * The edge-side translation the program evidently needs: a gRPC status carrying one of the
   * taxonomy's codes becomes that taxonomy error again, with the status message as its text.
   */
  function FromStatus(s: GrpcStatus): (e: Error)
    ensures e.Custom? <==> s.code != Unknown
    ensures e.Custom? ==> GRPCStatus(e.c) == s
    ensures !e.Custom? ==> e == Remote(s)
  {
    match s.code
    case NotFound => Custom(CustomErr(UserNotFound, s.message))
    case PermissionDenied => Custom(CustomErr(DeniedAuthentication, s.message))
    case InvalidArgument => Custom(CustomErr(FieldsMissing, s.message))
    case Aborted => Custom(CustomErr(DataBase, s.message))
    case Internal => Custom(CustomErr(Grpc, s.message))
    case AlreadyExists => Custom(CustomErr(UserAlreadyExists, s.message))
    case Unknown => Remote(s)
  }

  /** Every taxonomy error survives the crossing: FromStatus inverts GRPCStatus. */
  lemma StatusRoundTrip(c: CustomErr)
    ensures FromStatus(GRPCStatus(c)) == Custom(c)
  {
    GrpcCodeIdentifiesKind(c, c);
  }

  /** The edge repository's GetUser with the client's status translated back by FromStatus. */
  function RemoteGetUserCorrected(backend: GrpcService.Repository, rq: GetUserRequest): (r: Result<GetUserResponse, Error>)
    ensures r.Success? <==> backend.getUser(rq.userID).Success?
    ensures r.Success? ==> r == RemoteGetUser(backend, rq)
    ensures r.Failure? ==> r.error == Custom(GrpcService.LookupErrorFor(backend.getUser(rq.userID).error))
  {
    match RemoteGetUser(backend, rq)
    case Success(resp) => Success(resp)
    case Failure(err) =>
      if err.Remote? then
        StatusRoundTrip(GrpcService.LookupErrorFor(backend.getUser(rq.userID).error));
        Failure(FromStatus(err.status))
      else Failure(err)
  }

  /**
   * With the translation, the edge answers a failed lookup with the status of the backend's own
   * error: 404 for a user missing from the store, 503 for any other storage failure.
   */
  lemma EdgeMissingUserIs404Corrected(edge: HttpService.Repository, backend: GrpcService.Repository, rq: GetUserRequest)
    requires rq.userID != "" && backend.getUser(rq.userID).Failure?
    ensures var repo := edge.(getUser := (q: GetUserRequest) => RemoteGetUserCorrected(backend, q));
      var status := CustomToHttp(HttpService.GetUserOutcome(repo, rq).1.value);
      && (backend.getUser(rq.userID).error == NoRows ==> status == StatusNotFound)
      && (backend.getUser(rq.userID).error != NoRows ==> status == StatusServiceUnavailable)
  {
  }

  /**
   * A user looked up through the edge with a non-empty id comes back with the stored name and
   * age, the id asked for, and an empty email, whatever was stored as the email or the password.
   */
  lemma EdgeGetUserReturnsStoredNameAndAge(edge: HttpService.Repository, backend: GrpcService.Repository,
                                           rq: GetUserRequest, stored: User)
    requires rq.userID != "" && backend.getUser(rq.userID) == Success(stored)
    ensures var repo := edge.(getUser := (q: GetUserRequest) => RemoteGetUser(backend, q));
      HttpService.GetUserOutcome(repo, rq) == (GetUserResponse(stored.name, rq.userID, stored.age, ""), None)
  {
    var repo := edge.(getUser := (q: GetUserRequest) => RemoteGetUser(backend, q));
    RequestsRoundTrip(CreateUserRequest("", "", 0, ""), rq, DeleteUserRequest(""));
    var (resp, err) := GrpcService.GetUserOutcome(backend, rq);
    assert resp == GetUserResponse(stored.name, rq.userID, stored.age, "");
    ResponsesRoundTrip(EmptyCreateUserResponse, resp, EmptyDeleteUserResponse);
    assert RemoteGetUser(backend, rq) == Success(resp);
  }
}
