/**
 * The backend's error taxonomy (grpcService/pkg/errors/errors.go): six error types, each wrapping
 * an inner error, each with an HTTP status code and a gRPC status, plus the classifier
 * CustomToHttp that the HTTP edge uses to pick a response status for an arbitrary Go error.
 */
module Errors {

  /** The six error types of the taxonomy, one constructor per Go struct type. */
  datatype ErrKind =
    | UserNotFound          // UserNotFoundErr
    | FieldsMissing         // FieldsMissingErr
    | Grpc                  // GrpcErr
    | DataBase              // DataBaseErr
    | DeniedAuthentication  // DeniedAuthentication
    | UserAlreadyExists     // UserAlreadyExists

  /** A value of one of the six struct types: its type and the text of the error it wraps. */
  datatype CustomErr = CustomErr(kind: ErrKind, err: string) {
    /** Error(): the text of the wrapped error; with the type it gives back the whole value. */
    function Error(): (text: string)
      ensures CustomErr(kind, text) == this
    {
      err
    }
  }

  /**
   * A Go `error` value as the services see it: one of the custom errors, the `sql.ErrNoRows`
   * sentinel (compared by identity in the backend service), the error a gRPC client returns (the
   * status the server sent), or any other error, known only by its text.
   */
  datatype Error =
    | Custom(c: CustomErr)
    | NoRows
    | Remote(status: GrpcStatus)
    | Raw(text: string)

  /** The name grpc-go prints for a code. */
  function CodeName(code: Code): string
  {
    match code
    case NotFound => "NotFound"
    case PermissionDenied => "PermissionDenied"
    case InvalidArgument => "InvalidArgument"
    case Aborted => "Aborted"
    case Internal => "Internal"
    case AlreadyExists => "AlreadyExists"
    case Unknown => "Unknown"
  }

  /** err.Error() for an arbitrary error. */
  function Text(e: Error): (text: string)
    ensures e.Custom? ==> text == e.c.Error()
    ensures e.Remote? ==> text == "rpc error: code = " + CodeName(e.status.code) + " desc = " + e.status.message
  {
    match e
    case Custom(c) => c.Error()
    case NoRows => "sql: no rows in result set"
    case Remote(s) => "rpc error: code = " + CodeName(s.code) + " desc = " + s.message
    case Raw(t) => t
  }

  // The constructors: each wraps a fixed message.

  function NewFieldsMissing(): (e: CustomErr)
    ensures e.kind == FieldsMissing && e.Error() == "all fields are required"
  {
    CustomErr(FieldsMissing, "all fields are required")
  }

  function NewUserNotFound(): (e: CustomErr)
    ensures e.kind == UserNotFound && e.Error() == "user not found"
  {
    CustomErr(UserNotFound, "user not found")
  }

  function NewGrpcError(): (e: CustomErr)
    ensures e.kind == Grpc && e.Error() == "uknown grpc error"
  {
    CustomErr(Grpc, "uknown grpc error")
  }

  function NewDataBaseError(): (e: CustomErr)
    ensures e.kind == DataBase && e.Error() == "unknown database error"
  {
    CustomErr(DataBase, "unknown database error")
  }

  function NewDeniedAuthentication(): (e: CustomErr)
    ensures e.kind == DeniedAuthentication && e.Error() == "password is incorrect"
  {
    CustomErr(DeniedAuthentication, "password is incorrect")
  }

  function NewUserAlreadyExists(): (e: CustomErr)
    ensures e.kind == UserAlreadyExists && e.Error() == "user already exists in database"
  {
    CustomErr(UserAlreadyExists, "user already exists in database")
  }

  /** The constructor of each kind, so that lemmas can quantify over the six of them. */
  function New(k: ErrKind): (e: CustomErr)
    ensures e.kind == k
  {
    match k
    case UserNotFound => NewUserNotFound()
    case FieldsMissing => NewFieldsMissing()
    case Grpc => NewGrpcError()
    case DataBase => NewDataBaseError()
    case DeniedAuthentication => NewDeniedAuthentication()
    case UserAlreadyExists => NewUserAlreadyExists()
  }

  // HTTP status codes of net/http used by the taxonomy.
  const StatusBadRequest := 400
  const StatusUnauthorized := 401
  const StatusNotFound := 404
  const StatusConflict := 409
  const StatusInternalServerError := 500
  const StatusServiceUnavailable := 503

  /**
   * The gRPC status codes used by the taxonomy, and Unknown, the code a gRPC server sends for an
   * error that has no GRPCStatus() of its own.
   */
  datatype Code = NotFound | PermissionDenied | InvalidArgument | Aborted | Internal | AlreadyExists | Unknown

  /** A gRPC status: a code and a message. */
  datatype GrpcStatus = GrpcStatus(code: Code, message: string)

  /** StatusCode(): the HTTP status each error type declares for itself. */
  function StatusCode(e: CustomErr): (status: int)
    ensures status in {StatusBadRequest, StatusUnauthorized, StatusNotFound, StatusConflict, StatusInternalServerError}
  {
    match e.kind
    case UserNotFound => StatusNotFound
    case DeniedAuthentication => StatusUnauthorized
    case FieldsMissing => StatusBadRequest
    case DataBase => StatusInternalServerError
    case Grpc => StatusInternalServerError
    case UserAlreadyExists => StatusConflict
  }

  /** GRPCStatus(): each error type's gRPC code, always with the error's own text as the message. */
  function GRPCStatus(e: CustomErr): (s: GrpcStatus)
    ensures s.message == e.Error()
  {
    match e.kind
    case UserNotFound => GrpcStatus(NotFound, e.Error())
    case DeniedAuthentication => GrpcStatus(PermissionDenied, e.Error())
    case FieldsMissing => GrpcStatus(InvalidArgument, e.Error())
    case DataBase => GrpcStatus(Aborted, e.Error())
    case Grpc => GrpcStatus(Internal, e.Error())
    case UserAlreadyExists => GrpcStatus(AlreadyExists, e.Error())
  }

  /** CustomToHttp: a type switch on an arbitrary error; anything outside the taxonomy is a 500. */
  function CustomToHttp(err: Error): (status: int)
    ensures status in {StatusBadRequest, StatusUnauthorized, StatusNotFound, StatusConflict,
                       StatusInternalServerError, StatusServiceUnavailable}
    ensures status == StatusServiceUnavailable <==> err.Custom? && err.c.kind == DataBase
  {
    match err
    case Custom(CustomErr(UserNotFound, _)) => StatusNotFound
    case Custom(CustomErr(FieldsMissing, _)) => StatusBadRequest
    case Custom(CustomErr(DeniedAuthentication, _)) => StatusUnauthorized
    case Custom(CustomErr(UserAlreadyExists, _)) => StatusConflict
    case Custom(CustomErr(DataBase, _)) => StatusServiceUnavailable
    case _ => StatusInternalServerError
  }

  /**
   * The six messages are pairwise distinct, so comparing err.Error() with a constructor's message
   * (as the services' tests do) identifies the kind of a constructed error.
   */
  lemma MessagesIdentifyKinds(a: ErrKind, b: ErrKind)
    ensures New(a).kind == a
    ensures New(a).Error() == New(b).Error() <==> a == b
  {
  }

  /** The HTTP status table of StatusCode, kind by kind. */
  lemma StatusCodeTable(e: CustomErr)
    ensures e.kind == UserNotFound ==> StatusCode(e) == 404
    ensures e.kind == DeniedAuthentication ==> StatusCode(e) == 401
    ensures e.kind == FieldsMissing ==> StatusCode(e) == 400
    ensures e.kind == DataBase ==> StatusCode(e) == 500
    ensures e.kind == Grpc ==> StatusCode(e) == 500
    ensures e.kind == UserAlreadyExists ==> StatusCode(e) == 409
  {
  }

  /** The gRPC code table of GRPCStatus; the code alone identifies the kind. */
  lemma GrpcCodeIdentifiesKind(a: CustomErr, b: CustomErr)
    ensures a.kind == UserNotFound <==> GRPCStatus(a).code == NotFound
    ensures a.kind == DeniedAuthentication <==> GRPCStatus(a).code == PermissionDenied
    ensures a.kind == FieldsMissing <==> GRPCStatus(a).code == InvalidArgument
    ensures a.kind == DataBase <==> GRPCStatus(a).code == Aborted
    ensures a.kind == Grpc <==> GRPCStatus(a).code == Internal
    ensures a.kind == UserAlreadyExists <==> GRPCStatus(a).code == AlreadyExists
    ensures GRPCStatus(a).code == GRPCStatus(b).code <==> a.kind == b.kind
  {
  }

  /** CustomToHttp agrees with the error's own StatusCode on every kind except DataBaseErr. */
  lemma CustomToHttpAgreesWithStatusCode(e: CustomErr)
    ensures e.kind != DataBase <==> CustomToHttp(Custom(e)) == StatusCode(e)
  {
  }

  /**
   * DataBaseErr declares 500 but CustomToHttp classifies it as 503; GrpcErr is 500 under both, so
   * CustomToHttp tells apart two kinds whose StatusCode() values agree.
   */
  lemma CustomToHttpSeparatesServerErrors(e: CustomErr)
    ensures e.kind == DataBase ==> StatusCode(e) == 500 && CustomToHttp(Custom(e)) == 503
    ensures e.kind == Grpc ==> StatusCode(e) == 500 && CustomToHttp(Custom(e)) == 500
    ensures StatusCode(New(DataBase)) == StatusCode(New(Grpc))
    ensures CustomToHttp(Custom(New(DataBase))) != CustomToHttp(Custom(New(Grpc)))
  {
  }

  /** Errors outside the taxonomy (sql.ErrNoRows, gRPC client errors, driver errors) are classified as 500. */
  lemma CustomToHttpForeignErrors(err: Error)
    requires !err.Custom?
    ensures CustomToHttp(err) == StatusInternalServerError
  {
  }

  /**
   * The status a gRPC server sends for the error its handler returned: the error's own GRPCStatus()
   * for the taxonomy's types and for a client error passed on, Unknown with the error's text otherwise.
   */
  function ToStatus(e: Error): (s: GrpcStatus)
    ensures e.Custom? ==> s == GRPCStatus(e.c)
    ensures e.Remote? ==> s == e.status
    ensures !e.Custom? && !e.Remote? ==> s == GrpcStatus(Unknown, Text(e))
  {
    match e
    case Custom(c) => GRPCStatus(c)
    case Remote(st) => st
    case _ => GrpcStatus(Unknown, Text(e))
  }
}
