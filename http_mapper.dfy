/**
 * The edge tier's conversions between the shared records and the gRPC messages
 * (httpService/pkg/mapper/mapper.go). Each builds a fresh message by copying fields.
 */
module HttpMapper {
  import opened Wrappers
  import opened Entities
  import Proto

  /** Copies the four fields into the message of the same shape; the record is recoverable from it. */
  function CreateToProto(req: CreateUserRequest): (m: Proto.CreateUserRequest)
    ensures CreateUserRequest(m.name, m.pass, m.age, m.email) == req
  {
    Proto.CreateUserRequest(req.name, req.pass, req.age, req.email)
  }

  /** Copies UserID into User_Id. */
  function GetToProto(req: GetUserRequest): (m: Proto.GetUserRequest)
    ensures GetUserRequest(m.userId) == req
  {
    Proto.GetUserRequest(req.userID)
  }

  /** Reads resp.Status.Message and resp.Status.Code, so the Status field must not be nil. */
  function CreateFromProto(resp: Proto.CreateUserResponse): (r: CreateUserResponse)
    requires resp.status.Some?
    ensures Proto.CreateUserResponse(Some(Proto.Status(r.status.code, r.status.message)), r.userId) == resp
  {
    CreateUserResponse(Status(resp.status.value.code, resp.status.value.message), resp.userId)
  }

  /** Copies the four user fields by name (the message orders Id before Name). */
  function GetFromProto(resp: Proto.GetUserResponse): (r: GetUserResponse)
    ensures Proto.GetUserResponse(r.id, r.name, r.age, r.email) == resp
  {
    GetUserResponse(resp.name, resp.id, resp.age, resp.email)
  }

  /** Copies UserId into User_Id. */
  function DeleteToProto(req: DeleteUserRequest): (m: Proto.DeleteUserRequest)
    ensures DeleteUserRequest(m.userId) == req
  {
    Proto.DeleteUserRequest(req.userId)
  }

  /** Reads the Status field, which must not be nil. */
  function DeleteFromProto(resp: Proto.DeleteUserResponse): (r: DeleteUserResponse)
    requires resp.status.Some?
    ensures Proto.DeleteUserResponse(Some(Proto.Status(r.status.code, r.status.message))) == resp
  {
    DeleteUserResponse(Status(resp.status.value.code, resp.status.value.message))
  }

  /** Copies all five fields, the Id included. */
  function UpdateToProto(req: UpdateUserRequest): (m: Proto.UpdateUserRequest)
    ensures UpdateUserRequest(m.name, m.pass, m.age, m.email, m.id) == req
  {
    Proto.UpdateUserRequest(req.name, req.pass, req.age, req.email, req.id)
  }

  /** Reads the Status field, which must not be nil. */
  function UpdateFromProto(resp: Proto.UpdateUserResponse): (r: UpdateUserResponse)
    requires resp.status.Some?
    ensures Proto.UpdateUserResponse(Some(Proto.Status(r.status.code, r.status.message))) == resp
  {
    UpdateUserResponse(Status(resp.status.value.code, resp.status.value.message))
  }

  /** The outgoing mappers lose nothing: distinct requests become distinct messages. */
  lemma ToProtoInjective(a: CreateUserRequest, b: CreateUserRequest, g: GetUserRequest, h: GetUserRequest,
                         d: DeleteUserRequest, e: DeleteUserRequest, u: UpdateUserRequest, v: UpdateUserRequest)
    ensures CreateToProto(a) == CreateToProto(b) ==> a == b
    ensures GetToProto(g) == GetToProto(h) ==> g == h
    ensures DeleteToProto(d) == DeleteToProto(e) ==> d == e
    ensures UpdateToProto(u) == UpdateToProto(v) ==> u == v
  {
  }

  /** The id travels unchanged into User_Id, and an update carries all five fields, the Id included. */
  lemma ToProtoCopies(g: GetUserRequest, d: DeleteUserRequest, u: UpdateUserRequest)
    ensures GetToProto(g).userId == g.userID
    ensures DeleteToProto(d).userId == d.userId
    ensures var m := UpdateToProto(u);
      m.name == u.name && m.pass == u.pass && m.age == u.age && m.email == u.email && m.id == u.id
  {
  }

  /** The incoming mappers keep the whole Status envelope and nothing else for delete and update. */
  lemma FromProtoStatus(c: Proto.CreateUserResponse, d: Proto.DeleteUserResponse, u: Proto.UpdateUserResponse)
    requires c.status.Some? && d.status.Some? && u.status.Some?
    ensures CreateFromProto(c).status.code == c.status.value.code
    ensures CreateFromProto(c).status.message == c.status.value.message
    ensures CreateFromProto(c).userId == c.userId
    ensures DeleteFromProto(d).status == Status(d.status.value.code, d.status.value.message)
    ensures UpdateFromProto(u).status == Status(u.status.value.code, u.status.value.message)
  {
  }

  /** GetFromProto copies all four user fields, the email included. */
  lemma GetFromProtoCopies(resp: Proto.GetUserResponse)
    ensures var r := GetFromProto(resp);
      r.name == resp.name && r.id == resp.id && r.age == resp.age && r.email == resp.email
  {
  }
}
