/**
 * The gRPC wire messages of the user service, with the fields the two tiers read and write.
 * The generated protobuf package is not part of this model; its messages are inferred from their uses.
 * A `*proto.Status` field may be nil, hence Option.
 */
module Proto {
  import opened Wrappers
  import opened Entities

  datatype Status = Status(code: int32, message: string)

  datatype CreateUserRequest = CreateUserRequest(name: string, pass: string, age: uint32, email: string)
  datatype CreateUserResponse = CreateUserResponse(status: Option<Status>, userId: string)   // User_Id
  datatype GetUserRequest = GetUserRequest(userId: string)                                  // User_Id
  datatype GetUserResponse = GetUserResponse(id: string, name: string, age: uint32, email: string)
  datatype DeleteUserRequest = DeleteUserRequest(userId: string)                            // User_Id
  datatype DeleteUserResponse = DeleteUserResponse(status: Option<Status>)
  datatype UpdateUserRequest = UpdateUserRequest(name: string, pass: string, age: uint32, email: string, id: string)
  datatype UpdateUserResponse = UpdateUserResponse(status: Option<Status>)

  /** A request message as the backend transport receives it, behind an `interface{}`. */
  datatype Request =
    | CreateRequest(create: CreateUserRequest)
    | GetRequest(get: GetUserRequest)
    | DeleteRequest(delete: DeleteUserRequest)
    | UpdateRequest(update: UpdateUserRequest)

  /** A response message as the backend transport sends it, behind an `interface{}`. */
  datatype Response =
    | CreateResponse(create: CreateUserResponse)
    | GetResponse(get: GetUserResponse)
    | DeleteResponse(delete: DeleteUserResponse)
}
