/**
 * The backend's record types (grpcService/pkg/entities/requests.go and user.go), shared by both
 * tiers, and the field-to-column table of the users table.
 */
module Entities {

  /** Go's uint32, the type of Age. */
  newtype uint32 = x: int | 0 <= x < 0x1_0000_0000

  /** Go's int32, the type of Status.Code. */
  newtype int32 = x: int | -0x8000_0000 <= x < 0x8000_0000

  /** The (code, message) envelope of every response. */
  datatype Status = Status(code: int32, message: string)

  datatype CreateUserRequest = CreateUserRequest(name: string, pass: string, age: uint32, email: string)
  datatype CreateUserResponse = CreateUserResponse(status: Status, userId: string)
  datatype GetUserRequest = GetUserRequest(userID: string)
  datatype GetUserResponse = GetUserResponse(name: string, id: string, age: uint32, email: string)
  datatype DeleteUserRequest = DeleteUserRequest(userId: string)
  datatype DeleteUserResponse = DeleteUserResponse(status: Status)
  datatype UpdateUserRequest = UpdateUserRequest(name: string, pass: string, age: uint32, email: string, id: string)
  datatype UpdateUserResponse = UpdateUserResponse(status: Status)

  /** The stored user; its identifier travels beside it, not inside it. */
  datatype User = User(name: string, pass: string, age: uint32, email: string)

  // Go's zero values of the response records (`entities.XResponse{}`).
  const ZeroStatus := Status(0, "")
  const EmptyCreateUserResponse := CreateUserResponse(ZeroStatus, "")
  const EmptyGetUserResponse := GetUserResponse("", "", 0, "")
  const EmptyDeleteUserResponse := DeleteUserResponse(ZeroStatus)
  const EmptyUpdateUserResponse := UpdateUserResponse(ZeroStatus)

  /** The field names of User in declaration order, as reflection visits them. */
  const UserFieldNames: seq<string> := ["Name", "Pass", "Age", "Email"]

  /** FieldsReferenceSql: the column that stores each field of User. */
  const FieldsReferenceSql: map<string, string> :=
    map["Name" := "first_name", "Pass" := "pass", "Age" := "age", "Email" := "email"]

  /** The table's keys are exactly the fields of User, so looking up any field of User succeeds. */
  lemma FieldsReferenceSqlCoversUser()
    ensures FieldsReferenceSql.Keys == set f | f in UserFieldNames
    ensures forall i :: 0 <= i < |UserFieldNames| ==> UserFieldNames[i] in FieldsReferenceSql
  {
    assert UserFieldNames[0] == "Name" && UserFieldNames[1] == "Pass";
    assert UserFieldNames[2] == "Age" && UserFieldNames[3] == "Email";
  }

  /** The entries of the table, field by field. */
  lemma FieldsReferenceSqlEntries()
    ensures FieldsReferenceSql["Name"] == "first_name"
    ensures FieldsReferenceSql["Pass"] == "pass"
    ensures FieldsReferenceSql["Age"] == "age"
    ensures FieldsReferenceSql["Email"] == "email"
  {
  }

  /** Distinct fields are stored in distinct columns. */
  lemma FieldsReferenceSqlInjective(f: string, g: string)
    requires f in FieldsReferenceSql && g in FieldsReferenceSql
    ensures FieldsReferenceSql[f] == FieldsReferenceSql[g] <==> f == g
  {
  }
}
