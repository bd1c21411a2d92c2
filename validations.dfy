/** The edge tier's request validators (httpService/pkg/utils/validations.go). */
module Validations {
  import opened Wrappers
  import opened Errors
  import opened Entities

  /** A create request needs an age of at least 1 and a non-empty name, password and email. */
  function ValidateCreateUserRequest(user: CreateUserRequest): (err: Option<Error>)
    ensures err != None <==> user.age == 0 || user.name == "" || user.pass == "" || user.email == ""
    ensures err != None ==> err == Some(Custom(NewFieldsMissing()))
  {
    if user.age < 1 || |user.name| < 1 || |user.pass| < 1 || |user.email| < 1 then
      Some(Custom(NewFieldsMissing()))
    else
      None
  }

  /** A get request needs a non-empty user id. */
  function ValidateGetUserRequest(id: GetUserRequest): (err: Option<Error>)
    ensures err != None <==> id.userID == ""
    ensures err != None ==> err == Some(Custom(NewFieldsMissing()))
  {
    if |id.userID| < 1 then Some(Custom(NewFieldsMissing())) else None
  }

  /** The create verdict looks only at which strings are empty and whether the age is zero, never at content. */
  lemma ValidateCreateDependsOnlyOnPresence(a: CreateUserRequest, b: CreateUserRequest)
    requires (a.name == "") == (b.name == "") && (a.pass == "") == (b.pass == "")
    requires (a.email == "") == (b.email == "") && (a.age == 0) == (b.age == 0)
    ensures ValidateCreateUserRequest(a) == ValidateCreateUserRequest(b)
  {
  }

  /** FieldsMissing is the only error either validator produces; its HTTP status is 400 by both mappings. */
  lemma ValidatorsOnlyReportFieldsMissing(c: CreateUserRequest, g: GetUserRequest)
    ensures ValidateCreateUserRequest(c) != None ==>
      var e := ValidateCreateUserRequest(c).value;
      e.Custom? && e.c.kind == FieldsMissing && CustomToHttp(e) == StatusCode(e.c) == StatusBadRequest
    ensures ValidateGetUserRequest(g) != None ==>
      var e := ValidateGetUserRequest(g).value;
      e.Custom? && e.c.kind == FieldsMissing && CustomToHttp(e) == StatusCode(e.c) == StatusBadRequest
  {
  }
}
