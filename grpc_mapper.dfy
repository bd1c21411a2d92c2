/** The backend's conversion from a create request to the stored user (grpcService/pkg/mapper/mapper.go). */
module GrpcMapper {
  import opened Entities

  /** A positional struct literal: the request's four fields, in User's field order. */
  function CreateUserRequestToUser(userReq: CreateUserRequest): (u: User)
    ensures CreateUserRequest(u.name, u.pass, u.age, u.email) == userReq
  {
    User(userReq.name, userReq.pass, userReq.age, userReq.email)
  }

  /** Every field is copied unchanged into the field of the same name. */
  lemma CreateUserRequestToUserCopies(userReq: CreateUserRequest)
    ensures var u := CreateUserRequestToUser(userReq);
      u.name == userReq.name && u.pass == userReq.pass && u.age == userReq.age && u.email == userReq.email
  {
  }

  /** No two requests map to the same user. */
  lemma CreateUserRequestToUserInjective(a: CreateUserRequest, b: CreateUserRequest)
    ensures CreateUserRequestToUser(a) == CreateUserRequestToUser(b) ==> a == b
  {
  }

  /** Every user is the image of some request, so the mapping is a bijection. */
  lemma CreateUserRequestToUserSurjective(user: User)
    ensures exists userReq :: CreateUserRequestToUser(userReq) == user
  {
    var userReq := CreateUserRequest(user.name, user.pass, user.age, user.email);
    assert CreateUserRequestToUser(userReq) == user;
  }
}
