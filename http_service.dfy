/**
 * The edge tier's user service (httpService/pkg/user/service.go): validate, hash the password where
 * there is one, forward to the backend through the repository, and hand back the repository's
 * answer or error unchanged.
 */
module HttpService {
  import opened Wrappers
  import opened Errors
  import opened Entities
  import opened Validations

  /** The repository (the gRPC client of the backend), one function per interface method. */
  datatype Repository = Repository(
    createUser: CreateUserRequest -> Result<CreateUserResponse, Error>,
    getUser: GetUserRequest -> Result<GetUserResponse, Error>,
    deleteUser: DeleteUserRequest -> Result<DeleteUserResponse, Error>,
    updateUser: UpdateUserRequest -> Result<UpdateUserResponse, Error>)

  /**
   * The collaborators whose code is not part of this model: the delete and update validators and
   * the password hasher, each as the function it is.
   */
  datatype Helpers = Helpers(
    validateDelete: DeleteUserRequest -> Option<Error>,
    validateUpdate: UpdateUserRequest -> Option<Error>,
    hashPassword: string -> Result<string, Error>)

  /** What the service's CreateUser answers. */
  function CreateUserOutcome(repo: Repository, helpers: Helpers, rq: CreateUserRequest): (r: (CreateUserResponse, Option<Error>))
    ensures ValidateCreateUserRequest(rq).Some? ==> r == (EmptyCreateUserResponse, ValidateCreateUserRequest(rq))
    ensures ValidateCreateUserRequest(rq).None? && helpers.hashPassword(rq.pass).Failure? ==>
      r == (EmptyCreateUserResponse, Some(helpers.hashPassword(rq.pass).error))
    ensures ValidateCreateUserRequest(rq).None? && helpers.hashPassword(rq.pass).Success? ==>
      var sent := repo.createUser(rq.(pass := helpers.hashPassword(rq.pass).value));
      && (sent.Failure? ==> r == (EmptyCreateUserResponse, Some(sent.error)))
      && (sent.Success? ==> r == (sent.value, None))
  {
    match ValidateCreateUserRequest(rq)
    case Some(err) => (EmptyCreateUserResponse, Some(err))
    case None =>
      match helpers.hashPassword(rq.pass)
      case Failure(err) => (EmptyCreateUserResponse, Some(err))
      case Success(hashed) =>
        var rq := rq.(pass := hashed);
        match repo.createUser(rq)
        case Failure(err) => (EmptyCreateUserResponse, Some(err))
        case Success(res) => (res, None)
  }

  /** What the service's GetUser answers. */
  function GetUserOutcome(repo: Repository, rq: GetUserRequest): (r: (GetUserResponse, Option<Error>))
    ensures rq.userID == "" ==> r == (EmptyGetUserResponse, Some(Custom(NewFieldsMissing())))
    ensures rq.userID != "" && repo.getUser(rq).Failure? ==> r == (EmptyGetUserResponse, Some(repo.getUser(rq).error))
    ensures rq.userID != "" && repo.getUser(rq).Success? ==> r == (repo.getUser(rq).value, None)
  {
    match ValidateGetUserRequest(rq)
    case Some(err) => (EmptyGetUserResponse, Some(err))
    case None =>
      match repo.getUser(rq)
      case Failure(err) => (EmptyGetUserResponse, Some(err))
      case Success(res) => (res, None)
  }

  /** What the service's DeleteUser answers. */
  function DeleteUserOutcome(repo: Repository, helpers: Helpers, rq: DeleteUserRequest): (r: (DeleteUserResponse, Option<Error>))
    ensures helpers.validateDelete(rq).Some? ==> r == (EmptyDeleteUserResponse, helpers.validateDelete(rq))
    ensures helpers.validateDelete(rq).None? && repo.deleteUser(rq).Failure? ==>
      r == (EmptyDeleteUserResponse, Some(repo.deleteUser(rq).error))
    ensures helpers.validateDelete(rq).None? && repo.deleteUser(rq).Success? ==> r == (repo.deleteUser(rq).value, None)
  {
    match helpers.validateDelete(rq)
    case Some(err) => (EmptyDeleteUserResponse, Some(err))
    case None =>
      match repo.deleteUser(rq)
      case Failure(err) => (EmptyDeleteUserResponse, Some(err))
      case Success(res) => (res, None)
  }

  /** What the service's UpdateUser answers. */
  function UpdateUserOutcome(repo: Repository, helpers: Helpers, rq: UpdateUserRequest): (r: (UpdateUserResponse, Option<Error>))
    ensures helpers.validateUpdate(rq).Some? ==> r == (EmptyUpdateUserResponse, helpers.validateUpdate(rq))
    ensures helpers.validateUpdate(rq).None? && helpers.hashPassword(rq.pass).Failure? ==>
      r == (EmptyUpdateUserResponse, Some(helpers.hashPassword(rq.pass).error))
    ensures helpers.validateUpdate(rq).None? && helpers.hashPassword(rq.pass).Success? ==>
      var sent := repo.updateUser(rq.(pass := helpers.hashPassword(rq.pass).value));
      && (sent.Failure? ==> r == (EmptyUpdateUserResponse, Some(sent.error)))
      && (sent.Success? ==> r == (sent.value, None))
  {
    match helpers.validateUpdate(rq)
    case Some(err) => (EmptyUpdateUserResponse, Some(err))
    case None =>
      match helpers.hashPassword(rq.pass)
      case Failure(err) => (EmptyUpdateUserResponse, Some(err))
      case Success(hashed) =>
        var rq := rq.(pass := hashed);
        match repo.updateUser(rq)
        case Failure(err) => (EmptyUpdateUserResponse, Some(err))
        case Success(res) => (res, None)
  }

  /** The service: built once around its repository and collaborators, which it never changes. */
  class Service {
    const repo: Repository
    const helpers: Helpers

    constructor(r: Repository, h: Helpers)
      ensures repo == r && helpers == h
    {
      repo := r;
      helpers := h;
    }

    /** Validates, overwrites the password of its copy of the request with the hash, and forwards it. */
    method CreateUser(rq: CreateUserRequest) returns (res: CreateUserResponse, err: Option<Error>)
      ensures (res, err) == CreateUserOutcome(repo, helpers, rq)
    {
      err := ValidateCreateUserRequest(rq);
      if err.Some? {
        return EmptyCreateUserResponse, err;
      }
      var forwarded := rq;
      var hashed := helpers.hashPassword(forwarded.pass);
      if hashed.Failure? {
        return EmptyCreateUserResponse, Some(hashed.error);
      }
      forwarded := forwarded.(pass := hashed.value);
      var sent := repo.createUser(forwarded);
      if sent.Failure? {
        return EmptyCreateUserResponse, Some(sent.error);
      }
      return sent.value, None;
    }

    method GetUser(rq: GetUserRequest) returns (res: GetUserResponse, err: Option<Error>)
      ensures (res, err) == GetUserOutcome(repo, rq)
    {
      err := ValidateGetUserRequest(rq);
      if err.Some? {
        return EmptyGetUserResponse, err;
      }
      var got := repo.getUser(rq);
      if got.Failure? {
        return EmptyGetUserResponse, Some(got.error);
      }
      return got.value, None;
    }

    method DeleteUser(rq: DeleteUserRequest) returns (res: DeleteUserResponse, err: Option<Error>)
      ensures (res, err) == DeleteUserOutcome(repo, helpers, rq)
    {
      err := helpers.validateDelete(rq);
      if err.Some? {
        return EmptyDeleteUserResponse, err;
      }
      var deleted := repo.deleteUser(rq);
      if deleted.Failure? {
        return EmptyDeleteUserResponse, Some(deleted.error);
      }
      return deleted.value, None;
    }

    /** Like CreateUser: validate, hash into its copy of the request, forward. */
    method UpdateUser(rq: UpdateUserRequest) returns (res: UpdateUserResponse, err: Option<Error>)
      ensures (res, err) == UpdateUserOutcome(repo, helpers, rq)
    {
      err := helpers.validateUpdate(rq);
      if err.Some? {
        return EmptyUpdateUserResponse, err;
      }
      var forwarded := rq;
      var hashed := helpers.hashPassword(forwarded.pass);
      if hashed.Failure? {
        return EmptyUpdateUserResponse, Some(hashed.error);
      }
      forwarded := forwarded.(pass := hashed.value);
      var updated := repo.updateUser(forwarded);
      if updated.Failure? {
        return EmptyUpdateUserResponse, Some(updated.error);
      }
      return updated.value, None;
    }
  }

  /**
   * A create request with a missing field is refused with FieldsMissing and an empty response before
   * the hasher or the repository is consulted: any two of each give the same outcome.
   */
  lemma InvalidCreateNeverForwarded(r1: Repository, r2: Repository, h1: Helpers, h2: Helpers, rq: CreateUserRequest)
    requires rq.age == 0 || rq.name == "" || rq.pass == "" || rq.email == ""
    ensures CreateUserOutcome(r1, h1, rq) == CreateUserOutcome(r2, h2, rq)
    ensures CreateUserOutcome(r1, h1, rq) == (EmptyCreateUserResponse, Some(Custom(NewFieldsMissing())))
  {
  }

  /** A get request with an empty id is refused with FieldsMissing whatever the repository. */
  lemma EmptyIdNeverForwarded(r1: Repository, r2: Repository, rq: GetUserRequest)
    requires rq.userID == ""
    ensures GetUserOutcome(r1, rq) == GetUserOutcome(r2, rq)
    ensures GetUserOutcome(r1, rq).1 == Some(Custom(NewFieldsMissing()))
  {
  }

  /** A hashing failure stops CreateUser and UpdateUser before the repository. */
  lemma HashFailureNeverForwarded(r1: Repository, r2: Repository, helpers: Helpers, c: CreateUserRequest, u: UpdateUserRequest)
    requires helpers.hashPassword(c.pass).Failure? && helpers.hashPassword(u.pass).Failure?
    ensures CreateUserOutcome(r1, helpers, c) == CreateUserOutcome(r2, helpers, c)
    ensures UpdateUserOutcome(r1, helpers, u) == UpdateUserOutcome(r2, helpers, u)
    ensures CreateUserOutcome(r1, helpers, c).1.Some? && UpdateUserOutcome(r1, helpers, u).1.Some?
  {
  }

  /** A refused delete or update never reaches the repository, and the validator's error is returned as it is. */
  lemma RefusedDeleteAndUpdateNeverForwarded(r1: Repository, r2: Repository, helpers: Helpers, d: DeleteUserRequest, u: UpdateUserRequest)
    requires helpers.validateDelete(d).Some? && helpers.validateUpdate(u).Some?
    ensures DeleteUserOutcome(r1, helpers, d) == DeleteUserOutcome(r2, helpers, d)
    ensures UpdateUserOutcome(r1, helpers, u) == UpdateUserOutcome(r2, helpers, u)
    ensures DeleteUserOutcome(r1, helpers, d).1 == helpers.validateDelete(d)
    ensures UpdateUserOutcome(r1, helpers, u).1 == helpers.validateUpdate(u)
  {
  }

  /**
   * The repository sees the caller's request with the password hashed and every other field as it
   * came: two repositories that answer that one request alike give the same outcome, and the
   * forwarded request differs from the caller's in the password alone.
   */
  lemma CreateForwardsHashedRequest(r1: Repository, r2: Repository, helpers: Helpers, rq: CreateUserRequest)
    requires ValidateCreateUserRequest(rq).None? && helpers.hashPassword(rq.pass).Success?
    requires var sent := CreateUserRequest(rq.name, helpers.hashPassword(rq.pass).value, rq.age, rq.email);
      r1.createUser(sent) == r2.createUser(sent)
    ensures CreateUserOutcome(r1, helpers, rq) == CreateUserOutcome(r2, helpers, rq)
  {
  }

  /** The same for UpdateUser: name, age, email and id are forwarded unchanged, the password hashed. */
  lemma UpdateForwardsHashedRequest(r1: Repository, r2: Repository, helpers: Helpers, rq: UpdateUserRequest)
    requires helpers.validateUpdate(rq).None? && helpers.hashPassword(rq.pass).Success?
    requires var sent := UpdateUserRequest(rq.name, helpers.hashPassword(rq.pass).value, rq.age, rq.email, rq.id);
      r1.updateUser(sent) == r2.updateUser(sent)
    ensures UpdateUserOutcome(r1, helpers, rq) == UpdateUserOutcome(r2, helpers, rq)
  {
  }

  /**
   * The edge adds nothing to a backend failure: the backend's error, whatever it is, is returned
   * as the error of the call, with the empty response.
   */
  lemma BackendErrorsPassThrough(repo: Repository, rq: GetUserRequest, err: Error)
    requires rq.userID != "" && repo.getUser(rq) == Failure(err)
    ensures GetUserOutcome(repo, rq) == (EmptyGetUserResponse, Some(err))
  {
  }
}
