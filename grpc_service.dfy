/**
 * The backend's user service (grpcService/pkg/user/service.go): it maps a request to the stored
 * user, calls the repository, and translates the repository's errors into the custom taxonomy, so
 * that no raw driver error leaves the backend.
 */
module GrpcService {
  import opened Wrappers
  import opened Errors
  import opened Entities
  import opened GrpcMapper

  /**
   * The repository the service is built with, one function per interface method. The context
   * argument is left out; the new identifier is a parameter because it comes from a UUID generator.
   */
  datatype Repository = Repository(
    getUser: string -> Result<User, Error>,
    createUser: (User, string) -> Result<string, Error>,
    deleteUser: string -> Option<Error>)

  /**
   * The text CreateUser compares a failure with: the driver's text for a duplicate entry on the
   * email column whose duplicated value is the empty email.
   */
  const DuplicateEmailText := "Error 1062: Duplicate entry '' for key 'USER.email'"

  /** The prefix of the driver's text for any duplicate key: MySQL error number 1062. */
  const DuplicateKeyPrefix := "Error 1062:"

  /** The driver's text for a duplicate entry on the email column, holding the duplicated email. */
  function DuplicateEntryText(email: string): (text: string)
    ensures |text| == |DuplicateEmailText| + |email|
    ensures text[..|DuplicateKeyPrefix|] == DuplicateKeyPrefix
  {
    DuplicateKeyPrefix + " Duplicate entry '" + email + "' for key 'USER.email'"
  }

  /** The compared literal is the driver's text for a duplicate of the empty email. */
  lemma DuplicateEmailTextIsEmptyEmail()
    ensures DuplicateEntryText("") == DuplicateEmailText
  {
  }

  const CreatedMessage := "created successfully"
  const DeletedMessage := "User deleted succesfully"

  /** CreateUser's translation of a repository failure, decided by the error's text. */
  function CreateErrorFor(err: Error): (c: CustomErr)
    ensures c == NewUserAlreadyExists() <==> Text(err) == DuplicateEmailText
    ensures c != NewUserAlreadyExists() ==> c == NewDataBaseError()
  {
    if Text(err) == DuplicateEmailText then NewUserAlreadyExists() else NewDataBaseError()
  }

  /** GetUser's and DeleteUser's translation, decided by identity with sql.ErrNoRows. */
  function LookupErrorFor(err: Error): (c: CustomErr)
    ensures c == NewUserNotFound() <==> err == NoRows
    ensures c != NewUserNotFound() ==> c == NewDataBaseError()
  {
    if err == NoRows then NewUserNotFound() else NewDataBaseError()
  }

  /** What the service's CreateUser answers; newId is the identifier generateId would produce. */
  function CreateUserOutcome(repo: Repository, userReq: CreateUserRequest, newId: string): (r: (CreateUserResponse, Option<Error>))
    ensures var stored := repo.createUser(CreateUserRequestToUser(userReq), newId);
      && (r.1 == None <==> stored.Success?)
      && (stored.Failure? ==> r.0 == EmptyCreateUserResponse && r.1 == Some(Custom(CreateErrorFor(stored.error))))
      && (stored.Success? ==> r.0.status == Status(0, CreatedMessage) && r.0.userId == stored.value)
  {
    var user := CreateUserRequestToUser(userReq);
    match repo.createUser(user, newId)
    case Failure(err) => (EmptyCreateUserResponse, Some(Custom(CreateErrorFor(err))))
    case Success(genId) =>
      var status := ZeroStatus.(message := CreatedMessage);
      (EmptyCreateUserResponse.(status := status, userId := genId), None)
  }

  /** What the service's GetUser answers. */
  function GetUserOutcome(repo: Repository, user: GetUserRequest): (r: (GetUserResponse, Option<Error>))
    ensures var stored := repo.getUser(user.userID);
      && (r.1 == None <==> stored.Success?)
      && (stored.Failure? ==> r.0 == EmptyGetUserResponse && r.1 == Some(Custom(LookupErrorFor(stored.error))))
      && (stored.Success? ==>
            r.0.name == stored.value.name && r.0.id == user.userID && r.0.age == stored.value.age && r.0.email == "")
  {
    match repo.getUser(user.userID)
    case Failure(err) => (EmptyGetUserResponse, Some(Custom(LookupErrorFor(err))))
    case Success(res) => (EmptyGetUserResponse.(name := res.name, id := user.userID, age := res.age), None)
  }

  /** What the service's DeleteUser answers. */
  function DeleteUserOutcome(repo: Repository, rq: DeleteUserRequest): (r: (DeleteUserResponse, Option<Error>))
    ensures var failed := repo.deleteUser(rq.userId);
      && (r.1 == None <==> failed == None)
      && (failed.Some? ==> r.0 == EmptyDeleteUserResponse && r.1 == Some(Custom(LookupErrorFor(failed.value))))
      && (failed == None ==> r.0 == DeleteUserResponse(Status(0, DeletedMessage)))
  {
    var userId := rq.userId;
    match repo.deleteUser(userId)
    case Some(err) => (EmptyDeleteUserResponse, Some(Custom(LookupErrorFor(err))))
    case None => (DeleteUserResponse(Status(0, DeletedMessage)), None)
  }

  /** The service: built once around its repository, which it never changes. */
  class Service {
    const repo: Repository

    constructor(r: Repository)
      ensures repo == r
    {
      repo := r;
    }

    /** Builds the response and its status field by field, as the source does. */
    method CreateUser(userReq: CreateUserRequest, newId: string) returns (res: CreateUserResponse, err: Option<Error>)
      ensures (res, err) == CreateUserOutcome(repo, userReq, newId)
    {
      var response := EmptyCreateUserResponse;
      var status := ZeroStatus;
      var user := CreateUserRequestToUser(userReq);
      var stored := repo.createUser(user, newId);
      if stored.Failure? {
        if Text(stored.error) == DuplicateEmailText {
          return EmptyCreateUserResponse, Some(Custom(NewUserAlreadyExists()));
        }
        return EmptyCreateUserResponse, Some(Custom(NewDataBaseError()));
      }
      status := status.(message := CreatedMessage);
      response := response.(status := status);
      response := response.(userId := stored.value);
      return response, None;
    }

    method GetUser(user: GetUserRequest) returns (res: GetUserResponse, err: Option<Error>)
      ensures (res, err) == GetUserOutcome(repo, user)
    {
      var stored := repo.getUser(user.userID);
      if stored.Failure? {
        if stored.error == NoRows {
          return EmptyGetUserResponse, Some(Custom(NewUserNotFound()));
        }
        return EmptyGetUserResponse, Some(Custom(NewDataBaseError()));
      }
      var response := GetUserResponse(name := stored.value.name, id := user.userID, age := stored.value.age, email := "");
      return response, None;
    }

    method DeleteUser(rq: DeleteUserRequest) returns (res: DeleteUserResponse, err: Option<Error>)
      ensures (res, err) == DeleteUserOutcome(repo, rq)
    {
      var userId := rq.userId;
      var failed := repo.deleteUser(userId);
      if failed.Some? {
        if failed.value == NoRows {
          return EmptyDeleteUserResponse, Some(Custom(NewUserNotFound()));
        }
        return EmptyDeleteUserResponse, Some(Custom(NewDataBaseError()));
      }
      return DeleteUserResponse(Status(0, DeletedMessage)), None;
    }
  }

  /**
   * Whatever the repository does, every error the service returns is one of the taxonomy's and
   * carries the empty response; CreateUser reports only UserAlreadyExists or DataBase, the lookups
   * only UserNotFound or DataBase.
   */
  lemma NoRawErrorEscapes(repo: Repository, c: CreateUserRequest, newId: string, g: GetUserRequest, d: DeleteUserRequest)
    ensures var (res, err) := CreateUserOutcome(repo, c, newId);
      err.Some? ==> (res == EmptyCreateUserResponse && err.value.Custom?
                     && err.value.c.kind in {UserAlreadyExists, DataBase})
    ensures var (res, err) := GetUserOutcome(repo, g);
      err.Some? ==> res == EmptyGetUserResponse && err.value.Custom? && err.value.c.kind in {UserNotFound, DataBase}
    ensures var (res, err) := DeleteUserOutcome(repo, d);
      err.Some? ==> res == EmptyDeleteUserResponse && err.value.Custom? && err.value.c.kind in {UserNotFound, DataBase}
  {
  }

  /**
   * The repository is asked to store exactly the request's fields under the generated id: two
   * repositories that answer that one call alike give the same outcome.
   */
  lemma CreateUserConsultsOnlyTheMappedUser(r1: Repository, r2: Repository, userReq: CreateUserRequest, newId: string)
    requires r1.createUser(User(userReq.name, userReq.pass, userReq.age, userReq.email), newId)
          == r2.createUser(User(userReq.name, userReq.pass, userReq.age, userReq.email), newId)
    ensures CreateUserOutcome(r1, userReq, newId) == CreateUserOutcome(r2, userReq, newId)
  {
    CreateUserRequestToUserCopies(userReq);
  }

  /**
   * A repository that hands back the identifier it was given makes the response carry the generated
   * id, and nothing else about the request reaches the response.
   */
  lemma CreateUserEchoesGeneratedId(repo: Repository, userReq: CreateUserRequest, newId: string)
    requires forall u: User, id: string :: repo.createUser(u, id) == Success(id)
    ensures CreateUserOutcome(repo, userReq, newId) == (CreateUserResponse(Status(0, CreatedMessage), newId), None)
  {
  }

  /**
   * The gRPC status the backend sends for a failed create: AlreadyExists with the taxonomy's message
   * for the compared text, Aborted with "unknown database error" for any other failure.
   */
  lemma CreateUserErrorGrpcCode(repo: Repository, userReq: CreateUserRequest, newId: string)
    requires repo.createUser(CreateUserRequestToUser(userReq), newId).Failure?
    ensures var sent := ToStatus(CreateUserOutcome(repo, userReq, newId).1.value);
      var text := Text(repo.createUser(CreateUserRequestToUser(userReq), newId).error);
      && (text == DuplicateEmailText ==> sent == GrpcStatus(AlreadyExists, "user already exists in database"))
      && (text != DuplicateEmailText ==> sent == GrpcStatus(Aborted, "unknown database error"))
  {
  }

  /**
   * As written, a duplicate of any non-empty email is not recognised: its text is longer than the
   * compared one, so CreateUser reports DataBaseError instead of UserAlreadyExists.
   */
  lemma CreateErrorForMissesRealDuplicates(email: string)
    requires email != ""
    ensures CreateErrorFor(Raw(DuplicateEntryText(email))) == NewDataBaseError()
    ensures CreateErrorFor(Raw(DuplicateEntryText("timoteo@globant.com"))) == NewDataBaseError()
  {
    assert |DuplicateEntryText(email)| != |DuplicateEmailText|;
    assert |DuplicateEntryText("timoteo@globant.com")| != |DuplicateEmailText|;
  }

  /** The classification CreateUser evidently means: any duplicate-key failure is UserAlreadyExists. */
  function CreateErrorForCorrected(err: Error): (c: CustomErr)
    ensures c == NewUserAlreadyExists() <==> (|DuplicateKeyPrefix| <= |Text(err)| && Text(err)[..|DuplicateKeyPrefix|] == DuplicateKeyPrefix)
    ensures c != NewUserAlreadyExists() ==> c == NewDataBaseError()
  {
    var text := Text(err);
    if |DuplicateKeyPrefix| <= |text| && text[..|DuplicateKeyPrefix|] == DuplicateKeyPrefix then
      NewUserAlreadyExists()
    else
      NewDataBaseError()
  }

  /** The corrected classification recognises the duplicate of every email, the empty one included. */
  lemma CreateErrorForCorrectedCatchesEveryDuplicate(email: string)
    ensures CreateErrorForCorrected(Raw(DuplicateEntryText(email))) == NewUserAlreadyExists()
  {
    var text := DuplicateEntryText(email);
    assert |DuplicateKeyPrefix| <= |text|;
  }

  /**
   * The stored password and email never reach a get response: two stored users with the same name
   * and age give the same answer, and the id is the one asked for.
   */
  lemma GetUserHidesPasswordAndEmail(r1: Repository, r2: Repository, user: GetUserRequest)
    requires r1.getUser(user.userID).Success? && r2.getUser(user.userID).Success?
    requires r1.getUser(user.userID).value.name == r2.getUser(user.userID).value.name
    requires r1.getUser(user.userID).value.age == r2.getUser(user.userID).value.age
    ensures GetUserOutcome(r1, user) == GetUserOutcome(r2, user)
    ensures GetUserOutcome(r1, user).0.id == user.userID
  {
  }

  /**
   * The gRPC status the backend sends for a failed lookup: NotFound for a missing row, from both
   * lookups, and Aborted for any other failure; in particular a failure whose text merely equals
   * that of sql.ErrNoRows is not taken for it.
   */
  lemma LookupErrorGrpcCode(repo: Repository, g: GetUserRequest, d: DeleteUserRequest)
    ensures repo.getUser(g.userID) == Failure(NoRows) ==>
      ToStatus(GetUserOutcome(repo, g).1.value) == GrpcStatus(NotFound, "user not found")
    ensures repo.deleteUser(d.userId) == Some(NoRows) ==>
      ToStatus(DeleteUserOutcome(repo, d).1.value) == GrpcStatus(NotFound, "user not found")
    ensures repo.getUser(g.userID) == Failure(Raw("sql: no rows in result set")) ==>
      ToStatus(GetUserOutcome(repo, g).1.value).code == Aborted
  {
  }
}
