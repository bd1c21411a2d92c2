# User microservice: a Dafny model

The system has two tiers. An HTTP edge service validates user requests, hashes passwords and
forwards each request over gRPC to a backend service. The backend stores users in one SQL table.
This project models the decision and transformation logic of both tiers:

- the error taxonomy: six error kinds, each with a fixed message, an HTTP status and a gRPC code,
  plus the edge's own HTTP classifier `CustomToHttp`;
- the edge's request validators;
- the field mappers between the shared records and the gRPC messages, on both sides of the wire;
- the backend transport's decoders, encoders and server methods;
- the SQL texts and the dynamic UPDATE builder `GenerateQuery`;
- the backend service, which classifies repository outcomes into the taxonomy;
- the edge service: validate, hash, delegate, short-circuiting at the first failure.

Modules follow the source files:

| module | file | models |
|---|---|---|
| `Errors` | `errors.dfy` | errors.go |
| `Entities` | `entities.dfy` | requests.go and user.go |
| `Queries` | `queries.dfy` | queries.go |
| `Validations` | `validations.dfy` | validations.go |
| `Proto` | `proto.dfy` | the wire messages, inferred from their uses |
| `HttpMapper` | `http_mapper.dfy` | the edge's mapper.go |
| `GrpcMapper` | `grpc_mapper.dfy` | the backend's mapper.go |
| `GrpcTransport` | `grpc_transport.dfy` | the backend's transport.go |
| `GrpcService` | `grpc_service.dfy` | the backend's service.go |
| `HttpService` | `http_service.dfy` | the edge's service.go |
| `Wire` | `wire.dfy` | states how the two tiers' conversions fit together |

Other modelling choices:

- `Wrappers` holds `Option` and `Result`.
- A Go `error` is `Errors.Error`, which has four cases:
  - one of the taxonomy's types;
  - the `sql.ErrNoRows` sentinel, which the backend compares by identity;
  - the status error a gRPC client returns, holding the code and message the server sent;
  - any other error, known only by its text.
- grpc-go's server sends `GRPCStatus()` of an error whose type has one, and `Unknown` with the error's text otherwise (`Errors.ToStatus`). Its client returns a status error whose text is "rpc error: code = C desc = M" (`Errors.Text`).
- A `(value, error)` pair that a repository returns is a `Result`.
- A service answers with the pair (response, optional error), so "empty response on error" can be stated.
- Each service is a `Service` class built once around its repository; the source's service object holds its repository and never changes it.
  - Its methods build their results step by step, as the source does. The edge methods overwrite the password in their copy of the request.
  - Each method is proved equal to a `*Outcome` specification function, and the lemmas are stated on those functions.
- Repositories and collaborators are function values:
  - the repositories;
  - the UUID generator, whose value is a parameter;
  - `HashPassword`, `ValidateDeleteUserRequest` and `ValidateUpdateUserRequest`, whose code is not part of this model.
- "The repository is never called" is stated as: any two repositories give the same outcome.

Facts about the code a reader might not expect:

- DataBaseErr's gRPC code is `Aborted`, and `Internal` belongs to GrpcErr (`Errors.GrpcCodeIdentifiesKind`).
- `CustomToHttp` picks a status only for the taxonomy's own types (`Errors.CustomToHttp`): any error that is not one of them, the gRPC client's status error included, is 500 (`Errors.CustomToHttpForeignErrors`). The edge repository hands on the gRPC client's status error as it came, so a user missing from the store is a 500 at the edge (see Findings).
- Whether an update needs all four user fields is decided by `ValidateUpdateUserRequest`, whose code is not part of this model, so the edge service takes it as a parameter.

## Model

| member | source | states |
|---|---|---|
| Errors.CustomErr.Error | grpcService/pkg/errors/errors.go:36-58 | `Error()` returns the wrapped error's text, which with the type determines the whole value |
| Errors.Text | grpcService/pkg/errors/errors.go:36-58 | `err.Error()` of any error: a taxonomy error's own text, and for a gRPC client error "rpc error: code = C desc = M" |
| Errors.NewFieldsMissing | grpcService/pkg/errors/errors.go:60-62 | a FieldsMissingErr whose `Error()` is "all fields are required" |
| Errors.NewUserNotFound | grpcService/pkg/errors/errors.go:64-66 | a UserNotFoundErr whose `Error()` is "user not found" |
| Errors.NewGrpcError | grpcService/pkg/errors/errors.go:68-70 | a GrpcErr whose `Error()` is "uknown grpc error" |
| Errors.NewDataBaseError | grpcService/pkg/errors/errors.go:72-74 | a DataBaseErr whose `Error()` is "unknown database error" |
| Errors.NewDeniedAuthentication | grpcService/pkg/errors/errors.go:76-78 | a DeniedAuthentication whose `Error()` is "password is incorrect" |
| Errors.NewUserAlreadyExists | grpcService/pkg/errors/errors.go:80-82 | a UserAlreadyExists whose `Error()` is "user already exists in database" |
| Errors.New | grpcService/pkg/errors/errors.go:60-82 | the constructor of each kind builds a value of that kind |
| Errors.MessagesIdentifyKinds | grpcService/pkg/errors/errors.go:60-82 | the six messages are pairwise distinct, so comparing `err.Error()` with a constructor's message identifies the kind |
| Errors.StatusCode | grpcService/pkg/errors/errors.go:84-126 | a kind's own HTTP status is always one of 400, 401, 404, 409 and 500 |
| Errors.StatusCodeTable | grpcService/pkg/errors/errors.go:84-126 | the per-kind table: UserNotFound 404, DeniedAuthentication 401, FieldsMissing 400, DataBase 500, Grpc 500, UserAlreadyExists 409 |
| Errors.GRPCStatus | grpcService/pkg/errors/errors.go:88-130 | the gRPC status always carries the error's own text as its message |
| Errors.GrpcCodeIdentifiesKind | grpcService/pkg/errors/errors.go:88-130 | the code table is NotFound, PermissionDenied, InvalidArgument, Aborted, Internal and AlreadyExists, each iff its kind, so the code alone identifies the kind |
| Errors.CustomToHttp | grpcService/pkg/errors/errors.go:132-148 | the edge's classification of any error lies in {400, 401, 404, 409, 500, 503}, and it is 503 exactly for DataBaseErr |
| Errors.CustomToHttpAgreesWithStatusCode | grpcService/pkg/errors/errors.go:133-143 | the classifier agrees with the error's own `StatusCode()` on every kind except DataBaseErr, in both directions |
| Errors.CustomToHttpSeparatesServerErrors | grpcService/pkg/errors/errors.go:108-118 | DataBaseErr declares 500 but is classified as 503, while GrpcErr stays at 500: two kinds with equal status codes are told apart |
| Errors.CustomToHttpForeignErrors | grpcService/pkg/errors/errors.go:144-145 | an error outside the taxonomy (sql.ErrNoRows, gRPC client errors, driver errors) is classified as 500 |
| Errors.ToStatus | grpcService/pkg/errors/errors.go:88-130 | the status a gRPC server sends for an error: the taxonomy's `GRPCStatus()`, a received status unchanged, and Unknown with the error's text for anything else |
| Entities.FieldsReferenceSqlCoversUser | grpcService/pkg/entities/user.go:3-16 | the table's keys are exactly User's field names, so the lookup in GenerateQuery never misses |
| Entities.FieldsReferenceSqlEntries | grpcService/pkg/entities/user.go:11-16 | Name to first_name, Pass to pass, Age to age, Email to email |
| Entities.FieldsReferenceSqlInjective | grpcService/pkg/entities/user.go:11-16 | distinct fields are stored in distinct columns |
| Validations.ValidateCreateUserRequest | httpService/pkg/utils/validations.go:10-15 | fails iff the age is 0 or name, password or email is empty, and the failure is always FieldsMissing |
| Validations.ValidateGetUserRequest | httpService/pkg/utils/validations.go:17-22 | fails iff the user id is empty, and the failure is always FieldsMissing |
| Validations.ValidateCreateDependsOnlyOnPresence | httpService/pkg/utils/validations.go:11 | the verdict depends only on which strings are empty and whether the age is zero, never on content |
| Validations.ValidatorsOnlyReportFieldsMissing | httpService/pkg/utils/validations.go:12-19 | FieldsMissing is the only error either validator reports, and both status mappings give it 400 |
| Queries.CreateUserQueryShape | grpcService/pkg/utils/queries.go:12 | CreateUserQuery lists the five columns first_name, id, pass, age, email and carries five placeholders |
| Queries.MappedColumnsAreInsertColumns | grpcService/pkg/entities/user.go:11-16 | every column of the field table appears in CreateUserQuery's column list |
| Queries.CreateUserArgs | grpcService/pkg/user/repository.go:33 | one argument per column of CreateUserQuery: name, the new id, password, age, email |
| Queries.CreateUserBindOrder | grpcService/pkg/user/repository.go:33 | the repository binds the id at the "id" position and each user field at the position of its own column in CreateUserQuery |
| Queries.Reflect | grpcService/pkg/utils/queries.go:27-30 | reflection visits User's fields in declaration order Name, Pass, Age, Email |
| Queries.GenerateQuery | grpcService/pkg/utils/queries.go:19-41 | the text is "UPDATE USER SET", then the selected columns with nothing between them, then "WHERE id = ?"; the arguments are the selected fields' values in the same order |
| Queries.GenerateQueryColumns | grpcService/pkg/utils/queries.go:30-36 | a string field's column is written iff the field is non-empty, in field order, and "age" always, because a uint32 never equals "" |
| Queries.GenerateQueryArgs | grpcService/pkg/utils/queries.go:25-39 | one argument per selected column, in the same order, and the id is never among them |
| Queries.GenerateQueryPlaceholders | grpcService/pkg/utils/queries.go:23-39 | the text always holds exactly one placeholder, while there are 1 + (non-empty strings) arguments; with all strings empty, the one argument is the age |
| Queries.GenerateQueryTestUser | grpcService/pkg/utils/queries.go:19-41 | for the services' test user the text is "UPDATE USER SET" + "first_namepassageemail" + "WHERE id = ?" with four arguments against one placeholder |
| Queries.GenerateQueryCorrected | grpcService/pkg/utils/queries.go:19-41 | the corrected statement is "UPDATE USER SET " + the comma-joined assignments + " WHERE id = ?"; it has as many placeholders as arguments, its last argument is the id, and the others are the non-zero fields' values |
| Queries.AssignedValues | grpcService/pkg/utils/queries.go:31-33 | the corrected builder binds one value per assignment and never a zero value |
| Queries.AssignmentsPlaceholders | grpcService/pkg/utils/queries.go:32 | every corrected `column = ?` assignment carries exactly one placeholder |
| Queries.GenerateQueryCorrectedAssignments | grpcService/pkg/utils/queries.go:30-36 | the corrected builder sets a field iff it is not its zero value, in field order, so an age of 0 is left alone |
| Queries.GenerateQueryCorrectedValues | grpcService/pkg/utils/queries.go:30-36 | the corrected builder's values follow its assignments field by field |
| GrpcMapper.CreateUserRequestToUser | grpcService/pkg/mapper/mapper.go:5-14 | the user holds the request's four fields, so the request can be rebuilt from it |
| GrpcMapper.CreateUserRequestToUserCopies | grpcService/pkg/mapper/mapper.go:5-14 | each of the four fields is copied unchanged into User's field of the same name |
| GrpcMapper.CreateUserRequestToUserInjective | grpcService/pkg/mapper/mapper.go:7-12 | distinct requests give distinct users |
| GrpcMapper.CreateUserRequestToUserSurjective | grpcService/pkg/mapper/mapper.go:7-12 | every user is the image of a request, so the mapping is a bijection |
| HttpMapper.CreateToProto | httpService/pkg/mapper/mapper.go:8-15 | the message holds the request's name, password, age and email, from which the request can be rebuilt |
| HttpMapper.CreateFromProto | httpService/pkg/mapper/mapper.go:23-30 | given a non-nil Status, the record keeps the status code and message and the user id, from which the message can be rebuilt |
| HttpMapper.GetToProto | httpService/pkg/mapper/mapper.go:17-21 | the message's User_Id is the request's user id |
| HttpMapper.GetFromProto | httpService/pkg/mapper/mapper.go:32-39 | the record keeps the message's id, name, age and email, from which the message can be rebuilt |
| HttpMapper.DeleteToProto | httpService/pkg/mapper/mapper.go:41-45 | the message's User_Id is the request's user id |
| HttpMapper.DeleteFromProto | httpService/pkg/mapper/mapper.go:47-54 | given a non-nil Status, the record keeps its code and message, from which the message can be rebuilt |
| HttpMapper.UpdateToProto | httpService/pkg/mapper/mapper.go:56-64 | the message holds all five fields of the request, the Id included |
| HttpMapper.UpdateFromProto | httpService/pkg/mapper/mapper.go:66-73 | given a non-nil Status, the record keeps its code and message, from which the message can be rebuilt |
| HttpMapper.ToProtoInjective | httpService/pkg/mapper/mapper.go:8-64 | the four outgoing mappers lose nothing: distinct requests give distinct messages |
| HttpMapper.ToProtoCopies | httpService/pkg/mapper/mapper.go:17-64 | the id travels unchanged into User_Id, and an update message carries all five fields, the Id included |
| HttpMapper.FromProtoStatus | httpService/pkg/mapper/mapper.go:23-73 | given a non-nil Status, the incoming mappers keep its code and message and the user id, and nothing else for delete and update |
| HttpMapper.GetFromProtoCopies | httpService/pkg/mapper/mapper.go:32-39 | a get response's name, id, age and email are copied unchanged |
| GrpcTransport.DecodeCreateUserRequest | grpcService/pkg/user/transport.go:73-87 | fails, with GrpcErr, iff the message is not a create request |
| GrpcTransport.DecodeGetUserRequest | grpcService/pkg/user/transport.go:96-107 | fails, with GrpcErr, iff the message is not a get request |
| GrpcTransport.DecodeDeleteUserRequest | grpcService/pkg/user/transport.go:118-127 | fails, with GrpcErr, iff the message is not a delete request |
| GrpcTransport.DecodersCopy | grpcService/pkg/user/transport.go:73-127 | a decoded create request has the message's four fields; get and delete carry User_Id over as the id |
| GrpcTransport.EncodeCreateUserResponse | grpcService/pkg/user/transport.go:89-94 | never fails and always sets a non-nil Status |
| GrpcTransport.EncodeGetUserResponse | grpcService/pkg/user/transport.go:109-116 | fails, with GrpcErr, iff the response is not a get response; a message it builds has an empty Email |
| GrpcTransport.EncodeDeleteUserRequest | grpcService/pkg/user/transport.go:129-133 | never fails and always sets a non-nil Status |
| GrpcTransport.EncodersCopy | grpcService/pkg/user/transport.go:89-133 | the encoders copy the Status pair and the user id; a get message keeps Id, Name and Age and drops Email |
| GrpcTransport.ServerCreateUser | grpcService/pkg/user/transport.go:43-52 | an error comes back iff the handler failed, always with a nil response; otherwise the handler's message comes back |
| GrpcTransport.ServerGetUser | grpcService/pkg/user/transport.go:54-62 | the same for get |
| GrpcTransport.ServerDeleteUser | grpcService/pkg/user/transport.go:64-71 | the same for delete |
| GrpcService.CreateErrorFor | grpcService/pkg/user/service.go:42-47 | a create failure is UserAlreadyExists iff its text is exactly the driver's text for a duplicate of the empty email, and DataBaseError otherwise |
| GrpcService.DuplicateEntryText | grpcService/pkg/user/service.go:43 | the driver's text for a duplicate email starts with "Error 1062:" and is as long as the compared text plus the email |
| GrpcService.DuplicateEmailTextIsEmptyEmail | grpcService/pkg/user/service.go:43 | the compared literal is exactly the driver's text for a duplicate of the empty email |
| GrpcService.CreateErrorForMissesRealDuplicates | grpcService/pkg/user/service.go:43-47 | the duplicate of any non-empty email, "timoteo@globant.com" among them, is classified as DataBaseError |
| GrpcService.CreateErrorForCorrected | grpcService/pkg/user/service.go:42-47 | corrected: a create failure is UserAlreadyExists iff its text starts with the duplicate-key error number 1062, and DataBaseError otherwise |
| GrpcService.CreateErrorForCorrectedCatchesEveryDuplicate | grpcService/pkg/user/service.go:43-44 | corrected: the duplicate of every email, the empty one included, is UserAlreadyExists |
| GrpcService.LookupErrorFor | grpcService/pkg/user/service.go:61-67 | a lookup failure is UserNotFound iff it is the sql.ErrNoRows sentinel, and DataBaseError otherwise |
| GrpcService.CreateUserOutcome | grpcService/pkg/user/service.go:32-55 | fails iff the repository fails, with the empty response and the classified error; on success, Status (0, "created successfully") and the id the repository returned |
| GrpcService.GetUserOutcome | grpcService/pkg/user/service.go:57-77 | fails iff the repository fails, with the empty response; on success, name and age from the store, id from the request, email empty |
| GrpcService.DeleteUserOutcome | grpcService/pkg/user/service.go:79-100 | fails iff the repository fails, with the empty response; on success, Status (0, "User deleted succesfully") |
| GrpcService.Service.CreateUser | grpcService/pkg/user/service.go:32-55 | the method, building response and status field by field, answers CreateUserOutcome |
| GrpcService.Service.GetUser | grpcService/pkg/user/service.go:57-77 | the method answers GetUserOutcome |
| GrpcService.Service.DeleteUser | grpcService/pkg/user/service.go:79-100 | the method answers DeleteUserOutcome |
| GrpcService.NoRawErrorEscapes | grpcService/pkg/user/service.go:42-92 | whatever the repository does, every error returned is from the taxonomy and comes with the empty response: UserAlreadyExists or DataBase on create, UserNotFound or DataBase on lookups |
| GrpcService.CreateUserConsultsOnlyTheMappedUser | grpcService/pkg/user/service_test.go:76-80 | the repository is asked only about the mapped user under the generated id |
| GrpcService.CreateUserEchoesGeneratedId | grpcService/pkg/user/service_test.go:65-81 | with a repository that returns the id it is given, the response is exactly Status (0, "created successfully") with the generated id |
| GrpcService.CreateUserErrorGrpcCode | grpcService/pkg/user/service.go:42-47 | the backend sends AlreadyExists "user already exists in database" for a failure with the compared text, and Aborted "unknown database error" for any other create failure |
| GrpcService.GetUserHidesPasswordAndEmail | grpcService/pkg/user/service_test.go:152-166 | the stored password and email never reach a get response; the id is the one asked for |
| GrpcService.LookupErrorGrpcCode | grpcService/pkg/user/service.go:62-91 | the backend sends NotFound "user not found" for sql.ErrNoRows from get and from delete; an error that only has the same text is sent as Aborted |
| HttpService.CreateUserOutcome | httpService/pkg/user/service.go:28-52 | an invalid request gives the validator's error; a hashing failure gives that error; otherwise the repository's answer to the request with its password hashed, errors with the empty response |
| HttpService.GetUserOutcome | httpService/pkg/user/service.go:54-70 | an empty id gives FieldsMissing; otherwise the repository's error with the empty response, or its response unchanged |
| HttpService.DeleteUserOutcome | httpService/pkg/user/service.go:72-88 | the validator's error first; otherwise the repository's error with the empty response, or its response unchanged |
| HttpService.UpdateUserOutcome | httpService/pkg/user/service.go:90-112 | validate, then hash, then the repository's answer to the hashed request, each failure with the empty response |
| HttpService.Service.CreateUser | httpService/pkg/user/service.go:28-52 | the method, overwriting the password of its copy of the request, answers CreateUserOutcome |
| HttpService.Service.GetUser | httpService/pkg/user/service.go:54-70 | the method answers GetUserOutcome |
| HttpService.Service.DeleteUser | httpService/pkg/user/service.go:72-88 | the method answers DeleteUserOutcome |
| HttpService.Service.UpdateUser | httpService/pkg/user/service.go:90-112 | the method answers UpdateUserOutcome |
| HttpService.InvalidCreateNeverForwarded | httpService/pkg/user/service.go:31-35 | a create with a missing field gives FieldsMissing and the empty response whatever the hasher and the repository |
| HttpService.EmptyIdNeverForwarded | httpService/pkg/user/service.go:57-60 | a get with an empty id gives FieldsMissing whatever the repository |
| HttpService.HashFailureNeverForwarded | httpService/pkg/user/service.go:37-41 | a hashing failure stops create and update before the repository |
| HttpService.RefusedDeleteAndUpdateNeverForwarded | httpService/pkg/user/service.go:75-97 | a refused delete or update never reaches the repository and returns the validator's error as it is |
| HttpService.CreateForwardsHashedRequest | httpService/pkg/user/service.go:37-43 | the repository sees the caller's create request with only the password replaced by its hash |
| HttpService.UpdateForwardsHashedRequest | httpService/pkg/user/service.go:99-105 | the repository sees the caller's update request with only the password replaced by its hash |
| HttpService.BackendErrorsPassThrough | httpService/pkg/user/service_test.go:176-180 | a backend error comes back unchanged, with the empty response |
| Wire.RequestsRoundTrip | httpService/pkg/mapper/mapper.go:8-45 | every create, get and delete request the edge sends is decoded by the backend into the record the edge started from |
| Wire.ResponsesRoundTrip | grpcService/pkg/user/transport.go:89-133 | create and delete responses reach the edge unchanged; a get response arrives with its email emptied and the rest kept |
| Wire.RemoteGetUser | httpService/pkg/user/repository.go:43-59 | the edge repository's get over the backend succeeds iff the backend's store does, and a failure is the gRPC client's status error carrying the gRPC status of the backend's classified error |
| Wire.EdgeMissingUserIs500 | httpService/pkg/user/repository.go:48-53 | a user missing from the store reaches the edge service as the client's NotFound status error, which `CustomToHttp` answers with 500 |
| Wire.FromStatus | grpcService/pkg/errors/errors.go:88-130 | corrected: a status with one of the taxonomy's codes becomes the taxonomy error whose `GRPCStatus()` it is; an Unknown status stays a client error |
| Wire.StatusRoundTrip | grpcService/pkg/errors/errors.go:88-130 | corrected: FromStatus inverts `GRPCStatus()` on every taxonomy error |
| Wire.RemoteGetUserCorrected | httpService/pkg/user/repository.go:48-53 | corrected: the edge repository's get fails iff the store does, with the backend's own classified error |
| Wire.EdgeMissingUserIs404Corrected | httpService/pkg/user/transport.go:98-100 | corrected: a user missing from the store is 404 at the edge, and any other storage failure 503 |
| Wire.EdgeGetUserReturnsStoredNameAndAge | grpcService/pkg/user/service.go:70-74 | a user looked up through the edge comes back with the stored name and age, the id asked for and an empty email |

## Left out

- The SQL repository, the gRPC client and the HTTP transport are left out. They are I/O over libraries; the services take the repository as a function value.
- The go-kit server wiring, `ServeGRPC`, the endpoints and `errors.NewBadRequest` are framework glue. The server methods take ServeGRPC's outcome as a parameter, and `Wire.RemoteGetUser` composes the stages for one call by hand.
- The gRPC library's error transport is reduced to `Errors.ToStatus` on the server and a status error on the client. Status details, and codes the taxonomy never uses other than Unknown, are not modelled.
- Logging, and the debug `fmt.Printf` inside GenerateQuery, are not modelled.
- The context argument is dropped. Cancellation is not modelled.
- UUID generation is a parameter of CreateUser.
- `HashPassword`, `ValidateDeleteUserRequest` and `ValidateUpdateUserRequest` are function values, because their code is not part of this model.
- GenerateQuery's arguments are `reflect.Value`s in the code. The model holds the field values they wrap.
- Errors.CustomErr.Error: a taxonomy value built without a constructor wraps a nil error, and its `Error()` would print "<nil>". The model builds errors only through the constructors.
- GrpcTransport.DecodeCreateUserRequest: a nil message of the right type passes the type assertion and then panics on dereference. The model has no nil messages.
- GrpcTransport.EncodeCreateUserResponse: its unchecked type assertion is a `requires`. The same holds for EncodeDeleteUserRequest and the server methods.
- HttpMapper.CreateFromProto: a nil Status would panic. The nil case is a `requires` of CreateFromProto, DeleteFromProto and UpdateFromProto.
- The backend's service and transport have no UpdateUser, although the endpoints' interface names one. Only the edge's UpdateUser is modelled.
- The constants GetUserQuery, GetPasswordQuery, DeleteUserQuery and UpdateUserQuery are only stated as constants. The repository prepares GetUserQuery (grpcService/pkg/user/repository.go:48) and DeleteUserQuery (repository.go:68); GetPasswordQuery and UpdateUserQuery are never used.
- Only the get path is composed across the wire (`Wire.RemoteGetUser`). Create and delete cross it the same way; their requests and responses are covered by `Wire.RequestsRoundTrip` and `Wire.ResponsesRoundTrip`.
- The stale copy of the edge mapper under httpService/pkg/utils is not part of this model.
- The uint32 Age and the int32 Status code are newtypes with their ranges. No arithmetic is done on them, so nothing wraps around.

## Findings

| source | as written | input that shows it | evidently intended | confidence | as-written member | corrected member |
|---|---|---|---|---|---|---|
| grpcService/pkg/utils/queries.go:23-39 | GenerateQuery appends bare column names with no separators, no `= ?` and no space before WHERE. It always selects Age, because a uint32 never equals "". It leaves the id out of the arguments. The defect is latent: nothing in the code calls GenerateQuery, and UpdateUserQuery is unused too, since the backend has no update path. | User("Timo", "123", 19, "timoteo@globant.com") gives "UPDATE USER SET" + "first_namepassageemail" + "WHERE id = ?": one placeholder against four arguments | `UPDATE USER SET c1 = ?, c2 = ? WHERE id = ?` over the fields that are not zero values, binding their values and then the id; the caller must set at least one field, since with none the SET list is empty | not executed | Queries.GenerateQueryTestUser | Queries.GenerateQueryCorrected |
| grpcService/pkg/user/service.go:43 | CreateUser recognises a duplicate only when the driver's text is exactly "Error 1062: Duplicate entry '' for key 'USER.email'", the duplicate of the empty email | a second user with email "timoteo@globant.com" fails with "Error 1062: Duplicate entry 'timoteo@globant.com' for key 'USER.email'", which the backend sends as Aborted "unknown database error" (DataBaseError); the edge answers 500, see the third row | every duplicate-key failure, error number 1062, is UserAlreadyExists, sent by the backend as AlreadyExists; 409 at the edge only together with the correction of the repository.go:48-53 row | not executed | GrpcService.CreateErrorForMissesRealDuplicates | GrpcService.CreateErrorForCorrected |
| httpService/pkg/user/repository.go:48-53 | the edge repository returns the gRPC client's error as it is; it is a status error, none of the taxonomy's types, and `CustomToHttp` answers it with 500 | a get of an id with no row: the backend sends NotFound "user not found", and the edge answers 500 | the edge turns the received status back into the taxonomy error, so a missing user is 404 and a storage failure 503 | not executed | Wire.EdgeMissingUserIs500 | Wire.RemoteGetUserCorrected |
