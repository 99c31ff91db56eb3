/** The user HTTP handler (`internal/user/handler/handler.go`). Each verb is a
    pure function from what its collaborators answered to an `Outcome`: the
    response the handler writes, the service call it made (with its
    arguments), and whether it logged an error.

    Collaborators appear as inputs, never as code:
    - the core-go request helpers (`Decode`, `DecodeAndCheckId`,
      `BuildMapAndCheckId`, `GetRequiredString`) and `search.Decode` are
      given by their `Result`;
    - `HasError` applied to what `Validate` found for a user is the predicate
      `invalid`;
    - `IsFound` and `search.GetOffset` are function parameters;
    - the service's reply is given by its `Result`, and only matters when
      the outcome records that the service was called. */
module Handler {
  import opened Values
  import opened Results
  import opened ResultCode

  /** `model.User`. The handler never looks inside a user; it only passes
      it on to the validator, the service and the response. */
  datatype User = User(id: GoString, attributes: FieldMap)

  /** `model.UserFilter` as filled by `search.Decode`: the page and limit of
      the embedded `search.Filter`, and the user-specific criteria. */
  datatype UserFilter = UserFilter(page: int64, limit: int64, criteria: FieldMap)

  /** What `core.BuildMapAndCheckId` yields for a patch: the typed user and
      the map of the fields present in the body. */
  datatype PatchRequest = PatchRequest(user: User, fields: FieldMap)

  /** What the service's Search returns besides its error. */
  datatype SearchReply = SearchReply(list: seq<User>, total: int64)

  /** A call into the user service, with the arguments the handler passed. */
  datatype ServiceCall =
    | AllCall
    | LoadCall(id: GoString)
    | CreateCall(user: User)
    | UpdateCall(user: User)
    | PatchCall(fields: FieldMap)
    | DeleteCall(id: GoString)
    | SearchCall(filter: UserFilter, limit: int64, offset: int64)

  /** The value a JSON response is encoded from. */
  datatype Body =
    | UsersBody(users: seq<User>)
    | LoadedBody(loaded: Option<User>)
    | UserBody(user: User)
    | FieldsBody(fields: FieldMap)
    | CountBody(count: int64)
    | SearchBody(list: seq<User>, total: int64)

  /** The text of a plain-text error response: an error's own text, the
      literal "Internal Server Error", or core-go's `InternalServerError`
      constant (whose value is not part of this model). */
  datatype Message =
    | ErrorText(err: Failure)
    | InternalServerErrorText
    | CoreInternalServerError

  /** What the handler itself writes. `Delegated` means it writes nothing:
      the core-go helper that reported the failure answers the request. */
  datatype Response =
    | Delegated
    | Json(status: int, body: Body)
    | PlainError(status: int, message: Message)

  /** What a verb did: the response it wrote itself, the service call it
      made, and whether it called the handler's own error logger
      (`h.Error`). Logging done inside core-go helpers is not recorded. */
  datatype Outcome = Outcome(response: Response, call: Option<ServiceCall>, logged: bool)

  /** The answer to a service error: status 500 as plain text, no JSON body. */
  predicate InternalError(r: Response)
  {
    r.PlainError? && r.status == StatusInternalServerError
  }

  /** The JSON answer a mutating verb gives once the service returned `res`:
      the status the table of `ResultCode` assigns to the class of `res`, with
      the success body on success and the count itself otherwise. */
  function CountAnswer(v: Verb, res: int64, success: Body): Response
  {
    var status := Answer(v, Classify(res as int));
    Json(status, if IsSuccess(status) then success else CountBody(res))
  }

  /** True when `r` is the answer the table gives a count `res`. */
  predicate Answers(r: Response, v: Verb, res: int64, success: Body)
  {
    r == CountAnswer(v, res, success)
  }

  /** `All`: list every user. */
  function All(reply: Result<seq<User>>): (o: Outcome)
    ensures o.call == Some(AllCall)
    ensures o.logged <==> reply.Err?
    ensures reply.Err? ==> o.response == PlainError(StatusInternalServerError, ErrorText(reply.error))
    ensures reply.Ok? ==> o.response == Json(StatusOK, UsersBody(reply.value))
  {
    match reply
    case Err(e) => Outcome(PlainError(StatusInternalServerError, ErrorText(e)), Some(AllCall), true)
    case Ok(users) => Outcome(Json(StatusOK, UsersBody(users)), Some(AllCall), false)
  }

  /** `Load`: fetch one user by the id in the path; `isFound` is
      `core.IsFound`, which picks the status from the loaded pointer. */
  function Load(id: Result<GoString>, isFound: Option<User> -> int, reply: Result<Option<User>>): (o: Outcome)
    ensures o.call.Some? <==> id.Ok?
    ensures o.call.Some? ==> o.call.value == LoadCall(id.value)
    ensures id.Err? ==> o.response == Delegated
    ensures o.logged <==> id.Ok? && reply.Err?
    ensures id.Ok? && reply.Err? ==> o.response == PlainError(StatusInternalServerError, CoreInternalServerError)
    ensures id.Ok? && reply.Ok? ==> o.response == Json(isFound(reply.value), LoadedBody(reply.value))
  {
    match id
    case Err(_) => Outcome(Delegated, None, false)
    case Ok(key) =>
      var call := Some(LoadCall(key));
      match reply
      case Err(_) => Outcome(PlainError(StatusInternalServerError, CoreInternalServerError), call, true)
      case Ok(user) => Outcome(Json(isFound(user), LoadedBody(user)), call, false)
  }

  /** `Create`: decode, validate, insert. A positive count answers 201 with
      the user; zero and negative counts both answer 409 with the count. */
  function Create(decoded: Result<User>, invalid: User -> bool, reply: Result<int64>): (o: Outcome)
    ensures o.call.Some? <==> decoded.Ok? && !invalid(decoded.value)
    ensures o.call.Some? ==> o.call.value == CreateCall(decoded.value)
    ensures o.call.None? ==> o.response == Delegated && !o.logged
    ensures o.call.Some? && reply.Err? ==> o.logged && o.response == PlainError(StatusInternalServerError, InternalServerErrorText)
    ensures o.call.Some? && reply.Ok? ==> !o.logged && Answers(o.response, CreateVerb, reply.value, UserBody(decoded.value))
  {
    match decoded
    case Err(_) => Outcome(Delegated, None, false)
    case Ok(user) =>
      if invalid(user) then Outcome(Delegated, None, false)
      else
        var call := Some(CreateCall(user));
        match reply
        case Err(_) => Outcome(PlainError(StatusInternalServerError, InternalServerErrorText), call, true)
        case Ok(res) =>
          if res > 0 then Outcome(Json(StatusCreated, UserBody(user)), call, false)
          else Outcome(Json(StatusConflict, CountBody(res)), call, false)
  }

  /** `Update`: decode (checking the body's id against the path), validate,
      replace. Positive, zero and negative counts answer 200, 404 and 409. */
  function Update(decoded: Result<User>, invalid: User -> bool, reply: Result<int64>): (o: Outcome)
    ensures o.call.Some? <==> decoded.Ok? && !invalid(decoded.value)
    ensures o.call.Some? ==> o.call.value == UpdateCall(decoded.value)
    ensures o.call.None? ==> o.response == Delegated && !o.logged
    ensures o.call.Some? && reply.Err? ==> o.logged && o.response == PlainError(StatusInternalServerError, ErrorText(reply.error))
    ensures o.call.Some? && reply.Ok? ==> !o.logged && Answers(o.response, UpdateVerb, reply.value, UserBody(decoded.value))
  {
    match decoded
    case Err(_) => Outcome(Delegated, None, false)
    case Ok(user) =>
      if invalid(user) then Outcome(Delegated, None, false)
      else
        var call := Some(UpdateCall(user));
        match reply
        case Err(e) => Outcome(PlainError(StatusInternalServerError, ErrorText(e)), call, true)
        case Ok(res) =>
          if res > 0 then Outcome(Json(StatusOK, UserBody(user)), call, false)
          else if res == 0 then Outcome(Json(StatusNotFound, CountBody(res)), call, false)
          else Outcome(Json(StatusConflict, CountBody(res)), call, false)
  }

  /** `Patch`: build the map of present fields (checking the id), validate
      the typed user, then hand the map, not the user, to the service and
      echo that same map on success. */
  function Patch(decoded: Result<PatchRequest>, invalid: User -> bool, reply: Result<int64>): (o: Outcome)
    ensures o.call.Some? <==> decoded.Ok? && !invalid(decoded.value.user)
    ensures o.call.Some? ==> o.call.value == PatchCall(decoded.value.fields)
    ensures o.call.None? ==> o.response == Delegated && !o.logged
    ensures o.call.Some? && reply.Err? ==> o.logged && o.response == PlainError(StatusInternalServerError, ErrorText(reply.error))
    ensures o.call.Some? && reply.Ok? ==> !o.logged && Answers(o.response, PatchVerb, reply.value, FieldsBody(decoded.value.fields))
  {
    match decoded
    case Err(_) => Outcome(Delegated, None, false)
    case Ok(PatchRequest(user, jsonUser)) =>
      if invalid(user) then Outcome(Delegated, None, false)
      else
        var call := Some(PatchCall(jsonUser));
        match reply
        case Err(e) => Outcome(PlainError(StatusInternalServerError, ErrorText(e)), call, true)
        case Ok(res) =>
          if res > 0 then Outcome(Json(StatusOK, FieldsBody(jsonUser)), call, false)
          else if res == 0 then Outcome(Json(StatusNotFound, CountBody(res)), call, false)
          else Outcome(Json(StatusConflict, CountBody(res)), call, false)
  }

  /** `Delete`: delete by the id in the path. A positive count answers 200,
      every other count 404; the count is the body either way, and Delete
      never answers 409. */
  function Delete(id: Result<GoString>, reply: Result<int64>): (o: Outcome)
    ensures o.call.Some? <==> id.Ok?
    ensures o.call.Some? ==> o.call.value == DeleteCall(id.value)
    ensures id.Err? ==> o.response == Delegated && !o.logged
    ensures id.Ok? && reply.Err? ==> o.logged && o.response == PlainError(StatusInternalServerError, ErrorText(reply.error))
    ensures id.Ok? && reply.Ok? ==> !o.logged && Answers(o.response, DeleteVerb, reply.value, CountBody(reply.value))
    ensures o.response.Json? ==> o.response.status != StatusConflict && o.response.body == CountBody(reply.value)
  {
    match id
    case Err(_) => Outcome(Delegated, None, false)
    case Ok(key) =>
      var call := Some(DeleteCall(key));
      match reply
      case Err(e) => Outcome(PlainError(StatusInternalServerError, ErrorText(e)), call, true)
      case Ok(res) =>
        if res > 0 then Outcome(Json(StatusOK, CountBody(res)), call, false)
        else Outcome(Json(StatusNotFound, CountBody(res)), call, false)
  }

  /** `Search`: decode the filter from the query, compute the offset from
      the filter's limit and page, search, and answer the page with the
      full total. Neither failure is logged. */
  function Search(decoded: Result<UserFilter>, getOffset: (int64, int64) -> int64, reply: Result<SearchReply>): (o: Outcome)
    ensures !o.logged
    ensures o.call.Some? <==> decoded.Ok?
    ensures decoded.Err? ==> o.response == PlainError(StatusBadRequest, ErrorText(decoded.error))
    ensures decoded.Ok? ==> o.call.value == SearchCall(decoded.value, decoded.value.limit, getOffset(decoded.value.limit, decoded.value.page))
    ensures decoded.Ok? && reply.Err? ==> o.response == PlainError(StatusInternalServerError, ErrorText(reply.error))
    ensures decoded.Ok? && reply.Ok? ==> o.response == Json(StatusOK, SearchBody(reply.value.list, reply.value.total))
  {
    match decoded
    case Err(e) => Outcome(PlainError(StatusBadRequest, ErrorText(e)), None, false)
    case Ok(filter) =>
      var offset := getOffset(filter.limit, filter.page);
      var call := Some(SearchCall(filter, filter.limit, offset));
      match reply
      case Err(e) => Outcome(PlainError(StatusInternalServerError, ErrorText(e)), call, false)
      case Ok(SearchReply(users, total)) => Outcome(Json(StatusOK, SearchBody(users, total)), call, false)
  }
}
