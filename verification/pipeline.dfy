/** One pipeline for all seven verbs of the user handler, written once and
    independently of the verbs: obtain the request's input, let it pass or
    stop it, call the service once, answer a service error with 500, and
    otherwise answer from the reply. Each verb is proved to be an instance,
    for every input and every behaviour of its collaborators. What sets a
    verb apart is reduced to a handful of parameters. */
module Pipeline {
  import opened Values
  import opened Results
  import opened ResultCode
  import opened Handler

  /** How the request stage ended: with a value the service is called on,
      with a failure a core-go helper answers itself, or with a decode
      failure the handler answers 400. */
  datatype Stage<+T> = Proceed(value: T) | Delegate | BadRequest(error: Failure)

  /** The request stage: a decode result, then the validator's verdict on
      the decoded value. `answers400` says whether the handler answers a
      decode failure itself instead of leaving it to the helper. */
  function Gate<T>(decoded: Result<T>, rejects: T -> bool, answers400: bool): Stage<T>
  {
    match decoded
    case Err(e) => if answers400 then BadRequest(e) else Delegate
    case Ok(v) => if rejects(v) then Delegate else Proceed(v)
  }

  /** The shared pipeline. `toCall` builds the service call from the
      stage's value, `failure` the text of the 500 answer, `logs` says
      whether a service error goes to `h.Error`, and `answer` builds the
      response from the stage's value and the service's reply. */
  function Reference<T, R>(stage: Stage<T>, toCall: T -> ServiceCall, reply: Result<R>,
                           failure: Failure -> Message, logs: bool, answer: (T, R) -> Response): Outcome
  {
    match stage
    case Delegate => Outcome(Delegated, None, false)
    case BadRequest(e) => Outcome(PlainError(StatusBadRequest, ErrorText(e)), None, false)
    case Proceed(v) =>
      match reply
      case Err(e) => Outcome(PlainError(StatusInternalServerError, failure(e)), Some(toCall(v)), logs)
      case Ok(r) => Outcome(answer(v, r), Some(toCall(v)), false)
  }

  /** `All` is the pipeline with no request stage and a 200 list answer. */
  lemma AllIsPipeline(reply: Result<seq<User>>)
    ensures All(reply)
         == Reference(Proceed(()), _ => AllCall, reply, e => ErrorText(e), true,
                      (_, users) => Json(StatusOK, UsersBody(users)))
  {
  }

  /** `Load` is the pipeline gated on the path id, whose answer status is
      `IsFound` of the loaded pointer, whatever `IsFound` does. */
  lemma LoadIsPipeline(id: Result<GoString>, isFound: Option<User> -> int, reply: Result<Option<User>>)
    ensures Load(id, isFound, reply)
         == Reference(Gate(id, _ => false, false), key => LoadCall(key), reply,
                      _ => CoreInternalServerError, true,
                      (_, user) => Json(isFound(user), LoadedBody(user)))
  {
  }

  /** `Create` is the pipeline gated on decoding and validation, answering
      a count by the Create column of the table. */
  lemma CreateIsPipeline(decoded: Result<User>, invalid: User -> bool, reply: Result<int64>)
    ensures Create(decoded, invalid, reply)
         == Reference(Gate(decoded, invalid, false), u => CreateCall(u), reply,
                      _ => InternalServerErrorText, true,
                      (u, res) => CountAnswer(CreateVerb, res, UserBody(u)))
  {
  }

  /** `Update` is the pipeline gated on decoding and validation, answering
      a count by the Update column of the table. */
  lemma UpdateIsPipeline(decoded: Result<User>, invalid: User -> bool, reply: Result<int64>)
    ensures Update(decoded, invalid, reply)
         == Reference(Gate(decoded, invalid, false), u => UpdateCall(u), reply,
                      e => ErrorText(e), true,
                      (u, res) => CountAnswer(UpdateVerb, res, UserBody(u)))
  {
  }

  /** `Patch` is the pipeline gated on the typed user's validation, sending
      and echoing the field map, answering a count by the Patch column. */
  lemma PatchIsPipeline(decoded: Result<PatchRequest>, invalid: User -> bool, reply: Result<int64>)
    ensures Patch(decoded, invalid, reply)
         == Reference(Gate(decoded, (p: PatchRequest) => invalid(p.user), false), (p: PatchRequest) => PatchCall(p.fields), reply,
                      e => ErrorText(e), true,
                      (p: PatchRequest, res) => CountAnswer(PatchVerb, res, FieldsBody(p.fields)))
  {
  }

  /** `Delete` is the pipeline gated on the path id, answering a count by
      the Delete column with the count as its success body. */
  lemma DeleteIsPipeline(id: Result<GoString>, reply: Result<int64>)
    ensures Delete(id, reply)
         == Reference(Gate(id, _ => false, false), key => DeleteCall(key), reply,
                      e => ErrorText(e), true,
                      (_, res) => CountAnswer(DeleteVerb, res, CountBody(res)))
  {
  }

  /** `Search` is the only instance whose decode failure the handler
      answers itself (400) and whose service error is not logged; its call
      carries the filter's limit and the offset `GetOffset` computes from
      the limit and page, whatever `GetOffset` does. */
  lemma SearchIsPipeline(decoded: Result<UserFilter>, getOffset: (int64, int64) -> int64, reply: Result<SearchReply>)
    ensures Search(decoded, getOffset, reply)
         == Reference(Gate(decoded, _ => false, true),
                      (f: UserFilter) => SearchCall(f, f.limit, getOffset(f.limit, f.page)), reply,
                      e => ErrorText(e), false,
                      (_, r: SearchReply) => Json(StatusOK, SearchBody(r.list, r.total)))
  {
  }

  /** Where the seven instances part ways. A decode failure reaches the
      response as 400 only in Search; the other verbs leave it to the
      helper. A service error is logged by every verb except Search. */
  lemma SearchStandsApart(e: Failure, f: UserFilter, getOffset: (int64, int64) -> int64,
                          u: User, p: PatchRequest, id: GoString, invalid: User -> bool,
                          isFound: Option<User> -> int,
                          sr: Result<SearchReply>, lr: Result<Option<User>>, cr: Result<int64>)
    requires !invalid(u) && !invalid(p.user)
    ensures Search(Err(e), getOffset, sr).response == PlainError(StatusBadRequest, ErrorText(e))
    ensures Load(Err(e), isFound, lr).response == Delegated
    ensures Create(Err(e), invalid, cr).response == Delegated
    ensures Update(Err(e), invalid, cr).response == Delegated
    ensures Patch(Err(e), invalid, cr).response == Delegated
    ensures Delete(Err(e), cr).response == Delegated
    ensures !Search(Ok(f), getOffset, Err(e)).logged
    ensures All(Err(e)).logged && Load(Ok(id), isFound, Err(e)).logged
    ensures Create(Ok(u), invalid, Err(e)).logged && Update(Ok(u), invalid, Err(e)).logged
    ensures Patch(Ok(p), invalid, Err(e)).logged && Delete(Ok(id), Err(e)).logged
  {
  }
}
