/** The result-count convention of the mutating user-service operations, and
    the status each verb answers for each class of result. The table here is
    stated per class; the handler decides by testing the sign of the count,
    and the handler's contracts tie the two together. */
module ResultCode {

  /** HTTP status codes used by the user handler (Go's `net/http` names). */
  const StatusOK: int := 200
  const StatusCreated: int := 201
  const StatusBadRequest: int := 400
  const StatusNotFound: int := 404
  const StatusConflict: int := 409
  const StatusInternalServerError: int := 500

  /** The meaning of a count returned by Create, Update, Patch or Delete:
      positive means rows were affected, zero means nothing matched, and a
      negative count reports a key or unique-index collision. */
  datatype Class = Affected | NoMatch | Collision

  function Classify(res: int): (c: Class)
    ensures c == Affected <==> res > 0
    ensures c == NoMatch <==> res == 0
    ensures c == Collision <==> res < 0
  {
    if res > 0 then Affected else if res == 0 then NoMatch else Collision
  }

  /** The mutating verbs. */
  datatype Verb = CreateVerb | UpdateVerb | PatchVerb | DeleteVerb

  /** The status a verb answers once the service returned a count of class
      `c` without error. Create has no not-found answer and Delete no
      conflict answer: each folds that class into its other failure status. */
  function Answer(v: Verb, c: Class): int
  {
    match (v, c)
    case (CreateVerb, Affected) => StatusCreated
    case (CreateVerb, _) => StatusConflict
    case (DeleteVerb, Affected) => StatusOK
    case (DeleteVerb, _) => StatusNotFound
    case (_, Affected) => StatusOK
    case (_, NoMatch) => StatusNotFound
    case (_, Collision) => StatusConflict
  }

  /** True when the answer reports success, so the body carries the entity
      (or, for Delete, the count) rather than the failing count. */
  predicate IsSuccess(status: int)
  {
    status == StatusOK || status == StatusCreated
  }
}
