# User endpoint decisions and log masking (go-mongo-sample)

This project models the two decision procedures of a small Go service that
exposes a "User" entity over HTTP:

- the **user handler** (`internal/user/handler/handler.go`), with seven
  verbs. All reads nothing from the request. Load and Delete read the id
  from the path. Create, Update and Patch decode the body and then validate
  it. Search decodes the query. A verb whose input passes calls the user service and
  turns the service's error, or its reply (a signed result count for the
  four mutating verbs), into a status and a body;
- the **log-masking hook** `Mask` (`main.go`). It rewrites the `"phone"`
  entry of a field map before the map is logged.

Each verb is a pure function from what its collaborators answered to an
`Outcome`. An outcome records three things: the response the handler itself
writes, the service call it made (with its arguments, or none), and whether it
called the handler's own error logger `h.Error` ("logged" below). The
collaborators from the core-go and search libraries are not shown, so none of
their code is modelled. Each one enters as an input:

- a request helper (`Decode`, `DecodeAndCheckId`, `BuildMapAndCheckId`,
  `GetRequiredString`, `search.Decode`) is given by its `Result`;
- `HasError` over the validator's findings is a predicate `invalid` on users;
- `IsFound` and `GetOffset` are function parameters;
- `strings.Mask(s, 0, 3, "*")` is the parameter `maskFn` of `Mask`;
- the service's reply is a `Result` input. It matters only when the outcome
  says the service was called.

The properties proved here hold whatever those collaborators answer. One
assumption remains: the validator, `HasError` and the service are taken to
leave the user or field map they are passed unchanged (see "## Left out").
When a core-go helper reports a failure, the handler writes nothing itself.
That response is modelled as `Delegated`.

Modules:

- `Values`: Go strings as byte sequences, `int64`, and the dynamically typed
  values of a `map[string]interface{}`.
- `Results`: Go's `(value, error)` convention and nilable pointers.
- `Masking`: `Mask`.
- `ResultCode`: the status codes, the classification of a result count
  (positive = rows affected, zero = nothing matched, negative = collision),
  and a per-verb table `Answer` of the status each class receives.
- `Handler`: the seven verbs.
- `HandlerProperties`: properties relating verbs to each other and to the
  table.
- `Pipeline`: a single reference pipeline shared by every verb. It
  obtains the input, lets it pass or stops it, calls the service once,
  answers a service error with 500, and otherwise answers from the reply.
  Each verb is proved to be an instance of it.

Two answers to a count deserve a note, because they merge classes that
the convention keeps apart:

- Create answers 409 for a zero count as well as for a negative one
  (`handler.go:63-67`).
- Delete answers 404 for a negative count as well as for zero
  (`handler.go:124-128`).

`CreateUpdateDifferOnNoMatch` and `UpdateDeleteDifferOnlyOnCollision` prove
both. A failed validation is answered inside `core.HasError`, so its status
is not modelled.

## Model

| member | source | states |
|---|---|---|
| Masking.Mask | main.go:44-52 | The key set never changes. Only the `"phone"` entry can change. It becomes `maskFn(s)` exactly when it is present, is a string `s`, and is longer than three bytes. It is left alone when absent, when not a string, or when at most three bytes long. |
| Masking.MaskIdempotent | main.go:48-49 | If the masking routine is idempotent on strings longer than three bytes, masking a map twice gives the same map as masking once. |
| ResultCode.Classify | internal/user/handler/handler.go:83-89 | A count is classed as rows affected iff positive, as nothing matched iff zero, and as a collision iff negative. The three classes are exclusive and cover every integer. |
| Handler.All | internal/user/handler/handler.go:30-38 | The service is always called. A service error is logged and answered with 500 and the error text. Otherwise the answer is 200 with the list. |
| Handler.Load | internal/user/handler/handler.go:39-50 | The service is called, with the path id, iff the id was obtained. A service error is logged and answered with 500 and core-go's internal-error text. Otherwise the status is `IsFound` of the loaded pointer, with that pointer as body. |
| Handler.Create | internal/user/handler/handler.go:51-70 | The service is called, with the decoded user, iff decoding succeeded and validation found nothing. Otherwise the library answers, and the handler's own `h.Error` is not called. A service error is logged and answered with 500 "Internal Server Error". A count gets its class's Create status: 201 with the user when positive, and 409 with the count for zero or negative. |
| Handler.Update | internal/user/handler/handler.go:71-92 | The service is called, with the decoded user, iff decoding succeeded and validation passed. A service error is logged and answered with 500 and the error text. A count gets 200 with the user, 404 or 409 with the count, by its class. |
| Handler.Patch | internal/user/handler/handler.go:93-114 | The service is called iff the field map was built and the typed user passed validation. It is called with the field map, not the user. The status follows Update's table. On success the body is that same field map. |
| Handler.Delete | internal/user/handler/handler.go:115-130 | The service is called, with the path id, iff the id was obtained. A service error is logged and answered with 500. A positive count gets 200 and every other count gets 404. The body is always the count, and 409 never occurs. |
| Handler.Search | internal/user/handler/handler.go:131-146 | Nothing is ever logged. A filter decode error gets 400 and no service call. Otherwise there is exactly one call, with the filter, its limit and `GetOffset(limit, page)`. A service error gets 500. Otherwise the answer is 200 with the returned list and total. |
| HandlerProperties.UpdatePatchAgree | internal/user/handler/handler.go:71-114 | For the same user, verdict and reply, Update and Patch agree on whether the service is called, on logging and on status. On success Update echoes the user and Patch the field map. |
| HandlerProperties.UpdateDeleteDifferOnlyOnCollision | internal/user/handler/handler.go:83-128 | For a count, Update and Delete give the same status iff the count is not negative. |
| HandlerProperties.CreateUpdateDifferOnNoMatch | internal/user/handler/handler.go:63-89 | Create and Update disagree about answering 409 exactly for a zero count. |
| HandlerProperties.CreateAnswersExactly | internal/user/handler/handler.go:63-67 | After a count, Create answers only 201 or 409, and both occur. |
| HandlerProperties.UpdateAnswersExactly | internal/user/handler/handler.go:83-89 | After a count, Update answers only 200, 404 or 409, and all three occur. |
| HandlerProperties.PatchAnswersExactly | internal/user/handler/handler.go:105-111 | After a count, Patch answers only 200, 404 or 409, and all three occur. |
| HandlerProperties.DeleteAnswersExactly | internal/user/handler/handler.go:124-128 | After a count, Delete answers only 200 or 404, and both occur. |
| HandlerProperties.ServiceErrorIsInternal | internal/user/handler/handler.go:32-122 | In All, Load, Create, Update, Patch and Delete, a service error reached past decoding and validation is logged. It is answered with 500 as plain text, never with a JSON body. |
| Pipeline.AllIsPipeline | internal/user/handler/handler.go:30-38 | For every service reply, All is the shared pipeline with no request stage. Its 500 text is the error's text, its error is logged, and it answers 200 with the list. |
| Pipeline.LoadIsPipeline | internal/user/handler/handler.go:39-50 | For every id result, every `IsFound` and every reply, Load is the shared pipeline gated on the path id. Its 500 text is core-go's constant, and its answer status is `IsFound` of the loaded pointer. |
| Pipeline.CreateIsPipeline | internal/user/handler/handler.go:51-70 | For every decode result, verdict and reply, Create is the shared pipeline gated on decode and validation. It answers a count by the Create column of the table. |
| Pipeline.UpdateIsPipeline | internal/user/handler/handler.go:71-92 | For every decode result, verdict and reply, Update is the shared pipeline gated on decode and validation. It answers a count by the Update column. |
| Pipeline.PatchIsPipeline | internal/user/handler/handler.go:93-114 | For every build result, verdict and reply, Patch is the shared pipeline gated on the typed user's validation. It calls the service with the field map and answers by the Patch column, echoing the map. |
| Pipeline.DeleteIsPipeline | internal/user/handler/handler.go:115-130 | For every id result and reply, Delete is the shared pipeline gated on the path id. It answers by the Delete column, with the count as body. |
| Pipeline.SearchIsPipeline | internal/user/handler/handler.go:131-146 | For every decode result, every `GetOffset` and every reply, Search is the shared pipeline whose decode failure the handler answers 400 itself and whose service error is not logged. The call carries the filter, its limit and `GetOffset(limit, page)`. |
| Pipeline.SearchStandsApart | internal/user/handler/handler.go:131-146 | A decode failure gets 400 from the handler only in Search; in the other verbs the helper answers. Every verb except Search logs a service error. |

## Left out

- `main()` in `main.go` is left out. It loads configuration, sets up the
  router and middleware, initialises the logger and listens: bootstrap and I/O.
  How the logging middleware applies `Mask` to request and response maps
  belongs to the log library, and so is not modelled either.
- `internal/user/user.go` is left out. It only wires the validator, the Mongo
  adapter and the service together.
- `NewUserHandler` is left out. It builds attributes and search parameters by
  reflection at start-up, inside the core-go library.
- The core-go and search library functions are inputs, not code. This covers
  `Decode`, `DecodeAndCheckId`, `BuildMapAndCheckId`, `GetRequiredString`,
  `HasError`, `IsFound`, `GetOffset`, `search.Decode` and `strings.Mask`.
  Their source is not part of this model, so nothing is claimed about:
  - which fields a patch map holds, or how it overwrites key fields;
  - the offset arithmetic;
  - the status a failed decode or validation produces;
  - the masked string's format (for instance, whether `"0123456789"` becomes `"012*******"`);
  - whether masking a string twice changes it.
- `model.User`, `model.UserFilter` and the user service are not part of this
  model. A user is an id plus a field map, and the handler never looks inside
  it. A filter is its page, limit and criteria. Counts, totals, pages and
  limits are `int64`, the usual signature of these services. No arithmetic is
  done on them, so wrap-around never arises.
- Response writing, JSON encoding, request contexts and what a log line
  contains are left out. A response is a status with a body or message. An
  error log is a single flag: whether the handler called its own `h.Error`.
- Logging done inside `core.HasError` is not modelled. The handler passes
  it `h.Error` and `h.Log`, so it may log a validation failure or a
  validator error.
- Masking.Mask: the Go hook updates the caller's map in place. The model
  returns the updated map instead, so the map's post-state is the returned
  map.
- Go strings are byte sequences throughout: map keys, string values, ids
  and error texts. The key `"phone"` is written as its five ASCII bytes.
- Handler.Create: the validator and the service receive a pointer to the
  decoded user, and Go echoes that object as it stands after the calls. The
  model assumes neither collaborator writes through the pointer, so the
  service receives and the 201 body carries the user as decoded.
- Handler.Update: the same assumption. `h.Validate` and `h.service.Update`
  receive `&user`, and the 200 body is taken to be the user as decoded.
- Handler.Patch: the field map `jsonUser` is shared by reference with
  `h.service.Patch`, and the 200 body echoes it after the call. `core.HasError`
  also receives the map (it is passed for logging). The model assumes
  neither `HasError` nor the service changes the map. It also assumes that
  validating the typed user does not change the map.
