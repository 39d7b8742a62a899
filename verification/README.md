# Mentorias: a verified model of the mentorship service core

The service keeps mentorship sessions (`mentorias`) and their mentee
enrollments (`mentoria_mentorados`) in PostgreSQL. It exposes them under
`/mentorias` to principals that present a bearer token. This project models
that core in Dafny and proves what it promises.

- `wrappers.dfy`: `Option` and `Result`.
- `models.dfy`: the three closed enums, with their string values and parsers. It also holds the creation
  payload and the partial-update changeset. A changeset field is absent, an
  explicit null, or a value. `UpdateFields` is `model_dump(exclude_unset=True)`.
- `session.dfy`: the two tables as values. It also holds the constraints their DDL
  declares (`Consistent`), the errors PostgreSQL raises against them, and the
  global connection pool as a three-state class with its "not initialised" guard.
- `crud.dfy`: the CRUD module. It contains:
  - the dynamic `UPDATE` statement: the loop that builds the `SET` list, the placeholder binding, and the
    column-by-column execution with NOT NULL, CHECK, type and unknown-column errors;
  - the intended effect of a changeset on a row, and the proof that the built
    statement has exactly that effect;
  - each CRUD function as a pure transition of the tables;
  - the class `MentoriaStore`, whose methods change the tables in place and are proved equal to those transitions.
- `security.dfy`: token issuing with its expiry rule, symbolic signature
  verification, `get_current_user` with its claim-check order, and the role gates.
- `router.dfy`: the endpoints. It covers:
  - the dependency chain in front of each handler;
  - `ge=1` path validation;
  - the store call each handler makes on the principal's behalf;
  - the status code for each outcome;
  - a whole request as a pure function, plus a method that runs it against a live store and pool.

Behaviour worth knowing that the model makes explicit:

- `titulo` and `descricao` are fields of `MentoriaUpdate` but not columns of
  `mentorias`. A changeset that sends either one makes PostgreSQL reject the whole
  `UPDATE` for an undefined column. The request then ends in a 500 and nothing is written.
- Sending an explicit `null` counts as a sent field under `exclude_unset`. It
  fails the NOT NULL constraint of its column, which is also a 500 with nothing written.
- A zero `expires_delta` is falsy, so the token gets the default thirty minutes.
- `close_db` does not reset `db_pool`. The "not initialised" guard therefore
  passes after a close, and only a pool that was never set is refused.
- `id`, `mentoria_id` and `duracao_minutos` are PostgreSQL `INTEGER`
  columns, and asyncpg refuses to encode a Python integer outside 32 bits.
  `Path(..., ge=1)` sets no upper bound. A path id above 2147483647, or a
  duration outside the 32-bit range, therefore ends in a 500 with nothing
  written. The `SERIAL` sequence stops at 2147483647 as well.
- GET / and GET /topico/{topic} call `get_mentorias_by_user` and
  `get_mentorias_by_topic`, which `app/crud/mentoria_crud.py` does not
  define. Every request those routes admit therefore ends in an
  AttributeError, which is a 500.
- `EmailStr` normalizes the address it validates. The principal's username,
  which becomes the owner of every write, is the normalized form of the
  token's `username` claim.
- The JWT library reads `exp` with `int()` and turns only ValueError into
  JWTError. A float `exp` therefore counts by its integer part. A null, array
  or object `exp` raises TypeError, which `get_current_user` does not catch,
  so the request ends in a 500.
- Mentor-only routes apply the Mentor role check twice: once as a route
  dependency and once through `get_current_active_mentor`. The second check
  never changes the outcome.

## Model

| member | source | states |
|---|---|---|
| Models.StatusValue | app/models/mentoria.py:6-10 | every status member's value is one of the four status strings |
| Models.ParseStatus | app/models/mentoria.py:6-10 | `MentoriaStatus(v)` succeeds exactly for the four values and gives back the member whose value is `v` |
| Models.TopicValue | app/models/mentoria.py:12-16 | every topic member's value is one of the four topic strings |
| Models.ParseTopic | app/models/mentoria.py:12-16 | `MentoriaTopic(v)` succeeds exactly for the four values and gives back the member whose value is `v` |
| Models.UserTypeValue | app/models/mentoria.py:18-21 | every user type's value is "Mentor", "Mentorado" or "Admin" |
| Models.ParseUserType | app/models/mentoria.py:18-21 | `UserType(v)` succeeds exactly for the three values; parsing a member's value gives the same member |
| Models.UpdateFieldsOrdered | app/crud/mentoria_crud.py:85 | the dumped changeset holds only sent fields, each with the sent value, once each, in declaration order |
| Models.UpdateFieldsComplete | app/crud/mentoria_crud.py:85 | every sent field, explicit nulls included, is in the dumped changeset |
| Models.UpdateFieldsEmpty | app/crud/mentoria_crud.py:85-86 | the dumped changeset is empty iff the client sent no field |
| Session.StatusCheckMatchesEnum | app/database/session.py:54 | the CHECK list on `status` accepts exactly the values of `MentoriaStatus` |
| Session.Database.constructor | app/database/session.py:6 | the pool starts unset |
| Session.Database.ConnectDb | app/database/session.py:8-20 | a successful `create_pool` sets the pool; a failing one re-raises and leaves it as it was |
| Session.Database.CloseDb | app/database/session.py:22-26 | closing does nothing when the pool was never set and otherwise leaves it set but closed |
| Session.Database.GetDbConnection | app/database/session.py:28-35 | RuntimeError exactly while the pool was never set |
| MentoriaCrud.Normalize | app/crud/mentoria_crud.py:102-103 | enum members become their string value, which parses back to the member; other values pass through |
| MentoriaCrud.NormalizeAll | app/crud/mentoria_crud.py:101-103 | every value of the changeset is normalized and every key is kept, in order |
| MentoriaCrud.BuildSetClauses | app/crud/mentoria_crud.py:98-110 | clause `i` assigns field `i` through a distinct placeholder bound to its normalized value; the next two placeholders bind the id and the owner; the resolved SET list is exactly the normalized changeset |
| MentoriaCrud.FirstUndefined | app/crud/mentoria_crud.py:111-117 | the statement is rejected for a SET key that is not a column, and only then |
| MentoriaCrud.Assign | app/database/session.py:49-56 | one assignment succeeds iff the value fits the column's type, NOT NULL and CHECK constraints; it sets that column only and never id or owner |
| MentoriaCrud.ApplyAssignments | app/crud/mentoria_crud.py:111-117 | running the SET list never changes id or owner |
| MentoriaCrud.RunUpdate | app/crud/mentoria_crud.py:111-121 | unknown columns fail first, then an argument outside int4; otherwise a row only when the WHERE filter matches id and owner, namely the executed SET list's row or error; None when the filter matches nothing |
| MentoriaCrud.ApplyChangeset | app/crud/mentoria_crud.py:85-121 | succeeds iff nothing is rejected (titulo, then descricao, then a duration outside int4, then an explicit null). Sent columns take the normalized value and unsent ones are kept. id and owner never change. A valid status stays valid, a 32-bit duration stays 32-bit, and an empty changeset is a no-op |
| MentoriaCrud.UndefinedColumnOfChangeset | app/crud/mentoria_crud.py:101-104 | the built SET list names a missing column exactly when titulo or descricao was sent |
| MentoriaCrud.UnencodableOfChangeset | app/crud/mentoria_crud.py:101-117 | the built SET list holds an argument asyncpg cannot encode exactly when the duration was sent outside int4 |
| MentoriaCrud.AssignmentsMeetChangeset | app/crud/mentoria_crud.py:98-117 | without titulo, descricao and an out-of-range duration, the assignments applied in turn give the changeset's row or its first NULL error |
| MentoriaCrud.UpdateStatementMeetsChangeset | app/crud/mentoria_crud.py:98-121 | the UPDATE built by the loop has exactly the effect ApplyChangeset describes, row or error |
| MentoriaCrud.Create | app/crud/mentoria_crud.py:10-32 | a duration outside int4 raises, then an exhausted sequence raises, both without writing. Otherwise there is one new row under the next sequence value, owned by the argument and not by the payload, with the payload's columns and enum values stored as strings. Nothing else changes and the constraints still hold |
| MentoriaCrud.Update | app/crud/mentoria_crud.py:64-121 | an id outside int4 raises. Otherwise None for a missing id and "UNAUTHORIZED" for another owner, both without writing. For the owner the changeset's row is stored, or its error is returned with nothing written. An empty changeset returns the current row. Keys, enrollments and constraints are kept |
| MentoriaCrud.WithoutMentoria | app/database/session.py:60 | ON DELETE CASCADE keeps exactly the enrollments of other mentorias |
| MentoriaCrud.Delete | app/crud/mentoria_crud.py:125-137 | an id outside int4 raises. Otherwise true iff the row exists and the caller owns it, and then the row and its enrollments go. False changes nothing, for a missing row and for another owner's row alike |
| MentoriaCrud.Enroll | app/crud/mentoria_crud.py:141-165 | an id outside int4 raises. Otherwise true iff the caller owns an existing mentoria, and then the pair is present afterwards. False changes nothing |
| MentoriaCrud.EnrollIdempotent | app/crud/mentoria_crud.py:156-160 | enrolling the same pair twice equals enrolling it once (ON CONFLICT DO NOTHING) |
| MentoriaCrud.Unenroll | app/crud/mentoria_crud.py:168-188 | an id outside int4 raises. For the owner the pair is absent afterwards and the result says whether it was present. Otherwise false and nothing changes |
| MentoriaCrud.InsertByDate | app/crud/mentoria_crud.py:42 | inserting a row into a date-descending list keeps it date-descending, and the result is the old list plus exactly that row, as a multiset |
| MentoriaCrud.InsertByDateDistinct | app/crud/mentoria_crud.py:39-44 | inserting a new row into a list without repeats keeps it without repeats |
| MentoriaCrud.MentoriaStore.constructor | app/database/session.py:46-64 | fresh tables are empty, satisfy the constraints, and the id sequence starts at 1 |
| MentoriaCrud.MentoriaStore.CreateMentoria | app/crud/mentoria_crud.py:10-32 | the INSERT returns a row or raises, never nothing, and changes the tables as Create says |
| MentoriaCrud.MentoriaStore.GetMentoriasByMentor | app/crud/mentoria_crud.py:34-46 | exactly the stored rows of that mentor, each once, newest `data_hora` first |
| MentoriaCrud.MentoriaStore.GetMentoriaById | app/crud/mentoria_crud.py:48-62 | raises iff the id is outside int4; otherwise the row under the id, or None iff there is none |
| MentoriaCrud.MentoriaStore.UpdateMentoria | app/crud/mentoria_crud.py:64-121 | the check-then-update runs the statement built by the loop and changes the tables as Update says |
| MentoriaCrud.MentoriaStore.DeleteMentoria | app/crud/mentoria_crud.py:125-137 | changes the tables and answers as Delete says |
| MentoriaCrud.MentoriaStore.AddMentorado | app/crud/mentoria_crud.py:141-165 | changes the tables and answers as Enroll says |
| MentoriaCrud.MentoriaStore.RemoveMentorado | app/crud/mentoria_crud.py:168-188 | changes the tables and answers as Unenroll says |
| MentoriaCrud.MentoriaStore.GetMentoradosForMentoria | app/crud/mentoria_crud.py:190-203 | raises iff the id is outside int4; None iff the mentoria is missing; otherwise exactly the enrolled emails, each once, possibly none |
| Security.StatusOf | app/auth/security.py:24-65 | credential failures are 401, a bad user type 400, a role refusal 403, and an uncaught TypeError from the `exp` check 500 |
| Security.Expiry | app/auth/security.py:15-18 | now plus a non-zero delta; now plus thirty minutes when the delta is absent or zero |
| Security.CreateAccessToken | app/auth/security.py:13-21 | the caller's claims are kept, `exp` is added or overwritten with the expiry, and the token is signed with the configured key and algorithm |
| Security.IntOf | app/auth/security.py:30 | `int(exp)` as the JWT library's expiry check applies it: integers, floats and booleans convert; null, arrays and objects raise TypeError |
| Security.Decode | app/auth/security.py:30 | claims come back iff the token parses, carries the right key and an allowed algorithm, and any `exp` converts with `int()` to a value not before now; a null, array or object `exp` escapes as TypeError, and every other failure is JWTError |
| Security.UserTypeOfClaim | app/auth/security.py:38-44 | a `type` claim parses iff it is one of the three value strings |
| Security.GetCurrentUser | app/auth/security.py:23-52 | 401 on a token that does not decode, and a 500 when decoding raised TypeError; 401 on a missing or null username or type; then 400 on a bad type; then 401 on a username that is not a valid email. Otherwise the principal is the normalized address and the decoded type |
| Security.RoleChecker | app/auth/security.py:56-66 | the principal unchanged iff its type is allowed, else 403 |
| Security.GetCurrentActiveMentor | app/auth/security.py:69-70 | only Mentor passes; Mentorado and Admin get 403 |
| Security.TokenValidUntilExpiry | app/auth/security.py:13-30 | an issued token decodes exactly until its expiry and yields the issued claims plus `exp` |
| Security.IssuedTokenAuthenticates | app/auth/security.py:13-52 | a default token for a valid email and a role authenticates for thirty minutes as that role and the normalized email, and is rejected with 401 after that |
| Security.FloatExpIsTruncated | app/auth/security.py:30-46 | a float `exp` counts by its integer part: the token authenticates until then and gets 401 after |
| Security.NonNumericExpIsServerError | app/auth/security.py:30-51 | a null, array or object `exp` ends the request in 500, because `get_current_user` catches only JWTError and ValidationError |
| MentoriaRouter.Admit | app/routers/mentoria_router.py:23-31 | the dependency chain admits a principal iff it authenticated and its role is allowed on the route; a refused role is 403 |
| MentoriaRouter.CallFor | app/routers/mentoria_router.py:35-40 | every write is made with the principal's username as owner |
| MentoriaRouter.Rejection | app/auth/security.py:24-28 | a rejected dependency answers with its own status |
| MentoriaRouter.Dispatch | app/routers/mentoria_router.py:78-90 | authentication failures first, then 403 for a role, then 422 for an id below 1; otherwise the handler's call |
| MentoriaRouter.Finish | app/routers/mentoria_router.py:41-200 | 2xx iff the store call succeeded. Failures: 500 for create, 403 for UNAUTHORIZED on update, 404 for every other failure. Successes: 201 for create and add, 204 for delete and remove, 200 otherwise. The body of a success is the created, found or updated row, or the enrolled emails; delete and remove have no body. An exception gives 500 |
| MentoriaRouter.EnrolledEmails | app/crud/mentoria_crud.py:199-203 | the emails of exactly the enrollments of that mentoria |
| MentoriaRouter.Perform | app/routers/mentoria_router.py:35-200 | the two listing calls raise AttributeError whatever the pool holds. The pool guard refuses every other call while unset. Otherwise each write changes the tables as Create, Update, Delete, Enroll or Unenroll says and hands back their result, a read hands back the stored row or the enrolled emails, and delete/add/remove report ownership (and, for remove, whether the pair was there). A call that raises, and every read, leaves the tables alone. The constraints are kept |
| MentoriaRouter.Serve | app/routers/mentoria_router.py:16-200 | a request refused before its handler changes nothing, and neither does one that ends in an exception. Only a mentor's request on a mentor route can change the tables. The constraints are kept |
| MentoriaRouter.DeleteHidesOwnership | app/routers/mentoria_router.py:130-136 | DELETE answers a missing and a foreign mentoria with the same 404 and changes nothing |
| MentoriaRouter.UpdateDistinguishesForbidden | app/routers/mentoria_router.py:113-116 | PUT answers a missing mentoria with 404 and a foreign one with 403, changing nothing |
| MentoriaRouter.OversizedIdIsServerError | app/routers/mentoria_router.py:83 | an admitted request whose path id is above 2147483647 passes `ge=1` and ends in 500, changing nothing |
| MentoriaRouter.ListingRoutesFail | app/routers/mentoria_router.py:55-75 | every admitted GET / and GET /topico/{topic} ends in 500 for the missing CRUD function, changing nothing |
| MentoriaRouter.AdminCannotListOwn | app/routers/mentoria_router.py:46-50 | an Admin gets 403 on GET / and nothing changes |
| MentoriaRouter.EmptyEnrollmentIsOk | app/routers/mentoria_router.py:199-200 | a mentoria without mentees lists as 200 with an empty array |
| MentoriaRouter.EnrollTwiceIsOnce | app/routers/mentoria_router.py:153-161 | enrolling the same mentee twice answers 201 both times; the first call adds exactly that pair and the second changes nothing |
| MentoriaRouter.GetAnswersRow | app/routers/mentoria_router.py:78-93 | GET /{id} answers an existing mentoria with 200 and its stored row, for any principal, and writes nothing |
| MentoriaRouter.CreateAnswersRow | app/routers/mentoria_router.py:23-43 | POST / by a mentor stores one row under the next id, owned by the mentor with the payload's values, and answers 201 with that row |
| MentoriaRouter.OwnerUpdateApplies | app/routers/mentoria_router.py:96-117 | the owner's PUT with an accepted changeset answers 200 with the changeset's row, which replaces the stored row |
| MentoriaRouter.OwnerDeleteRemoves | app/routers/mentoria_router.py:120-137 | the owner's DELETE answers 204 with no body; the row and exactly its enrollments are gone |
| MentoriaRouter.ListMentoradosAnswersEmails | app/routers/mentoria_router.py:186-200 | GET /{id}/mentorados answers an existing mentoria with 200 and exactly its enrolled emails, writing nothing |
| MentoriaRouter.Run | app/routers/mentoria_router.py:35-40 | the store call behaves as Perform says |
| MentoriaRouter.Handle | app/routers/mentoria_router.py:16-200 | a request against the live store and pool behaves as Serve says |

## Left out

- asyncpg execution, `async with` connection handling, pool sizing, and acquire/release are not modelled. The tables are in-memory values and requests run one at a time.
- The race between the owner read and the filtered `UPDATE`/`DELETE` is out of scope. With requests run sequentially, the filter always matches after the check passes.
- JWT signing and verification are symbolic. A token records its claims, key and algorithm, and verifying compares them.
- Security.Decode: checks only signature, algorithm and `exp`. The `nbf`, `iat`, `aud`, `iss`, `sub` and `jti` checks of the JWT library are not modelled. A string `exp` is always taken as not an integer (JWTError), although `int()` accepts a string of decimal digits. A float `exp` is known only by its integer part, so an infinite one (OverflowError, a 500) and NaN (ValueError, a 401) are not modelled.
- Security.GetCurrentUser: `EmailStr` validation and normalization are a parameter (`emailOf`), not the email grammar and the normalization rules of `email_validator`.
- Times are whole seconds. `data_hora` is an integer, with no time zones or microseconds. asyncpg refuses an offset-aware datetime for a `TIMESTAMP` column, and that DataError is not modelled.
- Every payload and changeset is taken as already validated by pydantic, with email fields already normalized. A body that fails validation (a 422 for the body) is not modelled, and neither are the exact texts of the 400 and 403 details.
- The re-validation of returned rows through `MentoriaInDB.model_validate` is not modelled. That model also requires `titulo` and `descricao`, which no query selects. Only the six stored columns are modelled.
- MentoriaRouter.Perform: models the listing calls as written, where they raise AttributeError. What `get_mentorias_by_user` and `get_mentorias_by_topic` would return if they existed is not modelled, because `app/crud/mentoria_crud.py` does not define them.
- MentoriaCrud.MentoriaStore.GetMentoradosForMentoria returns the emails in no particular order, because the query has no ORDER BY. The response body is modelled as the set of those emails.
- `VARCHAR(255)` and `VARCHAR(20)` length limits are not modelled.
- Acquiring from a pool that `close_db` has closed is not modelled: after a close, the guard passes and the model treats the call as served.
- The SERIAL sequence is modelled as a counter that grows by one per insert and stops at 2147483647. Ids lost to inserts that fail after `nextval` are not modelled; with the length limits left out, no modelled insert fails that late.
- `app/main.py` is not part of this model: the application wiring, CORS, the lifespan hooks and the development token endpoint. The same goes for the settings loading in `app/core/config.py`. Only the default token lifetime of 30 minutes is used, as a constant.
