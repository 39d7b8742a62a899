/**
 * The `/mentorias` router: which principals reach each handler, how the path
 * id is validated, which store operation each handler calls on whose behalf,
 * and which HTTP status each outcome is answered with. FastAPI resolves a
 * route's dependencies (authentication, then the role gates) before it
 * validates the path, and runs the handler last.
 */
module MentoriaRouter {
  import opened Wrappers
  import opened Models
  import opened Session
  import opened MentoriaCrud
  import opened Security

  /** The nine routes, each with its path parameter and request body. */
  datatype Endpoint =
    | PostMentoria(body: MentoriaCreate)                 // POST   /mentorias/
    | ListMentorias                                      // GET    /mentorias/
    | ListByTopic(topic: string)                         // GET    /mentorias/topico/{topic}
    | GetMentoria(id: int)                               // GET    /mentorias/{id}
    | PutMentoria(id: int, changes: MentoriaUpdate)      // PUT    /mentorias/{id}
    | DeleteMentoria(id: int)                            // DELETE /mentorias/{id}
    | PostMentorado(id: int, mentorado: MentoradoEmail)  // POST   /mentorias/{id}/mentorados
    | DeleteMentorado(id: int, mentorado: MentoradoEmail) // DELETE /mentorias/{id}/mentorados
    | ListMentorados(id: int)                            // GET    /mentorias/{id}/mentorados

  /** What a response carries. */
  datatype Body =
    | RowBody(row: MentoriaRow)
    | EmailsBody(emails: set<string>)   // a JSON array of distinct emails in no promised order
    | Message(text: string)
    | NoContent
    | Detail(text: string)
    | AuthRejected(reason: AuthError)
    | InvalidPathId(id: int)
    | ServerError(cause: Fault)

  datatype Response = Response(status: int, body: Body)

  // ---------------------------------------------------------------------------
  // Admission
  // ---------------------------------------------------------------------------

  /** The allow-list of the route's own `RoleChecker` dependency, if it has one. */
  function RouteRoles(e: Endpoint): Option<seq<UserType>>
  {
    match e
    case PostMentoria(_) => Some([Mentor])
    case ListMentorias => Some([Mentor, Mentorado])
    case PutMentoria(_, _) => Some([Mentor])
    case DeleteMentoria(_) => Some([Mentor])
    case PostMentorado(_, _) => Some([Mentor])
    case DeleteMentorado(_, _) => Some([Mentor])
    case _ => None
  }

  /** Whether the handler takes its principal from `get_current_active_mentor`. */
  predicate MentorParam(e: Endpoint)
  {
    e.PostMentoria? || e.PutMentoria? || e.DeleteMentoria? || e.PostMentorado? || e.DeleteMentorado?
  }

  /**
   * The roles each route is meant to admit: every write is for mentors, the
   * listing of one's own sessions for mentors and mentees, and the reads by id
   * or topic for any authenticated principal.
   */
  predicate RoleAdmitted(e: Endpoint, role: UserType)
  {
    match e
    case ListMentorias => role == Mentor || role == Mentorado
    case ListByTopic(_) => true
    case GetMentoria(_) => true
    case ListMentorados(_) => true
    case _ => role == Mentor
  }

  /**
   * The dependency chain in front of a handler: the principal from
   * `get_current_user` (resolved once and shared), then the route's role gate,
   * then, on mentor-only routes, `get_current_active_mentor`, which is the same
   * gate a second time.
   */
  function Admit(e: Endpoint, user: Result<TokenData, AuthError>): (r: Result<TokenData, AuthError>)
    ensures user.Failure? ==> r == user
    ensures r.Success? <==> user.Success? && RoleAdmitted(e, user.value.userType)
    ensures r.Success? ==> r.value == user.value
    ensures user.Success? && r.Failure? ==> StatusOf(r.error) == 403
  {
    if user.Failure? then user
    else
      var routeGate := if RouteRoles(e).Some? then RoleChecker(RouteRoles(e).value, user.value) else user;
      if routeGate.Failure? || !MentorParam(e) then routeGate
      else GetCurrentActiveMentor(routeGate.value)
  }

  /** The `mentoria_id` path parameter, on routes that have one. */
  function PathId(e: Endpoint): Option<int>
  {
    match e
    case GetMentoria(id) => Some(id)
    case PutMentoria(id, _) => Some(id)
    case DeleteMentoria(id) => Some(id)
    case PostMentorado(id, _) => Some(id)
    case DeleteMentorado(id, _) => Some(id)
    case ListMentorados(id) => Some(id)
    case _ => None
  }

  /** `Path(..., ge=1)`. */
  predicate ValidPath(e: Endpoint)
  {
    PathId(e).None? || PathId(e).value >= 1
  }

  // ---------------------------------------------------------------------------
  // Dispatch
  // ---------------------------------------------------------------------------

  /** The call a handler makes; every write names the principal as owner. */
  datatype CrudCall =
    | CallCreate(m: MentoriaCreate, owner: string)
    | CallListByUser(email: string, role: UserType)
    | CallListByTopic(topic: string)
    | CallGet(id: int)
    | CallUpdate(id: int, u: MentoriaUpdate, owner: string)
    | CallDelete(id: int, owner: string)
    | CallAdd(id: int, mentorado: MentoradoEmail, owner: string)
    | CallRemove(id: int, mentorado: MentoradoEmail, owner: string)
    | CallListMentorados(id: int)

  predicate IsWrite(c: CrudCall)
  {
    c.CallCreate? || c.CallUpdate? || c.CallDelete? || c.CallAdd? || c.CallRemove?
  }

  function CallFor(e: Endpoint, p: TokenData): (c: CrudCall)
    ensures IsWrite(c) <==> MentorParam(e)
    ensures IsWrite(c) ==> c.owner == p.username
  {
    match e
    case PostMentoria(m) => CallCreate(m, p.username)
    case ListMentorias => CallListByUser(p.username, p.userType)
    case ListByTopic(topic) => CallListByTopic(topic)
    case GetMentoria(id) => CallGet(id)
    case PutMentoria(id, u) => CallUpdate(id, u, p.username)
    case DeleteMentoria(id) => CallDelete(id, p.username)
    case PostMentorado(id, m) => CallAdd(id, m, p.username)
    case DeleteMentorado(id, m) => CallRemove(id, m, p.username)
    case ListMentorados(id) => CallListMentorados(id)
  }

  /** The response a rejected dependency produces. */
  function Rejection(err: AuthError): (resp: Response)
    ensures resp.status == StatusOf(err)
  {
    Response(StatusOf(err), AuthRejected(err))
  }

  /**
   * Everything before the handler body: admission, then path validation, then
   * the call the handler makes on the admitted principal's behalf.
   */
  function Dispatch(e: Endpoint, user: Result<TokenData, AuthError>): (r: Result<CrudCall, Response>)
    ensures user.Failure? ==> r == Failure(Rejection(user.error))
    ensures r.Success? <==> user.Success? && RoleAdmitted(e, user.value.userType) && ValidPath(e)
    ensures user.Success? && !RoleAdmitted(e, user.value.userType) ==> r.Failure? && r.error.status == 403
    ensures user.Success? && RoleAdmitted(e, user.value.userType) && !ValidPath(e) ==>
      r == Failure(Response(422, InvalidPathId(PathId(e).value)))
    ensures r.Success? ==> r.value == CallFor(e, user.value)
  {
    match Admit(e, user)
    case Failure(err) => Failure(Rejection(err))
    case Success(p) =>
      if !ValidPath(e) then Failure(Response(422, InvalidPathId(PathId(e).value)))
      else Success(CallFor(e, p))
  }

  // ---------------------------------------------------------------------------
  // Handler bodies
  // ---------------------------------------------------------------------------

  /**
   * An exception escaping a handler: one raised by the database side, or the
   * AttributeError of looking up a function the CRUD module does not define.
   */
  datatype Fault =
    | DbFault(error: DbError)
    | MissingAttribute(name: string)

  /** What the store call handed back, or the exception it raised. */
  datatype CrudReturn =
    | Created(created: Option<MentoriaRow>)
    | Found(found: Option<MentoriaRow>)
    | UpdateReturned(outcome: UpdateOutcome)
    | Flag(ok: bool)
    | Enrolled(emails: Option<set<string>>)
    | Raised(fault: Fault)

  /** A return value of the shape the call produces. */
  predicate Fits(c: CrudCall, ret: CrudReturn)
  {
    || ret.Raised?
    || (c.CallCreate? && ret.Created?)
    || (c.CallGet? && ret.Found?)
    || (c.CallUpdate? && ret.UpdateReturned?)
    || ((c.CallDelete? || c.CallAdd? || c.CallRemove?) && ret.Flag?)
    || (c.CallListMentorados? && ret.Enrolled?)
  }

  /** Whether the handler reports success for this return value. */
  predicate Succeeded(ret: CrudReturn)
  {
    match ret
    case Created(r) => r.Some?
    case Found(r) => r.Some?
    case UpdateReturned(o) => o.Updated?
    case Flag(ok) => ok
    case Enrolled(r) => r.Some?
    case Raised(_) => false
  }

  /**
   * The `if` branches after each store call. An exception is answered with
   * 500. The update handler looks for "UNAUTHORIZED" before it looks for
   * None, so it tells 403 from 404; delete and the enrollment handlers only
   * see a boolean and answer 404 for every failure.
   */
  function Finish(c: CrudCall, ret: CrudReturn): (resp: Response)
    requires Fits(c, ret)
    ensures ret.Raised? ==> resp == Response(500, ServerError(ret.fault))
    ensures 200 <= resp.status < 300 <==> Succeeded(ret)
    ensures !ret.Raised? && !Succeeded(ret) ==>
      resp.status == (if c.CallCreate? then 500 else if ret.UpdateReturned? && ret.outcome.Unauthorized? then 403 else 404)
    ensures Succeeded(ret) ==>
      resp.status == (if c.CallCreate? || c.CallAdd? then 201 else if c.CallDelete? || c.CallRemove? then 204 else 200)
    ensures ret.Created? && ret.created.Some? ==> resp.body == RowBody(ret.created.value)
    ensures ret.Found? && ret.found.Some? ==> resp.body == RowBody(ret.found.value)
    ensures ret.UpdateReturned? && ret.outcome.Updated? ==> resp.body == RowBody(ret.outcome.row)
    ensures ret.Enrolled? && ret.emails.Some? ==> resp.body == EmailsBody(ret.emails.value)
    ensures Succeeded(ret) && (c.CallDelete? || c.CallRemove?) ==> resp.body == NoContent
  {
    match ret
    case Raised(fault) => Response(500, ServerError(fault))
    case Created(r) =>
      if r.None? then Response(500, Detail("Failed to create mentoria")) else Response(201, RowBody(r.value))
    case Found(r) =>
      if r.None? then Response(404, Detail("Mentoria not found")) else Response(200, RowBody(r.value))
    case UpdateReturned(o) =>
      if o.Unauthorized? then Response(403, Detail("Not authorized to update this mentoria"))
      else if o.NotFound? then Response(404, Detail("Mentoria not found or update failed"))
      else Response(200, RowBody(o.row))
    case Flag(ok) =>
      if c.CallDelete? then
        if ok then Response(204, NoContent)
        else Response(404, Detail("Mentoria not found or not authorized to delete"))
      else if c.CallAdd? then
        if ok then Response(201, Message("Mentorado added successfully to mentoria"))
        else Response(404, Detail("Mentoria not found or not authorized, or mentorado could not be added/already in mentoria"))
      else
        if ok then Response(204, NoContent)
        else Response(404, Detail("Mentoria not found, mentorado not in mentoria, or not authorized"))
    case Enrolled(r) =>
      if r.None? then Response(404, Detail("Mentoria not found")) else Response(200, EmailsBody(r.value))
  }

  // ---------------------------------------------------------------------------
  // A whole request against the tables
  // ---------------------------------------------------------------------------

  /** The emails enrolled in mentoria `id`. */
  function EnrolledEmails(t: Tables, id: int): (r: set<string>)
    ensures forall e :: e in r <==> Enrollment(id, e) in t.enrollments
  {
    set en | en in t.enrollments && en.mentoriaId == id :: en.mentoradoEmail
  }

  /**
   * The function a handler looks up in the CRUD module that the module does
   * not define: `get_mentorias_by_user` for GET / and `get_mentorias_by_topic`
   * for GET /topico/{topic}.
   */
  function MissingFunction(c: CrudCall): Option<string>
  {
    match c
    case CallListByUser(_, _) => Some("get_mentorias_by_user")
    case CallListByTopic(_) => Some("get_mentorias_by_topic")
    case _ => None
  }

  /** A boolean store answer, or the exception behind it. */
  function FlagOf(res: Result<bool, DbError>): CrudReturn
  {
    if res.Success? then Flag(res.value) else Raised(DbFault(res.error))
  }

  /**
   * The store call against the tables. Looking up an undefined CRUD function
   * raises before anything else; otherwise the connection guard runs first,
   * then the operation, whose exceptions propagate.
   */
  function Perform(t: Tables, pool: PoolState, c: CrudCall): (r: (Tables, CrudReturn))
    ensures Fits(c, r.1)
    ensures MissingFunction(c).Some? ==> r == (t, Raised(MissingAttribute(MissingFunction(c).value)))
    ensures MissingFunction(c).None? && pool == Unset ==> r == (t, Raised(DbFault(PoolNotInitialized)))
    ensures r.1.Raised? || !IsWrite(c) ==> r.0 == t
    ensures Consistent(t) ==> Consistent(r.0)
    ensures pool != Unset && c.CallCreate? ==>
      r.0 == Create(t, c.m, c.owner).0 &&
      (r.1.Created? <==> Create(t, c.m, c.owner).1.Success?) &&
      (r.1.Created? ==> r.1.created == Some(Create(t, c.m, c.owner).1.value))
    ensures pool != Unset && c.CallGet? && Int4(c.id) ==>
      r.1 == Found(if c.id in t.mentorias then Some(t.mentorias[c.id]) else None)
    ensures pool != Unset && c.CallUpdate? ==>
      r.0 == Update(t, c.id, c.u, c.owner).0 &&
      (r.1.UpdateReturned? <==> Update(t, c.id, c.u, c.owner).1.Success?) &&
      (r.1.UpdateReturned? ==> r.1.outcome == Update(t, c.id, c.u, c.owner).1.value)
    ensures pool != Unset && c.CallDelete? ==> r.0 == Delete(t, c.id, c.owner).0
    ensures pool != Unset && c.CallAdd? ==> r.0 == Enroll(t, c.id, c.mentorado.mentoradoEmail, c.owner).0
    ensures pool != Unset && c.CallRemove? ==> r.0 == Unenroll(t, c.id, c.mentorado.mentoradoEmail, c.owner).0
    ensures pool != Unset && (c.CallDelete? || c.CallAdd?) && Int4(c.id) ==>
      r.1 == Flag(OwnedBy(t, c.id, c.owner))
    ensures pool != Unset && c.CallRemove? && Int4(c.id) ==>
      r.1 == Flag(OwnedBy(t, c.id, c.owner) && Enrollment(c.id, c.mentorado.mentoradoEmail) in t.enrollments)
    ensures pool != Unset && c.CallListMentorados? && Int4(c.id) ==>
      r.1 == Enrolled(if c.id in t.mentorias then Some(EnrolledEmails(t, c.id)) else None)
  {
    if MissingFunction(c).Some? then (t, Raised(MissingAttribute(MissingFunction(c).value)))
    else if pool == Unset then (t, Raised(DbFault(PoolNotInitialized)))
    else
      match c
      case CallCreate(m, owner) =>
        var (t', res) := Create(t, m, owner);
        (t', if res.Success? then Created(Some(res.value)) else Raised(DbFault(res.error)))
      case CallGet(id) =>
        (t, if !Int4(id) then Raised(DbFault(IntegerOutOfRange))
            else Found(if id in t.mentorias then Some(t.mentorias[id]) else None))
      case CallUpdate(id, u, owner) =>
        var (t', out) := Update(t, id, u, owner);
        (t', if out.Success? then UpdateReturned(out.value) else Raised(DbFault(out.error)))
      case CallDelete(id, owner) => var (t', res) := Delete(t, id, owner); (t', FlagOf(res))
      case CallAdd(id, m, owner) => var (t', res) := Enroll(t, id, m.mentoradoEmail, owner); (t', FlagOf(res))
      case CallRemove(id, m, owner) => var (t', res) := Unenroll(t, id, m.mentoradoEmail, owner); (t', FlagOf(res))
      case CallListMentorados(id) =>
        (t, if !Int4(id) then Raised(DbFault(IntegerOutOfRange))
            else Enrolled(if id in t.mentorias then Some(EnrolledEmails(t, id)) else None))
  }

  /**
   * One request end to end: the tables afterwards and the response. A request
   * turned away before its handler changes nothing, and only a mentor's
   * request can change the tables.
   */
  function Serve(t: Tables, pool: PoolState, e: Endpoint, user: Result<TokenData, AuthError>): (r: (Tables, Response))
    ensures Dispatch(e, user).Failure? ==> r == (t, Dispatch(e, user).error)
    ensures r.0 != t ==> user.Success? && user.value.userType == Mentor && MentorParam(e)
    ensures r.1.status == 500 && r.1.body.ServerError? ==> r.0 == t
    ensures Consistent(t) ==> Consistent(r.0)
  {
    match Dispatch(e, user)
    case Failure(resp) => (t, resp)
    case Success(c) =>
      var (t', ret) := Perform(t, pool, c);
      (t', Finish(c, ret))
  }

  // ---------------------------------------------------------------------------
  // What a client can observe
  // ---------------------------------------------------------------------------

  /**
   * DELETE answers a missing mentoria and another mentor's mentoria with the
   * same 404 and the same body, and changes nothing in either case.
   */
  lemma DeleteHidesOwnership(t: Tables, pool: PoolState, id: int, mentor: string)
    requires pool != Unset && 1 <= id <= Int4Max
    requires !OwnedBy(t, id, mentor)
    ensures Serve(t, pool, DeleteMentoria(id), Success(TokenData(mentor, Mentor))) ==
      (t, Response(404, Detail("Mentoria not found or not authorized to delete")))
  {
  }

  /**
   * PUT tells the two cases apart: 404 for a missing mentoria, 403 for
   * another mentor's; neither writes.
   */
  lemma UpdateDistinguishesForbidden(t: Tables, pool: PoolState, id: int, u: MentoriaUpdate, mentor: string)
    requires pool != Unset && 1 <= id <= Int4Max
    ensures id !in t.mentorias ==>
      Serve(t, pool, PutMentoria(id, u), Success(TokenData(mentor, Mentor))) ==
      (t, Response(404, Detail("Mentoria not found or update failed")))
    ensures id in t.mentorias && t.mentorias[id].mentorEmail != mentor ==>
      Serve(t, pool, PutMentoria(id, u), Success(TokenData(mentor, Mentor))) ==
      (t, Response(403, Detail("Not authorized to update this mentoria")))
  {
  }

  /**
   * `ge=1` sets no upper bound, so a path id above the largest `INTEGER`
   * reaches the handler, cannot be encoded for the query and ends in 500,
   * changing nothing.
   */
  lemma OversizedIdIsServerError(t: Tables, pool: PoolState, e: Endpoint, user: TokenData)
    requires pool != Unset
    requires PathId(e).Some? && PathId(e).value > Int4Max
    requires RoleAdmitted(e, user.userType)
    ensures Serve(t, pool, e, Success(user)) == (t, Response(500, ServerError(DbFault(IntegerOutOfRange))))
  {
  }

  /**
   * GET / and GET /topico/{topic} look up functions the CRUD module does not
   * define: every admitted request ends in 500, whatever the pool and the
   * tables hold, and changes nothing.
   */
  lemma ListingRoutesFail(t: Tables, pool: PoolState, e: Endpoint, user: TokenData)
    requires e.ListMentorias? || e.ListByTopic?
    requires RoleAdmitted(e, user.userType)
    ensures Serve(t, pool, e, Success(user)).0 == t
    ensures Serve(t, pool, e, Success(user)).1 ==
      Response(500, ServerError(MissingAttribute(if e.ListMentorias? then "get_mentorias_by_user" else "get_mentorias_by_topic")))
  {
  }

  /** An Admin principal is turned away from GET / with 403 before any handler runs. */
  lemma AdminCannotListOwn(t: Tables, pool: PoolState, email: string)
    ensures Serve(t, pool, ListMentorias, Success(TokenData(email, Admin))).1.status == 403
    ensures Serve(t, pool, ListMentorias, Success(TokenData(email, Admin))).0 == t
  {
  }

  /** A mentoria without mentees lists as 200 with an empty array, never as 404. */
  lemma EmptyEnrollmentIsOk(t: Tables, pool: PoolState, id: int, user: TokenData)
    requires pool != Unset && 1 <= id <= Int4Max && id in t.mentorias
    requires forall en :: en in t.enrollments ==> en.mentoriaId != id
    ensures Serve(t, pool, ListMentorados(id), Success(user)) == (t, Response(200, EmailsBody({})))
  {
    assert EnrolledEmails(t, id) == {};
  }

  /** Enrolling the same mentee twice answers 201 both times and stores one pair. */
  lemma EnrollTwiceIsOnce(t: Tables, pool: PoolState, id: int, m: MentoradoEmail, mentor: string)
    requires pool != Unset && 1 <= id <= Int4Max && OwnedBy(t, id, mentor)
    ensures var first := Serve(t, pool, PostMentorado(id, m), Success(TokenData(mentor, Mentor)));
      && first.1.status == 201
      && first.0 == t.(enrollments := t.enrollments + {Enrollment(id, m.mentoradoEmail)})
      && Serve(first.0, pool, PostMentorado(id, m), Success(TokenData(mentor, Mentor))) == first
  {
  }

  /** GET /{id} answers an existing mentoria with 200 and its row, whoever asks, and writes nothing. */
  lemma GetAnswersRow(t: Tables, pool: PoolState, id: int, user: TokenData)
    requires pool != Unset && 1 <= id <= Int4Max && id in t.mentorias
    ensures Serve(t, pool, GetMentoria(id), Success(user)) == (t, Response(200, RowBody(t.mentorias[id])))
  {
  }

  /**
   * POST / by a mentor stores one new row under the next id, owned by that
   * mentor and holding the payload's values, and answers 201 with that row.
   */
  lemma CreateAnswersRow(t: Tables, pool: PoolState, m: MentoriaCreate, mentor: string)
    requires pool != Unset && Int4(m.duracaoMinutos) && t.nextId <= Int4Max
    ensures var (t', resp) := Serve(t, pool, PostMentoria(m), Success(TokenData(mentor, Mentor)));
      && resp.status == 201 && resp.body.RowBody?
      && var row := resp.body.row;
      && row.id == t.nextId && row.mentorEmail == mentor
      && row.dataHora == m.dataHora && row.duracaoMinutos == m.duracaoMinutos
      && row.status == StatusValue(m.status) && row.topico == TopicValue(m.topico)
      && t' == Tables(t.mentorias[t.nextId := row], t.enrollments, t.nextId + 1)
  {
  }

  /**
   * PUT /{id} by the owner with a changeset PostgreSQL accepts answers 200
   * with the changeset's row, which replaces the stored one.
   */
  lemma OwnerUpdateApplies(t: Tables, pool: PoolState, id: int, u: MentoriaUpdate, mentor: string)
    requires pool != Unset && 1 <= id <= Int4Max && OwnedBy(t, id, mentor)
    requires ApplyChangeset(t.mentorias[id], u).Success?
    ensures var row := ApplyChangeset(t.mentorias[id], u).value;
      Serve(t, pool, PutMentoria(id, u), Success(TokenData(mentor, Mentor))) ==
      (t.(mentorias := t.mentorias[id := row]), Response(200, RowBody(row)))
  {
  }

  /**
   * DELETE /{id} by the owner answers 204 with no body; the row is gone and,
   * by cascade, so are exactly its enrollments.
   */
  lemma OwnerDeleteRemoves(t: Tables, pool: PoolState, id: int, mentor: string)
    requires pool != Unset && 1 <= id <= Int4Max && OwnedBy(t, id, mentor)
    ensures var (t', resp) := Serve(t, pool, DeleteMentoria(id), Success(TokenData(mentor, Mentor)));
      && resp == Response(204, NoContent)
      && t'.mentorias == t.mentorias - {id} && t'.nextId == t.nextId
      && forall en :: en in t'.enrollments <==> en in t.enrollments && en.mentoriaId != id
  {
  }

  /** GET /{id}/mentorados answers an existing mentoria with 200 and exactly its enrolled emails. */
  lemma ListMentoradosAnswersEmails(t: Tables, pool: PoolState, id: int, user: TokenData)
    requires pool != Unset && 1 <= id <= Int4Max && id in t.mentorias
    ensures var (t', resp) := Serve(t, pool, ListMentorados(id), Success(user));
      && t' == t && resp.status == 200 && resp.body.EmailsBody?
      && forall e :: e in resp.body.emails <==> Enrollment(id, e) in t.enrollments
  {
  }

  // ---------------------------------------------------------------------------
  // The handlers over the live store
  // ---------------------------------------------------------------------------

  /** The store operation a dispatched call makes, once a connection was obtained. */
  method Run(store: MentoriaStore, pool: PoolState, c: CrudCall) returns (ret: CrudReturn)
    requires store.Valid() && pool != Unset
    modifies store
    ensures store.Valid()
    ensures (store.State(), ret) == Perform(old(store.State()), pool, c)
  {
    match c {
      case CallCreate(m, owner) =>
        var created := store.CreateMentoria(m, owner);
        ret := if created.Success? then Created(Some(created.value)) else Raised(DbFault(created.error));
      case CallListByUser(_, _) =>
        ret := Raised(MissingAttribute("get_mentorias_by_user"));
      case CallListByTopic(_) =>
        ret := Raised(MissingAttribute("get_mentorias_by_topic"));
      case CallGet(id) =>
        var found := store.GetMentoriaById(id);
        ret := if found.Success? then Found(found.value) else Raised(DbFault(found.error));
      case CallUpdate(id, u, owner) =>
        var out := store.UpdateMentoria(id, u, owner);
        ret := if out.Success? then UpdateReturned(out.value) else Raised(DbFault(out.error));
      case CallDelete(id, owner) =>
        var res := store.DeleteMentoria(id, owner);
        ret := FlagOf(res);
      case CallAdd(id, m, owner) =>
        var res := store.AddMentorado(id, m, owner);
        ret := FlagOf(res);
      case CallRemove(id, m, owner) =>
        var res := store.RemoveMentorado(id, m, owner);
        ret := FlagOf(res);
      case CallListMentorados(id) =>
        var emails := store.GetMentoradosForMentoria(id);
        if emails.Failure? {
          ret := Raised(DbFault(emails.error));
        } else {
          ret := Enrolled(if emails.value.Some? then Some(set x | x in emails.value.value) else None);
          assert emails.value.Some? ==> (set x | x in emails.value.value) == EnrolledEmails(old(store.State()), id);
        }
    }
  }

  /**
   * One request against the store and the pool: dispatch, the lookup of the
   * CRUD function, the connection guard, the store operation the handler
   * calls, and the handler's answer.
   */
  method Handle(store: MentoriaStore, db: Database, e: Endpoint, user: Result<TokenData, AuthError>)
    returns (resp: Response)
    requires store.Valid()
    modifies store
    ensures store.Valid()
    ensures (store.State(), resp) == Serve(old(store.State()), db.pool, e, user)
  {
    var dispatched := Dispatch(e, user);
    if dispatched.Failure? {
      return dispatched.error;
    }
    var c := dispatched.value;
    var missing := MissingFunction(c);
    if missing.Some? {
      return Finish(c, Raised(MissingAttribute(missing.value)));
    }
    var err := db.GetDbConnection();
    if err.Some? {
      return Finish(c, Raised(DbFault(err.value)));
    }
    var ret := Run(store, db.pool, c);
    resp := Finish(c, ret);
  }
}
