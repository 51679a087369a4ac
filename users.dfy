/**
 * The `/api/users` router of BackEnd/src/routes/users.ts: every route runs
 * behind `authMiddleware`; listing, creating and deleting need the admin
 * role; reading and updating one user need the requester to be that user or
 * an admin.
 */
module Users {
  import opened Wrappers
  import opened JsonValues
  import opened Auth

  /** A request to the router: method and path, with the JSON body where one is read. */
  datatype Route =
    | ListUsers                                           // GET /
    | GetUser(id: string)                                 // GET /:id
    | CreateUser(body: map<string, Json>)                 // POST /
    | UpdateUser(id: string, body: map<string, Json>)     // PUT /:id
    | DeleteUser(id: string)                              // DELETE /:id

  /** The query sent to the `profiles` table. */
  datatype Query =
    | SelectAll                                           // ordered by created_at, newest first
    | SelectOne(id: string)
    | Insert(row: map<string, Json>)
    | Update(id: string, fields: map<string, Json>)
    | Delete(id: string)

  /** The database's answer: the returned `data`, or `error` with its message. */
  datatype DbReply = Rows(data: Json) | DbError(message: string)

  /** What one request produces: the reply and the queries sent, in order. */
  datatype Handled = Handled(response: Response, queries: seq<Query>)

  const ProfileColumns := "id, email, name, avatar_url, role, updated_at"

  /**
   * The fields of `body` under the given keys; a key the body lacks is
   * `undefined` and is left out of the JSON payload.
   */
  function Pick(body: map<string, Json>, keys: set<string>): (r: map<string, Json>)
    ensures r.Keys == keys * body.Keys
    ensures forall k :: k in r ==> r[k] == body[k]
  {
    map k | k in keys * body.Keys :: body[k]
  }

  /** `req.user?.id === id || req.user?.role === 'admin'`. */
  predicate SelfOrAdmin(user: Option<User>, id: string) {
    user.Some? && (user.value.id == id || user.value.role == "admin")
  }

  predicate IsAdmin(user: Option<User>) {
    user.Some? && user.value.role == "admin"
  }

  /** `{ id: req.body.id, email, name, role }`. */
  function InsertRow(body: map<string, Json>): map<string, Json> {
    Pick(body, {"id", "email", "name", "role"})
  }

  /** `{ name, avatar_url, ...(req.user?.role === 'admin' && { role }) }`. */
  function UpdateFields(user: Option<User>, body: map<string, Json>): (fields: map<string, Json>)
    ensures "role" in fields <==> IsAdmin(user) && "role" in body
    ensures fields.Keys <= {"name", "avatar_url", "role"}
    ensures forall k :: k in fields ==> k in body && fields[k] == body[k]
    ensures forall k :: k in {"name", "avatar_url"} && k in body ==> k in fields
  {
    Pick(body, if IsAdmin(user) then {"name", "avatar_url", "role"} else {"name", "avatar_url"})
  }

  /** Send `query`; on success reply with `status` and the data, otherwise 500 with the message. */
  function Respond(query: Query, status: nat, db: Query -> DbReply): (h: Handled)
    ensures h.queries == [query]
    ensures db(query).DbError? ==> h.response == ErrorResponse(500, db(query).message)
    ensures db(query).Rows? ==> h.response == Response(status, Some(db(query).data))
  {
    match db(query)
    case Rows(data) => Handled(Response(status, Some(data)), [query])
    case DbError(message) => Handled(ErrorResponse(500, message), [query])
  }

  /** The route handlers, run after `authMiddleware` set `req.user`. */
  function Handle(route: Route, user: Option<User>, db: Query -> DbReply): (h: Handled)
    ensures |h.queries| <= 1
  {
    match route
    case ListUsers =>
      if AdminGate(user).Some? then Handled(AdminGate(user).value, [])
      else Respond(SelectAll, 200, db)
    case GetUser(id) =>
      if !SelfOrAdmin(user, id) then Handled(ErrorResponse(403, "Access denied"), [])
      else Respond(SelectOne(id), 200, db)
    case CreateUser(body) =>
      if AdminGate(user).Some? then Handled(AdminGate(user).value, [])
      else Respond(Insert(InsertRow(body)), 201, db)
    case UpdateUser(id, body) =>
      if !SelfOrAdmin(user, id) then Handled(ErrorResponse(403, "Access denied"), [])
      else Respond(Update(id, UpdateFields(user, body)), 200, db)
    case DeleteUser(id) =>
      if AdminGate(user).Some? then Handled(AdminGate(user).value, [])
      else
        var query := Delete(id);
        match db(query)
        case Rows(_) => Handled(Response(204, None), [query])
        case DbError(message) => Handled(ErrorResponse(500, message), [query])
  }

  /** `router.use(authMiddleware)` in front of every route. */
  function Serve(route: Route, header: Option<string>, getUser: string -> GetUserReply,
                 profileOf: string -> ProfileReply, db: Query -> DbReply): Handled
  {
    match Authenticate(header, getUser, profileOf)
    case Reject(status, message) => Handled(ErrorResponse(status, message), [])
    case Proceed(u) => Handle(route, Some(u), db)
  }

  // ----------------------------------------------------------- properties

  /** No route is reached without authentication: a rejected request gets the middleware's reply and no query. */
  lemma EveryRouteAuthenticated(route: Route, header: Option<string>, getUser: string -> GetUserReply,
                                profileOf: string -> ProfileReply, db: Query -> DbReply)
    ensures var o := Authenticate(header, getUser, profileOf);
      o.Reject? ==> Serve(route, header, getUser, profileOf, db) == Handled(ErrorResponse(o.status, o.message), [])
    ensures ExtractToken(header).None? ==>
      Serve(route, header, getUser, profileOf, db).response == ErrorResponse(401, "No token provided")
  {
  }

  /** Listing, creating and deleting: 403 and no query unless the requester is an admin. */
  lemma AdminOnlyRoutes(route: Route, user: Option<User>, db: Query -> DbReply)
    requires route.ListUsers? || route.CreateUser? || route.DeleteUser?
    ensures Handle(route, user, db).queries == [] <==> !IsAdmin(user)
    ensures !IsAdmin(user) ==> Handle(route, user, db) == Handled(ErrorResponse(403, "Admin access required"), [])
  {
  }

  /** Reading and updating `/:id`: 403 "Access denied" and no query unless self or admin. */
  lemma SelfOrAdminRoutes(route: Route, user: Option<User>, db: Query -> DbReply)
    requires route.GetUser? || route.UpdateUser?
    ensures Handle(route, user, db).queries == [] <==> !SelfOrAdmin(user, route.id)
    ensures !SelfOrAdmin(user, route.id) ==> Handle(route, user, db) == Handled(ErrorResponse(403, "Access denied"), [])
  {
  }

  /** A permitted request sends exactly its route's query to the `profiles` table. */
  lemma PermittedRouteQueries(route: Route, user: Option<User>, db: Query -> DbReply)
    ensures route.ListUsers? && IsAdmin(user) ==> Handle(route, user, db).queries == [SelectAll]
    ensures route.GetUser? && SelfOrAdmin(user, route.id) ==> Handle(route, user, db).queries == [SelectOne(route.id)]
    ensures route.CreateUser? && IsAdmin(user) ==> Handle(route, user, db).queries == [Insert(InsertRow(route.body))]
    ensures route.UpdateUser? && SelfOrAdmin(user, route.id) ==>
      Handle(route, user, db).queries == [Update(route.id, UpdateFields(user, route.body))]
    ensures route.DeleteUser? && IsAdmin(user) ==> Handle(route, user, db).queries == [Delete(route.id)]
  {
  }

  /** A non-admin's update never carries a role, so it cannot change any role. */
  lemma NonAdminCannotChangeRole(id: string, body: map<string, Json>, user: Option<User>, db: Query -> DbReply)
    requires !IsAdmin(user)
    ensures forall q :: q in Handle(UpdateUser(id, body), user, db).queries ==> q.Update? && "role" !in q.fields
    ensures forall q :: q in Handle(UpdateUser(id, body), user, db).queries ==> q == Update(id, UpdateFields(user, body))
  {
  }

  /** Success statuses: 201 on create, 204 with no body on delete, 200 with the data otherwise. */
  lemma SuccessStatuses(route: Route, user: Option<User>, db: Query -> DbReply)
    requires |Handle(route, user, db).queries| == 1
    ensures var q := Handle(route, user, db).queries[0];
      var r := Handle(route, user, db).response;
      && (db(q).DbError? ==> r == ErrorResponse(500, db(q).message))
      && (db(q).Rows? && route.CreateUser? ==> r == Response(201, Some(db(q).data)))
      && (db(q).Rows? && route.DeleteUser? ==> r == Response(204, None))
      && (db(q).Rows? && !route.CreateUser? && !route.DeleteUser? ==> r == Response(200, Some(db(q).data)))
  {
  }
}
