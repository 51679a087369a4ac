/**
 * The authentication middleware of BackEnd/src/middleware/auth.ts: bearer
 * token extraction, the two auth-service lookups, role defaulting, and the
 * admin gate.
 */
module Auth {
  import opened Wrappers
  import opened Strings
  import opened JsonValues

  /** `req.user`: the authenticated user with the role taken from the profile. */
  datatype User = User(id: string, email: string, role: string)

  /** An HTTP reply; `body` is `None` for an empty body (`res.send()`). */
  datatype Response = Response(status: nat, body: Option<Json>)

  /** `res.status(status).json({ error: message })`. */
  function ErrorResponse(status: nat, message: string): Response {
    Response(status, Some(JObj(map["error" := JStr(message)])))
  }

  /** The auth service's answer to `auth.getUser(token)`. */
  datatype GetUserReply =
    | Found(id: string, email: string)
    | NoUser          // `user` is null
    | Rejected        // `error` is set
    | GetUserThrew    // the call itself throws

  /** The `profiles` row lookup by id: no row, a row with a possibly null role, or a throw. */
  datatype ProfileReply = NoProfile | Profile(role: Option<string>) | ProfileThrew

  /** What the middleware does: answer with an error, or set `req.user` and call `next`. */
  datatype Outcome = Reject(status: nat, message: string) | Proceed(user: User)

  // ----------------------------------------------------------------- token

  /**
   * `req.headers.authorization?.split(' ')[1]`, when truthy: the second
   * space-separated field. The first word is not checked to be "Bearer".
   */
  function ExtractToken(header: Option<string>): (token: Option<string>)
    ensures token.Some? ==> token.value != "" && ' ' !in token.value
    ensures header.None? ==> token.None?
  {
    if header.None? then None
    else
      var fields := Split(header.value, ' ');
      if |fields| >= 2 && fields[1] != "" then Some(fields[1]) else None
  }

  /** `scheme token`, possibly followed by more space-separated text, yields `token`. */
  lemma TokenOfHeader(scheme: string, token: string, rest: string)
    requires ' ' !in scheme && ' ' !in token && token != ""
    ensures ExtractToken(Some(scheme + " " + token)) == Some(token)
    ensures ExtractToken(Some(scheme + " " + token + " " + rest)) == Some(token)
  {
    SplitAfterFirst(scheme, token, ' ');
    assert scheme + " " + token + " " + rest == scheme + [' '] + (token + [' '] + rest);
    SplitAfterFirst(scheme, token + [' '] + rest, ' ');
    SplitAfterFirst(token, rest, ' ');
  }

  /** A header without a space, or whose second field is empty, gives no token. */
  lemma NoTokenWithoutSecondField(header: string, scheme: string, rest: string)
    ensures ' ' !in header ==> ExtractToken(Some(header)) == None
    ensures ' ' !in scheme ==> ExtractToken(Some(scheme + "  " + rest)) == None
    ensures ' ' !in scheme ==> ExtractToken(Some(scheme + " ")) == None
  {
    if ' ' !in scheme {
      assert scheme + "  " + rest == scheme + [' '] + ([' '] + rest);
      SplitAfterFirst(scheme, [' '] + rest, ' ');
      assert Split([' '] + rest, ' ')[0] == "";
      assert scheme + " " == scheme + [' '] + "";
      SplitAfterFirst(scheme, "", ' ');
    }
  }

  /**
   * Conversely, an extracted token is preceded by one space-free word and a
   * space, and followed by nothing or by a space.
   */
  lemma ExtractedTokenShape(header: string) returns (scheme: string, rest: string)
    requires ExtractToken(Some(header)).Some?
    ensures ' ' !in scheme && (rest == "" || rest[0] == ' ')
    ensures header == scheme + " " + ExtractToken(Some(header)).value + rest
  {
    var fields := Split(header, ' ');
    JoinSplit(header, ' ');
    scheme := fields[0];
    assert Join(fields, ' ') == fields[0] + [' '] + Join(fields[1..], ' ');
    if |fields| == 2 {
      rest := "";
      assert Join(fields[1..], ' ') == fields[1];
    } else {
      rest := [' '] + Join(fields[2..], ' ');
      assert fields[1..][1..] == fields[2..];
      assert Join(fields[1..], ' ') == fields[1] + [' '] + Join(fields[2..], ' ');
    }
  }

  // ------------------------------------------------------------------ role

  /** `profile?.role || 'user'`. */
  function ResolveRole(profile: ProfileReply): (role: string)
    requires !profile.ProfileThrew?
    ensures role != ""
    ensures role == "user" || (profile.Profile? && profile.role == Some(role))
    ensures profile.Profile? && profile.role.Some? && profile.role.value != "" ==> role == profile.role.value
  {
    if profile.Profile? && profile.role.Some? && profile.role.value != "" then profile.role.value else "user"
  }

  // ------------------------------------------------------- authMiddleware

  /** The decision of `authMiddleware` for a request with the given Authorization header. */
  function Authenticate(header: Option<string>, getUser: string -> GetUserReply, profileOf: string -> ProfileReply)
    : (o: Outcome)
    ensures o == Reject(401, "No token provided") <==> ExtractToken(header).None?
    ensures var token := ExtractToken(header);
      && (o == Reject(401, "Invalid token") <==> token.Some? && getUser(token.value) in {NoUser, Rejected})
      && (o == Reject(500, "Auth failed") <==>
           token.Some? && (getUser(token.value).GetUserThrew?
             || (getUser(token.value).Found? && profileOf(getUser(token.value).id).ProfileThrew?)))
    ensures o.Proceed? ==>
      var found := getUser(ExtractToken(header).value);
      && found.Found?
      && o.user == User(found.id, found.email, ResolveRole(profileOf(found.id)))
    ensures o.Proceed? <==>
      var token := ExtractToken(header);
      && token.Some? && getUser(token.value).Found?
      && !profileOf(getUser(token.value).id).ProfileThrew?
    ensures o.Reject? ==> o in {Reject(401, "No token provided"), Reject(401, "Invalid token"), Reject(500, "Auth failed")}
  {
    match ExtractToken(header)
    case None => Reject(401, "No token provided")
    case Some(token) =>
      match getUser(token)
      case GetUserThrew => Reject(500, "Auth failed")
      case NoUser => Reject(401, "Invalid token")
      case Rejected => Reject(401, "Invalid token")
      case Found(id, email) =>
        var profile := profileOf(id);
        if profile.ProfileThrew? then Reject(500, "Auth failed")
        else Proceed(User(id, email, ResolveRole(profile)))
  }

  /** `adminMiddleware`: `None` passes on to the handler. */
  function AdminGate(user: Option<User>): (r: Option<Response>)
    ensures r.None? <==> user.Some? && user.value.role == "admin"
    ensures r.Some? ==> r.value == ErrorResponse(403, "Admin access required")
  {
    if user.Some? && user.value.role == "admin" then None
    else Some(ErrorResponse(403, "Admin access required"))
  }

  /** A role defaulted from a missing or empty profile role is never admin. */
  lemma DefaultRoleIsNotAdmin(profile: ProfileReply)
    requires !profile.ProfileThrew?
    requires !(profile.Profile? && profile.role == Some("admin"))
    ensures AdminGate(Some(User("", "", ResolveRole(profile)))).Some?
  {
  }

  // ------------------------------------------------------ the exchange

  /** One request/response exchange: `req.user`, the reply written, and whether `next` was called. */
  class Exchange {
    var user: Option<User>
    var response: Option<Response>
    var nextCalled: bool

    constructor ()
      ensures user == None && response == None && !nextCalled
    {
      user := None;
      response := None;
      nextCalled := false;
    }

    /** `authMiddleware(req, res, next)`. */
    method AuthMiddleware(header: Option<string>, getUser: string -> GetUserReply, profileOf: string -> ProfileReply)
      modifies this
      ensures match Authenticate(header, getUser, profileOf)
        case Proceed(u) => user == Some(u) && nextCalled && response == old(response)
        case Reject(status, message) =>
          response == Some(ErrorResponse(status, message)) && user == old(user) && nextCalled == old(nextCalled)
    {
      var outcome := Authenticate(header, getUser, profileOf);
      match outcome {
        case Proceed(u) =>
          user := Some(u);
          nextCalled := true;
        case Reject(status, message) =>
          response := Some(ErrorResponse(status, message));
      }
    }

    /** `adminMiddleware(req, res, next)`. */
    method AdminMiddleware()
      modifies this
      ensures user == old(user)
      ensures AdminGate(user).None? ==> nextCalled && response == old(response)
      ensures AdminGate(user).Some? ==> response == AdminGate(user) && nextCalled == old(nextCalled)
    {
      var gate := AdminGate(user);
      if gate.Some? {
        response := gate;
      } else {
        nextCalled := true;
      }
    }
  }
}
