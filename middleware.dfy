/** The two middleware functions, `authenticateToken` and `authorizeRole`, and the two protected
    routes built from them: `GET /api/profile` and `GET /api/admin/dashboard`. */
module Middleware {
  import opened Base
  import opened Text
  import opened Crypto
  import opened Http
  import opened Accounts

  /** The token of an `Authorization` header: its second space-separated word, or nothing when
      the header is absent or that word is missing or empty. The first word is not looked at. */
  function TokenOf(header: Option<string>): (token: Option<string>)
    ensures token.Some? ==> header.Some? && token.value != "" && ' ' !in token.value
    ensures header.Some? && ' ' !in header.value ==> token.None?
  {
    match header
    case None => None
    case Some(h) =>
      var words := Split(h, ' ');
      if |words| < 2 || words[1] == "" then None else Some(words[1])
  }

  /** Whatever the first word, `<scheme> <token>` yields the token. */
  lemma TokenOfSchemeAndToken(scheme: string, token: string)
    requires ' ' !in scheme && ' ' !in token && token != ""
    ensures TokenOf(Some(scheme + " " + token)) == Some(token)
  {
    SplitJoin([scheme, token], ' ');
    assert Join([scheme, token], ' ') == scheme + " " + token;
  }

  /** The token is the second space-separated word of any header with a space in it, whatever
      the first word and whatever follows the second; an empty second word (`"Bearer "`,
      `"Bearer  t"`) yields no token. */
  lemma {:induction false} TokenOfSecondWord(first: string, second: string, tail: string)
    requires ' ' !in first && ' ' !in second
    requires tail == "" || tail[0] == ' '
    ensures TokenOf(Some(first + " " + second + tail)) == if second == "" then None else Some(second)
  {
    var h := first + " " + second + tail;
    assert h == first + [' '] + (second + tail);
    SplitAfterWord(first, second + tail, ' ');
    if tail == "" {
      assert second + tail == second;
    } else {
      assert second + tail == second + [' '] + tail[1..];
      SplitAfterWord(second, tail[1..], ' ');
    }
  }

  /** What a middleware does with a request: pass it on (`next()`) or answer it. */
  datatype Step = Next | Halt(reply: Reply)

  /** The outcome of token authentication: the verified claims, or the reply that ends the request. */
  datatype Authenticated = Verified(user: Claims) | Rejected(reply: Reply)

  const TokenRequired := Send(401, ErrorJson("Access token required"))
  const TokenInvalid := Send(403, ErrorJson("Invalid or expired token"))

  /** What `authenticateToken` decides for an `Authorization` header. */
  function Authentication(secret: string, header: Option<string>): (r: Authenticated)
    // no token: 401
    ensures (r.Rejected? && r.reply == TokenRequired) <==> TokenOf(header).None?
    // a token that does not verify: 403
    ensures (r.Rejected? && r.reply == TokenInvalid) <==>
      TokenOf(header).Some? && Verify(secret, TokenOf(header).value).None?
    // only a token signed with `secret` gets through, and it yields the claims it was signed for
    ensures r.Verified? ==> TokenOf(header) == Some(Sign(secret, r.user))
    // a token that verifies passes with the claims it verifies to
    ensures TokenOf(header).Some? && Verify(secret, TokenOf(header).value).Some? ==>
      r == Verified(Verify(secret, TokenOf(header).value).value)
  {
    match TokenOf(header)
    case None => Rejected(TokenRequired)
    case Some(token) =>
      match Verify(secret, token)
      case None => Rejected(TokenInvalid)
      case Some(claims) => Verified(claims)
  }

  /** A header carrying a token signed with `secret` authenticates as the signed claims. */
  lemma AuthenticateSigned(secret: string, header: Option<string>, c: Claims)
    requires TokenOf(header) == Some(Sign(secret, c))
    ensures Authentication(secret, header) == Verified(c)
  {
    VerifySign(secret, c);
  }

  /** An incoming request: its `Authorization` header and the `user` slot middleware fills in. */
  class Request {
    const authorization: Option<string>
    var user: Option<Claims>

    constructor (authorization: Option<string>)
      ensures this.authorization == authorization && user == None
    {
      this.authorization := authorization;
      user := None;
    }
  }

  /** `authenticateToken`: on success stores the claims in `req.user` and calls `next`;
      otherwise answers and leaves `req.user` alone. */
  method AuthenticateToken(req: Request) returns (step: Step)
    modifies req
    ensures match Authentication(SecretKey, req.authorization)
      case Verified(claims) => step == Next && req.user == Some(claims)
      case Rejected(reply) => step == Halt(reply) && req.user == old(req.user)
  {
    var token := TokenOf(req.authorization);
    if token.None? {
      return Halt(TokenRequired);
    }
    var claims := Verify(SecretKey, token.value);
    if claims.None? {
      return Halt(TokenInvalid);
    }
    req.user := claims;
    step := Next;
  }

  const InsufficientRole := Send(403, ErrorJson("Forbidden: insufficient role"))

  /** The middleware `authorizeRole(role)` builds, applied to the authenticated claims:
      passes exactly on an exact role match. */
  function AuthorizeRole(role: string, user: Claims): (s: Step)
    ensures s.Next? <==> user.role == role
    ensures s.Halt? ==> s.reply == InsufficientRole
  {
    if user.role != role then Halt(InsufficientRole) else Next
  }

  const AdminRole := "admin"
  const Dashboard := Send(200, DashboardJson("Welcome to admin dashboard", "Secret admin info"))

  /** `GET /api/profile`: authenticate, then echo the claims. */
  function ProfileRoute(header: Option<string>): (r: Reply)
    ensures r.Send? && r.status in {200, 401, 403}
    ensures r.status == 401 <==> TokenOf(header).None?
    ensures r == TokenRequired <==> TokenOf(header).None?
    ensures r == TokenInvalid <==> TokenOf(header).Some? && Verify(SecretKey, TokenOf(header).value).None?
    ensures r.status == 200 ==> r.body.ProfileJson? && TokenOf(header) == Some(Sign(SecretKey, r.body.claims))
  {
    match Authentication(SecretKey, header)
    case Rejected(reply) => reply
    case Verified(claims) => Send(200, ProfileJson(claims))
  }

  /** `GET /api/admin/dashboard`: authenticate, require the admin role, then answer. */
  function AdminDashboard(header: Option<string>): (r: Reply)
    ensures r in {Dashboard, TokenRequired, TokenInvalid, InsufficientRole}
    ensures r == TokenRequired <==> TokenOf(header).None?
    ensures r == TokenInvalid <==> TokenOf(header).Some? && Verify(SecretKey, TokenOf(header).value).None?
    ensures r == InsufficientRole <==>
      TokenOf(header).Some? && Verify(SecretKey, TokenOf(header).value).Some?
      && Verify(SecretKey, TokenOf(header).value).value.role != AdminRole
    ensures r == Dashboard ==> exists c :: TokenOf(header) == Some(Sign(SecretKey, c)) && c.role == AdminRole
  {
    match Authentication(SecretKey, header)
    case Rejected(reply) => reply
    case Verified(claims) =>
      match AuthorizeRole(AdminRole, claims)
      case Halt(reply) => reply
      case Next => Dashboard
  }

  /** The profile route run on a request object: the middleware writes `req.user`, the handler reads it. */
  method ServeProfile(req: Request) returns (reply: Reply)
    modifies req
    ensures reply == ProfileRoute(req.authorization)
  {
    var step := AuthenticateToken(req);
    if step.Halt? {
      return step.reply;
    }
    reply := Send(200, ProfileJson(req.user.value));
  }

  /** The admin route run on a request object, middleware by middleware. */
  method ServeAdminDashboard(req: Request) returns (reply: Reply)
    modifies req
    ensures reply == AdminDashboard(req.authorization)
  {
    var step := AuthenticateToken(req);
    if step.Halt? {
      return step.reply;
    }
    step := AuthorizeRole(AdminRole, req.user.value);
    if step.Halt? {
      return step.reply;
    }
    reply := Dashboard;
  }

  /** The admin dashboard answers 200 exactly when the header carries, as its second word, a token
      signed with the service secret for claims whose role is "admin". */
  lemma AdminDashboardAccess(header: Option<string>)
    ensures AdminDashboard(header) == Dashboard <==>
      exists c :: TokenOf(header) == Some(Sign(SecretKey, c)) && c.role == AdminRole
  {
    if exists c :: TokenOf(header) == Some(Sign(SecretKey, c)) && c.role == AdminRole {
      var c :| TokenOf(header) == Some(Sign(SecretKey, c)) && c.role == AdminRole;
      VerifySign(SecretKey, c);
    }
  }

  /** The profile route answers 200 with the claims of a token signed with the service secret,
      and only then. */
  lemma ProfileAccess(header: Option<string>, c: Claims)
    ensures ProfileRoute(header) == Send(200, ProfileJson(c)) <==>
      TokenOf(header) == Some(Sign(SecretKey, c))
  {
    if TokenOf(header) == Some(Sign(SecretKey, c)) {
      VerifySign(SecretKey, c);
    }
  }
}
