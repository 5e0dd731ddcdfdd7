/** `verifyJWT`, the middleware in front of every protected route: it takes
    the access token from the request, verifies it with the access secret,
    loads the account named by the token and hands it on without its password
    and refresh token. It only reads the users collection. */
module Auth {
  import opened Common
  import opened Crypto
  import opened Strings
  import opened UserModel

  /** What the middleware reads from a request: `req.cookie` (the middleware
      reads this name; cookie-parser fills `req.cookies`, so in the running
      server it is None) and the `Authorization` header. */
  datatype Request = Request(cookie: Option<map<string, string>>, authorization: Option<string>)

  const BearerPrefix: string := "Bearer "

  /** `req.cookie?.accessToken`. */
  function CookieToken(req: Request): Option<string>
  {
    if req.cookie.Some? && "accessToken" in req.cookie.value then
      Some(req.cookie.value["accessToken"])
    else None
  }

  /** "Bearer " starts at position `i` of `h` and nowhere before it. */
  predicate IsFirstBearer(h: string, i: int)
  {
    OccursAt(h, BearerPrefix, i) && forall j :: 0 <= j < i ==> !OccursAt(h, BearerPrefix, j)
  }

  /** Removing the first "Bearer " cuts it out where it first occurs, wherever that is. */
  lemma StripFirstBearer(h: string)
    ensures forall i :: (IsFirstBearer(h, i) ==>
              ReplaceFirst(h, BearerPrefix, "") == h[..i] + h[i + |BearerPrefix|..])
  {
    forall i | IsFirstBearer(h, i)
      ensures ReplaceFirst(h, BearerPrefix, "") == h[..i] + h[i + |BearerPrefix|..]
    {
      ReplaceFirstAt(h, BearerPrefix, "", i);
      assert h[..i] + "" + h[i + |BearerPrefix|..] == h[..i] + h[i + |BearerPrefix|..];
    }
  }

  /** `req.cookie?.accessToken || req.header('Authorization')?.replace("Bearer ", "")`:
      a non-empty cookie token wins; otherwise the header with its first
      "Bearer " removed, wherever it stands; a header without "Bearer " is
      passed through as it is. */
  function ExtractToken(req: Request): (t: Option<string>)
    ensures Truthy(CookieToken(req)) ==> t == CookieToken(req)
    ensures !Truthy(CookieToken(req)) && req.authorization.None? ==> t.None?
    ensures !Truthy(CookieToken(req)) && req.authorization.Some?
              && (forall j :: !OccursAt(req.authorization.value, BearerPrefix, j))
            ==> t == req.authorization
    ensures !Truthy(CookieToken(req)) && req.authorization.Some?
              && OccursAt(req.authorization.value, BearerPrefix, 0)
            ==> t == Some(req.authorization.value[|BearerPrefix|..])
    ensures forall i :: (!Truthy(CookieToken(req)) && req.authorization.Some? && IsFirstBearer(req.authorization.value, i) ==>
              t == Some(req.authorization.value[..i] + req.authorization.value[i + |BearerPrefix|..]))
  {
    if Truthy(CookieToken(req)) then CookieToken(req)
    else
      match req.authorization
      case None => None
      case Some(h) =>
        StripFirstBearer(h);
        if OccursAt(h, BearerPrefix, 0) then
          ReplaceFirstAt(h, BearerPrefix, "", 0);
          assert h[..0] + "" + h[|BearerPrefix|..] == h[|BearerPrefix|..];
          Some(ReplaceFirst(h, BearerPrefix, ""))
        else Some(ReplaceFirst(h, BearerPrefix, ""))
  }

  /** "Bearer " need not start the header: the first one is cut out wherever it stands. */
  lemma BearerInsideHeader()
    ensures ExtractToken(Request(None, Some("xBearer t"))) == Some("xt")
  {
    var h := "xBearer t";
    assert h[0..7] != BearerPrefix by { assert h[0..7][0] == 'x'; }
    assert h[1..8] == BearerPrefix;
    assert IsFirstBearer(h, 1);
    assert h[..1] + h[8..] == "xt";
  }

  /** The `try` block, step by step, with the error each step throws: no
      token, a token `jwt.verify` rejects (it throws), or a payload whose
      `_id` names no stored account. */
  function Authenticate(users: map<Id, Account>, req: Request, cfg: Config, prims: Primitives, now: int): (r: Result<PublicUser>)
    ensures !Truthy(ExtractToken(req)) ==> r == Err(401, NoToken)
    ensures Truthy(ExtractToken(req)) && prims.verify(ExtractToken(req).value, cfg.accessSecret, now).None?
            ==> r.Crash?
    ensures r.Err? && r != Err(401, NoToken) ==> r == Err(401, InvalidAccessToken)
    ensures Truthy(ExtractToken(req)) && prims.verify(ExtractToken(req).value, cfg.accessSecret, now).Some?
            && (forall id :: !AuthenticatesAs(users, req, cfg, prims, now, id))
            ==> r == Err(401, InvalidAccessToken)
    ensures r.Ok? <==> exists id :: AuthenticatesAs(users, req, cfg, prims, now, id)
    ensures r.Ok? ==> AuthenticatesAs(users, req, cfg, prims, now, r.value.id)
                      && r.value == Project(r.value.id, users[r.value.id])
  {
    var token := ExtractToken(req);
    if !Truthy(token) then Err(401, NoToken)
    else
      match prims.verify(token.value, cfg.accessSecret, now)
      case None => Crash("jwt.verify threw")
      case Some(claims) =>
        if claims.id.Some? && claims.id.value in users then
          assert AuthenticatesAs(users, req, cfg, prims, now, claims.id.value);
          Ok(Project(claims.id.value, users[claims.id.value]))
        else Err(401, InvalidAccessToken)
  }

  /** The account the request authenticates as, if any: the token is present,
      the access secret verifies it, and its `_id` names a stored account. */
  predicate AuthenticatesAs(users: map<Id, Account>, req: Request, cfg: Config, prims: Primitives, now: int, id: Id)
  {
    && Truthy(ExtractToken(req))
    && prims.verify(ExtractToken(req).value, cfg.accessSecret, now).Some?
    && prims.verify(ExtractToken(req).value, cfg.accessSecret, now).value.id == Some(id)
    && id in users
  }

  /** `verifyJWT`: the `catch` turns every failure into one 401; on success the
      request carries the named account without its password and refresh token. */
  function VerifyJWT(users: map<Id, Account>, req: Request, cfg: Config, prims: Primitives, now: int): (r: Result<PublicUser>)
    ensures !r.Ok? ==> r == Err(401, UnauthorizedToken)
    ensures r.Ok? ==> AuthenticatesAs(users, req, cfg, prims, now, r.value.id)
    ensures r.Ok? ==> r.value == Project(r.value.id, users[r.value.id])
    ensures forall id :: AuthenticatesAs(users, req, cfg, prims, now, id) ==> r.Ok?
  {
    match Authenticate(users, req, cfg, prims, now)
    case Ok(user) => Ok(user)
    case _ => Err(401, UnauthorizedToken)
  }

  /** A request sending `token` as `Authorization: Bearer <token>`, without the cookie. */
  function BearerRequest(token: string): Request
  {
    Request(None, Some(BearerPrefix + token))
  }

  /** Round trip: a token minted by `generateAccessToken` for a stored account,
      sent as a bearer header, authenticates as that account, provided the
      codec gives back the payload it signed (it has not expired) and the
      token is not empty (an empty one is taken for a missing token). */
  lemma AccessTokenAuthenticates(users: map<Id, Account>, id: Id, cfg: Config, prims: Primitives, signedAt: int, now: int)
    requires id in users
    requires GenerateAccessToken(id, users[id], cfg, prims, signedAt) != ""
    requires prims.verify(GenerateAccessToken(id, users[id], cfg, prims, signedAt), cfg.accessSecret, now)
             == Some(AccessClaims(id, users[id]))
    ensures VerifyJWT(users, BearerRequest(GenerateAccessToken(id, users[id], cfg, prims, signedAt)), cfg, prims, now)
            == Ok(Project(id, users[id]))
  {
    var token := GenerateAccessToken(id, users[id], cfg, prims, signedAt);
    var req := BearerRequest(token);
    assert OccursAt(BearerPrefix + token, BearerPrefix, 0);
    assert (BearerPrefix + token)[|BearerPrefix|..] == token;
    assert AuthenticatesAs(users, req, cfg, prims, now, id);
  }

  /** The middleware consults the access secret only: the refresh secret and
      expiry play no part in authenticating a request. */
  lemma AuthenticationIgnoresRefreshKey(users: map<Id, Account>, req: Request, cfg: Config, prims: Primitives, now: int,
                                        otherSecret: string, otherExpiry: string)
    ensures VerifyJWT(users, req, cfg.(refreshSecret := otherSecret, refreshExpiry := otherExpiry), prims, now)
         == VerifyJWT(users, req, cfg, prims, now)
  {
  }

  /** Authentication reads neither the stored password nor the stored refresh
      token: changing them (as login and logout do) never changes its answer. */
  lemma AuthenticationIgnoresSecrets(users: map<Id, Account>, id: Id, password: string, token: Option<string>,
                                     req: Request, cfg: Config, prims: Primitives, now: int)
    requires id in users
    ensures VerifyJWT(users[id := users[id].(password := password, refreshToken := token)], req, cfg, prims, now)
         == VerifyJWT(users, req, cfg, prims, now)
  {
    var users' := users[id := users[id].(password := password, refreshToken := token)];
    ProjectHidesSecrets(id, users'[id], users[id]);
  }

  /** A codec that refuses every token signed under one secret when asked to
      verify it under another. */
  ghost predicate ChecksSecret(prims: Primitives)
  {
    forall c: Claims, secret: string, expiry: string, signedAt: int, other: string, now: int
      :: secret != other ==> prims.verify(prims.sign(c, secret, expiry, signedAt), other, now).None?
  }

  /** With distinct access and refresh secrets and a codec that checks the
      secret, a refresh token sent as a bearer token is refused with the
      middleware's 401. */
  lemma RefreshTokenRefusedUnderDistinctSecrets(users: map<Id, Account>, id: Id, cfg: Config, prims: Primitives,
                                                signedAt: int, now: int)
    requires cfg.accessSecret != cfg.refreshSecret
    requires ChecksSecret(prims)
    ensures VerifyJWT(users, BearerRequest(GenerateRefreshToken(id, cfg, prims, signedAt)), cfg, prims, now)
            == Err(401, UnauthorizedToken)
  {
    var token := GenerateRefreshToken(id, cfg, prims, signedAt);
    assert prims.verify(token, cfg.accessSecret, now).None?;
  }

  /** Such a codec exists: one whose token is the secret it was signed with
      and which accepts a token only under that secret. */
  lemma SecretCheckingCodecExists(claims: Claims)
    ensures ChecksSecret(Primitives(
              (p: string, salt: nat) => p,
              (plain: string, digest: string) => plain == digest,
              (c: Claims, secret: string, expiry: string, t: int) => secret,
              (token: string, secret: string, t: int) => if token == secret then Some(claims) else None))
  {
  }
}
