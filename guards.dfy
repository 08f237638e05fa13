/**
 * The access guards: `protect`, `adminOnly` and `protectAdmin` of
 * backend/middleware/authMiddleware.js, and the client-side route guard of
 * frontend/src/components/AdminRoute.js. Each is a decision from the
 * Authorization header (or the stored token), the decoded token and the user
 * lookup to a pass or an error answer. Token verification and decoding are
 * partial functions given as parameters; `None` is a token they refuse.
 */
module Guards {
  import opened Wrappers
  import opened Strings
  import opened Http

  /** What a verified token carries. */
  datatype Claims = Claims(id: string, role: string)

  /** The account `User.findByPk` finds. */
  datatype Account = Account(id: string, role: string)

  /** A middleware's outcome: call `next()` with `req.user` set, or answer with an error. */
  datatype Decision = Allow(user: Account) | Deny(resp: Response)

  /** `s.startsWith(prefix)`. */
  predicate StartsWith(s: string, prefix: string)
  {
    |prefix| <= |s| && s[..|prefix|] == prefix
  }

  /** `header.split(' ')[1]`: the second space-separated segment, `undefined` when there is none. */
  function SecondSegment(header: string): (t: Option<string>)
    ensures t.Some? <==> ' ' in header
    ensures t.Some? ==> ' ' !in t.value
  {
    SplitSingleIff(header, ' ');
    var parts := Split(header, ' ');
    if |parts| > 1 then Some(parts[1]) else None
  }

  /** `jwt.verify`: an empty or missing token is refused before the signature is checked. */
  function Verify(token: Option<string>, verify: string -> Option<Claims>): Option<Claims>
  {
    if token.Some? && token.value != "" then verify(token.value) else None
  }

  /**
   * `protect`: a missing header, or one that does not start with `Bearer`,
   * is 401 "no token"; a token that does not verify is 401 "token failed";
   * a token whose id has no account is 401 "user not found"; otherwise the
   * account is attached and the request passes.
   */
  function Protect(header: Option<string>, verify: string -> Option<Claims>, lookup: string -> Option<Account>)
    : (d: Decision)
    ensures d.Deny? ==> d.resp.status == 401
    ensures (header.None? || !StartsWith(header.value, "Bearer")) ==>
      d == Deny(Response(401, "Not authorized, no token"))
    ensures d.Allow? <==>
      && header.Some? && StartsWith(header.value, "Bearer")
      && Verify(SecondSegment(header.value), verify).Some?
      && lookup(Verify(SecondSegment(header.value), verify).value.id).Some?
    ensures d.Allow? ==> d.user == lookup(Verify(SecondSegment(header.value), verify).value.id).value
  {
    if header.None? || header.value == "" || !StartsWith(header.value, "Bearer") then
      Deny(Response(401, "Not authorized, no token"))
    else
      match Verify(SecondSegment(header.value), verify)
      case None => Deny(Response(401, "Not authorized, token failed"))
      case Some(claims) =>
        match lookup(claims.id)
        case None => Deny(Response(401, "Not authorized, user not found"))
        case Some(user) => Allow(user)
  }

  /** `adminOnly`: passes exactly the accounts whose role is `admin`, and answers 403 to every other. */
  function AdminOnly(user: Account): (d: Decision)
    ensures d.Allow? <==> user.role == "admin"
    ensures d.Allow? ==> d.user == user
    ensures d.Deny? ==> d.resp == Response(403, "Access denied. Admins only.")
  {
    if user.role != "admin" then Deny(Response(403, "Access denied. Admins only.")) else Allow(user)
  }

  /**
   * `protectAdmin`: the token is whatever follows the first space of the
   * header, whatever the scheme word; no token is 401 "no token", a token
   * that does not verify is 401 "token failed", and a missing or non-admin
   * account is 403.
   */
  function ProtectAdmin(header: Option<string>, verify: string -> Option<Claims>, lookup: string -> Option<Account>)
    : (d: Decision)
    ensures (header.None? || ' ' !in header.value) ==> d == Deny(Response(401, "Not authorized, no token"))
    ensures d.Allow? <==>
      && header.Some?
      && Verify(SecondSegment(header.value), verify).Some?
      && lookup(Verify(SecondSegment(header.value), verify).value.id).Some?
      && lookup(Verify(SecondSegment(header.value), verify).value.id).value.role == "admin"
    ensures d.Deny? ==> d.resp.status == 401 || d.resp == Response(403, "Access denied: Admins only")
    ensures header.Some? && SecondSegment(header.value) == Some("") ==>
      d == Deny(Response(401, "Not authorized, no token"))
    ensures header.Some? && SecondSegment(header.value).Some? && SecondSegment(header.value).value != "" &&
            Verify(SecondSegment(header.value), verify).None? ==>
      d == Deny(Response(401, "Not authorized, token failed"))
    ensures header.Some? && Verify(SecondSegment(header.value), verify).Some? &&
            (|| lookup(Verify(SecondSegment(header.value), verify).value.id).None?
             || lookup(Verify(SecondSegment(header.value), verify).value.id).value.role != "admin") ==>
      d == Deny(Response(403, "Access denied: Admins only"))
  {
    var token := if header.Some? then SecondSegment(header.value) else None;
    if token.None? || token.value == "" then
      Deny(Response(401, "Not authorized, no token"))
    else
      match Verify(token, verify)
      case None => Deny(Response(401, "Not authorized, token failed"))
      case Some(claims) =>
        var user := lookup(claims.id);
        if user.None? || user.value.role != "admin" then Deny(Response(403, "Access denied: Admins only"))
        else Allow(user.value)
  }

  /** The header a client builds: the scheme word, one space, the token. */
  function Header(scheme: string, token: string): string
  {
    scheme + " " + token
  }

  /** The token of a well-formed header is the second segment, whatever the scheme word. */
  lemma SecondSegmentOfHeader(scheme: string, token: string)
    requires ' ' !in scheme && ' ' !in token
    ensures SecondSegment(Header(scheme, token)) == Some(token)
  {
    SplitAfterPrefix(scheme, ' ', token);
    SplitWithoutSeparator(token, ' ');
    assert Header(scheme, token) == scheme + [' '] + token;
  }

  /**
   * `protectAdmin` does not look at the scheme word: a header with any
   * space-free scheme decides exactly as the same token after `Bearer`;
   * `protect` refuses the same header as "no token" when the scheme does not
   * start with `Bearer`.
   */
  lemma ProtectAdminIgnoresScheme(scheme: string, token: string,
                                  verify: string -> Option<Claims>, lookup: string -> Option<Account>)
    requires ' ' !in scheme && ' ' !in token
    ensures ProtectAdmin(Some(Header(scheme, token)), verify, lookup) ==
            ProtectAdmin(Some(Header("Bearer", token)), verify, lookup)
    ensures !StartsWith(scheme, "Bearer") ==>
            Protect(Some(Header(scheme, token)), verify, lookup) == Deny(Response(401, "Not authorized, no token"))
  {
    SecondSegmentOfHeader(scheme, token);
    SecondSegmentOfHeader("Bearer", token);
    if !StartsWith(scheme, "Bearer") {
      assert Header(scheme, token)[..|scheme|] == scheme;
      assert Header(scheme, token)[|scheme|] == ' ';
    }
  }

  /**
   * On a well-formed `Bearer` header the route chain `protect` then
   * `adminOnly` lets through exactly the requests `protectAdmin` lets
   * through, with the same account; they differ only in the answers they
   * refuse with.
   */
  lemma AdminChainsAgree(token: string, verify: string -> Option<Claims>, lookup: string -> Option<Account>)
    requires ' ' !in token
    ensures var p := Protect(Some(Header("Bearer", token)), verify, lookup);
      var chained := if p.Allow? then AdminOnly(p.user) else p;
      var direct := ProtectAdmin(Some(Header("Bearer", token)), verify, lookup);
      && (chained.Allow? <==> direct.Allow?)
      && (chained.Allow? ==> chained.user == direct.user)
  {
    SecondSegmentOfHeader("Bearer", token);
    assert Header("Bearer", token)[..6] == "Bearer";
  }

  /** Where the client-side admin route sends the browser. */
  datatype Route = Outlet | Navigate(to: string)

  /**
   * `AdminRoute`: no stored token goes to `/login`; a token that cannot be
   * decoded goes to `/login`; a decoded role of `admin` renders the nested
   * route and any other role goes to `/`. The token's signature is not
   * checked on the client.
   */
  function AdminRoute(stored: Option<string>, decode: string -> Option<Claims>): (r: Route)
    ensures r == Outlet <==> stored.Some? && stored.value != "" &&
                             decode(stored.value).Some? && decode(stored.value).value.role == "admin"
    ensures r == Navigate("/login") <==> stored.None? || stored.value == "" || decode(stored.value).None?
    ensures r.Navigate? ==> r.to == "/login" || r.to == "/"
  {
    if stored.None? || stored.value == "" then Navigate("/login")
    else match decode(stored.value)
      case None => Navigate("/login")
      case Some(claims) => if claims.role == "admin" then Outlet else Navigate("/")
  }
}
