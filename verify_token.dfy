/**
 * `middleware/verifyToken.js`: reads a bearer token from the Authorization
 * header (section 2.1 of RFC 6750), verifies it, and either hands the decoded
 * claims to the next handler or answers 401 with one of four messages.
 */
module VerifyToken {
  import opened Wrappers
  import JsString

  /** The JWT payload the handlers read as `req.user`: `{ id, role }`, either possibly absent. */
  datatype Claims = Claims(id: Option<string>, role: Option<string>)

  /** `req.user.role !== "admin"` fails exactly for these claims. */
  predicate IsAdmin(c: Claims) {
    c.role == Some("admin")
  }

  /** Exactly one of the two things the middleware does: call `next` with `req.user` set, or answer 401. */
  datatype Outcome = Next(user: Claims) | Unauthorized(message: string)

  const BearerPrefix: string := "Bearer "

  /**
   * `verifyToken` on the Authorization header; `jwtVerify` is `jwt.verify` under the
   * configured secret, `None` where it throws (bad signature, expired, malformed).
   */
  function Verify(header: Option<string>, jwtVerify: string -> Option<Claims>): (r: Outcome)
    ensures JsString.Falsy(header) ==> r == Unauthorized("No token provided")
    ensures !JsString.Falsy(header) && !JsString.StartsWith(header.value, BearerPrefix) ==>
              r == Unauthorized("Invalid token format")
    ensures r.Next? ==> header.Some? && JsString.StartsWith(header.value, BearerPrefix)
    ensures r.Next? ==> var token := JsString.Piece(header.value, ' ', 1);
                        token.Some? && token.value != "" && jwtVerify(token.value) == Some(r.user)
  {
    if JsString.Falsy(header) then Unauthorized("No token provided")
    else if !JsString.StartsWith(header.value, BearerPrefix) then Unauthorized("Invalid token format")
    else
      var token := JsString.Piece(header.value, ' ', 1);
      if JsString.Falsy(token) then Unauthorized("Token missing")
      else match jwtVerify(token.value)
        case None => Unauthorized("Invalid or expired token")
        case Some(claims) => Next(claims)
  }

  /** A header `Bearer <token>` with a non-empty token free of spaces passes the token itself to `jwt.verify`. */
  lemma BearerDispatch(token: string, jwtVerify: string -> Option<Claims>)
    requires token != "" && ' ' !in token
    ensures Verify(Some(BearerPrefix + token), jwtVerify) ==
              match jwtVerify(token)
              case None => Unauthorized("Invalid or expired token")
              case Some(c) => Next(c)
  {
    var h := BearerPrefix + token;
    assert h == "Bearer" + [' '] + token;
    JsString.SplitAtFirst("Bearer", ' ', token);
    JsString.SplitNoSeparator(token, ' ');
    assert JsString.Split(h, ' ') == ["Bearer", token];
    assert h[..|BearerPrefix|] == BearerPrefix;
  }

  /** The token is the second space-separated piece: a doubled space or nothing after the prefix leaves it empty. */
  lemma EmptyTokenPiece(rest: string, jwtVerify: string -> Option<Claims>)
    requires rest == "" || rest[0] == ' '
    ensures Verify(Some(BearerPrefix + rest), jwtVerify) == Unauthorized("Token missing")
  {
    var h := BearerPrefix + rest;
    assert h == "Bearer" + [' '] + rest;
    JsString.SplitAtFirst("Bearer", ' ', rest);
    assert h[..|BearerPrefix|] == BearerPrefix;
    if rest == "" {
      assert JsString.Split(rest, ' ') == [""];
    } else {
      assert rest == [] + [' '] + rest[1..];
      JsString.SplitAtFirst([], ' ', rest[1..]);
    }
  }

  /** The prefix is case-sensitive: a lower-case scheme is refused as a malformed header. */
  lemma SchemeIsCaseSensitive(token: string, jwtVerify: string -> Option<Claims>)
    ensures Verify(Some("bearer " + token), jwtVerify) == Unauthorized("Invalid token format")
  {
    assert ("bearer " + token)[0] == 'b';
  }
}
