/**
 * The `authenticate` middleware: the bearer token is taken from the `Authorization`
 * header and checked by a verification oracle standing for `jwt.verify` with the
 * server's secret (`Success` is the decoded payload, `Failure` a thrown error).
 */
module Auth {
  import opened Wrappers
  import opened Json
  import opened Http
  import Text

  const BearerPrefix := "Bearer "
  const NoTokenMessage := "Access denied. No token provided."
  const InvalidTokenMessage := "Invalid or expired token."

  /** The oracle `jwt.verify(token, secret)`. */
  type Verifier = string -> Option<Json>

  /**
   * What the middleware does: send a reply and stop, or set `req.user` to the
   * decoded payload and call `next()` once without sending anything.
   */
  datatype AuthResult = Respond(reply: Reply) | Next(user: Json)

  /**
   * `req.header('Authorization')?.replace('Bearer ', '')`: an absent header gives
   * `undefined`; otherwise the first occurrence of `Bearer ` is removed.
   */
  function TokenOf(header: Option<string>): (token: Option<string>)
    ensures header.None? <==> token.None?
    ensures header.Some? && Text.IndexOf(header.value, BearerPrefix).None? ==> token == header
    ensures header.Some? && Text.IndexOf(header.value, BearerPrefix).Some? ==>
      var i := Text.IndexOf(header.value, BearerPrefix).value;
      |token.value| == |header.value| - |BearerPrefix| &&
      token.value == header.value[..i] + header.value[i + |BearerPrefix|..]
  {
    match header
    case None => None
    case Some(h) => Some(Text.ReplaceFirst(h, BearerPrefix, ""))
  }

  /** `!token`: no header, or the empty string after stripping. */
  predicate Missing(token: Option<string>)
  {
    token.None? || token.value == ""
  }

  function Authenticate(header: Option<string>, verify: Verifier): (r: AuthResult)
    ensures r.Respond? && r.reply.status == 401 <==> Missing(TokenOf(header))
    ensures Missing(TokenOf(header)) ==> r == Respond(Reply(401, ErrorBody(NoTokenMessage)))
    ensures r.Respond? && r.reply.status == 400 <==>
      !Missing(TokenOf(header)) && verify(TokenOf(header).value).None?
    ensures r.Respond? && r.reply.status == 400 ==> r.reply.body == ErrorBody(InvalidTokenMessage)
    ensures r.Next? <==> !Missing(TokenOf(header)) && verify(TokenOf(header).value).Some?
    ensures r.Next? ==> r.user == verify(TokenOf(header).value).value
  {
    var token := TokenOf(header);
    if Missing(token) then Respond(Reply(401, ErrorBody(NoTokenMessage)))
    else
      match verify(token.value)
      case Some(decoded) => Next(decoded)
      case None => Respond(Reply(400, ErrorBody(InvalidTokenMessage)))
  }

  /** A header `Bearer <t>` yields exactly `t`: only the leading prefix is removed. */
  lemma BearerHeaderYieldsToken(t: string)
    ensures TokenOf(Some(BearerPrefix + t)) == Some(t)
  {
    var h := BearerPrefix + t;
    assert h[0..|BearerPrefix|] == BearerPrefix;
    assert Text.IndexOf(h, BearerPrefix) == Some(0);
    assert h[..0] + "" + h[|BearerPrefix|..] == t;
  }

  /** `Bearer Bearer x` loses only its first prefix. */
  lemma DoublePrefixStripsOnce(x: string)
    ensures TokenOf(Some("Bearer Bearer " + x)) == Some("Bearer " + x)
  {
    assert "Bearer Bearer " + x == BearerPrefix + ("Bearer " + x);
    BearerHeaderYieldsToken("Bearer " + x);
  }

  /** A header without `Bearer ` anywhere is taken verbatim as the token. */
  lemma HeaderWithoutPrefixIsToken(h: string)
    requires forall j :: 0 <= j <= |h| ==> !Text.OccursAt(h, BearerPrefix, j)
    ensures TokenOf(Some(h)) == Some(h)
  {
  }

  /** A header that is exactly `Bearer ` leaves an empty token: 401 and no `next()`. */
  lemma BarePrefixIsDenied(verify: Verifier)
    ensures Authenticate(Some(BearerPrefix), verify) == Respond(Reply(401, ErrorBody(NoTokenMessage)))
  {
    BearerHeaderYieldsToken("");
    assert BearerPrefix + "" == BearerPrefix;
  }

  /**
   * For a well-formed `Bearer <t>` header with a non-empty `t`, the request proceeds
   * exactly when the oracle accepts `t`, with `req.user` its payload; else it gets 400.
   */
  lemma BearerRequestOutcome(t: string, verify: Verifier)
    requires t != ""
    ensures Authenticate(Some(BearerPrefix + t), verify) ==
      match verify(t)
      case Some(u) => Next(u)
      case None => Respond(Reply(400, ErrorBody(InvalidTokenMessage)))
  {
    BearerHeaderYieldsToken(t);
  }
}
