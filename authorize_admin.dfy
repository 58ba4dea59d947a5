/** The `authorizeAdmin` middleware: take the bearer token from the
    `Authorization` header, verify it, look the admin up, and either reply
    with an error or record the admin on the request and pass it on.

    Token verification and the admin lookup are collaborators given as
    functions: `verify` yields the decoded claims, or `None` when it throws;
    `find` is the admin query the claims lead to. */
module AuthorizeAdmin {
  import opened Wrappers
  import opened Schema
  import Text

  /** `authHeader && authHeader.split(" ")[1]`. A missing header gives no
      token; so does a header without a space. An empty header is falsy
      and is itself the value of the `&&`, so it gives the empty token. */
  function TokenOf(header: Option<string>): (token: Option<string>)
    ensures token.Some? ==> header.Some? && ' ' !in token.value
    ensures header == Some("") ==> token == Some("")
  {
    match header
    case None => None
    case Some(h) =>
      if h == "" then Some("")
      else
        var pieces := Text.Split(h, ' ');
        if |pieces| > 1 then Some(pieces[1]) else None
  }

  /** Exactly a missing header, or a non-empty one without a space, yields
      no token. */
  lemma NoTokenIff(header: Option<string>)
    ensures TokenOf(header).None? <==> header.None? || (header.value != "" && ' ' !in header.value)
  {
    if header.Some? {
      Text.SplitHasSeveralPieces(header.value, ' ');
    }
  }

  /** In `scheme token` the token is the text after the first space, up to
      the next space or the end: "Bearer abc" gives "abc", "Bearer " gives
      the empty token. */
  lemma TokenIsSecondWord(scheme: string, token: string, rest: string)
    requires ' ' !in scheme && ' ' !in token
    requires rest == "" || rest[0] == ' '
    ensures TokenOf(Some(scheme + " " + token + rest)) == Some(token)
  {
    var h := scheme + " " + token + rest;
    assert h == scheme + [' '] + (token + rest);
    Text.SplitAtFirst(scheme, ' ', token + rest);
    if rest == "" {
      assert token + rest == token;
      Text.SplitWithoutSep(token, ' ');
    } else {
      assert token + rest == token + [' '] + rest[1..];
      Text.SplitAtFirst(token, ' ', rest[1..]);
    }
  }

  /** An HTTP reply: status and the one JSON field of its body. */
  datatype Reply = Reply(status: int, field: string, text: string)

  const NO_TOKEN: Reply := Reply(401, "message", "Unauthorized Access!")
  const NO_ADMIN: Reply := Reply(401, "message", "No valid admin exists with the given token!")
  const BAD_TOKEN: Reply := Reply(403, "error", "Invalid token")

  /** `req.auth`: the admin's document tagged with the role. */
  datatype Auth = Auth(admin: Account, role: string)

  /** What the admin query returned: a document, none, or it threw. */
  datatype Lookup = Found(doc: Account) | NotFound | Threw

  /** The middleware's decision. */
  datatype Decision = Reject(reply: Reply) | Pass(auth: Auth)

  function Decide<C>(header: Option<string>, verify: string -> Option<C>, find: C -> Lookup): (d: Decision)
    ensures TokenOf(header).None? ==> d == Reject(NO_TOKEN)
    ensures d.Pass? <==> TokenOf(header).Some? && verify(TokenOf(header).value).Some?
                         && find(verify(TokenOf(header).value).value).Found?
    ensures d.Pass? ==> d.auth == Auth(find(verify(TokenOf(header).value).value).doc, "admin")
    ensures d.Reject? && d.reply != NO_TOKEN ==> TokenOf(header).Some?
    ensures TokenOf(header).Some? && verify(TokenOf(header).value).None? ==> d == Reject(BAD_TOKEN)
    ensures TokenOf(header).Some? && verify(TokenOf(header).value).Some? ==>
              (find(verify(TokenOf(header).value).value).Threw? ==> d == Reject(BAD_TOKEN))
              && (find(verify(TokenOf(header).value).value).NotFound? ==> d == Reject(NO_ADMIN))
  {
    var token := TokenOf(header);
    if token.None? then Reject(NO_TOKEN)
    else
      var claims := verify(token.value);
      if claims.None? then Reject(BAD_TOKEN)
      else
        match find(claims.value)
        case Threw => Reject(BAD_TOKEN)
        case NotFound => Reject(NO_ADMIN)
        case Found(doc) => Pass(Auth(doc, "admin"))
  }

  /** A request passes exactly when its header carries a token, the token
      verifies and the claims find an admin; an absent token is 401, a
      token that fails to verify is 403, and a verified token with no admin
      behind it is 401. Applied to a `Bearer <token>` header. */
  lemma BearerDecision<C>(token: string, verify: string -> Option<C>, find: C -> Lookup)
    requires ' ' !in token
    ensures var d := Decide(Some("Bearer " + token), verify, find);
            && (d.Pass? <==> verify(token).Some? && find(verify(token).value).Found?)
            && (verify(token).None? ==> d == Reject(BAD_TOKEN))
            && (d.Pass? ==> d.auth == Auth(find(verify(token).value).doc, "admin"))
            && (verify(token).Some? && find(verify(token).value).NotFound? ==> d == Reject(NO_ADMIN))
  {
    TokenIsSecondWord("Bearer", token, "");
    assert "Bearer " + token == "Bearer" + " " + token + "";
  }

  /** A header without a token is refused before the token is verified: the
      decision is 401 whatever `verify` and `find` would answer. */
  lemma NoTokenNoVerification<C>(header: Option<string>, verify: string -> Option<C>, find: C -> Lookup)
    requires header.None? || (header.value != "" && ' ' !in header.value)
    ensures Decide(header, verify, find) == Reject(NO_TOKEN)
  {
    NoTokenIff(header);
  }

  /** The request/response pair the middleware acts on. */
  class Exchange {
    var auth: Option<Auth>
    var reply: Option<Reply>
    /** How many times the middleware has called `next`. */
    var nextCalls: nat

    constructor ()
      ensures auth == None && reply == None && nextCalls == 0
    {
      auth := None;
      reply := None;
      nextCalls := 0;
    }
  }

  /** Runs the middleware on `ex`: a rejection sends its reply and does not
      call `next`; a pass sets `req.auth` and calls `next` exactly once. */
  method Authorize<C>(ex: Exchange, header: Option<string>, verify: string -> Option<C>, find: C -> Lookup)
    modifies ex
    ensures match Decide(header, verify, find)
            case Reject(reply) =>
              ex.reply == Some(reply) && ex.auth == old(ex.auth) && ex.nextCalls == old(ex.nextCalls)
            case Pass(auth) =>
              ex.auth == Some(auth) && ex.reply == old(ex.reply) && ex.nextCalls == old(ex.nextCalls) + 1
  {
    var token := TokenOf(header);
    if token == None {
      ex.reply := Some(NO_TOKEN);
      return;
    }
    var admin := verify(token.value);
    if admin.None? {
      ex.reply := Some(BAD_TOKEN);
      return;
    }
    var doc := find(admin.value);
    match doc {
      case Threw =>
        ex.reply := Some(BAD_TOKEN);
      case NotFound =>
        ex.reply := Some(NO_ADMIN);
      case Found(d) =>
        ex.auth := Some(Auth(d, "admin"));
        ex.nextCalls := ex.nextCalls + 1;
    }
  }
}
