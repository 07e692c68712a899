/**
 * The `protect` middleware: the `Authorization: Bearer <token>` header check of
 * section 2.1 of RFC 6750 as the server performs it, token extraction, and the
 * two outcomes of token verification. JSON Web Token verification is an oracle.
 */
module AuthMiddleware {
  import opened Wrappers
  import opened Http
  import JsString

  const NoTokenProvided := "No token provided"
  const TokenInvalid := "Invalid token"
  /** The case-sensitive prefix the header must start with. */
  const Scheme := "Bearer "

  /** A header that starts with the scheme splits on spaces into "Bearer" and the pieces of
      the rest. */
  lemma SplitAfterScheme(header: string)
    requires JsString.StartsWith(header, Scheme)
    ensures JsString.Split(header, ' ') == ["Bearer"] + JsString.Split(header[|Scheme|..], ' ')
  {
    assert header == "Bearer" + [' '] + header[|Scheme|..];
    JsString.SplitCons("Bearer", ' ', header[|Scheme|..]);
  }

  /**
   * The token `protect` takes from the header: `None` when the header is absent or does not
   * start with the scheme, otherwise `header.split(" ")[1]`, which is the text after the scheme
   * up to the next space.
   */
  function ExtractToken(header: Option<string>): (r: Option<string>)
    ensures r.Some? <==> header.Some? && JsString.StartsWith(header.value, Scheme)
    ensures r.Some? ==>
              var rest := header.value[|Scheme|..];
              && |r.value| <= |rest| && r.value == rest[..|r.value|]
              && ' ' !in r.value
              && (|r.value| == |rest| || rest[|r.value|] == ' ')
  {
    if header.None? || header.value == "" || !JsString.StartsWith(header.value, Scheme) then None
    else
      SplitAfterScheme(header.value);
      Some(JsString.Split(header.value, ' ')[1])
  }

  /** The token as `protect` reads it, on three headers: a second space ends the token, and an
      empty or space-led remainder gives the empty token. */
  lemma ExtractTokenExamples()
    ensures ExtractToken(Some("Bearer a b")) == Some("a")
    ensures ExtractToken(Some("Bearer ")) == Some("")
    ensures ExtractToken(Some("Bearer  a")) == Some("")
  {
    SecondSpaceEndsToken();
    SplitAfterScheme("Bearer ");
    assert "Bearer "[|Scheme|..] == "";
    LeadingSpaceGivesEmptyToken();
  }

  /** After the scheme, the token runs up to the next space. */
  lemma {:induction false} TokenEndsAtSpace(word: string, tail: string)
    requires ' ' !in word
    ensures ExtractToken(Some(Scheme + word + [' '] + tail)) == Some(word)
  {
    var h := Scheme + word + [' '] + tail;
    assert JsString.StartsWith(h, Scheme) by {
      assert h[..|Scheme|] == Scheme;
    }
    assert h[|Scheme|..] == word + [' '] + tail;
    SplitAfterScheme(h);
    JsString.SplitCons(word, ' ', tail);
  }

  lemma SecondSpaceEndsToken()
    ensures ExtractToken(Some("Bearer a b")) == Some("a")
  {
    assert "Bearer a b" == Scheme + "a" + [' '] + "b";
    TokenEndsAtSpace("a", "b");
  }

  lemma LeadingSpaceGivesEmptyToken()
    ensures ExtractToken(Some("Bearer  a")) == Some("")
  {
    assert "Bearer  a" == Scheme + "" + [' '] + "a";
    TokenEndsAtSpace("", "a");
  }

  /** The scheme is matched case-sensitively and needs its space. */
  lemma SchemeIsExact()
    ensures ExtractToken(Some("bearer abc")) == None
    ensures ExtractToken(Some("Bearer")) == None
    ensures ExtractToken(Some("Basic abc")) == None
    ensures ExtractToken(None) == None
  {
    assert "bearer abc"[0] != "Bearer "[0];
    assert "Basic abc"[1] != "Bearer "[1];
  }

  /** The payload of a verified token. */
  datatype Claims = Claims(userId: Option<string>)

  /** `jwt.verify(token, secret)`, with `verify` the signature and expiry check under the
      server's secret. An empty token is refused before any check ("jwt must be provided"). */
  function Verify(verify: string -> Option<Claims>, token: string): (r: Option<Claims>)
    ensures token == "" ==> r.None?
    ensures token != "" ==> r == verify(token)
  {
    if token == "" then None else verify(token)
  }

  /** `{ success: false, message }`. */
  datatype Failure = Failure(message: string)

  /** What one call does: pass control on with `next()`, or answer. */
  datatype Outcome = Next | Respond(response: Response<Failure>)

  /** The parts of an Express request that `protect` reads and writes. */
  class AuthRequest {
    /** `req.headers.authorization`. */
    const authorization: Option<string>
    /** `req.userId`; `None` while unset. */
    var userId: Option<string>

    constructor (authorization: Option<string>)
      ensures this.authorization == authorization && userId.None?
    {
      this.authorization := authorization;
      userId := None;
    }
  }

  /** `protect(req, res, next)`. Every call either calls `next` or answers 401, never both. */
  method Protect(req: AuthRequest, verify: string -> Option<Claims>) returns (out: Outcome)
    modifies req`userId
    ensures ExtractToken(req.authorization).None? ==>
              out == Respond(Response(401, Failure(NoTokenProvided))) && req.userId == old(req.userId)
    ensures ExtractToken(req.authorization).Some? && Verify(verify, ExtractToken(req.authorization).value).None? ==>
              out == Respond(Response(401, Failure(TokenInvalid))) && req.userId == old(req.userId)
    ensures ExtractToken(req.authorization).Some? && Verify(verify, ExtractToken(req.authorization).value).Some? ==>
              out == Next && req.userId == Verify(verify, ExtractToken(req.authorization).value).value.userId
  {
    var header := req.authorization;
    if header.None? || header.value == "" || !JsString.StartsWith(header.value, Scheme) {
      return Respond(Response(401, Failure(NoTokenProvided)));
    }
    SplitAfterScheme(header.value);
    var token := JsString.Split(header.value, ' ')[1];
    var decoded := Verify(verify, token);
    if decoded.None? {
      return Respond(Response(401, Failure(TokenInvalid)));
    }
    req.userId := decoded.value.userId;
    out := Next;
  }
}
