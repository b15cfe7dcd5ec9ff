/** The authentication gate (middleware/auth.js): take the token from the Authorization
    header, verify it, attach its claims to the request and pass control on. */
module Auth {
  import opened Wrappers
  import opened Crypto
  import opened Http

  const NoTokenMessage: string := "Access denied. No token provided."
  const InvalidTokenMessage: string := "Invalid token. Access denied."

  /** `fields.join(" ")`. */
  function Join(fields: seq<string>): string
    requires |fields| >= 1
  {
    if |fields| == 1 then fields[0] else fields[0] + " " + Join(fields[1..])
  }

  /** `s.split(" ")`: the pieces between consecutive spaces, in order; two adjacent spaces
      give an empty piece, and a string without spaces is one piece. */
  function Split(s: string): (fields: seq<string>)
    ensures |fields| >= 1
    ensures forall i :: 0 <= i < |fields| ==> ' ' !in fields[i]
    ensures Join(fields) == s
    decreases |s|
  {
    if s == [] then [""]
    else
      var rest := Split(s[1..]);
      if s[0] == ' ' then
        assert s == " " + Join(rest);
        [""] + rest
      else
        var fields := [[s[0]] + rest[0]] + rest[1..];
        assert fields[1..] == rest[1..];
        assert s == [s[0]] + Join(rest);
        fields
  }

  /** A string without spaces is a single field. */
  lemma {:induction false} SplitNoSpace(a: string)
    requires ' ' !in a
    ensures Split(a) == [a]
    decreases |a|
  {
    if a != [] {
      SplitNoSpace(a[1..]);
      assert [a[0]] + a[1..] == a;
    }
  }

  /** Splitting at a space separates the fields on either side. */
  lemma {:induction false} SplitAtSpace(a: string, b: string)
    ensures Split(a + " " + b) == Split(a) + Split(b)
    decreases |a|
  {
    var s := a + " " + b;
    if a == [] {
      assert s[1..] == b;
    } else {
      assert s[1..] == a[1..] + " " + b;
      SplitAtSpace(a[1..], b);
    }
  }

  /** `req.headers.authorization?.split(" ")[1]`, kept only when truthy: None for a missing
      header, a header with a single field, or an empty second field. */
  function ExtractToken(authorization: Option<string>): (token: Option<string>)
    ensures token.Some? ==> Compact(token.value) && authorization.Some? && ' ' in authorization.value
  {
    match authorization
    case None => None
    case Some(h) =>
      var fields := Split(h);
      if |fields| >= 2 && fields[1] != "" then
        assert fields[1] in fields;
        assert ' ' in h by {
          if ' ' !in h { SplitNoSpace(h); }
        }
        Some(fields[1])
      else None
  }

  /** The second field is the token whatever the first word is (the scheme is not checked),
      and fields after it are ignored. */
  lemma TokenAfterAnyScheme(scheme: string, token: string, rest: string)
    requires ' ' !in scheme && Compact(token)
    ensures ExtractToken(Some(scheme + " " + token)) == Some(token)
    ensures ExtractToken(Some(scheme + " " + token + " " + rest)) == Some(token)
  {
    SplitNoSpace(scheme);
    SplitNoSpace(token);
    SplitAtSpace(scheme, token);
    SplitAtSpace(token, rest);
    assert scheme + " " + token + " " + rest == scheme + " " + (token + " " + rest);
    SplitAtSpace(scheme, token + " " + rest);
  }

  /** Conversely, an extracted token is compact and the header is the first word, one
      space, the token, and then nothing or a space and the remaining fields. */
  lemma TokenShape(h: string, token: string)
    requires ExtractToken(Some(h)) == Some(token)
    ensures Compact(token)
    ensures |Split(h)| >= 2 && Split(h)[1] == token
    ensures h == Split(h)[0] + " " + token + (if |Split(h)| > 2 then " " + Join(Split(h)[2..]) else "")
  {
    var fields := Split(h);
    JoinFirstTwo(fields);
  }

  /** Joining at least two fields puts the first, a space, the second, and then the rest. */
  lemma JoinFirstTwo(fields: seq<string>)
    requires |fields| >= 2
    ensures Join(fields) == fields[0] + " " + fields[1] + (if |fields| > 2 then " " + Join(fields[2..]) else "")
  {
    var tail := fields[1..];
    assert tail[1..] == fields[2..];
  }

  /** Headers that carry no token: none at all, an empty one, a scheme alone, or a scheme
      followed by two spaces. */
  lemma NoTokenCases(scheme: string, rest: string)
    requires ' ' !in scheme
    ensures ExtractToken(None) == None
    ensures ExtractToken(Some("")) == None
    ensures ExtractToken(Some(scheme)) == None
    ensures ExtractToken(Some(scheme + "  " + rest)) == None
  {
    SplitNoSpace(scheme);
    assert scheme + "  " + rest == scheme + " " + ("" + " " + rest);
    SplitAtSpace(scheme, "" + " " + rest);
    SplitAtSpace("", rest);
  }

  /** The gate's decision: the claims to attach, or the 401 response to send. */
  datatype AuthResult = Authenticated(claims: Claims) | Rejected(response: Response)

  function AuthOutcome(authorization: Option<string>, jwt: Jwt, secret: string): (r: AuthResult)
    ensures r.Rejected? ==>
      r.response in {Response(401, Message(NoTokenMessage)), Response(401, Message(InvalidTokenMessage))}
    ensures r.Authenticated? ==>
      ExtractToken(authorization).Some? && jwt.verify(ExtractToken(authorization).value, secret) == Some(r.claims)
  {
    match ExtractToken(authorization)
    case None => Rejected(Response(401, Message(NoTokenMessage)))
    case Some(token) =>
      match jwt.verify(token, secret)
      case None => Rejected(Response(401, Message(InvalidTokenMessage)))
      case Some(claims) => Authenticated(claims)
  }

  /** The gate rejects only with 401 and one of its two messages: "no token" exactly when no
      token can be extracted, "invalid token" exactly when verification fails; otherwise it
      passes on precisely the verified claims. */
  lemma AuthOutcomeCases(authorization: Option<string>, jwt: Jwt, secret: string)
    ensures AuthOutcome(authorization, jwt, secret).Rejected? ==>
      AuthOutcome(authorization, jwt, secret).response.status == 401
    ensures AuthOutcome(authorization, jwt, secret) == Rejected(Response(401, Message(NoTokenMessage)))
      <==> ExtractToken(authorization).None?
    ensures AuthOutcome(authorization, jwt, secret) == Rejected(Response(401, Message(InvalidTokenMessage)))
      <==> ExtractToken(authorization).Some? && jwt.verify(ExtractToken(authorization).value, secret).None?
    ensures forall c :: (AuthOutcome(authorization, jwt, secret) == Authenticated(c)
      <==> ExtractToken(authorization).Some? && jwt.verify(ExtractToken(authorization).value, secret) == Some(c))
  {
  }

  /** Two headers that differ only in their first word get the same decision, whatever
      follows that word: a token, later fields, a second space, or nothing at all. */
  lemma SchemeIgnored(scheme1: string, scheme2: string, rest: string, jwt: Jwt, secret: string)
    requires ' ' !in scheme1 && ' ' !in scheme2
    ensures AuthOutcome(Some(scheme1 + " " + rest), jwt, secret)
         == AuthOutcome(Some(scheme2 + " " + rest), jwt, secret)
    ensures AuthOutcome(Some(scheme1), jwt, secret) == AuthOutcome(Some(scheme2), jwt, secret)
  {
    SplitNoSpace(scheme1);
    SplitNoSpace(scheme2);
    SplitAtSpace(scheme1, rest);
    SplitAtSpace(scheme2, rest);
  }

  /** A token the library signed with the server's secret, sent as `Bearer <token>`, passes
      the gate with exactly the claims it was signed with. */
  lemma SignedTokenAuthenticates(claims: Claims, jwt: Jwt, secret: string)
    requires Sound(jwt)
    ensures AuthOutcome(Some("Bearer " + jwt.sign(claims, secret)), jwt, secret) == Authenticated(claims)
  {
    var token := jwt.sign(claims, secret);
    assert "Bearer " + token == "Bearer" + " " + token;
    TokenAfterAnyScheme("Bearer", token, "");
  }

  /** The part of a request the gates read and write. */
  class Request {
    var authorization: Option<string>
    var user: Option<Claims>

    constructor (authorization: Option<string>)
      ensures this.authorization == authorization && user == None
    {
      this.authorization := authorization;
      user := None;
    }
  }

  /** `authenticate(req, res, next)`: on success `req.user` is set to the claims and `next`
      is called; otherwise the 401 response is sent and `req.user` is left alone. */
  method Authenticate(req: Request, jwt: Jwt, secret: string) returns (step: Step)
    modifies req`user
    ensures match AuthOutcome(req.authorization, jwt, secret)
            case Authenticated(claims) => step == Next && req.user == Some(claims)
            case Rejected(response) => step == Halt(response) && req.user == old(req.user)
  {
    var token := ExtractToken(req.authorization);
    if token.None? {
      return Halt(Response(401, Message(NoTokenMessage)));
    }
    var decoded := jwt.verify(token.value, secret);
    if decoded.None? {
      return Halt(Response(401, Message(InvalidTokenMessage)));
    }
    req.user := decoded;
    step := Next;
  }
}
