/** The decision `AuthMiddleware.dispatch` takes for each request. */
module Middleware {
  import opened Wrappers
  import opened Strings
  import opened Exceptions

  const PublicPaths: seq<string> := [
    "/",
    "/authentication/login",
    "/authentication/register",
    "/openapi.json",
    "/docs",
    "/docs/oauth2-redirect",
    "/redoc"
  ]

  const BearerPrefix: string := "Bearer "
  const InvalidHeaderDetail: string := "Missing or invalid Authorization header"

  /** What `decode_jwt(token)` does: return (the payload is ignored), raise an HTTPException, or raise
      anything else. */
  datatype DecodeOutcome = Decoded | DecodeRejected(status: int, detail: string) | DecodeCrashed(error: Exc)

  type Decoder = string -> DecodeOutcome

  /** The middleware's answer: hand the request to `call_next`, answer with a JSON error body
      `{"detail": detail}`, or let an exception escape. */
  datatype Response = CallNext | JsonError(status: int, detail: string) | Escaped(error: Exc)

  /** `token.split(" ")[1]` for a header that starts with "Bearer ": the text after the first space up
      to the next space (or the end). */
  function BearerToken(header: string): (r: string)
    requires StartsWith(header, BearerPrefix)
    ensures ' ' !in r
    ensures StartsWith(header[|BearerPrefix|..], r)
    ensures |header| == |BearerPrefix| + |r| || header[|BearerPrefix| + |r|] == ' '
  {
    var rest := header[|BearerPrefix|..];
    assert header == "Bearer" + [' '] + rest;
    SplitAfterField("Bearer", rest, ' ');
    SplitFieldsLackSeparator(rest, ' ', 0);
    FirstFieldIsPrefix(rest, ' ');
    Split(header, ' ')[1]
  }

  /** The first field of a split is a prefix of the string, ended by the separator or the end. */
  lemma {:induction false} FirstFieldIsPrefix(s: string, c: char)
    ensures StartsWith(s, Split(s, c)[0])
    ensures |Split(s, c)[0]| == |s| || s[|Split(s, c)[0]|] == c
    decreases |s|
  {
    if |s| > 0 && s[0] != c {
      FirstFieldIsPrefix(s[1..], c);
    }
  }

  /** `dispatch`: public paths pass untouched; otherwise the header must start with "Bearer " and the
      token must decode. */
  function Dispatch(path: string, authorization: Option<string>, decode: Decoder): (r: Response)
    ensures path in PublicPaths ==> r == CallNext
    ensures path !in PublicPaths && (authorization.None? || !StartsWith(authorization.value, BearerPrefix)) ==>
      r == JsonError(401, InvalidHeaderDetail)
    ensures path !in PublicPaths && authorization.Some? && StartsWith(authorization.value, BearerPrefix) ==>
      r == match decode(BearerToken(authorization.value))
           case Decoded => CallNext
           case DecodeRejected(s, d) => JsonError(s, d)
           case DecodeCrashed(e) => Escaped(e)
  {
    if path in PublicPaths then CallNext
    else if authorization.None? || authorization.value == "" || !StartsWith(authorization.value, BearerPrefix) then
      JsonError(401, InvalidHeaderDetail)
    else
      match decode(BearerToken(authorization.value))
      case Decoded => CallNext
      case DecodeRejected(s, d) => JsonError(s, d)
      case DecodeCrashed(e) => Escaped(e)
  }

  /** On a public path the header is never read and the token never decoded. */
  lemma PublicPathIgnoresHeader(path: string, h1: Option<string>, h2: Option<string>, d1: Decoder, d2: Decoder)
    requires path in PublicPaths
    ensures Dispatch(path, h1, d1) == Dispatch(path, h2, d2) == CallNext
  {
  }

  /** A request reaches `call_next` exactly when its path is public or its Bearer token decodes. */
  lemma PassesExactlyWhenAuthorized(path: string, authorization: Option<string>, decode: Decoder)
    ensures Dispatch(path, authorization, decode) == CallNext <==>
      path in PublicPaths ||
      (authorization.Some? && StartsWith(authorization.value, BearerPrefix) &&
       decode(BearerToken(authorization.value)) == Decoded)
  {
  }

  /** Membership is exact string equality: a trailing slash makes a path non-public. */
  lemma TrailingSlashIsNotPublic(decode: Decoder)
    ensures "/docs/" !in PublicPaths && "/authentication/login/" !in PublicPaths
    ensures Dispatch("/docs/", None, decode) == JsonError(401, InvalidHeaderDetail)
  {
    assert "/docs/" != "/docs" && "/docs/" != "/docs/oauth2-redirect";
    assert "/authentication/login/" != "/authentication/login";
  }

  /** The Bearer check is case-sensitive. */
  lemma LowerCaseBearerRejected(path: string, token: string, decode: Decoder)
    requires path !in PublicPaths
    ensures Dispatch(path, Some("bearer " + token), decode) == JsonError(401, InvalidHeaderDetail)
  {
    assert ("bearer " + token)[0] == 'b';
  }

  /** The token is the second space-separated field: "Bearer a b" gives "a", "Bearer  a" gives "". */
  lemma TokenIsSecondField()
    ensures BearerToken("Bearer a b") == "a"
    ensures BearerToken("Bearer  a") == ""
  {
    SplitAfterField("Bearer", "a b", ' ');
    SplitAfterField("a", "b", ' ');
    SplitAfterField("Bearer", " a", ' ');
    assert " a" == "" + [' '] + "a";
    SplitAfterField("", "a", ' ');
  }
}
