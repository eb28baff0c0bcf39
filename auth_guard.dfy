/** The bearer-token middleware (src/middlewares/auth_guard.rs): take the
    `Authorization` header, require the `Bearer ` prefix, verify the token
    and hand the request, with the user attached, to the next handler.
    Token verification is a parameter (`verify_token`). */
module AuthGuard {
  import opened Common
  import opened Errors
  import opened Entities

  newtype byte = x: int | 0 <= x < 256

  /** Header names are stored lower-case, as `http::HeaderMap` keys them. */
  const AUTHORIZATION := "authorization"
  const BEARER := "Bearer "
  const NO_CREDENTIALS := "Authentication credentials were not provided."

  /** The bytes `HeaderValue::to_str` accepts: visible ASCII and tab. */
  predicate VisibleAscii(b: byte) {
    (32 <= b < 127) || b == 9
  }

  /** `HeaderValue::to_str`: the value as text when every byte is visible ASCII. */
  function ToStr(v: seq<byte>): (r: Option<string>)
    ensures r.Some? <==> forall i :: 0 <= i < |v| ==> VisibleAscii(v[i])
    ensures r.Some? ==> |r.value| == |v| && forall i :: 0 <= i < |v| ==> r.value[i] as int == v[i] as int
  {
    if forall i :: 0 <= i < |v| ==> VisibleAscii(v[i])
    then Some(seq(|v|, i requires 0 <= i < |v| => (v[i] as int) as char))
    else None
  }

  /** The byte encoding of an ASCII string. */
  function Bytes(s: string): (r: seq<byte>)
    requires forall i :: 0 <= i < |s| ==> s[i] as int < 256
    ensures |r| == |s| && forall i :: 0 <= i < |s| ==> r[i] as int == s[i] as int
  {
    seq(|s|, i requires 0 <= i < |s| => (s[i] as int) as byte)
  }

  /** `str::strip_prefix`. */
  function StripPrefix(s: string, prefix: string): (r: Option<string>)
    ensures r.Some? <==> StartsWith(s, prefix)
    ensures r.Some? ==> s == prefix + r.value
  {
    if StartsWith(s, prefix) then Some(s[|prefix|..]) else None
  }

  /** The `Option` chain of lines 16-23: a missing header, a value that is
      not visible ASCII and a value without the exact `Bearer ` prefix all
      give the same 401 error; otherwise the token is the rest of the value,
      possibly empty. */
  function ExtractToken(header: Option<seq<byte>>): (r: Outcome<string>)
    ensures !r.Panic?
    ensures r.Err? ==> r.error == Unauthorized(NO_CREDENTIALS)
    ensures r.Ok? <==> header.Some? && ToStr(header.value).Some? && StartsWith(ToStr(header.value).value, BEARER)
    ensures r.Ok? ==> ToStr(header.value).value == BEARER + r.value
  {
    match header
    case None => Err(Unauthorized(NO_CREDENTIALS))
    case Some(v) =>
      match ToStr(v)
      case None => Err(Unauthorized(NO_CREDENTIALS))
      case Some(text) =>
        match StripPrefix(text, BEARER)
        case None => Err(Unauthorized(NO_CREDENTIALS))
        case Some(token) => Ok(token)
  }

  /** A token sent as `Bearer <token>` is recovered exactly, including the
      empty token. */
  lemma {:induction false} ExtractTokenRoundTrip(token: string)
    requires forall i :: 0 <= i < |token| ==> 32 <= token[i] as int < 127
    ensures ExtractToken(Some(Bytes(BEARER + token))) == Ok(token)
  {
    var s := BEARER + token;
    var b := Bytes(s);
    forall i | 0 <= i < |b| ensures VisibleAscii(b[i]) {
      if i >= |BEARER| { assert s[i] == token[i - |BEARER|]; }
    }
    var text := ToStr(b).value;
    assert text == s;
    assert StartsWith(s, BEARER) by { assert s[..|BEARER|] == BEARER; }
    assert s[|BEARER|..] == token;
  }

  /** The prefix test is case-sensitive and needs the single space. */
  lemma PrefixIsExact()
    ensures ExtractToken(Some(Bytes("bearer abc"))).Err?
    ensures ExtractToken(Some(Bytes("Bearer"))).Err?
    ensures ExtractToken(Some(Bytes("Bearer "))) == Ok("")
  {
    assert !StartsWith("bearer abc", BEARER) by { assert "bearer abc"[0] != BEARER[0]; }
    ExtractTokenRoundTrip("");
    assert BEARER + "" == "Bearer ";
  }

  /** The request as the middleware sees it: its headers and the user slot of
      its extensions. */
  class Request {
    var headers: map<string, seq<byte>>
    var user: Option<User>

    constructor (headers: map<string, seq<byte>>)
      ensures this.headers == headers && user == None
    {
      this.headers := headers;
      user := None;
    }

    function Authorization(): Option<seq<byte>>
      reads this
    {
      if AUTHORIZATION in headers then Some(headers[AUTHORIZATION]) else None
    }
  }

  /** `auth_guard`: on an extraction or verification failure the error is
      returned, the request is untouched and `next` does not run; otherwise
      the verified user is inserted into the request before `next` runs on it. */
  method Guard<R>(request: Request, verifyToken: string -> Outcome<User>,
                  next: (map<string, seq<byte>>, Option<User>) -> R)
    returns (r: Outcome<R>)
    modifies request
    ensures request.headers == old(request.headers)
    ensures ExtractToken(old(request.Authorization())).Err? ==>
      r == Err(Unauthorized(NO_CREDENTIALS)) && request.user == old(request.user)
    ensures ExtractToken(old(request.Authorization())).Ok? ==>
      var verified := verifyToken(ExtractToken(old(request.Authorization())).value);
      match verified
      case Ok(u) => request.user == Some(u) && r == Ok(next(request.headers, Some(u)))
      case Err(e) => r == Err(e) && request.user == old(request.user)
      case Panic(why) => r == Panic(why) && request.user == old(request.user)
  {
    var token := ExtractToken(request.Authorization());
    if !token.Ok? {
      return Err(token.error);
    }
    var verified := verifyToken(token.value);
    match verified {
      case Err(e) => return Err(e);
      case Panic(why) => return Panic(why);
      case Ok(u) =>
        request.user := Some(u);
        r := Ok(next(request.headers, request.user));
    }
  }
}
