/** The bearer-token guard (jwt-auth.guard.ts): it takes the token out of the Authorization
    header, hands it to the token validator and attaches the user it gets back to the
    request. The validator (Supabase plus the local user table) is a parameter: it either
    returns a user or fails. */
module JwtGuard {
  import opened Wrappers

  // ----- JavaScript's split with a one-character separator -----

  /** The pieces of `s` between occurrences of `sep`, in order; an empty string gives one
      empty piece. */
  function Split(s: string, sep: char): (parts: seq<string>)
    ensures |parts| >= 1
    ensures forall i :: 0 <= i < |parts| ==> sep !in parts[i]
  {
    if s == [] then [""]
    else
      var rest := Split(s[1..], sep);
      if s[0] == sep then [""] + rest else [[s[0]] + rest[0]] + rest[1..]
  }

  /** The pieces glued back together with `sep` between them. */
  function Join(parts: seq<string>, sep: char): string
    requires |parts| >= 1
  {
    if |parts| == 1 then parts[0] else parts[0] + [sep] + Join(parts[1..], sep)
  }

  /** Splitting loses nothing: the pieces and the separators rebuild the input. */
  lemma {:induction false} JoinSplit(s: string, sep: char)
    ensures Join(Split(s, sep), sep) == s
  {
    if s != [] {
      var rest := Split(s[1..], sep);
      JoinSplit(s[1..], sep);
      if s[0] == sep {
        assert Split(s, sep)[1..] == rest;
      } else {
        var parts := Split(s, sep);
        if |rest| == 1 {
          assert parts == [[s[0]] + rest[0]];
        } else {
          assert parts[1..] == rest[1..];
          assert Join(rest, sep) == rest[0] + [sep] + Join(rest[1..], sep);
        }
      }
    }
  }

  /** A piece without the separator, glued in front of a string, becomes part of its first
      piece. */
  lemma {:induction false} SplitPrepend(p: string, t: string, sep: char)
    requires sep !in p
    ensures Split(p + t, sep) == [p + Split(t, sep)[0]] + Split(t, sep)[1..]
  {
    var st := Split(t, sep);
    if p != [] {
      assert (p + t)[1..] == p[1..] + t;
      SplitPrepend(p[1..], t, sep);
      var rest := Split(p[1..] + t, sep);
      assert rest[0] == p[1..] + st[0] && rest[1..] == st[1..];
      assert [p[0]] + (p[1..] + st[0]) == p + st[0];
    } else {
      assert p + t == t && p + st[0] == st[0];
      assert st == [st[0]] + st[1..];
    }
  }

  /** Pieces without the separator are recovered by splitting what joining them gives. */
  lemma {:induction false} SplitJoin(parts: seq<string>, sep: char)
    requires |parts| >= 1
    requires forall i :: 0 <= i < |parts| ==> sep !in parts[i]
    ensures Split(Join(parts, sep), sep) == parts
  {
    if |parts| == 1 {
      SplitPrepend(parts[0], "", sep);
      assert Split("", sep) == [""];
      assert parts[0] + "" == parts[0];
    } else {
      var tail := Join(parts[1..], sep);
      SplitJoin(parts[1..], sep);
      assert ([sep] + tail)[1..] == tail;
      assert Split([sep] + tail, sep) == [""] + parts[1..];
      SplitPrepend(parts[0], [sep] + tail, sep);
      assert parts[0] + [sep] + tail == parts[0] + ([sep] + tail);
      assert parts[0] + "" == parts[0];
      assert [parts[0]] + parts[1..] == parts;
    }
  }

  // ----- extracting the token -----

  /** `extractTokenFromHeader`: no header, or an empty one, gives nothing; otherwise the
      header is split on single spaces and the second piece is the token when the first
      piece is exactly "Bearer". */
  function ExtractToken(authorization: Option<string>): (r: Option<string>)
    ensures r.Some? ==> authorization.Some? && authorization.value != "" && ' ' !in r.value
  {
    match authorization
    case None => None
    case Some(header) =>
      if header == "" then None
      else
        var parts := Split(header, ' ');
        if parts[0] == "Bearer" && |parts| >= 2 then Some(parts[1]) else None
  }

  /** The guard's `if (!token)`: an absent or an empty token. */
  predicate Missing(token: Option<string>) {
    token.None? || token.value == ""
  }

  /** The headers a token is found in: "Bearer", the token and any number of further
      pieces, joined by single spaces. */
  ghost predicate BearerHeader(header: string, token: string) {
    exists rest: seq<string> ::
      (forall i :: 0 <= i < |rest| ==> ' ' !in rest[i]) && ' ' !in token &&
      header == Join(["Bearer", token] + rest, ' ')
  }

  lemma FoundTokenHeader(header: string, token: string)
    requires ExtractToken(Some(header)) == Some(token)
    ensures BearerHeader(header, token)
  {
    var parts := Split(header, ' ');
    JoinSplit(header, ' ');
    assert parts == ["Bearer", token] + parts[2..];
    var rest := parts[2..];
    assert forall i :: 0 <= i < |rest| ==> rest[i] == parts[i + 2];
  }

  lemma BearerHeaderFound(header: string, token: string)
    requires BearerHeader(header, token)
    ensures ExtractToken(Some(header)) == Some(token)
  {
    var rest: seq<string> :| (forall i :: 0 <= i < |rest| ==> ' ' !in rest[i]) && ' ' !in token &&
      header == Join(["Bearer", token] + rest, ' ');
    var parts := ["Bearer", token] + rest;
    forall i | 0 <= i < |parts| ensures ' ' !in parts[i] {
      if i >= 2 { assert parts[i] == rest[i - 2]; }
    }
    SplitJoin(parts, ' ');
    assert header[..6] == "Bearer";
  }

  /** A token is found exactly when the header is "Bearer", the token and any number of
      further pieces, split by single spaces; the further pieces are ignored. */
  lemma ExtractTokenFinds(authorization: Option<string>, token: string)
    ensures ExtractToken(authorization) == Some(token) <==>
      authorization.Some? && BearerHeader(authorization.value, token)
  {
    if ExtractToken(authorization) == Some(token) {
      FoundTokenHeader(authorization.value, token);
    }
    if authorization.Some? && BearerHeader(authorization.value, token) {
      BearerHeaderFound(authorization.value, token);
    }
  }

  /** "Bearer " followed by a non-empty token without spaces yields that token. */
  lemma BearerRoundTrip(token: string)
    requires token != "" && ' ' !in token
    ensures ExtractToken(Some("Bearer " + token)) == Some(token)
  {
    var parts := ["Bearer", token];
    assert Join(parts[1..], ' ') == token;
    assert Join(parts, ' ') == "Bearer " + token;
    SplitJoin(parts, ' ');
  }

  /** Pieces after the token are ignored: "Bearer a b" yields "a". */
  lemma ExtraPiecesIgnored()
    ensures ExtractToken(Some("Bearer a b")) == Some("a")
  {
    var parts := ["Bearer", "a", "b"];
    assert Join(parts, ' ') == "Bearer a b";
    SplitJoin(parts, ' ');
  }

  /** The scheme must be spelled exactly "Bearer": any other first piece yields nothing. */
  lemma SchemeIsCaseSensitive(scheme: string, token: string)
    requires scheme != "Bearer" && ' ' !in scheme && ' ' !in token
    ensures ExtractToken(Some(scheme + " " + token)) == None
  {
    var parts := [scheme, token];
    assert Join(parts, ' ') == scheme + " " + token;
    SplitJoin(parts, ' ');
  }

  /** "Bearer" alone has no second piece, so no token. */
  lemma BareSchemeHasNoToken()
    ensures ExtractToken(Some("Bearer")) == None
  {
    SplitJoin(["Bearer"], ' ');
  }

  /** "Bearer " and "Bearer  x" have an empty second piece, so an empty token. */
  lemma EmptySecondPiece()
    ensures ExtractToken(Some("Bearer ")) == Some("")
    ensures ExtractToken(Some("Bearer  x")) == Some("")
  {
    assert Join(["Bearer", ""], ' ') == "Bearer ";
    SplitJoin(["Bearer", ""], ' ');
    var parts := ["Bearer", "", "x"];
    assert Join(parts, ' ') == "Bearer  x";
    SplitJoin(parts, ' ');
  }

  // ----- the guard -----

  /** The 401 the guard throws, with its message. */
  datatype Unauthorized = Unauthorized(message: string)

  /** The decision `canActivate` reaches: the validated user, or the 401 it throws. */
  function Authenticate<U>(authorization: Option<string>, validateToken: string -> Option<U>)
    : (r: Result<U, Unauthorized>)
    ensures r.Err? ==> r.error.message in ["No token provided", "Invalid or expired token"]
    ensures r.Ok? ==>
      ExtractToken(authorization).Some? && validateToken(ExtractToken(authorization).value) == Some(r.value)
  {
    var token := ExtractToken(authorization);
    if Missing(token) then Err(Unauthorized("No token provided"))
    else match validateToken(token.value)
      case Some(user) => Ok(user)
      case None => Err(Unauthorized("Invalid or expired token"))
  }

  /** A missing token and a token the validator refuses are the only two ways to fail, and
      each has its own message; the validator is consulted only with a non-empty token. */
  lemma AuthenticateOutcomes<U>(authorization: Option<string>, validateToken: string -> Option<U>)
    ensures var r := Authenticate(authorization, validateToken);
      var token := ExtractToken(authorization);
      && (r == Err(Unauthorized("No token provided")) <==> Missing(token))
      && (r == Err(Unauthorized("Invalid or expired token")) <==>
            !Missing(token) && validateToken(token.value).None?)
      && (r.Ok? <==> !Missing(token) && validateToken(token.value).Some?)
      && (r.Ok? ==> Some(r.value) == validateToken(token.value))
  {
  }

  /** Without an Authorization header the guard refuses with "No token provided". */
  lemma NoHeaderRefused<U>(validateToken: string -> Option<U>)
    ensures Authenticate(None, validateToken) == Err(Unauthorized("No token provided"))
  {
  }

  /** The malformed bearer headers are refused before the validator is asked. */
  lemma MalformedBearerRefused<U>(validateToken: string -> Option<U>)
    ensures Authenticate(Some("Bearer"), validateToken) == Err(Unauthorized("No token provided"))
    ensures Authenticate(Some("Bearer "), validateToken) == Err(Unauthorized("No token provided"))
    ensures Authenticate(Some("Bearer  x"), validateToken) == Err(Unauthorized("No token provided"))
  {
    BareSchemeHasNoToken();
    EmptySecondPiece();
  }

  /** The incoming request: its Authorization header and the user slot the guard fills. */
  class Request<U> {
    const authorization: Option<string>
    var user: Option<U>

    constructor (authorization: Option<string>)
      ensures this.authorization == authorization && user == None
    {
      this.authorization := authorization;
      user := None;
    }
  }

  /** `canActivate`: on success the validated user is attached to the request and the
      answer is true; on failure the request is left as it was and the 401 is returned. */
  method CanActivate<U>(request: Request<U>, validateToken: string -> Option<U>)
    returns (r: Result<bool, Unauthorized>)
    modifies request
    ensures match Authenticate(request.authorization, validateToken)
      case Ok(user) => r == Ok(true) && request.user == Some(user)
      case Err(e) => r == Err(e) && request.user == old(request.user)
  {
    var token := ExtractToken(request.authorization);
    if Missing(token) {
      return Err(Unauthorized("No token provided"));
    }
    var user := validateToken(token.value);
    if user.None? {
      return Err(Unauthorized("Invalid or expired token"));
    }
    request.user := user;
    return Ok(true);
  }
}
