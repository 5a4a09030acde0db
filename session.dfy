/** Session tokens and the `authenticateUser` middleware: the bearer token is the
    second space-separated piece of the `authorization` header, and a token that
    the token service verifies becomes the request's identity. */
module Session {
  import opened Outcomes
  import opened Strings

  /** The claims a login token carries: `{ id, userId, email }`. */
  datatype Claims = Claims(id: int, userId: int, email: string)

  /** `sign` stands for `jwt.sign(claims, SECRET_KEY, ...)` and `verify` for
      `jwt.verify(token, SECRET_KEY)`, which either yields the claims or throws. */
  datatype TokenService = TokenService(sign: Claims -> string, verify: string -> Option<Claims>)

  /** What is assumed of the token library: a signed token verifies to the claims it
      was signed with, and is a non-empty string without spaces (a compact JWT). */
  ghost predicate WellFormed(ts: TokenService) {
    forall c :: ts.verify(ts.sign(c)) == Some(c) && ts.sign(c) != "" && ' ' !in ts.sign(c)
  }

  /** `req.headers.authorization?.split(' ')[1]`, kept only when it is truthy. */
  function BearerToken(header: Option<string>): (t: Option<string>)
    ensures header.None? ==> t.None?
    ensures header.Some? && ' ' !in header.value ==> t.None?
    ensures t.Some? ==> t.value != "" && ' ' !in t.value
  {
    match header
    case None => None
    case Some(h) =>
      SplitPieces(h, ' ');
      var parts := Split(h, ' ');
      if |parts| >= 2 && parts[1] != "" then Some(parts[1]) else None
  }

  /** The outcome of the middleware: the request goes on with an identity, or is answered 401. */
  datatype AuthResult = Rejected | Accepted(claims: Claims)

  /** `authenticateUser`: no token, or a token the service does not verify, is rejected;
      otherwise the decoded claims become the request identity. A missing header, or one
      without a space, is rejected whatever the token service would say. */
  function Authenticate(header: Option<string>, ts: TokenService): (a: AuthResult)
    ensures header.None? || ' ' !in header.value ==> a == Rejected
    ensures a.Accepted? <==> BearerToken(header).Some? && ts.verify(BearerToken(header).value).Some?
    ensures a.Accepted? ==> ts.verify(BearerToken(header).value) == Some(a.claims)
  {
    match BearerToken(header)
    case None => Rejected
    case Some(token) =>
      match ts.verify(token)
      case None => Rejected
      case Some(claims) => Accepted(claims)
  }

  /** Any header of the shape `scheme SP token` or `scheme SP token SP ...` yields `token`. */
  lemma SecondPieceAccepted(scheme: string, token: string, rest: string)
    requires ' ' !in scheme && ' ' !in token && token != ""
    requires rest == "" || rest[0] == ' '
    ensures BearerToken(Some(scheme + " " + token + rest)) == Some(token)
  {
    var h := scheme + " " + token + rest;
    var tail := TailPieces(token, rest);
    assert h == scheme + [' '] + (token + rest);
    SplitAtFirst(scheme, token + rest, ' ');
    var parts := Split(h, ' ');
    assert parts == [scheme] + tail;
    assert parts[1] == token;
  }

  /** The pieces of `token + rest` start with `token` when `rest` is empty or starts a new piece. */
  lemma TailPieces(token: string, rest: string) returns (tail: seq<string>)
    requires ' ' !in token
    requires rest == "" || rest[0] == ' '
    ensures tail == Split(token + rest, ' ') && |tail| >= 1 && tail[0] == token
  {
    tail := Split(token + rest, ' ');
    if rest == "" {
      assert token + rest == token;
    } else {
      assert token + rest == token + [' '] + rest[1..];
      SplitAtFirst(token, rest[1..], ' ');
    }
  }

  /** Conversely, a token that is extracted is the second space-separated piece of the
      header: it follows a space-free first piece and a single space, and is followed
      by the end of the header or by a space. */
  lemma SecondPieceOnly(h: string) returns (scheme: string, rest: string)
    requires BearerToken(Some(h)).Some?
    ensures ' ' !in scheme && (rest == "" || rest[0] == ' ')
    ensures h == scheme + " " + BearerToken(Some(h)).value + rest
  {
    var parts := Split(h, ' ');
    SplitPieces(h, ' ');
    JoinSplit(h, ' ');
    scheme := parts[0];
    rest := JoinedAfterSecond(parts);
    assert scheme + [' '] + (parts[1] + rest) == scheme + " " + parts[1] + rest;
  }

  /** The join of two or more pieces is the first, a space, the second, and then either
      nothing or a space and the rest. */
  lemma JoinedAfterSecond(parts: seq<string>) returns (rest: string)
    requires |parts| >= 2
    ensures Join(parts, ' ') == parts[0] + [' '] + (parts[1] + rest)
    ensures rest == "" || rest[0] == ' '
  {
    var tail := parts[1..];
    assert parts == [parts[0]] + tail;
    JoinCons(parts[0], tail, ' ');
    if |tail| == 1 {
      rest := "";
      assert parts[1] + rest == parts[1];
    } else {
      var more := tail[1..];
      assert tail == [parts[1]] + more;
      JoinCons(parts[1], more, ' ');
      rest := [' '] + Join(more, ' ');
      assert parts[1] + [' '] + Join(more, ' ') == parts[1] + rest;
    }
  }

  /** The middleware on a header `scheme SP token` or `scheme SP token SP ...` with a
      non-empty token: it accepts exactly when the service verifies `token`, with the
      claims it yields. */
  lemma AuthenticateShaped(ts: TokenService, scheme: string, token: string, rest: string)
    requires ' ' !in scheme && ' ' !in token && token != ""
    requires rest == "" || rest[0] == ' '
    ensures Authenticate(Some(scheme + " " + token + rest), ts) ==
      if ts.verify(token).Some? then Accepted(ts.verify(token).value) else Rejected
  {
    SecondPieceAccepted(scheme, token, rest);
  }

  /** Conversely, every accepted header has that shape, and its claims are what the
      service verifies of the token in the second place. */
  lemma AcceptedHeader(header: Option<string>, ts: TokenService) returns (scheme: string, token: string, rest: string)
    requires Authenticate(header, ts).Accepted?
    ensures header == Some(scheme + " " + token + rest)
    ensures ' ' !in scheme && ' ' !in token && token != ""
    ensures rest == "" || rest[0] == ' '
    ensures ts.verify(token) == Some(Authenticate(header, ts).claims)
  {
    token := BearerToken(header).value;
    scheme, rest := SecondPieceOnly(header.value);
  }

  /** A header `scheme SP token` carrying a token the service signed authenticates
      as exactly the signed claims. */
  lemma IssuedTokenAccepted(ts: TokenService, c: Claims, scheme: string)
    requires WellFormed(ts)
    requires ' ' !in scheme
    ensures Authenticate(Some(scheme + " " + ts.sign(c)), ts) == Accepted(c)
  {
    var token := ts.sign(c);
    assert ts.verify(token) == Some(c) && token != "" && ' ' !in token;
    SecondPieceAccepted(scheme, token, "");
    assert scheme + " " + token + "" == scheme + " " + token;
  }
}
