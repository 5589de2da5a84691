/** The bearer-token guard `authenticateToken` of the tasks service
    (tasks-service/tasks-service.js, lines 11-21): a pure function from the
    `Authorization` header to a rejection or the verified claims. */
module AuthGate {
  import opened Wrappers
  import opened Jwt

  /** JavaScript's `s.split(' ')`: the maximal space-free fields between
      single spaces, so "a  b" has an empty middle field and "" has one
      empty field. */
  function Split(s: string): (fields: seq<string>)
    ensures |fields| >= 1
    ensures |fields| == 1 <==> ' ' !in s
    ensures forall i | 0 <= i < |fields| :: ' ' !in fields[i]
  {
    if s == [] then [[]]
    else
      var rest := Split(s[1..]);
      assert s == [s[0]] + s[1..];
      if s[0] == ' ' then [[]] + rest
      else [[s[0]] + rest[0]] + rest[1..]
  }

  /** `fields.join(' ')`, the inverse of `Split`. */
  function Join(fields: seq<string>): string
    requires |fields| >= 1
  {
    if |fields| == 1 then fields[0] else fields[0] + [' '] + Join(fields[1..])
  }

  lemma {:induction false} JoinSplit(s: string)
    ensures Join(Split(s)) == s
  {
    if s != [] {
      var rest := Split(s[1..]);
      JoinSplit(s[1..]);
      if s[0] == ' ' {
        assert Split(s)[1..] == rest;
      } else {
        var fields := Split(s);
        if |rest| == 1 {
          assert fields == [[s[0]] + rest[0]];
        } else {
          assert fields[1..] == rest[1..];
          assert Join(rest) == rest[0] + [' '] + Join(rest[1..]);
        }
      }
    }
  }

  lemma {:induction false} SplitJoin(fields: seq<string>)
    requires |fields| >= 1
    requires forall i | 0 <= i < |fields| :: ' ' !in fields[i]
    ensures Split(Join(fields)) == fields
  {
    if |fields| == 1 {
      SplitField(fields[0]);
    } else {
      SplitJoin(fields[1..]);
      SplitAfterField(fields[0], Join(fields[1..]));
    }
  }

  lemma {:induction false} SplitField(w: string)
    requires ' ' !in w
    ensures Split(w) == [w]
  {
    if w != [] {
      SplitField(w[1..]);
      assert w == [w[0]] + w[1..];
    }
  }

  /** A leading space-free field is split off unchanged. */
  lemma {:induction false} SplitAfterField(w: string, x: string)
    requires ' ' !in w
    ensures Split(w + [' '] + x) == [w] + Split(x)
  {
    if w == [] {
      assert w + [' '] + x == [' '] + x;
      assert ([' '] + x)[1..] == x;
    } else {
      var s := w + [' '] + x;
      assert s[0] == w[0];
      assert s[1..] == w[1..] + [' '] + x;
      SplitAfterField(w[1..], x);
      assert [w[0]] + w[1..] == w;
    }
  }

  /** `authHeader && authHeader.split(' ')[1]`: an absent header gives no
      token; an empty header short-circuits to the empty string itself;
      otherwise the second space-separated field, if there is one. */
  function BearerToken(header: Option<string>): (token: Option<string>)
    ensures token.None? <==> header.None? || (header.value != [] && ' ' !in header.value)
    ensures token.Some? ==> ' ' !in token.value
  {
    match header
    case None => None
    case Some(h) =>
      if h == [] then Some([])
      else
        var fields := Split(h);
        if |fields| >= 2 then Some(fields[1]) else None
  }

  /** The token is the second field of the header, whatever the other
      fields are. */
  lemma BearerTokenIsSecondField(fields: seq<string>)
    requires |fields| >= 2
    requires forall i | 0 <= i < |fields| :: ' ' !in fields[i]
    ensures BearerToken(Some(Join(fields))) == Some(fields[1])
  {
    SplitJoin(fields);
    assert Join(fields) == fields[0] + [' '] + Join(fields[1..]);
    assert Join(fields)[|fields[0]|] == ' ';
  }

  /** What the guard does with a request: `sendStatus(401)`, `sendStatus(403)`,
      or `req.user = user; next()`. */
  datatype Gate = Unauthorized | Forbidden | Authenticated(user: Claims)

  function Authenticate(header: Option<string>, verify: (string, int) -> Option<Claims>, now: int): (g: Gate)
    ensures g.Unauthorized? <==> header.None? || (header.value != [] && ' ' !in header.value)
    ensures g.Authenticated? ==> BearerToken(header).Some? && verify(BearerToken(header).value, now) == Some(g.user)
    ensures g.Forbidden? ==> BearerToken(header).Some? && verify(BearerToken(header).value, now).None?
  {
    match BearerToken(header)
    case None => Unauthorized
    case Some(token) =>
      match verify(token, now)
      case None => Forbidden
      case Some(claims) => Authenticated(claims)
  }

  /** A header `<scheme> <token>` with a space-free token is decided by the
      verifier on that token alone. */
  lemma GateOnBearer(scheme: string, token: string, verify: (string, int) -> Option<Claims>, now: int)
    requires ' ' !in scheme && ' ' !in token
    ensures Authenticate(Some(scheme + " " + token), verify, now)
         == match verify(token, now)
            case None => Forbidden
            case Some(c) => Authenticated(c)
  {
    SplitAfterField(scheme, token);
    SplitField(token);
  }

  /** The first field is never inspected: any two schemes give the same
      result for the same remainder of the header. */
  lemma SchemeIgnored(scheme1: string, scheme2: string, rest: string, verify: (string, int) -> Option<Claims>, now: int)
    requires ' ' !in scheme1 && ' ' !in scheme2
    ensures Authenticate(Some(scheme1 + " " + rest), verify, now)
         == Authenticate(Some(scheme2 + " " + rest), verify, now)
  {
    SplitAfterField(scheme1, rest);
    SplitAfterField(scheme2, rest);
  }

  /** An empty header and "Bearer " both present the empty token to the
      verifier: neither is rejected as missing. */
  lemma EmptyTokenIsVerified(verify: (string, int) -> Option<Claims>, now: int)
    ensures BearerToken(Some("")) == Some("")
    ensures BearerToken(Some("Bearer ")) == Some("")
    ensures Authenticate(Some("Bearer "), verify, now) == Authenticate(Some(""), verify, now)
  {
    SplitAfterField("Bearer", "");
    assert "Bearer" + [' '] + "" == "Bearer ";
  }
}
