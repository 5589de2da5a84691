/** The two services together: a token issued by `/login` presented as
    `Authorization: Bearer <token>` to the task routes. */
module Scenarios {
  import opened Wrappers
  import opened Jwt
  import opened AuthGate
  import opened Tasks
  import opened Users

  /** A login token opens the task routes for its user until one hour after
      login and is refused with 403, not 401, from then on. */
  lemma {:induction false} LoginTokenOpensGate(users: map<string, User>, username: string, password: string, salt: string,
                                               issuedAt: int, now: int, bcrypt: Bcrypt,
                                               sign: Claims -> string, verify: (string, int) -> Option<Claims>)
    requires bcrypt.Sound() && HonoursExpiry(sign, verify) && CompactTokens(sign)
    requires username !in users
    ensures var registered := RegisterOn(users, username, password, salt, bcrypt).1;
      var login := LoginOn(registered, username, password, issuedAt, bcrypt, sign);
      login.LoggedIn? &&
      Authenticate(Some("Bearer " + login.token), verify, now)
        == if now < issuedAt + ExpiresIn then Authenticated(Claims(username, issuedAt, issuedAt + ExpiresIn))
           else Forbidden
  {
    RegisterThenLogin(users, username, password, salt, issuedAt, bcrypt, sign);
    var token := sign(IssueClaims(username, issuedAt));
    assert ' ' !in token;
    assert verify(token, now) == if now < issuedAt + ExpiresIn then Some(IssueClaims(username, issuedAt)) else None;
    GateOnBearer("Bearer", token, verify, now);
    assert "Bearer" + " " + token == "Bearer " + token;
  }

  /** An expired token changes nothing on any task route and answers 403. */
  lemma ExpiredTokenIsForbidden(s: seq<Task>, claims: Claims, now: int, req: Request,
                                sign: Claims -> string, verify: (string, int) -> Option<Claims>)
    requires HonoursExpiry(sign, verify) && CompactTokens(sign)
    requires now >= claims.exp
    ensures Gated(s, Some("Bearer " + sign(claims)), verify, now, req) == (s, Response(403, StatusText))
  {
    assert ' ' !in sign(claims);
    assert verify(sign(claims), now) == None;
    GateOnBearer("Bearer", sign(claims), verify, now);
    assert "Bearer" + " " + sign(claims) == "Bearer " + sign(claims);
  }

  /** Alice registers and logs in and creates a task; Bob registers and logs
      in, sees an empty list and gets 404 when he tries to change Alice's
      task 1. */
  lemma AliceAndBob(bcrypt: Bcrypt, sign: Claims -> string, verify: (string, int) -> Option<Claims>,
                    salt1: string, salt2: string, now: int)
    requires bcrypt.Sound() && HonoursExpiry(sign, verify) && CompactTokens(sign)
    ensures var users1 := RegisterOn(map[], "alice", "pw1", salt1, bcrypt).1;
      var t1 := LoginOn(users1, "alice", "pw1", now, bcrypt, sign);
      var users2 := RegisterOn(users1, "bob", "pw2", salt2, bcrypt).1;
      var t2 := LoginOn(users2, "bob", "pw2", now, bcrypt, sign);
      t1.LoggedIn? && t2.LoggedIn? &&
      var (s1, created) := Gated([], Some("Bearer " + t1.token), verify, now, CreateTask(Some("x"), Some("y")));
      created == Response(201, One(Task(1, Some("x"), Some("y"), false, "alice"))) &&
      Gated(s1, Some("Bearer " + t2.token), verify, now, ListTasks) == (s1, Response(200, Many([]))) &&
      Gated(s1, Some("Bearer " + t2.token), verify, now, UpdateTask(Some(1), EmptyPatch))
        == (s1, Response(404, Error(NotFoundMessage)))
  {
    var users1 := RegisterOn(map[], "alice", "pw1", salt1, bcrypt).1;
    LoginTokenOpensGate(map[], "alice", "pw1", salt1, now, now, bcrypt, sign, verify);
    assert "bob" !in users1;
    LoginTokenOpensGate(users1, "bob", "pw2", salt2, now, now, bcrypt, sign, verify);
    var alice := Task(1, Some("x"), Some("y"), false, "alice");
    assert Owned([alice], "bob") == [];
    assert !Matches([alice][0], Some(1), "bob");
  }
}
