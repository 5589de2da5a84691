/** The credential store of the users service (users-service/users-service.js):
    a dictionary from username to record, written by `/register` and only
    read by `/login`. */
module Users {
  import opened Wrappers
  import opened Jwt

  /** The cost factor passed to `bcrypt.hash`. */
  const SaltRounds: nat := 10

  /** A stored record `{ username, password: hashedPassword }`. */
  datatype User = User(username: string, passwordHash: string)

  /** The bcrypt library, seen from outside: `hash(password, rounds, salt)`
      (the salt is the random part bcrypt draws itself) and
      `compare(password, hash)`. */
  datatype Bcrypt = Bcrypt(hash: (string, nat, string) -> string, compare: (string, string) -> bool)
  {
    /** A password always matches a hash made from it. */
    ghost predicate Sound()
    {
      forall p: string, rounds: nat, salt: string :: compare(p, hash(p, rounds, salt))
    }
  }

  datatype RegisterOutcome = Registered | DuplicateUsername

  datatype LoginOutcome = LoggedIn(token: string) | AuthenticationFailed

  /** Every record is stored under its own username, so no two names share
      a record. */
  ghost predicate KeyedByName(users: map<string, User>)
    ensures KeyedByName(users) ==>
      forall k1, k2 | k1 in users && k2 in users && k1 != k2 :: users[k1] != users[k2]
  {
    forall k | k in users :: users[k].username == k
  }

  /** POST /register on the dictionary `users`: the outcome and the new
      dictionary. */
  function RegisterOn(users: map<string, User>, username: string, password: string, salt: string, bcrypt: Bcrypt): (r: (RegisterOutcome, map<string, User>))
    ensures username in users ==> r == (DuplicateUsername, users)
    ensures username !in users ==>
      r.0 == Registered &&
      r.1.Keys == users.Keys + {username} &&
      r.1[username] == User(username, bcrypt.hash(password, SaltRounds, salt)) &&
      forall k | k in users :: r.1[k] == users[k]
    ensures username in r.1
    ensures KeyedByName(users) ==> KeyedByName(r.1)
  {
    if username in users then (DuplicateUsername, users)
    else (Registered, users[username := User(username, bcrypt.hash(password, SaltRounds, salt))])
  }

  /** POST /login on the dictionary `users`, at time `now`. */
  function LoginOn(users: map<string, User>, username: string, password: string, now: int,
                   bcrypt: Bcrypt, sign: Claims -> string): (r: LoginOutcome)
    ensures r.LoggedIn? <==> username in users && bcrypt.compare(password, users[username].passwordHash)
    ensures r.LoggedIn? ==> r.token == sign(Claims(username, now, now + ExpiresIn))
  {
    if username in users && bcrypt.compare(password, users[username].passwordHash)
    then LoggedIn(sign(IssueClaims(username, now)))
    else AuthenticationFailed
  }

  /** A name that is already taken is refused again, whatever the password,
      and the dictionary stays as it was. */
  lemma SecondRegisterFails(users: map<string, User>, username: string, p1: string, p2: string,
                            salt1: string, salt2: string, bcrypt: Bcrypt)
    ensures var after := RegisterOn(users, username, p1, salt1, bcrypt).1;
      RegisterOn(after, username, p2, salt2, bcrypt) == (DuplicateUsername, after)
  {
  }

  /** Registering never changes what an existing user's login answers. */
  lemma RegisterKeepsOtherLogins(users: map<string, User>, username: string, password: string, salt: string,
                                 other: string, otherPassword: string, now: int, bcrypt: Bcrypt, sign: Claims -> string)
    requires other != username || username in users
    ensures LoginOn(RegisterOn(users, username, password, salt, bcrypt).1, other, otherPassword, now, bcrypt, sign)
         == LoginOn(users, other, otherPassword, now, bcrypt, sign)
  {
  }

  /** After a successful registration the same credentials log in and get a
      token for the claims `{ username }` valid for one hour. */
  lemma RegisterThenLogin(users: map<string, User>, username: string, password: string, salt: string,
                          now: int, bcrypt: Bcrypt, sign: Claims -> string)
    requires bcrypt.Sound()
    requires username !in users
    ensures var after := RegisterOn(users, username, password, salt, bcrypt);
      after.0 == Registered &&
      LoginOn(after.1, username, password, now, bcrypt, sign) == LoggedIn(sign(IssueClaims(username, now)))
  {
  }

  /** `await bcrypt.hash(...)` yields to the event loop between the presence
      check and the write, so two registrations of the same free name can
      both pass the check before either writes. Both then answer success and
      the second write replaces the first user's record. */
  lemma OverlappingRegistersOverwrite(users: map<string, User>, username: string, p1: string, p2: string,
                                      salt1: string, salt2: string, bcrypt: Bcrypt)
    requires username !in users
    requires bcrypt.hash(p1, SaltRounds, salt1) != bcrypt.hash(p2, SaltRounds, salt2)
    ensures var record1 := User(username, bcrypt.hash(p1, SaltRounds, salt1));
      var record2 := User(username, bcrypt.hash(p2, SaltRounds, salt2));
      var afterFirst := users[username := record1];
      var afterSecond := afterFirst[username := record2];
      RegisterOn(users, username, p1, salt1, bcrypt).0 == Registered &&
      RegisterOn(users, username, p2, salt2, bcrypt).0 == Registered &&
      afterSecond == users[username := record2] &&
      afterSecond[username] != afterFirst[username]
  {
  }

  class UserStore {
    var users: map<string, User>

    ghost predicate Valid()
      reads this
    {
      KeyedByName(users)
    }

    constructor ()
      ensures Valid() && users == map[]
    {
      users := map[];
    }

    /** POST /register: inserts only when the name is absent. */
    method Register(username: string, password: string, salt: string, bcrypt: Bcrypt) returns (outcome: RegisterOutcome)
      requires Valid()
      modifies this
      ensures Valid()
      ensures (outcome, users) == RegisterOn(old(users), username, password, salt, bcrypt)
    {
      if username in users {
        return DuplicateUsername;
      }
      var hashed := bcrypt.hash(password, SaltRounds, salt);
      users := users[username := User(username, hashed)];
      outcome := Registered;
    }

    /** POST /login: a lookup, a compare and a sign; the store is only read. */
    method Login(username: string, password: string, now: int, bcrypt: Bcrypt, sign: Claims -> string) returns (outcome: LoginOutcome)
      ensures outcome == LoginOn(users, username, password, now, bcrypt, sign)
    {
      if username !in users {
        return AuthenticationFailed;
      }
      var user := users[username];
      if bcrypt.compare(password, user.passwordHash) {
        var token := sign(IssueClaims(username, now));
        outcome := LoggedIn(token);
      } else {
        outcome := AuthenticationFailed;
      }
    }
  }
}
