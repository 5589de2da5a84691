# Tasks and users services: ownership-scoped task store and credential store

A Dafny model of the two stateful pieces of a small Express back end:

- the **tasks service**: a module-level array of task records, changed in
  place by `POST /tasks` (push), `GET /tasks` (filter), `PUT /tasks/:id`
  (findIndex and index assignment) and `DELETE /tasks/:id` (findIndex and
  splice), every route running behind the bearer-token guard
  `authenticateToken`, and every lookup restricted to records whose
  `username` is the caller's;
- the **users service**: a dictionary from username to
  `{ username, password: hash }`, written by `/register` only when the name
  is absent, and read by `/login`, which compares the password and signs
  `{ username }` with a one-hour expiry.

Files: `wrappers.dfy` (Option), `jwt.dfy` (token claims and the facts
assumed of the JWT library), `auth_gate.dfy` (the guard), `tasks.dfy`
(records, specification functions, the `TaskStore` class, lemmas),
`users.dfy` (the `UserStore` class and its lemmas), `scenarios.dfy` (the
two services together).

Foreign code enters as parameters. bcrypt is a value `Bcrypt(hash, compare)`
with `hash(password, rounds, salt)`; its one assumed property,
`Bcrypt.Sound()`, says a password matches a hash made from it. JWT signing
and verification are function values `sign: Claims -> string` and
`verify: (token, now) -> Option<Claims>`. The lemmas that need facts about
them take those facts as hypotheses. `HonoursExpiry` says a verifier accepts
its own tokens while `now < exp`, following section 4.1.4 of RFC 7519.
`CompactTokens` says a token holds no space. The clock (`now`, in seconds)
and bcrypt's random salt are parameters as well.

Where the intended design and the code differ, the model follows the code:

- a new task's id is `tasks.length + 1`, not a counter, so after a delete
  a new task can get an id that is still in use (`DeleteThenCreateReusesId`);
- neither create nor update checks titles or descriptions;
- register does not reject empty fields;
- an empty `Authorization` header reaches the verifier with the empty token
  (`"" && …` yields `""`), so it is refused with 403 rather than 401.

## Model

| member | source | states |
|---|---|---|
| `AuthGate.Split` | tasks-service/tasks-service.js:13 | `split(' ')` yields at least one field, exactly one iff the header has no space, and no field contains a space |
| `AuthGate.JoinSplit` | tasks-service/tasks-service.js:13 | joining the fields of a split with single spaces gives back the original string |
| `AuthGate.SplitJoin` | tasks-service/tasks-service.js:13 | splitting a space-joined list of space-free fields gives back those fields |
| `AuthGate.SplitAfterField` | tasks-service/tasks-service.js:13 | a leading space-free field followed by a space is split off unchanged |
| `AuthGate.SplitField` | tasks-service/tasks-service.js:13 | a space-free string splits into exactly itself |
| `AuthGate.BearerToken` | tasks-service/tasks-service.js:12-14 | there is no token iff the header is absent, or non-empty without a space; a token has no space in it |
| `AuthGate.BearerTokenIsSecondField` | tasks-service/tasks-service.js:13 | for any header of two or more space-separated fields the token is the second field |
| `AuthGate.Authenticate` | tasks-service/tasks-service.js:11-21 | 401 iff the header is absent or is non-empty with no second field; otherwise 403 when the verifier rejects the token, and the verified claims when it accepts it |
| `AuthGate.GateOnBearer` | tasks-service/tasks-service.js:13-19 | for `<scheme> <token>` the result is decided by `verify(token, now)` alone: failure is 403, success yields its claims |
| `AuthGate.SchemeIgnored` | tasks-service/tasks-service.js:13 | the first field is never checked: two schemes give the same result for the same remainder of the header |
| `AuthGate.EmptyTokenIsVerified` | tasks-service/tasks-service.js:13-16 | the empty header and `"Bearer "` both present the empty token to the verifier instead of being refused as missing |
| `Jwt.IssueClaims` | users-service/users-service.js:31 | the signed claims carry the username, the login time as `iat`, and `exp` exactly one hour later |
| `Tasks.Created` | tasks-service/tasks-service.js:25-32 | a create appends one record at the end with id old length + 1, not completed, owned by the caller, with the given title and description; earlier entries are unchanged |
| `Tasks.Owned` | tasks-service/tasks-service.js:37 | a record is listed iff it is in the store and owned by the caller |
| `Tasks.FirstIndex` | tasks-service/tasks-service.js:42 | the index is -1 iff no record has that id and the caller as owner; otherwise it holds a match and no earlier index does |
| `Tasks.Matches` | tasks-service/tasks-service.js:42 | the `findIndex` condition: a NaN id matches nothing, and a match has the parsed id and is owned by the caller |
| `Tasks.Patched` | tasks-service/tasks-service.js:45 | id and owner never come from the patch; each field present in the patch replaces the old value and each absent field keeps it |
| `Tasks.Removed` | tasks-service/tasks-service.js:53 | `splice(i, 1)` drops one entry; entries before `i` stay in place and later ones move down by one |
| `Tasks.Serve` | tasks-service/tasks-service.js:23-55 | the handlers' status codes: 201 iff create, 200 iff list or an update that found a match, 204 iff a delete that found one, 404 iff an update or delete found none; a 404 carries the error body and changes nothing, a list changes nothing, and the store grows by one on 201 and shrinks by one on 204 |
| `Tasks.Gated` | tasks-service/tasks-service.js:11-55 | 401 iff there is no token, 403 iff the verifier refuses it, both with the store unchanged; an accepted token runs the handler for its username |
| `Tasks.OwnedAppend` | tasks-service/tasks-service.js:37 | filtering distributes over concatenation, so the list keeps store order |
| `Tasks.OwnedAfterReplace` | tasks-service/tasks-service.js:45 | replacing another user's record with another record not owned by the caller leaves the caller's list unchanged |
| `Tasks.OwnedAfterRemove` | tasks-service/tasks-service.js:53 | removing another user's record leaves the caller's list unchanged |
| `Tasks.CreateThenList` | tasks-service/tasks-service.js:25-38 | after a create, the caller's list is the old list followed by exactly the new record, with the assigned id and `completed = false` |
| `Tasks.ServeIsolation` | tasks-service/tasks-service.js:23-55 | no create, list, update or delete by one user changes another user's list |
| `Tasks.ServeRevealsOnlyOwn` | tasks-service/tasks-service.js:33-46 | no response body contains a record owned by anyone other than the caller |
| `Tasks.NotFoundChangesNothing` | tasks-service/tasks-service.js:42-51 | update or delete with no record of the caller's under that id answers 404 and leaves the store unchanged, also when another user owns that id |
| `Tasks.UpdateTouchesOneEntry` | tasks-service/tasks-service.js:42-46 | a successful update keeps the length and every entry except the first match, whose id and owner stay the same |
| `Tasks.EmptyPatchIsIdentity` | tasks-service/tasks-service.js:45 | an update with an empty body leaves the store unchanged |
| `Tasks.DeleteRemovesFirstMatch` | tasks-service/tasks-service.js:50-53 | a successful delete removes exactly the first match: one entry fewer, the rest still in order, the same multiset apart from the removed record |
| `Tasks.GatedIsolation` | tasks-service/tasks-service.js:11-55 | a user's list changes only through a request whose token the verifier accepts for that user |
| `Tasks.ServeKeepsSequentialIds` | tasks-service/tasks-service.js:26 | create, list and update keep every id equal to its position plus one |
| `Tasks.NoDeleteNumbersInOrder` | tasks-service/tasks-service.js:26-45 | in any history with no delete, the records are numbered 1, 2, … in store order, so ids are unique |
| `Tasks.DeleteThenCreateReusesId` | tasks-service/tasks-service.js:26-53 | two creates, a delete of id 1 and another create leave two records with id 2 |
| `Tasks.TaskStore.constructor` | tasks-service/tasks-service.js:9 | the store starts empty |
| `Tasks.TaskStore.Create` | tasks-service/tasks-service.js:23-34 | pushes and returns the record with id old length + 1, the given fields, `completed = false` and the caller as owner; nothing else changes |
| `Tasks.TaskStore.List` | tasks-service/tasks-service.js:36-39 | the filter loop returns exactly the caller's records in store order and leaves the store alone |
| `Tasks.TaskStore.FindIndex` | tasks-service/tasks-service.js:42 | the scan returns the first index matching id and caller, or -1 |
| `Tasks.TaskStore.Update` | tasks-service/tasks-service.js:41-47 | with no match the answer is None and the store is unchanged; otherwise only the first match is replaced by the patched record, which is returned |
| `Tasks.TaskStore.Delete` | tasks-service/tasks-service.js:49-55 | with no match the answer is false and the store is unchanged; otherwise the first match is spliced out |
| `Tasks.TaskStore.Handle` | tasks-service/tasks-service.js:11-55 | a request runs through the guard and then its handler; the new store and the response are those of the guarded specification |
| `Users.RegisterOn` | users-service/users-service.js:15-19 | a taken name fails with the duplicate error and the dictionary is unchanged; a free name adds exactly that key, mapped to the name and the hash of the password at cost 10, and keeps every other entry; records stay keyed by their own username |
| `Users.KeyedByName` | users-service/users-service.js:19 | with every record stored under its own username, no two names share a record |
| `Users.LoginOn` | users-service/users-service.js:29-35 | login succeeds iff the name is registered and the password compares true with its hash; a success returns the signed `{ username }` claims with a one-hour expiry |
| `Users.SecondRegisterFails` | users-service/users-service.js:15-19 | a second registration of a name fails, whatever password, and leaves the dictionary as the first left it |
| `Users.RegisterKeepsOtherLogins` | users-service/users-service.js:15-31 | a registration never changes what login answers for any already registered user or for any other name |
| `Users.RegisterThenLogin` | users-service/users-service.js:18-31 | after a successful registration, login with the same password succeeds with the token for that user |
| `Users.OverlappingRegistersOverwrite` | users-service/users-service.js:15-19 | two registrations of the same free name that both check before either writes both succeed, and the second write replaces the first record |
| `Users.UserStore.constructor` | users-service/users-service.js:10 | the dictionary starts empty |
| `Users.UserStore.Register` | users-service/users-service.js:12-20 | the register handler's outcome and new dictionary are those of `RegisterOn`; records stay keyed by their username |
| `Users.UserStore.Login` | users-service/users-service.js:26-35 | the login handler only reads the dictionary and answers as `LoginOn` |
| `Scenarios.LoginTokenOpensGate` | tasks-service/tasks-service.js:11-21 | a token from a successful login, sent as `Bearer <token>`, yields the user's claims until one hour after login and 403 from then on |
| `Scenarios.ExpiredTokenIsForbidden` | tasks-service/tasks-service.js:16-17 | an expired token answers 403 on every task route and changes nothing |
| `Scenarios.AliceAndBob` | tasks-service/tasks-service.js:23-47 | after alice's create, which gets id 1, bob's list is empty and bob's update of task 1 answers 404 |

## Left out

- The notifications service: it only passes a message on to an SMTP transport.
- Express routing, body parsing, configuration loading, `app.listen`, the ports and logging.
- bcrypt and JWT internals: they are parameters, and their properties are hypotheses (`Bcrypt.Sound`, `Jwt.HonoursExpiry`, `Jwt.CompactTokens`).
- The signing secret: it is folded into the `sign` and `verify` values.
- The `catch` blocks that answer 500. They cover runtime failures of the foreign libraries.
- `Users.UserStore.Register`: each call is one atomic step. The source awaits `bcrypt.hash` between the presence check and the write, so two overlapping registrations of the same free name both answer 201 and the later write replaces the earlier user's hash. "Never overwrites" (`Users.RegisterOn`) and `Users.SecondRegisterFails` hold only for registrations that do not overlap. `Users.OverlappingRegistersOverwrite` shows the overlapping case on the map.
- `async`/`await` in `/login`: login only reads the map, so an interleaving is the same as running it before or after the other request.
- `Jwt`: the library's distinct failures (malformed, bad signature, expired) are merged into one `None`, because the guard answers 403 for every one of them.
- `parseInt` details: the route id is given already parsed, as `Option<int>`, and None (NaN) matches nothing.
- JSON values other than strings for titles and descriptions, and other than booleans for `completed`.
- Extra keys in an update body: a patch carries only title, description and completed. Extra keys would be copied into the record, except `id` and `username`, which the code always overrides and the model keeps too.
- Prototype-inherited keys of the `users` object, and a missing `username` in a request body (the key `"undefined"`).
- The `authorization` header given as a list of values.
