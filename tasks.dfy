/** The task store of the tasks service (tasks-service/tasks-service.js):
    a module-level array of task records changed in place by the four
    `/tasks` handlers, each of which runs behind `authenticateToken` and
    looks only at the caller's own records. */
module Tasks {
  import opened Wrappers
  import opened Jwt
  import opened AuthGate

  /** A stored task. `title` and `description` are copied from the request
      body as they are, so either may be absent (`undefined`). The owner is
      the `username` field of the record. */
  datatype Task = Task(id: int, title: Option<string>, description: Option<string>, completed: bool, owner: string)

  /** The body of a PUT: the fields it carries, each present or absent. */
  datatype Patch = Patch(title: Option<string>, description: Option<string>, completed: Option<bool>)

  const EmptyPatch := Patch(None, None, None)

  /** One request to the four guarded routes. The route parameter `:id` is
      given as the result of `parseInt`: None stands for NaN, which equals
      no id. */
  datatype Request =
    | CreateTask(title: Option<string>, description: Option<string>)
    | ListTasks
    | UpdateTask(id: Option<int>, patch: Patch)
    | DeleteTask(id: Option<int>)

  datatype Body = NoBody | StatusText | One(task: Task) | Many(tasks: seq<Task>) | Error(message: string)

  datatype Response = Response(status: int, body: Body)

  const NotFoundMessage := "Task not found"

  /** The `findIndex` condition of PUT and DELETE. A NaN id matches no
      record, and a matching record is always the caller's. */
  predicate Matches(t: Task, id: Option<int>, user: string)
    ensures id.None? ==> !Matches(t, id, user)
    ensures Matches(t, id, user) ==> t.owner == user && Some(t.id) == id
  {
    id.Some? && t.id == id.value && t.owner == user
  }

  /** The store after POST: the new record goes at the end, with id one
      more than the old length. */
  function Created(s: seq<Task>, user: string, title: Option<string>, description: Option<string>): (r: seq<Task>)
    ensures |r| == |s| + 1 && r[..|s|] == s
    ensures r[|s|] == Task(|s| + 1, title, description, false, user)
  {
    s + [Task(|s| + 1, title, description, false, user)]
  }

  /** `tasks.filter(task => task.username === user)`: a record is listed
      exactly when it is in the store and owned by the caller. */
  function Owned(s: seq<Task>, user: string): (r: seq<Task>)
    ensures forall t {:trigger t in r} :: t in r <==> t in s && t.owner == user
  {
    if s == [] then []
    else
      assert s == s[..|s| - 1] + [s[|s| - 1]];
      Owned(s[..|s| - 1], user) + (if s[|s| - 1].owner == user then [s[|s| - 1]] else [])
  }

  /** `tasks.findIndex(...)`: the first index whose record has the id and
      the owner asked for, or -1 when there is none. */
  function FirstIndex(s: seq<Task>, id: Option<int>, user: string): (r: int)
    ensures -1 <= r < |s|
    ensures r == -1 <==> forall j | 0 <= j < |s| :: !Matches(s[j], id, user)
    ensures 0 <= r ==> Matches(s[r], id, user) && forall j | 0 <= j < r :: !Matches(s[j], id, user)
  {
    if s == [] then -1
    else if Matches(s[0], id, user) then 0
    else
      var k := FirstIndex(s[1..], id, user);
      assert forall j | 1 <= j < |s| :: s[j] == s[1..][j - 1];
      if k == -1 then -1 else k + 1
  }

  /** `{ ...old, ...body, id: old.id, username: user }`: fields present in
      the patch replace the old ones, `id` and the owner never come from
      the patch. */
  function Patched(t: Task, p: Patch, user: string): (r: Task)
    ensures r.id == t.id && r.owner == user
    ensures r.title == (if p.title.Some? then p.title else t.title)
    ensures r.description == (if p.description.Some? then p.description else t.description)
    ensures r.completed == (if p.completed.Some? then p.completed.value else t.completed)
  {
    Task(t.id,
         if p.title.Some? then p.title else t.title,
         if p.description.Some? then p.description else t.description,
         if p.completed.Some? then p.completed.value else t.completed,
         user)
  }

  /** `tasks.splice(i, 1)`: the entries before `i` stay where they are, the
      entries after it move down by one. */
  function Removed(s: seq<Task>, i: int): (r: seq<Task>)
    requires 0 <= i < |s|
    ensures |r| == |s| - 1
    ensures forall j | 0 <= j < i :: r[j] == s[j]
    ensures forall j | i <= j < |r| :: r[j] == s[j + 1]
  {
    s[..i] + s[i + 1..]
  }

  /** What a handler does once the guard has accepted `user`: the new store
      and the response. POST answers 201, GET and a successful PUT 200, a
      successful DELETE 204, and a PUT or DELETE with no record of the
      caller's under that id 404 with the store unchanged. */
  function Serve(s: seq<Task>, user: string, req: Request): (r: (seq<Task>, Response))
    ensures r.1.status == 201 <==> req.CreateTask?
    ensures r.1.status == 200 <==> req.ListTasks? || (req.UpdateTask? && FirstIndex(s, req.id, user) != -1)
    ensures r.1.status == 204 <==> req.DeleteTask? && FirstIndex(s, req.id, user) != -1
    ensures r.1.status == 404 <==> (req.UpdateTask? || req.DeleteTask?) && FirstIndex(s, req.id, user) == -1
    ensures r.1.status == 404 ==> r.0 == s && r.1.body == Error(NotFoundMessage)
    ensures req.ListTasks? ==> r.0 == s && r.1.body.Many?
    ensures |r.0| == if r.1.status == 201 then |s| + 1 else if r.1.status == 204 then |s| - 1 else |s|
  {
    match req
    case CreateTask(title, description) =>
      var r := Created(s, user, title, description);
      (r, Response(201, One(r[|s|])))
    case ListTasks =>
      (s, Response(200, Many(Owned(s, user))))
    case UpdateTask(id, patch) =>
      var i := FirstIndex(s, id, user);
      if i == -1 then (s, Response(404, Error(NotFoundMessage)))
      else
        var t := Patched(s[i], patch, user);
        (s[i := t], Response(200, One(t)))
    case DeleteTask(id) =>
      var i := FirstIndex(s, id, user);
      if i == -1 then (s, Response(404, Error(NotFoundMessage)))
      else (Removed(s, i), Response(204, NoBody))
  }

  /** A whole request: the guard, then the handler with the verified
      username. A request the guard rejects changes nothing and answers 401
      when there is no token, 403 when the verifier refuses it. */
  function Gated(s: seq<Task>, header: Option<string>, verify: (string, int) -> Option<Claims>, now: int, req: Request): (r: (seq<Task>, Response))
    ensures r.1.status == 401 <==> BearerToken(header).None?
    ensures r.1.status == 403 <==> BearerToken(header).Some? && verify(BearerToken(header).value, now).None?
    ensures r.1.status == 401 || r.1.status == 403 ==> r.0 == s
    ensures Authenticate(header, verify, now).Authenticated? ==> r == Serve(s, Authenticate(header, verify, now).user.username, req)
  {
    match Authenticate(header, verify, now)
    case Unauthorized => (s, Response(401, StatusText))
    case Forbidden => (s, Response(403, StatusText))
    case Authenticated(claims) => Serve(s, claims.username, req)
  }

  /** Every record has the id of its position plus one. */
  ghost predicate SequentialIds(s: seq<Task>)
  {
    forall i | 0 <= i < |s| :: s[i].id == i + 1
  }

  ghost predicate UniqueIds(s: seq<Task>)
  {
    forall i, j | 0 <= i < j < |s| :: s[i].id != s[j].id
  }

  /** One accepted request in a history: who made it and what it was. */
  datatype Call = Call(user: string, req: Request)

  /** The store after a history of accepted requests, starting empty. */
  function Replay(h: seq<Call>): seq<Task>
  {
    if h == [] then [] else Serve(Replay(h[..|h| - 1]), h[|h| - 1].user, h[|h| - 1].req).0
  }

  // ---- The filter ----

  /** Filtering distributes over concatenation, so the listed records keep
      their store order. */
  lemma {:induction false} OwnedAppend(a: seq<Task>, b: seq<Task>, user: string)
    ensures Owned(a + b, user) == Owned(a, user) + Owned(b, user)
  {
    if b == [] {
      assert a + b == a;
    } else {
      var b' := b[..|b| - 1];
      assert (a + b)[..|a + b| - 1] == a + b';
      assert (a + b)[|a + b| - 1] == b[|b| - 1];
      OwnedAppend(a, b', user);
    }
  }

  /** A record the caller does not own contributes nothing to the list. */
  lemma OwnedOfOther(t: Task, user: string)
    requires t.owner != user
    ensures Owned([t], user) == []
  {
    assert [t][..0] == [];
  }

  /** Replacing a record that is not the caller's with another that is not
      the caller's leaves the caller's list as it was. */
  lemma OwnedAfterReplace(s: seq<Task>, i: int, x: Task, user: string)
    requires 0 <= i < |s| && s[i].owner != user && x.owner != user
    ensures Owned(s[i := x], user) == Owned(s, user)
  {
    var pre, post := s[..i], s[i + 1..];
    assert s == (pre + [s[i]]) + post;
    assert s[i := x] == (pre + [x]) + post;
    OwnedOfOther(s[i], user);
    OwnedOfOther(x, user);
    OwnedAppend(pre + [s[i]], post, user);
    OwnedAppend(pre, [s[i]], user);
    OwnedAppend(pre + [x], post, user);
    OwnedAppend(pre, [x], user);
  }

  /** Removing a record that is not the caller's leaves the caller's list as
      it was. */
  lemma OwnedAfterRemove(s: seq<Task>, i: int, user: string)
    requires 0 <= i < |s| && s[i].owner != user
    ensures Owned(Removed(s, i), user) == Owned(s, user)
  {
    var pre, post := s[..i], s[i + 1..];
    assert s == (pre + [s[i]]) + post;
    assert Removed(s, i) == pre + post;
    OwnedOfOther(s[i], user);
    OwnedAppend(pre + [s[i]], post, user);
    OwnedAppend(pre, [s[i]], user);
    OwnedAppend(pre, post, user);
  }

  // ---- The handlers ----

  /** Round trip: after a POST, the caller's list is the old list followed by
      the new record, which has the next id and is not completed. */
  lemma CreateThenList(s: seq<Task>, user: string, title: Option<string>, description: Option<string>)
    ensures Owned(Serve(s, user, CreateTask(title, description)).0, user)
         == Owned(s, user) + [Task(|s| + 1, title, description, false, user)]
  {
    var t := Task(|s| + 1, title, description, false, user);
    OwnedAppend(s, [t], user);
    assert [t][..0] == [];
  }

  /** Owner isolation: whatever one user asks, another user's list is the
      same afterwards. */
  lemma ServeIsolation(s: seq<Task>, user: string, other: string, req: Request)
    requires user != other
    ensures Owned(Serve(s, user, req).0, other) == Owned(s, other)
  {
    match req
    case CreateTask(title, description) =>
      var t := Task(|s| + 1, title, description, false, user);
      OwnedAppend(s, [t], other);
      assert [t][..0] == [];
    case ListTasks =>
    case UpdateTask(id, patch) =>
      var i := FirstIndex(s, id, user);
      if i != -1 {
        OwnedAfterReplace(s, i, Patched(s[i], patch, user), other);
      }
    case DeleteTask(id) =>
      var i := FirstIndex(s, id, user);
      if i != -1 {
        OwnedAfterRemove(s, i, other);
      }
  }

  /** No response carries a record owned by anyone but the caller. */
  lemma ServeRevealsOnlyOwn(s: seq<Task>, user: string, req: Request)
    ensures var resp := Serve(s, user, req).1;
      (resp.body.One? ==> resp.body.task.owner == user) &&
      (resp.body.Many? ==> forall t | t in resp.body.tasks :: t.owner == user)
  {
  }

  /** PUT and DELETE with no record of the caller's under that id answer 404
      and change nothing, also when another user owns a record with that id. */
  lemma NotFoundChangesNothing(s: seq<Task>, user: string, req: Request)
    requires req.UpdateTask? || req.DeleteTask?
    requires forall t | t in s :: !Matches(t, req.id, user)
    ensures Serve(s, user, req) == (s, Response(404, Error(NotFoundMessage)))
  {
    assert FirstIndex(s, req.id, user) == -1 by {
      forall j | 0 <= j < |s| ensures !Matches(s[j], req.id, user) {
        assert s[j] in s;
      }
    }
  }

  /** A successful PUT changes one entry, the first match, and keeps its id
      and owner whatever the patch holds. */
  lemma UpdateTouchesOneEntry(s: seq<Task>, user: string, id: Option<int>, patch: Patch)
    requires FirstIndex(s, id, user) != -1
    ensures var i := FirstIndex(s, id, user);
      var s' := Serve(s, user, UpdateTask(id, patch)).0;
      |s'| == |s| &&
      (forall j | 0 <= j < |s| && j != i :: s'[j] == s[j]) &&
      s'[i].id == s[i].id && s'[i].owner == s[i].owner &&
      s'[i].id == id.value && s'[i].owner == user
  {
  }

  /** A PUT with an empty body leaves the store as it was. */
  lemma EmptyPatchIsIdentity(s: seq<Task>, user: string, id: Option<int>)
    ensures Serve(s, user, UpdateTask(id, EmptyPatch)).0 == s
  {
    var i := FirstIndex(s, id, user);
    if i != -1 {
      assert Patched(s[i], EmptyPatch, user) == s[i];
    }
  }

  /** A successful DELETE removes the first match only: one entry fewer, the
      rest in their old order. */
  lemma DeleteRemovesFirstMatch(s: seq<Task>, user: string, id: Option<int>)
    requires FirstIndex(s, id, user) != -1
    ensures var i := FirstIndex(s, id, user);
      var s' := Serve(s, user, DeleteTask(id)).0;
      s' == s[..i] + s[i + 1..] && |s'| == |s| - 1 &&
      multiset(s') + multiset{s[i]} == multiset(s)
  {
    var i := FirstIndex(s, id, user);
    assert Serve(s, user, DeleteTask(id)).0 == Removed(s, i);
    RemovedMultiset(s, i);
  }

  lemma RemovedMultiset(s: seq<Task>, i: int)
    requires 0 <= i < |s|
    ensures Removed(s, i) == s[..i] + s[i + 1..]
    ensures multiset(Removed(s, i)) + multiset{s[i]} == multiset(s)
  {
    var pre, post := s[..i], s[i + 1..];
    assert s == pre + [s[i]] + post;
  }

  // ---- Whole requests ----

  /** A user's list can change only through a request that presents a token
      the verifier accepts for that user. */
  lemma GatedIsolation(s: seq<Task>, header: Option<string>, verify: (string, int) -> Option<Claims>, now: int, req: Request, other: string)
    requires var g := Authenticate(header, verify, now); !(g.Authenticated? && g.user.username == other)
    ensures Owned(Gated(s, header, verify, now, req).0, other) == Owned(s, other)
  {
    var g := Authenticate(header, verify, now);
    if g.Authenticated? {
      ServeIsolation(s, g.user.username, other, req);
    }
  }

  // ---- Ids ----

  /** POST, GET and PUT keep ids equal to position plus one. */
  lemma ServeKeepsSequentialIds(s: seq<Task>, user: string, req: Request)
    requires SequentialIds(s) && !req.DeleteTask?
    ensures SequentialIds(Serve(s, user, req).0)
  {
  }

  /** While no DELETE has been accepted, the records are numbered 1, 2, ...
      in store order, so no two share an id. */
  lemma {:induction false} NoDeleteNumbersInOrder(h: seq<Call>)
    requires forall k | 0 <= k < |h| :: !h[k].req.DeleteTask?
    ensures SequentialIds(Replay(h))
    ensures UniqueIds(Replay(h))
  {
    if h != [] {
      NoDeleteNumbersInOrder(h[..|h| - 1]);
      ServeKeepsSequentialIds(Replay(h[..|h| - 1]), h[|h| - 1].user, h[|h| - 1].req);
    }
  }

  /** The id is the length plus one, not a counter: after a DELETE the next
      POST can get an id that is still in use. */
  lemma DeleteThenCreateReusesId(user: string)
    ensures var s1 := Serve([], user, CreateTask(None, None)).0;
      var s2 := Serve(s1, user, CreateTask(None, None)).0;
      var s3 := Serve(s2, user, DeleteTask(Some(1))).0;
      var s4 := Serve(s3, user, CreateTask(None, None)).0;
      s4 == [Task(2, None, None, false, user), Task(2, None, None, false, user)] &&
      !UniqueIds(s4)
  {
    var t1 := Task(1, None, None, false, user);
    var t2 := Task(2, None, None, false, user);
    assert Serve([], user, CreateTask(None, None)).0 == [t1];
    assert Serve([t1], user, CreateTask(None, None)).0 == [t1, t2];
    assert Matches([t1, t2][0], Some(1), user);
    assert FirstIndex([t1, t2], Some(1), user) == 0;
    assert Serve([t1, t2], user, DeleteTask(Some(1))).0 == [t2];
    assert Serve([t2], user, CreateTask(None, None)).0 == [t2, t2];
  }

  class TaskStore {
    var tasks: seq<Task>

    constructor ()
      ensures tasks == []
    {
      tasks := [];
    }

    /** POST /tasks. */
    method Create(user: string, title: Option<string>, description: Option<string>) returns (t: Task)
      modifies this
      ensures tasks == old(tasks) + [t]
      ensures t == Task(|old(tasks)| + 1, title, description, false, user)
    {
      t := Task(|tasks| + 1, title, description, false, user);
      tasks := tasks + [t];
    }

    /** GET /tasks: the `filter` loop. */
    method List(user: string) returns (r: seq<Task>)
      ensures r == Owned(tasks, user)
    {
      r := [];
      var k := 0;
      while k < |tasks|
        invariant 0 <= k <= |tasks|
        invariant r == Owned(tasks[..k], user)
      {
        assert tasks[..k + 1][..k] == tasks[..k];
        if tasks[k].owner == user {
          r := r + [tasks[k]];
        }
        k := k + 1;
      }
      assert tasks[..k] == tasks;
    }

    /** The `findIndex` scan shared by PUT and DELETE. */
    method FindIndex(id: Option<int>, user: string) returns (i: int)
      ensures i == FirstIndex(tasks, id, user)
    {
      var k := 0;
      while k < |tasks|
        invariant 0 <= k <= |tasks|
        invariant forall j | 0 <= j < k :: !Matches(tasks[j], id, user)
      {
        if id.Some? && tasks[k].id == id.value && tasks[k].owner == user {
          return k;
        }
        k := k + 1;
      }
      return -1;
    }

    /** PUT /tasks/:id: the updated record, or None for the 404. */
    method Update(id: Option<int>, user: string, patch: Patch) returns (r: Option<Task>)
      modifies this
      ensures var i := FirstIndex(old(tasks), id, user);
        if i == -1 then r == None && tasks == old(tasks)
        else tasks == old(tasks)[i := Patched(old(tasks)[i], patch, user)] && r == Some(tasks[i])
    {
      var i := FindIndex(id, user);
      if i == -1 {
        return None;
      }
      tasks := tasks[i := Patched(tasks[i], patch, user)];
      r := Some(tasks[i]);
    }

    /** DELETE /tasks/:id: whether a record was removed (false is the 404). */
    method Delete(id: Option<int>, user: string) returns (found: bool)
      modifies this
      ensures var i := FirstIndex(old(tasks), id, user);
        found == (i != -1) && tasks == if i == -1 then old(tasks) else Removed(old(tasks), i)
    {
      var i := FindIndex(id, user);
      if i == -1 {
        return false;
      }
      tasks := tasks[..i] + tasks[i + 1..];
      found := true;
    }

    /** A request through the guard to its handler. */
    method Handle(header: Option<string>, verify: (string, int) -> Option<Claims>, now: int, req: Request) returns (resp: Response)
      modifies this
      ensures (tasks, resp) == Gated(old(tasks), header, verify, now, req)
    {
      var gate := Authenticate(header, verify, now);
      match gate
      case Unauthorized =>
        resp := Response(401, StatusText);
      case Forbidden =>
        resp := Response(403, StatusText);
      case Authenticated(claims) =>
        var user := claims.username;
        match req
        case CreateTask(title, description) =>
          var t := Create(user, title, description);
          resp := Response(201, One(t));
        case ListTasks =>
          var r := List(user);
          resp := Response(200, Many(r));
        case UpdateTask(id, patch) =>
          var r := Update(id, user, patch);
          resp := if r.None? then Response(404, Error(NotFoundMessage)) else Response(200, One(r.value));
        case DeleteTask(id) =>
          var found := Delete(id, user);
          resp := if found then Response(204, NoBody) else Response(404, Error(NotFoundMessage));
    }
  }
}
