// What a session is, told from the requests and answers alone: a fold over the
// history of a failure-free run predicts exactly which tokens are accepted, until
// when, and with which permissions.
module SessionHistory {
  import opened Base
  import opened Cache
  import opened Sessions
  import opened SessionAgreement
  import opened SessionRuns
  import AdminTables
  import Answers

  /** Who a token stands for and when it was last used. */
  datatype Grant = Grant(user: AuthUser, lastUse: int)

  predicate EndsSession(a: Action, r: Reply) {
    r == Ok && (a.Logout? || a.ChangePassword?)
  }

  /** A login grants its token and revokes the account's earlier one; an accepted
      call renews its token or, logging out or changing the password, ends it; a
      deletion revokes the deleted account's. */
  function GrantAfter(w: World, t: Turn, g: Option<Grant>, token: string): Option<Grant> {
    var r := ReplyAt(w, t);
    match t.request
    case Tick(_) => g
    case Login(_, _, drawn) =>
      if !r.LoggedIn? then g
      else if drawn == token then Some(Grant(r.user, w.now))
      else if g.Some? && g.value.user.userId == r.user.userId then None
      else g
    case Call(caller, a) =>
      if r == Unauthorized || g.None? then g
      else if caller == token then (if EndsSession(a, r) then None else Some(g.value.(lastUse := w.now)))
      else if a == DeleteAdmin(g.value.user.userId) && r == Ok then None
      else g
  }

  ghost function GrantOf(worlds: seq<World>, turns: seq<Turn>, n: nat, token: string): Option<Grant>
    requires IsRun(worlds, turns) && n <= |turns|
  {
    if n == 0 then None else GrantAfter(worlds[n - 1], turns[n - 1], GrantOf(worlds, turns, n - 1, token), token)
  }

  ghost predicate FailureFree(turns: seq<Turn>) {
    forall k :: 0 <= k < |turns| ==> turns[k].faults == NO_FAULTS
  }

  predicate Unexpired(w: World, g: Option<Grant>) {
    g.Some? && w.now < g.value.lastUse + w.tokenDuration
  }

  /** The cache holds the session the history says. */
  ghost predicate Faithful(w: World, token: string, g: Option<Grant>) {
    && (Live(w.cache, w.now, Session(token)) <==> Unexpired(w, g))
    && (Unexpired(w, g) ==>
         w.cache[Session(token)] == Item(Payload(g.value.user), Some(g.value.lastUse + w.tokenDuration)))
  }

  lemma LoginFaithful(w: World, t: Turn, token: string, g: Option<Grant>)
    requires Agreement(w) && w.tokenDuration > 0 && t.request.Login? && t.faults == NO_FAULTS
    requires Unused(w.cache, t.request.token) && IndexOwned(w.cache) && Faithful(w, token, g)
    ensures Faithful(Serve(w, t.request, t.faults).0, token, GrantAfter(w, t, g, token))
  {
    var r := t.request;
    if ReplyAt(w, t).LoggedIn? {
      var u := Account(w.db, r.username, r.password).value;
      if Unexpired(w, g) && g.value.user.userId == u {
        assert SessionOf(w, token, u) && Indexed(w, token, u);
      }
    }
  }

  function Renewed(w: World, caller: string, token: string, g: Option<Grant>): Option<Grant> {
    if caller == token && g.Some? then Some(g.value.(lastUse := w.now)) else g
  }

  /** The middleware renews the caller's grant and nobody else's. */
  lemma SlideFaithful(w: World, caller: string, token: string, g: Option<Grant>)
    requires Agreement(w) && w.tokenDuration > 0 && Live(w.cache, w.now, Session(caller)) && Faithful(w, token, g)
    ensures var slid := Slide(w, caller, w.cache[Session(caller)].value.user, NO_FAULTS);
      Faithful(slid, token, Renewed(w, caller, token, g))
  {
  }

  /** What the handler behind the middleware does to a token's grant. */
  function Revoked(caller: string, a: Action, r: Reply, g: Option<Grant>, token: string): Option<Grant> {
    if g.None? then g
    else if caller == token && EndsSession(a, r) then None
    else if caller != token && a == DeleteAdmin(g.value.user.userId) && r == Ok then None
    else g
  }

  lemma DeleteFaithful(w: World, user: AuthUser, caller: string, id: nat, token: string, g: Option<Grant>)
    requires Agreement(w) && w.tokenDuration > 0 && SessionOf(w, caller, user.userId) && Faithful(w, token, g)
    requires IndexOwned(w.cache)
    requires Unexpired(w, g) ==> SessionOf(w, token, g.value.user.userId) && Indexed(w, token, g.value.user.userId)
    ensures Faithful(Delete(w, user, id, NO_FAULTS).0, token,
      Revoked(caller, DeleteAdmin(id), Delete(w, user, id, NO_FAULTS).1, g, token))
  {
  }

  lemma PerformFaithful(w: World, user: AuthUser, caller: string, a: Action, token: string, g: Option<Grant>)
    requires Agreement(w) && IndexOwned(w.cache) && w.tokenDuration > 0 && SessionOf(w, caller, user.userId) &&
      Faithful(w, token, g)
    ensures Faithful(Perform(w, user, caller, a, NO_FAULTS).0, token,
      Revoked(caller, a, Perform(w, user, caller, a, NO_FAULTS).1, g, token))
  {
    assert Indexed(w, caller, user.userId);
    if Unexpired(w, g) {
      assert SessionOf(w, token, g.value.user.userId) && Indexed(w, token, g.value.user.userId);
    }
    if a.DeleteAdmin? {
      DeleteFaithful(w, user, caller, a.id, token, g);
    }
  }

  /** Middleware and handler together. */
  lemma AcceptedFaithful(w: World, user: AuthUser, caller: string, a: Action, token: string, g: Option<Grant>)
    requires Agreement(w) && IndexOwned(w.cache) && w.tokenDuration > 0 && Faithful(w, token, g)
    requires SessionOf(w, caller, user.userId) && w.cache[Session(caller)].value == Payload(user)
    ensures var slid, renewed := Slide(w, caller, user, NO_FAULTS), Renewed(w, caller, token, g);
      && Faithful(slid, token, renewed)
      && Faithful(Perform(slid, user, caller, a, NO_FAULTS).0, token,
        Revoked(caller, a, Perform(slid, user, caller, a, NO_FAULTS).1, renewed, token))
  {
    SlideFaithful(w, caller, token, g);
    SlideAgrees(w, caller, user.userId, NO_FAULTS);
    SlideShrinks(w, caller, user, NO_FAULTS);
    OwnedShrinks(w.cache, Slide(w, caller, user, NO_FAULTS).cache, w.now);
    PerformFaithful(Slide(w, caller, user, NO_FAULTS), user, caller, a, token, Renewed(w, caller, token, g));
  }

  lemma CallFaithful(w: World, t: Turn, token: string, g: Option<Grant>)
    requires Agreement(w) && IndexOwned(w.cache) && w.tokenDuration > 0 && t.request.Call? && t.faults == NO_FAULTS &&
      token != ""
    requires Faithful(w, token, g)
    ensures Faithful(Serve(w, t.request, t.faults).0, token, GrantAfter(w, t, g, token))
  {
    var caller, a := t.request.token, t.request.action;
    if ReplyAt(w, t) != Unauthorized {
      var user := w.cache[Session(caller)].value.user;
      assert SessionOf(w, caller, user.userId);
      AcceptedFaithful(w, user, caller, a, token, g);
    }
  }

  lemma {:induction false} DurationKept(worlds: seq<World>, turns: seq<Turn>, n: nat)
    requires IsRun(worlds, turns) && n <= |turns|
    ensures worlds[n].tokenDuration == worlds[0].tokenDuration
  {
    if n == 0 {
    } else {
      DurationKept(worlds, turns, n - 1);
      DurationFixed(worlds[n - 1], turns[n - 1]);
    }
  }

  lemma SoundRunAgrees(worlds: seq<World>, turns: seq<Turn>, n: nat)
    requires IsRun(worlds, turns) && Starts(worlds[0]) && FailureFree(turns) && n <= |turns|
    ensures Agreement(worlds[n]) && Sound(worlds[n]) && worlds[n].tokenDuration == worlds[0].tokenDuration
  {
    forall k | 0 <= k < n ensures Harmless(worlds[k], turns[k]) {
      NoFaultsHarmless(worlds[k], turns[k].request);
    }
    AgreementHolds(worlds, turns, n);
    AlwaysSound(worlds, turns, n);
    DurationKept(worlds, turns, n);
  }

  lemma TurnFaithful(w: World, t: Turn, token: string, g: Option<Grant>)
    requires Agreement(w) && IndexOwned(w.cache) && w.tokenDuration > 0 && t.faults == NO_FAULTS && token != ""
    requires t.request.Login? ==> Unused(w.cache, t.request.token)
    requires Faithful(w, token, g)
    ensures Faithful(Serve(w, t.request, t.faults).0, token, GrantAfter(w, t, g, token))
  {
    match t.request
    case Login(_, _, _) => LoginFaithful(w, t, token, g);
    case Call(_, _) => CallFaithful(w, t, token, g);
    case Tick(_) =>
  }

  lemma StaysFaithful(worlds: seq<World>, turns: seq<Turn>, k: nat, token: string)
    requires IsRun(worlds, turns) && Starts(worlds[0]) && FailureFree(turns) && k < |turns| && token != ""
    requires Faithful(worlds[k], token, GrantOf(worlds, turns, k, token))
    ensures Faithful(worlds[k + 1], token, GrantOf(worlds, turns, k + 1, token))
  {
    SoundRunAgrees(worlds, turns, k);
    if turns[k].request.Login? {
      FreshIsUnused(worlds, turns, k, turns[k].request.token);
    }
    TurnFaithful(worlds[k], turns[k], token, GrantOf(worlds, turns, k, token));
  }

  lemma {:induction false} RunFaithful(worlds: seq<World>, turns: seq<Turn>, n: nat, token: string)
    requires IsRun(worlds, turns) && Starts(worlds[0]) && FailureFree(turns) && n <= |turns| && token != ""
    ensures Faithful(worlds[n], token, GrantOf(worlds, turns, n, token))
  {
    if n == 0 {
    } else {
      RunFaithful(worlds, turns, n - 1, token);
      StaysFaithful(worlds, turns, n - 1, token);
    }
  }

  /** Invariants of a failure-free run. */
  lemma HistoryHolds(worlds: seq<World>, turns: seq<Turn>, n: nat, token: string)
    requires IsRun(worlds, turns) && Starts(worlds[0]) && FailureFree(turns) && n <= |turns| && token != ""
    ensures Agreement(worlds[n]) && Sound(worlds[n]) && worlds[n].tokenDuration == worlds[0].tokenDuration
    ensures Faithful(worlds[n], token, GrantOf(worlds, turns, n, token))
  {
    SoundRunAgrees(worlds, turns, n);
    RunFaithful(worlds, turns, n, token);
  }

  /** Sliding expiry: a token is accepted exactly when the history grants it and less
      than the token duration has passed since its last use; and then a request is
      forbidden exactly when the permissions recorded at its login do not allow it. */
  lemma AcceptedIff(worlds: seq<World>, turns: seq<Turn>, n: nat, token: string, a: Action)
    requires IsRun(worlds, turns) && Starts(worlds[0]) && FailureFree(turns) && n < |turns| && token != ""
    requires turns[n].request == Call(token, a)
    ensures var g, reply := GrantOf(worlds, turns, n, token), ReplyAt(worlds[n], turns[n]);
      && (reply != Unauthorized <==> g.Some? && worlds[n].now < g.value.lastUse + worlds[0].tokenDuration)
      && (reply != Unauthorized ==> (reply == Forbidden <==> !Answers.MayUse(g.value.user.permissions, a)))
  {
    HistoryHolds(worlds, turns, n, token);
    Answers.CallAnswers(worlds[n], token, a, NO_FAULTS);
  }

  ghost predicate GrantedAt(w: World, t: Turn, token: string, user: AuthUser) {
    && t.request.Login? && t.request.token == token && ReplyAt(w, t) == LoggedIn(token, user)
    && AdminTables.Live(w.db, user.userId) && user == Snapshot(w.db, user.userId)
    && w.db.users[user.userId].username == t.request.username == user.username
    && w.db.users[user.userId].hashedPassword.password == t.request.password
  }

  /** Where a grant comes from: one login drew the token, and what it may do is the
      role join of the tables as they stood at that login. */
  lemma {:induction false} GrantOrigin(worlds: seq<World>, turns: seq<Turn>, n: nat, token: string)
    requires IsRun(worlds, turns) && n <= |turns| && GrantOf(worlds, turns, n, token).Some?
    ensures exists k :: 0 <= k < n && GrantedAt(worlds[k], turns[k], token, GrantOf(worlds, turns, n, token).value.user)
  {
    if !GrantedAt(worlds[n - 1], turns[n - 1], token, GrantOf(worlds, turns, n, token).value.user) {
      GrantOrigin(worlds, turns, n - 1, token);
    }
  }

  /** The snapshot, spelled out: a code is in it exactly when some role the account
      held at login carried a permission with that code. */
  lemma SnapshotIsTheJoin(db: AdminTables.Tables, id: nat, code: string)
    requires AdminTables.Live(db, id)
    ensures code in Snapshot(db, id).permissions <==>
      exists i, r :: && 0 <= i < |db.permissions| && db.permissions[i].code == code
                     && r in db.roles && (id, r) in db.grants && (r, db.permissions[i].id) in db.rolePermissions
  {
    AdminTables.CodesAreTheJoin(db, id, db.permissions, code);
  }

  /** Some role the account holds carries the code or the wildcard. */
  ghost predicate Carries(db: AdminTables.Tables, id: nat, code: string) {
    exists i, r :: && 0 <= i < |db.permissions| && (db.permissions[i].code == code || db.permissions[i].code == "*")
                   && r in db.roles && (id, r) in db.grants && (r, db.permissions[i].id) in db.rolePermissions
  }

  lemma HoldsIffCarried(db: AdminTables.Tables, id: nat, code: string)
    requires AdminTables.Live(db, id)
    ensures Answers.Holds(Snapshot(db, id).permissions, code) <==> Carries(db, id, code)
  {
    SnapshotIsTheJoin(db, id, code);
    SnapshotIsTheJoin(db, id, "*");
  }

  /** The roles held by `id` in these tables carry what the route asks for. */
  ghost predicate RolesAllow(db: AdminTables.Tables, id: nat, a: Action) {
    match a
    case Use(code) => Carries(db, id, code)
    case DeleteAdmin(_) => Carries(db, id, "admin_user:write")
    case RestoreAdmin(_) => Carries(db, id, "admin_user:write")
    case SetRoles(_, _) => Carries(db, id, "admin_user:write")
    case CreateAdmin(_, _, _) => Carries(db, id, "admin_user:write")
    case _ => true
  }

  lemma MayUseIff(db: AdminTables.Tables, id: nat, a: Action)
    requires AdminTables.Live(db, id)
    ensures Answers.MayUse(Snapshot(db, id).permissions, a) <==> RolesAllow(db, id, a)
  {
    HoldsIffCarried(db, id, if a.Use? then a.code else "admin_user:write");
  }

  /** Whether an accepted request is forbidden was settled at the login, turn k, that drew
      its token: by the roles its account held then, whatever has become of them since. */
  lemma ForbiddenIff(worlds: seq<World>, turns: seq<Turn>, n: nat, token: string, a: Action) returns (k: nat, u: nat)
    requires IsRun(worlds, turns) && Starts(worlds[0]) && FailureFree(turns) && n < |turns| && token != ""
    requires turns[n].request == Call(token, a) && ReplyAt(worlds[n], turns[n]) != Unauthorized
    ensures k < n && turns[k].request.Login? && turns[k].request.token == token
    ensures AdminTables.Live(worlds[k].db, u) && worlds[k].db.users[u].username == turns[k].request.username
    ensures ReplyAt(worlds[n], turns[n]) == Forbidden <==> !RolesAllow(worlds[k].db, u, a)
  {
    AcceptedIff(worlds, turns, n, token, a);
    var user := GrantOf(worlds, turns, n, token).value.user;
    GrantOrigin(worlds, turns, n, token);
    k :| 0 <= k < n && GrantedAt(worlds[k], turns[k], token, user);
    u := user.userId;
    MayUseIff(worlds[k].db, u, a);
  }
}
