// Who can still administer accounts.  The design notes promise that somebody always
// holds admin_user:write.  Here: the requests that lose it and no others, over runs
// with stale snapshots, role replacements and any faults; and what makes them possible.
module Writers {
  import opened Base
  import opened Cache
  import opened Sessions
  import opened SessionAgreement
  import opened SessionRuns
  import AdminTables
  import AdminRuns

  const WRITE := "admin_user:write"

  /** A live account whose roles, as they stand, carry the permission. */
  predicate Writer(db: AdminTables.Tables, u: nat) {
    AdminTables.Live(db, u) && AdminTables.Allows(AdminTables.PermissionCodes(db, u), WRITE)
  }

  ghost predicate HasWriter(db: AdminTables.Tables) {
    exists u :: Writer(db, u)
  }

  ghost predicate AnotherWriter(db: AdminTables.Tables, id: nat) {
    exists u :: u != id && Writer(db, u)
  }

  /** An account's codes depend on its own role rows only. */
  lemma {:induction false} SameCodes(a: AdminTables.Tables, b: AdminTables.Tables, u: nat,
      ps: seq<AdminTables.Permission>)
    requires a.roles == b.roles && a.rolePermissions == b.rolePermissions
    requires forall r :: (u, r) in a.grants <==> (u, r) in b.grants
    ensures AdminTables.CodesAmong(a, u, ps) == AdminTables.CodesAmong(b, u, ps)
  {
    if ps == [] {
    } else {
      SameCodes(a, b, u, ps[..|ps| - 1]);
    }
  }

  /** Replacing one account's roles, or adding an account, leaves everybody else's codes. */
  lemma OthersKeepCodes(a: AdminTables.Tables, b: AdminTables.Tables, id: nat, ids: seq<int>, u: nat)
    requires u != id && b == AdminTables.WithRoles(a, id, ids)
    ensures AdminTables.PermissionCodes(a, u) == AdminTables.PermissionCodes(b, u)
  {
    SameCodes(a, b, u, a.permissions);
  }

  lemma SameGrantsSameCodes(a: AdminTables.Tables, b: AdminTables.Tables, u: nat)
    requires a.roles == b.roles && a.rolePermissions == b.rolePermissions && a.permissions == b.permissions
    requires forall r :: (u, r) in a.grants <==> (u, r) in b.grants
    ensures AdminTables.PermissionCodes(a, u) == AdminTables.PermissionCodes(b, u)
  {
    SameCodes(a, b, u, a.permissions);
  }

  predicate WriteEntry(p: AdminTables.Permission) {
    p.code == WRITE || p.code == AdminTables.WILDCARD
  }

  /** The role exists and carries the permission or the wildcard. */
  ghost predicate CarriesWrite(db: AdminTables.Tables, r: int) {
    r in db.roles && exists i ::
      0 <= i < |db.permissions| && WriteEntry(db.permissions[i]) && (r, db.permissions[i].id) in db.rolePermissions
  }

  /** A holder is a live account with such a role. */
  lemma WriterIff(db: AdminTables.Tables, u: nat)
    ensures Writer(db, u) <==> AdminTables.Live(db, u) && exists r :: (u, r) in db.grants && CarriesWrite(db, r)
  {
    AdminTables.CodesAreTheJoin(db, u, db.permissions, WRITE);
    AdminTables.CodesAreTheJoin(db, u, db.permissions, AdminTables.WILDCARD);
    if r :| (u, r) in db.grants && CarriesWrite(db, r) {
      var i :| 0 <= i < |db.permissions| && WriteEntry(db.permissions[i]) &&
        (r, db.permissions[i].id) in db.rolePermissions;
      assert AdminTables.Granted(db, u, db.permissions[i].id);
    }
    if i :| 0 <= i < |db.permissions| && WriteEntry(db.permissions[i])
            && AdminTables.Granted(db, u, db.permissions[i].id) {
      var r :| r in db.roles && (u, r) in db.grants && (r, db.permissions[i].id) in db.rolePermissions;
      assert CarriesWrite(db, r);
    }
  }

  lemma ReplacedWriterIff(db: AdminTables.Tables, id: nat, ids: seq<int>)
    requires AdminTables.Live(db, id)
    ensures Writer(AdminTables.WithRoles(db, id, ids), id) <==> exists r :: r in ids && CarriesWrite(db, r)
  {
    var db' := AdminTables.WithRoles(db, id, ids);
    WriterIff(db', id);
    assert forall r :: (id, r) in db'.grants <==> r in ids;
    assert forall r :: CarriesWrite(db', r) <==> CarriesWrite(db, r);
  }

  /** Role replacement keeps a holder exactly when one of the new roles carries the
      permission or somebody else holds it. */
  lemma ReplacementKeepsWriterIff(db: AdminTables.Tables, id: nat, ids: seq<int>)
    requires AdminTables.Live(db, id) && AdminTables.ReplaceRoles(db, id, ids).1 == AdminTables.Nil
    ensures HasWriter(AdminTables.ReplaceRoles(db, id, ids).0) <==>
      (exists r :: r in ids && CarriesWrite(db, r)) || AnotherWriter(db, id)
  {
    var db' := AdminTables.ReplaceRoles(db, id, ids).0;
    ReplacedWriterIff(db, id, ids);
    forall u | u != id ensures Writer(db', u) == Writer(db, u) {
      OthersKeepCodes(db, db', id, ids, u);
    }
    if HasWriter(db') && !Writer(db', id) {
      var u :| Writer(db', u);
      assert u != id && Writer(db, u);
    }
    if AnotherWriter(db, id) {
      var u :| u != id && Writer(db, u);
      assert Writer(db', u);
    }
  }

  /** Deletion keeps a holder exactly when somebody else has the permission. */
  lemma DeletionKeepsWriterIff(db: AdminTables.Tables, id: nat, now: int)
    requires AdminTables.Live(db, id)
    ensures HasWriter(AdminTables.SoftDelete(db, id, now).0) <==> AnotherWriter(db, id)
  {
    var db' := AdminTables.SoftDelete(db, id, now).0;
    forall u | u != id ensures Writer(db', u) == Writer(db, u) {
      SameGrantsSameCodes(db, db', u);
    }
    if HasWriter(db') {
      var u :| Writer(db', u);
      assert u != id && Writer(db, u);
    }
    if AnotherWriter(db, id) {
      var u :| u != id && Writer(db, u);
      assert Writer(db', u);
    }
  }

  // ---- Exactly the requests that lose it ----

  /** A replacement that is let through and commits. */
  predicate Replaces(w: World, t: Turn, id: nat, ids: seq<int>) {
    && t.request.Call? && t.request.action == SetRoles(id, ids) && Admitted(w, t.request.token, t.faults)
    && Permitted(Sender(w, t.request.token, t.faults), SetRoles(id, ids))
    && Replies(t.faults, ReadUser) && Reaches(t.faults, Statement) && AdminTables.Live(w.db, id)
    && AdminTables.Distinct(ids) && forall i :: 0 <= i < |ids| ==> ids[i] in w.db.roles
  }

  ghost predicate NoneCarriesWrite(db: AdminTables.Tables, ids: seq<int>) {
    forall r :: r in ids ==> !CarriesWrite(db, r)
  }

  /** The request deletes the only holder, or gives it roles none of which carries the
      permission. */
  ghost predicate LosesWriter(w: World, t: Turn) {
    || (exists id :: Deletes(w, t, id) && !AnotherWriter(w.db, id))
    || (exists id, ids :: Replaces(w, t, id, ids) && !AnotherWriter(w.db, id) && NoneCarriesWrite(w.db, ids))
  }

  ghost predicate NoReplacement(t: Turn) {
    !(t.request.Call? && t.request.action.SetRoles?)
  }

  lemma CreationKeepsCodes(db: AdminTables.Tables, username: string, hash: AdminTables.Hashed, roleIds: seq<int>,
      u: nat)
    requires AdminTables.Consistent(db) && u in db.users
    ensures AdminTables.PermissionCodes(AdminTables.CreateAdmin(db, username, hash, roleIds).0, u) ==
      AdminTables.PermissionCodes(db, u)
  {
    var db' := AdminTables.CreateAdmin(db, username, hash, roleIds).0;
    AdminTables.CreateAdminEffect(db, username, hash, roleIds);
    assert forall r :: (u, r) in db.grants <==> (u, r) in db'.grants;
    SameGrantsSameCodes(db, db', u);
  }

  lemma PerformKeepsCodes(w: World, user: AuthUser, token: string, a: Action, f: Faults, u: nat)
    requires AdminTables.Consistent(w.db) && !a.SetRoles? && u in w.db.users
    ensures AdminTables.PermissionCodes(Perform(w, user, token, a, f).0.db, u) == AdminTables.PermissionCodes(w.db, u)
  {
    PerformAdministers(w, user, token, a, f);
    if a.CreateAdmin? {
      CreationKeepsCodes(w.db, a.username, AdminTables.Hashed(a.password), a.roleIds, u);
    } else {
      SameGrantsSameCodes(w.db, Perform(w, user, token, a, f).0.db, u);
    }
  }

  /** Requests other than SetRoles change no existing account's codes. */
  lemma ServeKeepsCodes(w: World, t: Turn, u: nat)
    requires AdminTables.Consistent(w.db) && NoReplacement(t) && u in w.db.users
    ensures AdminTables.PermissionCodes(Serve(w, t.request, t.faults).0.db, u) == AdminTables.PermissionCodes(w.db, u)
  {
    match t.request
    case Login(username, password, token) => LoginSparesDb(w, username, password, token, t.faults);
    case Call(token, a) =>
      if Admitted(w, token, t.faults) {
        var sender := Sender(w, token, t.faults);
        SlideSparesDb(w, token, sender, t.faults);
        PerformKeepsCodes(Slide(w, token, sender, t.faults), sender, token, a, t.faults, u);
      }
    case Tick(_) =>
  }

  lemma DeletingLosesIff(w: World, t: Turn, id: nat)
    requires AdminTables.Consistent(w.db) && HasWriter(w.db) && Deletes(w, t, id)
    ensures HasWriter(Serve(w, t.request, t.faults).0.db) <==> AnotherWriter(w.db, id)
  {
    var db' := Serve(w, t.request, t.faults).0.db;
    if AnotherWriter(w.db, id) {
      var u :| u != id && Writer(w.db, u);
      ServeRemovesIff(w, t, u);
      ServeKeepsCodes(w, t, u);
      assert Writer(db', u);
    }
    if HasWriter(db') {
      var u :| Writer(db', u);
      DeletionRevivesNobody(w, t, id, u);
      ServeRemovesIff(w, t, u);
      ServeKeepsCodes(w, t, u);
      assert u != id && Writer(w.db, u);
    }
  }

  lemma ReplacingLosesIff(w: World, t: Turn, id: nat, ids: seq<int>)
    requires Replaces(w, t, id, ids)
    ensures HasWriter(Serve(w, t.request, t.faults).0.db) <==>
      (exists r :: r in ids && CarriesWrite(w.db, r)) || AnotherWriter(w.db, id)
  {
    var sender := Sender(w, t.request.token, t.faults);
    SlideSparesDb(w, t.request.token, sender, t.faults);
    AdminTables.InsertableIff(w.db, id, ids);
    ReplacementKeepsWriterIff(w.db, id, ids);
  }

  lemma FailedReplacement(w: World, t: Turn)
    requires !NoReplacement(t) && !Replaces(w, t, t.request.action.id, t.request.action.roleIds)
    ensures Serve(w, t.request, t.faults).0.db == w.db
  {
    var token, a := t.request.token, t.request.action;
    if Admitted(w, token, t.faults) {
      SlideSparesDb(w, token, Sender(w, token, t.faults), t.faults);
      AdminTables.InsertableIff(w.db, a.id, a.roleIds);
    }
  }

  lemma OthersKeepWriter(w: World, t: Turn)
    requires AdminTables.Consistent(w.db) && HasWriter(w.db)
    requires forall id :: !Deletes(w, t, id)
    requires forall id, ids :: !Replaces(w, t, id, ids)
    ensures HasWriter(Serve(w, t.request, t.faults).0.db)
  {
    var u :| Writer(w.db, u);
    ServeRemovesIff(w, t, u);
    if NoReplacement(t) {
      ServeKeepsCodes(w, t, u);
    } else {
      FailedReplacement(w, t);
    }
    assert Writer(Serve(w, t.request, t.faults).0.db, u);
  }

  /** Somebody holds the permission after a request exactly when it is not one of those. */
  lemma HasWriterIff(w: World, t: Turn)
    requires AdminTables.Consistent(w.db) && HasWriter(w.db)
    ensures HasWriter(Serve(w, t.request, t.faults).0.db) <==> !LosesWriter(w, t)
  {
    if id :| Deletes(w, t, id) {
      DeletingLosesIff(w, t, id);
    } else if id, ids :| Replaces(w, t, id, ids) {
      ReplacingLosesIff(w, t, id, ids);
    } else {
      OthersKeepWriter(w, t);
    }
  }

  /** Over a run, whatever fails and however old the sessions' snapshots are: somebody
      always holds the permission if and only if no request lost it. */
  lemma {:induction false} AlwaysAWriterIff(worlds: seq<World>, turns: seq<Turn>, n: nat)
    requires IsRun(worlds, turns) && Starts(worlds[0]) && HasWriter(worlds[0].db) && n <= |turns|
    ensures (forall k :: 0 <= k <= n ==> HasWriter(worlds[k].db)) <==>
      (forall k :: 0 <= k < n ==> !LosesWriter(worlds[k], turns[k]))
  {
    if n == 0 {
    } else {
      AlwaysAWriterIff(worlds, turns, n - 1);
      AlwaysSound(worlds, turns, n - 1);
      if forall k :: 0 <= k < n ==> HasWriter(worlds[k].db) {
        HasWriterIff(worlds[n - 1], turns[n - 1]);
        assert HasWriter(worlds[n].db) <==> !LosesWriter(worlds[n - 1], turns[n - 1]);
      }
    }
  }

  // ---- How it comes to that ----

  /** The sole holder may clear its own roles: one permitted, failure-free request
      after which nobody can administer accounts. */
  lemma RolesMayBeCleared(w: World, token: string, u: nat)
    requires Agreement(w) && AdminTables.Consistent(w.db) && w.tokenDuration > 0 && token != ""
    requires SessionOf(w, token, u) && Permitted(w.cache[Session(token)].value.user, SetRoles(u, []))
    requires !AnotherWriter(w.db, u)
    ensures Serve(w, Call(token, SetRoles(u, [])), NO_FAULTS).1 == Ok
    ensures !HasWriter(Serve(w, Call(token, SetRoles(u, [])), NO_FAULTS).0.db)
  {
    assert Indexed(w, token, u);
    ReplacingLosesIff(w, Turn(Call(token, SetRoles(u, [])), NO_FAULTS), u, []);
  }

  lemma OkDeletion(w: World, token: string, id: nat, f: Faults)
    requires Admitted(w, token, f) && Permitted(Sender(w, token, f), DeleteAdmin(id)) &&
      Sender(w, token, f).userId != id
    requires AdminTables.Live(w.db, id) && Replies(f, Statement)
    ensures Serve(w, Call(token, DeleteAdmin(id)), f).1 == Ok
  {
    SlideSparesDb(w, token, Sender(w, token, f), f);
  }

  /** Two deletions by senders whose sessions are alive leave nobody when these two are
      all the accounts, although the second sender's account is deleted by then. */
  lemma BothDeleted(w: World, t1: string, u1: nat, t2: string, u2: nat, f: Faults)
    requires Sound(w) && t1 != "" && t2 != "" && u1 != u2
    requires SessionOf(w, t1, u1) && Permitted(w.cache[Session(t1)].value.user, DeleteAdmin(u2))
    requires SessionOf(w, t2, u2) && Permitted(w.cache[Session(t2)].value.user, DeleteAdmin(u1))
    requires AdminTables.Live(w.db, u1) && AdminTables.Live(w.db, u2)
    requires forall u :: AdminTables.Live(w.db, u) ==> u == u1 || u == u2
    requires Replies(f, GetSession) && Replies(f, Statement)
    requires SessionOf(Serve(w, Call(t1, DeleteAdmin(u2)), f).0, t2, u2)
    ensures var first := Serve(w, Call(t1, DeleteAdmin(u2)), f);
      var second := Serve(first.0, Call(t2, DeleteAdmin(u1)), NO_FAULTS);
      first.1 == Ok && second.1 == Ok && !Staffed(second.0.db)
  {
    var turn1, turn2 := Turn(Call(t1, DeleteAdmin(u2)), f), Turn(Call(t2, DeleteAdmin(u1)), NO_FAULTS);
    var w1 := Serve(w, turn1.request, f).0;
    CallShrinks(w, t1, DeleteAdmin(u2), f);
    ServeRemovesIff(w, turn1, u1);
    ServeRemovesIff(w, turn1, u2);
    forall u | AdminTables.Live(w1.db, u) ensures u == u1 {
      DeletionRevivesNobody(w, turn1, u2, u);
    }
    assert Deletes(w1, turn2, u1);
    StaffedIff(w1, turn2);
    OkDeletion(w, t1, u2, f);
    OkDeletion(w1, t2, u1, NO_FAULTS);
  }

  /** It happens when a kick fails... */
  lemma MissedKickLeavesNobody(w: World, t1: string, u1: nat, t2: string, u2: nat)
    requires Agreement(w) && Sound(w) && t1 != "" && t2 != "" && u1 != u2
    requires SessionOf(w, t1, u1) && Permitted(w.cache[Session(t1)].value.user, DeleteAdmin(u2))
    requires SessionOf(w, t2, u2) && Permitted(w.cache[Session(t2)].value.user, DeleteAdmin(u1))
    requires forall u :: AdminTables.Live(w.db, u) ==> u == u1 || u == u2
    ensures var first := Serve(w, Call(t1, DeleteAdmin(u2)), map[KickDel := Lost]);
      var second := Serve(first.0, Call(t2, DeleteAdmin(u1)), NO_FAULTS);
      first.1 == Ok && second.1 == Ok && !Staffed(second.0.db)
  {
    assert Indexed(w, t1, u1) && Indexed(w, t2, u2);
    BothDeleted(w, t1, u1, t2, u2, map[KickDel := Lost]);
  }

  /** ...and when none fails but the index does not name the session: such a session is
      out of every kick's reach. */
  lemma UnnamedSessionLeavesNobody(w: World, t1: string, u1: nat, t2: string, u2: nat)
    requires Sound(w) && t1 != "" && t2 != "" && u1 != u2
    requires SessionOf(w, t1, u1) && Permitted(w.cache[Session(t1)].value.user, DeleteAdmin(u2))
    requires SessionOf(w, t2, u2) && Permitted(w.cache[Session(t2)].value.user, DeleteAdmin(u1))
    requires !Names(w, t2, u2)
    requires AdminTables.Live(w.db, u1) && AdminTables.Live(w.db, u2)
    requires forall u :: AdminTables.Live(w.db, u) ==> u == u1 || u == u2
    ensures var first := Serve(w, Call(t1, DeleteAdmin(u2)), NO_FAULTS);
      var second := Serve(first.0, Call(t2, DeleteAdmin(u1)), NO_FAULTS);
      first.1 == Ok && second.1 == Ok && !Staffed(second.0.db)
  {
    BothDeleted(w, t1, u1, t2, u2, NO_FAULTS);
  }

  /** How an index comes to name another session: a login that could not read it. */
  lemma LostLookupDoubles(w: World, username: string, password: string, t1: string, t2: string, u: nat)
    requires Sound(w) && SessionOf(w, t1, u) && t1 != t2
    requires Account(w.db, username, password) == Some(u)
    requires FailCount(w, username).Some? && FailCount(w, username).value < 5
    ensures var (w', reply) := Serve(w, Login(username, password, t2), map[GetIndex := Lost]);
      && reply == LoggedIn(t2, Snapshot(w.db, u))
      && SessionOf(w', t1, u) && SessionOf(w', t2, u) && w'.cache[Session(t1)] == w.cache[Session(t1)]
      && Names(w', t2, u) && !Names(w', t1, u)
  {
  }

  /** How an index lapses: one renewal lost, and the old deadline passes. */
  lemma LostRenewalLapses(w: World, token: string, u: nat, d: int)
    requires Agreement(w) && Sound(w) && token != "" && SessionOf(w, token, u)
    requires w.cache[Session(token)].deadline == Some(d) && d < w.now + w.tokenDuration
    ensures var w1 := Serve(w, Call(token, Me), map[ExpireIndex := Lost]).0;
      var w2 := Serve(w1, Tick(d - w.now), NO_FAULTS).0;
      && SessionOf(w2, token, u) && !Live(w2.cache, w2.now, AdminSession(u))
      && w2.cache[Session(token)].value == w.cache[Session(token)].value
  {
    assert Indexed(w, token, u);
  }

  // ---- Runs that keep the promise ----

  /** Live sessions carry the codes their account has now, and somebody can write. */
  ghost predicate SnapshotsCurrent(w: World) {
    forall t, u :: SessionOf(w, t, u) ==>
      w.cache[Session(t)].value.user.permissions == AdminTables.PermissionCodes(w.db, u)
  }

  lemma OpensOne(w: World, user: AuthUser, token: string, f: Faults, k: Key)
    requires k.Session? && k in OpenSession(w, user, token, f).0.cache
    ensures var c' := OpenSession(w, user, token, f).0.cache;
      (k in w.cache && c'[k] == w.cache[k]) || c'[k].value == Payload(user)
  {
    var e := EvictOld(w, user.userId, f);
    assert k in e.cache ==> k in w.cache && e.cache[k] == w.cache[k];
  }

  lemma LoginOpensOne(w: World, username: string, password: string, token: string, f: Faults, k: Key)
    requires k.Session? && k in LoginStep(w, username, password, token, f).0.cache
    ensures var w' := LoginStep(w, username, password, token, f).0;
      || (k in w.cache && w'.cache[k] == w.cache[k])
      || (Account(w.db, username, password).Some?
          && w'.cache[k].value == Payload(Snapshot(w.db, Account(w.db, username, password).value)))
  {
    var account := Account(w.db, username, password);
    if account.None? {
      assert k in RecordFail(w, username, f).cache ==>
        k in w.cache && RecordFail(w, username, f).cache[k] == w.cache[k];
    } else {
      var cleared := Cleared(w, username, f);
      if k in OpenSession(cleared, Snapshot(w.db, account.value), token, f).0.cache {
        OpensOne(cleared, Snapshot(w.db, account.value), token, f, k);
      }
    }
  }

  /** Sessions after a request: an old one with its payload, or the one a login opened. */
  lemma SessionsAfter(w: World, t: Turn, token: string, u: nat)
    requires SessionOf(Serve(w, t.request, t.faults).0, token, u)
    ensures var w' := Serve(w, t.request, t.faults).0;
      || (SessionOf(w, token, u) && w'.cache[Session(token)].value == w.cache[Session(token)].value)
      || (t.request.Login? && AdminTables.Live(w.db, u) && w'.cache[Session(token)].value.user == Snapshot(w.db, u))
  {
    match t.request
    case Login(username, password, fresh') => LoginOpensOne(w, username, password, fresh', t.faults, Session(token));
    case Call(caller, a) => CallShrinks(w, caller, a, t.faults);
    case Tick(_) =>
  }

  lemma ServeKeepsSnapshots(w: World, t: Turn)
    requires Agreement(w) && AdminTables.Consistent(w.db) && SnapshotsCurrent(w) && NoReplacement(t)
    ensures SnapshotsCurrent(Serve(w, t.request, t.faults).0)
  {
    var w' := Serve(w, t.request, t.faults).0;
    forall token, u | SessionOf(w', token, u)
      ensures w'.cache[Session(token)].value.user.permissions == AdminTables.PermissionCodes(w'.db, u)
    {
      SessionsAfter(w, t, token, u);
      if SessionOf(w, token, u) {
        assert Indexed(w, token, u);
      }
      ServeKeepsCodes(w, t, u);
    }
  }

  /** Then whoever may delete the holder holds the permission too. */
  lemma CurrentSnapshotsKeepWriter(w: World, t: Turn)
    requires Agreement(w) && SnapshotsCurrent(w) && NoReplacement(t)
    ensures !LosesWriter(w, t)
  {
    if id :| Deletes(w, t, id) && !AnotherWriter(w.db, id) {
      var token := t.request.token;
      var sender := Sender(w, token, t.faults).userId;
      assert SessionOf(w, token, sender) && Indexed(w, token, sender);
      assert sender != id && Writer(w.db, sender);
    }
  }

  /** In particular nobody loses it while requests are harmless and replace no roles,
      and every session's snapshot is then its account's current role join. */
  lemma {:induction false} AlwaysAWriter(worlds: seq<World>, turns: seq<Turn>, n: nat)
    requires IsRun(worlds, turns) && Starts(worlds[0]) && HasWriter(worlds[0].db) && n <= |turns|
    requires forall k :: 0 <= k < n ==> Harmless(worlds[k], turns[k]) && NoReplacement(turns[k])
    ensures SnapshotsCurrent(worlds[n]) && HasWriter(worlds[n].db)
  {
    if n == 0 {
    } else {
      AlwaysAWriter(worlds, turns, n - 1);
      AgreementHolds(worlds, turns, n - 1);
      AlwaysSound(worlds, turns, n - 1);
      ServeKeepsSnapshots(worlds[n - 1], turns[n - 1]);
      CurrentSnapshotsKeepWriter(worlds[n - 1], turns[n - 1]);
      HasWriterIff(worlds[n - 1], turns[n - 1]);
    }
  }

  // ---- The seed ----

  /** The migrated database: account admin, roles super_admin and viewer, and the
      permission codes, with "*" granted to super_admin. */
  function Seed(): AdminTables.Tables {
    AdminTables.Tables(
      map[1 := AdminTables.AdminUser("admin", AdminTables.Hashed("admin123"), None)], 2, {1, 2}, {(1, 1)},
      {(1, 1), (2, 2), (2, 5), (2, 6)},
      [AdminTables.Permission(1, "*"), AdminTables.Permission(3, "admin_user:read"), AdminTables.Permission(4, WRITE),
       AdminTables.Permission(6, "operation_log:read"), AdminTables.Permission(2, "user:read"),
       AdminTables.Permission(7, "user:write"),
       AdminTables.Permission(5, "wallet:read"), AdminTables.Permission(8, "wallet:write")])
  }

  /** Runs may start there: the seeded account logs in and holds the permission. */
  lemma SeedStarts(tokenDuration: int, now: int)
    requires tokenDuration > 0
    ensures Starts(World(tokenDuration, now, map[], Seed())) && HasWriter(Seed())
    ensures Account(Seed(), "admin", "admin123") == Some(1)
  {
    var db := Seed();
    assert AdminTables.Live(db, 1);
    AdminRuns.LookupIsTheAccount(db, "admin", 1);
    assert AdminTables.Granted(db, 1, 1) by {
      assert 1 in db.roles && (1, 1) in db.grants && (1, 1) in db.rolePermissions;
    }
    AdminTables.CodesAreTheJoin(db, 1, db.permissions, "*");
    assert db.permissions[0].code == "*";
    assert Writer(db, 1);
  }
  /** The migrated role viewer, given to the seeded account in place of its own, reads
      users, wallets and the operation log and nothing else. */
  lemma SeedViewerReads(code: string)
    ensures code in AdminTables.PermissionCodes(AdminTables.WithRoles(Seed(), 1, [2]), 1) <==>
      code in {"user:read", "wallet:read", "operation_log:read"}
  {
    var db := AdminTables.WithRoles(Seed(), 1, [2]);
    AdminTables.CodesAreTheJoin(db, 1, db.permissions, code);
    assert forall r :: (1, r) in db.grants <==> r == 2;
    forall p ensures AdminTables.Granted(db, 1, p) <==> p in {2, 5, 6} {
      assert p in {2, 5, 6} ==> 2 in db.roles && (1, 2) in db.grants && (2, p) in db.rolePermissions;
    }
    var ps := db.permissions;
    assert ps[3].code == "operation_log:read" && ps[4].code == "user:read" && ps[6].code == "wallet:read";
  }
}
