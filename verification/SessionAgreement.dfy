// What the two session keys and the admin tables promise each other, and which
// faults break the promise: exactly, for every request.
module SessionAgreement {
  import opened Base
  import opened Cache
  import opened Sessions
  import AdminTables
  import AdminRuns

  /** Keys hold the kind of value their writers put there. */
  predicate WellTyped(c: Entries) {
    forall k :: k in c ==>
      match k
      case Session(_) => c[k].value.Payload?
      case AdminSession(_) => c[k].value.Token?
      case LoginFail(_) => c[k].value.Count?
  }

  /** A live session of u under t. */
  predicate SessionOf(w: World, t: string, u: nat) {
    Live(w.cache, w.now, Session(t)) && w.cache[Session(t)].value.Payload? && w.cache[Session(t)].value.user.userId == u
  }

  ghost predicate Online(w: World, u: nat) {
    exists t :: SessionOf(w, t, u)
  }

  /** The account's index is alive and names the session. */
  predicate Names(w: World, t: string, u: nat) {
    Live(w.cache, w.now, AdminSession(u)) && w.cache[AdminSession(u)].value == Token(t)
  }

  /** A live session is the one its account's index names, expires with the index,
      and belongs to an account that is not deleted. */
  predicate Indexed(w: World, t: string, u: nat) {
    && Names(w, t, u)
    && (Session(t) in w.cache ==> w.cache[AdminSession(u)].deadline == w.cache[Session(t)].deadline)
    && AdminTables.Live(w.db, u)
  }

  ghost predicate Agreement(w: World) {
    WellTyped(w.cache) && forall t, u :: SessionOf(w, t, u) ==> Indexed(w, t, u)
  }

  lemma OneSessionPerUser(w: World, t1: string, t2: string, u: nat)
    requires Agreement(w) && SessionOf(w, t1, u) && SessionOf(w, t2, u)
    ensures t1 == t2
  {
    assert Indexed(w, t1, u) && Indexed(w, t2, u);
  }

  /** No key or index mentions the token. */
  ghost predicate Unused(c: Entries, token: string) {
    Session(token) !in c && forall u :: AdminSession(u) in c ==> c[AdminSession(u)].value != Token(token)
  }

  /** An index entry never names another account's session. */
  ghost predicate IndexOwned(c: Entries) {
    forall u, t :: AdminSession(u) in c && c[AdminSession(u)].value == Token(t) && Session(t) in c ==>
      c[Session(t)].value.Payload? ==> c[Session(t)].value.user.userId == u
  }

  // ---- What requests leave alone ----

  /** Nothing new is stored, and nothing expired comes back. */
  ghost predicate ShrinksTo(c: Entries, c': Entries, now: int) {
    forall k :: k in c' ==> k in c && c'[k].value == c[k].value && (Live(c', now, k) ==> Live(c, now, k))
  }

  lemma OwnedShrinks(c: Entries, c': Entries, now: int)
    requires ShrinksTo(c, c', now)
    ensures IndexOwned(c) ==> IndexOwned(c')
    ensures WellTyped(c) ==> WellTyped(c')
  {
  }

  /** A request whose token names a live session. */
  predicate Admitted(w: World, token: string, f: Faults) {
    && token != "" && Replies(f, GetSession)
    && Live(w.cache, w.now, Session(token)) && w.cache[Session(token)].value.Payload?
  }

  function Sender(w: World, token: string, f: Faults): AuthUser
    requires Admitted(w, token, f)
  {
    w.cache[Session(token)].value.user
  }

  lemma SlideShrinks(w: World, token: string, user: AuthUser, f: Faults)
    ensures ShrinksTo(w.cache, Slide(w, token, user, f).cache, w.now)
  {
  }

  lemma PerformShrinks(w: World, user: AuthUser, token: string, a: Action, f: Faults)
    ensures ShrinksTo(w.cache, Perform(w, user, token, a, f).0.cache, w.now)
  {
  }

  /** An authenticated request stores nothing under a new key. */
  lemma CallShrinks(w: World, token: string, a: Action, f: Faults)
    ensures ShrinksTo(w.cache, CallStep(w, token, a, f).0.cache, w.now)
  {
    if Admitted(w, token, f) {
      var user := Sender(w, token, f);
      SlideShrinks(w, token, user, f);
      PerformShrinks(Slide(w, token, user, f), user, token, a, f);
    }
  }

  lemma SlideSparesDb(w: World, token: string, user: AuthUser, f: Faults)
    ensures var w' := Slide(w, token, user, f); w'.db == w.db && w'.now == w.now && w'.tokenDuration == w.tokenDuration
  {
  }

  lemma LoginSparesDb(w: World, username: string, password: string, token: string, f: Faults)
    ensures LoginStep(w, username, password, token, f).0.db == w.db
  {
  }

  lemma OpenKeepsOwned(w: World, user: AuthUser, token: string, f: Faults)
    requires IndexOwned(w.cache) && Unused(w.cache, token)
    ensures IndexOwned(OpenSession(w, user, token, f).0.cache)
  {
    var e := EvictOld(w, user.userId, f);
    assert ShrinksTo(w.cache, e.cache, w.now) && Unused(e.cache, token);
    OwnedShrinks(w.cache, e.cache, w.now);
    var written := WriteSession(e, user, token, f);
    assert IndexOwned(written.cache);
    assert IndexOwned(WriteIndex(written, user.userId, token, f).cache);
  }

  lemma LoginKeepsOwned(w: World, username: string, password: string, token: string, f: Faults)
    requires IndexOwned(w.cache) && Unused(w.cache, token)
    ensures IndexOwned(LoginStep(w, username, password, token, f).0.cache)
  {
    var account := Account(w.db, username, password);
    if account.None? {
      assert IndexOwned(RecordFail(w, username, f).cache);
    } else {
      OwnedShrinks(w.cache, Cleared(w, username, f).cache, w.now);
      OpenKeepsOwned(Cleared(w, username, f), Snapshot(w.db, account.value), token, f);
    }
  }

  lemma OpenKeepsTyped(w: World, user: AuthUser, token: string, f: Faults)
    requires WellTyped(w.cache)
    ensures WellTyped(OpenSession(w, user, token, f).0.cache)
  {
    var e := EvictOld(w, user.userId, f);
    assert ShrinksTo(w.cache, e.cache, w.now);
    OwnedShrinks(w.cache, e.cache, w.now);
    var written := WriteSession(e, user, token, f);
    assert WellTyped(written.cache);
    var indexed := WriteIndex(written, user.userId, token, f);
    assert WellTyped(indexed.cache);
    OwnedShrinks(indexed.cache, Without(indexed, {Session(token)}).cache, w.now);
  }

  lemma LoginKeepsTyped(w: World, username: string, password: string, token: string, f: Faults)
    requires WellTyped(w.cache)
    ensures WellTyped(LoginStep(w, username, password, token, f).0.cache)
  {
    var account := Account(w.db, username, password);
    if account.None? {
      assert WellTyped(RecordFail(w, username, f).cache);
    } else {
      OwnedShrinks(w.cache, Cleared(w, username, f).cache, w.now);
      OpenKeepsTyped(Cleared(w, username, f), Snapshot(w.db, account.value), token, f);
    }
  }

  // ---- Which faults matter: opening a session ----

  /** The account has a session that the login will not remove. */
  ghost predicate KeepsOld(w: World, u: nat, f: Faults) {
    Online(w, u) && (!Replies(f, GetIndex) || !Reaches(f, DelOld))
  }

  /** A login leaves somebody's session unindexed exactly when its new session is
      written and one of these holds: the SET is reported as failed; it is not indexed
      and cannot be taken back; the index is written over an old session still alive. */
  ghost predicate Strands(w: World, u: nat, f: Faults) {
    && Reaches(f, SetSession)
    && (!Replies(f, SetSession) || (if Reaches(f, SetIndex) then KeepsOld(w, u, f) else !Reaches(f, DelNew)))
  }

  lemma EvictionFindsTheSession(w: World, u: nat, f: Faults)
    requires Agreement(w)
    ensures var e := EvictOld(w, u, f);
      && Agreement(e) && e.db == w.db && e.now == w.now && e.tokenDuration == w.tokenDuration
      && (Online(e, u) <==> KeepsOld(w, u, f))
      && forall k :: k in e.cache ==> k in w.cache && e.cache[k] == w.cache[k]
  {
    var e := EvictOld(w, u, f);
    forall t, v | SessionOf(e, t, v)
      ensures Indexed(e, t, v) && SessionOf(w, t, v) && (v == u ==> !Replies(f, GetIndex) || !Reaches(f, DelOld))
    {
      assert SessionOf(w, t, v) && Indexed(w, t, v);
    }
    assert !Replies(f, GetIndex) || !Reaches(f, DelOld) ==> e == w;
  }

  /** Writing the session and then the index over an agreeing world without the token. */
  lemma BothWrittenAgrees(e: World, user: AuthUser, token: string, f: Faults)
    requires Agreement(e) && e.tokenDuration > 0 && AdminTables.Live(e.db, user.userId) && Unused(e.cache, token)
    requires Reaches(f, SetSession) && Reaches(f, SetIndex)
    ensures Agreement(WriteIndex(WriteSession(e, user, token, f), user.userId, token, f)) <==> !Online(e, user.userId)
  {
    var u := user.userId;
    var w' := WriteIndex(WriteSession(e, user, token, f), u, token, f);
    assert SessionOf(w', token, u) && Indexed(w', token, u);
    forall t, v | t != token ensures SessionOf(w', t, v) == SessionOf(e, t, v) { }
    if Online(e, u) {
      var t :| SessionOf(e, t, u);
      assert t != token;
      assert SessionOf(w', t, u) && !Indexed(w', t, u);
    } else {
      forall t, v | SessionOf(w', t, v) ensures Indexed(w', t, v) {
        if t != token {
          assert SessionOf(e, t, v) && v != u && Indexed(e, t, v);
        }
      }
    }
  }

  /** The same with the session taken back. */
  lemma TakenBackAgrees(e: World, user: AuthUser, token: string, f: Faults)
    requires Agreement(e) && e.tokenDuration > 0 && Unused(e.cache, token)
    ensures var w' := Without(WriteIndex(WriteSession(e, user, token, f), user.userId, token, f), {Session(token)});
      Agreement(w') <==> !(Reaches(f, SetIndex) && Online(e, user.userId))
  {
    var u := user.userId;
    var w' := Without(WriteIndex(WriteSession(e, user, token, f), u, token, f), {Session(token)});
    forall t, v ensures SessionOf(w', t, v) == SessionOf(e, t, v) { }
    if Reaches(f, SetIndex) && Online(e, u) {
      var t :| SessionOf(e, t, u);
      assert t != token && !Indexed(w', t, u);
    } else {
      forall t, v | SessionOf(w', t, v) ensures Indexed(w', t, v) {
        assert SessionOf(e, t, v) && Indexed(e, t, v) && (Reaches(f, SetIndex) ==> v != u);
      }
    }
  }

  /** A session without an index entry of its own. */
  lemma UnindexedDisagrees(e: World, user: AuthUser, token: string, f: Faults)
    requires Agreement(e) && e.tokenDuration > 0 && Unused(e.cache, token) && Reaches(f, SetSession)
    ensures !Agreement(WriteSession(e, user, token, f))
  {
    var w' := WriteSession(e, user, token, f);
    assert SessionOf(w', token, user.userId) && !Indexed(w', token, user.userId);
  }

  /** Opening a session keeps the agreement exactly when it strands nothing. */
  lemma OpenSessionAgrees(w: World, user: AuthUser, token: string, f: Faults)
    requires Agreement(w) && w.tokenDuration > 0 && AdminTables.Live(w.db, user.userId) && Unused(w.cache, token)
    ensures Agreement(OpenSession(w, user, token, f).0) <==> !Strands(w, user.userId, f)
  {
    var e := EvictOld(w, user.userId, f);
    EvictionFindsTheSession(w, user.userId, f);
    if Reaches(f, SetSession) {
      if Replies(f, SetSession) && Reaches(f, SetIndex) && (Replies(f, SetIndex) || !Reaches(f, DelNew)) {
        BothWrittenAgrees(e, user, token, f);
      } else if Replies(f, SetSession) && Reaches(f, DelNew) {
        TakenBackAgrees(e, user, token, f);
      } else {
        UnindexedDisagrees(e, user, token, f);
      }
    }
  }

  // ---- Sliding, dropping, deleting ----

  /** Sliding both deadlines, or neither, keeps the agreement; sliding one keeps it
      only if that moved nothing. */
  lemma SlideAgrees(w: World, token: string, u: nat, f: Faults)
    requires Agreement(w) && w.tokenDuration > 0 && SessionOf(w, token, u)
    ensures var w' := Slide(w, token, w.cache[Session(token)].value.user, f);
      && (Agreement(w') <==> (Reaches(f, ExpireSession) == Reaches(f, ExpireIndex)
                              || w.cache[Session(token)].deadline == Some(w.now + w.tokenDuration)))
      && SessionOf(w', token, u)
      && w'.cache[Session(token)].value == w.cache[Session(token)].value
  {
    assert Indexed(w, token, u);
    var w' := Slide(w, token, w.cache[Session(token)].value.user, f);
    assert SessionOf(w', token, u);
    forall t, v ensures SessionOf(w', t, v) == SessionOf(w, t, v) { }
    forall t, v | SessionOf(w, t, v) && t != token ensures Indexed(w', t, v) {
      assert Indexed(w, t, v) && v != u;
    }
    assert WellTyped(w'.cache);
    assert Agreement(w') <==> Indexed(w', token, u);
  }

  /** Logging out, or being logged out by a password change, leaves nothing of u. */
  lemma DropAgrees(w: World, token: string, u: nat)
    requires Agreement(w) && SessionOf(w, token, u)
    ensures Agreement(Drop(w, token, u)) && !Online(Drop(w, token, u), u)
  {
    var w' := Drop(w, token, u);
    assert Indexed(w, token, u);
    forall t, v | SessionOf(w', t, v) ensures Indexed(w', t, v) && v != u {
      assert SessionOf(w, t, v) && Indexed(w, t, v);
    }
  }

  /** The deletion is done and the account's session is not. */
  predicate SkipsKick(f: Faults) {
    Reaches(f, Statement) && !(Replies(f, Statement) && Replies(f, KickGet) && Reaches(f, KickDel))
  }

  /** Deleting an account keeps the agreement exactly when its session, if it has
      one, is kicked. */
  lemma DeleteAgrees(w: World, user: AuthUser, id: nat, f: Faults)
    requires Agreement(w)
    ensures Agreement(Delete(w, user, id, f).0) <==> !(id != user.userId && Online(w, id) && SkipsKick(f))
  {
    var w' := Delete(w, user, id, f).0;
    if id != user.userId && Reaches(f, Statement) {
      forall t, v | SessionOf(w', t, v) ensures SessionOf(w, t, v) && (v != id ==> Indexed(w', t, v)) {
        assert SessionOf(w, t, v) && Indexed(w, t, v);
      }
      if Online(w, id) {
        var t :| SessionOf(w, t, id);
        assert Indexed(w, t, id);
        if SkipsKick(f) {
          assert SessionOf(w', t, id) && !Indexed(w', t, id);
        }
      }
    }
  }

  /** A password change never hurts: at worst the old session lives on to its deadline. */
  lemma NewPasswordAgrees(w: World, user: AuthUser, token: string, old': string, new': string, f: Faults)
    requires Agreement(w) && SessionOf(w, token, user.userId)
    ensures Agreement(NewPassword(w, user, token, old', new', f).0)
  {
    var id := user.userId;
    assert Indexed(w, token, id);
    var changed := w.(db := AdminTables.UpdatePassword(w.db, id, AdminTables.Hashed(new')));
    forall t, v | SessionOf(changed, t, v) ensures Indexed(changed, t, v) {
      assert SessionOf(w, t, v) && Indexed(w, t, v);
    }
    DropAgrees(changed, token, id);
  }

  /** Untouched session keys and no account lost: the agreement carries over. */
  lemma UntouchedAgrees(w: World, w': World)
    requires Agreement(w) && WellTyped(w'.cache) && w'.now == w.now
    requires forall t :: (Session(t) in w'.cache) == (Session(t) in w.cache)
    requires forall t :: Session(t) in w.cache ==> w'.cache[Session(t)] == w.cache[Session(t)]
    requires forall u :: (AdminSession(u) in w'.cache) == (AdminSession(u) in w.cache)
    requires forall u :: AdminSession(u) in w.cache ==> w'.cache[AdminSession(u)] == w.cache[AdminSession(u)]
    requires forall u :: AdminTables.Live(w.db, u) ==> AdminTables.Live(w'.db, u)
    ensures Agreement(w')
    ensures forall u :: Online(w', u) == Online(w, u)
  {
    forall t, u ensures SessionOf(w', t, u) == SessionOf(w, t, u) { }
    forall u ensures Online(w', u) == Online(w, u) {
      if Online(w, u) { var t :| SessionOf(w, t, u); assert SessionOf(w', t, u); }
      if Online(w', u) { var t :| SessionOf(w', t, u); assert SessionOf(w, t, u); }
    }
    forall t, u | SessionOf(w', t, u) ensures Indexed(w', t, u) {
      assert SessionOf(w, t, u) && Indexed(w, t, u);
    }
  }

  /** The login that gets past the gate with the right credentials. */
  predicate Enters(w: World, username: string, password: string, f: Faults) {
    && FailCount(w, username).Some? && FailCount(w, username).value < 5
    && Account(w.db, username, password).Some?
    && Replies(f, GetCount) && Replies(f, FindUser) && Replies(f, ListCodes)
  }

  /** Clearing the counter leaves sessions as they were. */
  lemma ClearedAgrees(w: World, username: string, f: Faults)
    requires Agreement(w)
    ensures Agreement(Cleared(w, username, f)) && forall u :: Online(Cleared(w, username, f), u) == Online(w, u)
  {
    UntouchedAgrees(w, Cleared(w, username, f));
  }

  lemma RecordedAgrees(w: World, username: string, f: Faults)
    requires Agreement(w)
    ensures Agreement(RecordFail(w, username, f))
  {
    UntouchedAgrees(w, RecordFail(w, username, f));
  }

  /** A login keeps the agreement exactly when, if it opens a session, it strands none. */
  lemma LoginAgrees(w: World, username: string, password: string, token: string, f: Faults)
    requires Agreement(w) && w.tokenDuration > 0 && Unused(w.cache, token)
    ensures Agreement(LoginStep(w, username, password, token, f).0) <==>
      !(Enters(w, username, password, f) && Strands(w, Account(w.db, username, password).value, f))
  {
    var account := Account(w.db, username, password);
    if account.None? {
      RecordedAgrees(w, username, f);
    } else {
      ClearedAgrees(w, username, f);
      OpenSessionAgrees(Cleared(w, username, f), Snapshot(w.db, account.value), token, f);
    }
  }

  // ---- Authenticated requests ----

  /** This request deletes an account and leaves its session alive. */
  ghost predicate MissesKick(w: World, token: string, a: Action, f: Faults) {
    && Admitted(w, token, f) && a.DeleteAdmin? && Permitted(Sender(w, token, f), a)
    && a.id != Sender(w, token, f).userId && Online(w, a.id) && SkipsKick(f)
  }

  /** The handler drops its caller's session. */
  predicate EndsCaller(db: AdminTables.Tables, u: nat, a: Action, f: Faults) {
    && Reaches(f, DelBoth)
    && (a.Logout?
        || (&& a.ChangePassword? && Replies(f, ReadUser) && Replies(f, Statement)
            && AdminTables.Live(db, u) && db.users[u].hashedPassword.password == a.oldPassword))
  }

  /** This request moves only one of its sender's two deadlines and keeps the session. */
  ghost predicate SlipsApart(w: World, token: string, a: Action, f: Faults) {
    && Admitted(w, token, f) && Reaches(f, ExpireSession) != Reaches(f, ExpireIndex)
    && w.cache[Session(token)].deadline != Some(w.now + w.tokenDuration)
    && !EndsCaller(w.db, Sender(w, token, f).userId, a, f)
  }

  /** Role and account administration leaves sessions alone and loses no live account. */
  lemma AdministrationAgrees(w: World, db: AdminTables.Tables)
    requires Agreement(w) && forall u :: AdminTables.Live(w.db, u) ==> AdminTables.Live(db, u)
    ensures Agreement(w.(db := db))
  {
    UntouchedAgrees(w, w.(db := db));
  }

  lemma SetRolesAgrees(w: World, id: nat, roleIds: seq<int>)
    requires Agreement(w) && AdminTables.Consistent(w.db) && AdminTables.Live(w.db, id)
    ensures var db := AdminTables.ReplaceRoles(w.db, id, roleIds).0;
      Agreement(w.(db := db)) && AdminTables.Consistent(db)
  {
    AdminTables.ReplaceRolesEffect(w.db, id, roleIds);
    AdministrationAgrees(w, AdminTables.ReplaceRoles(w.db, id, roleIds).0);
  }

  lemma CreateAdminAgrees(w: World, username: string, password: string, roleIds: seq<int>)
    requires Agreement(w) && AdminTables.Consistent(w.db)
    ensures var db := AdminTables.CreateAdmin(w.db, username, AdminTables.Hashed(password), roleIds).0;
      Agreement(w.(db := db)) && AdminTables.Consistent(db)
  {
    AdminTables.CreateAdminEffect(w.db, username, AdminTables.Hashed(password), roleIds);
    AdministrationAgrees(w, AdminTables.CreateAdmin(w.db, username, AdminTables.Hashed(password), roleIds).0);
  }

  lemma RestoreAgrees(w: World, id: nat)
    requires Agreement(w) && AdminTables.Consistent(w.db)
    ensures var db := AdminTables.Restore(w.db, id).0; Agreement(w.(db := db)) && AdminTables.Consistent(db)
  {
    AdministrationAgrees(w, AdminTables.Restore(w.db, id).0);
  }

  predicate Administers(a: Action) {
    a.RestoreAdmin? || a.SetRoles? || a.CreateAdmin?
  }

  lemma AdministersAgrees(w: World, user: AuthUser, token: string, a: Action, f: Faults)
    requires Agreement(w) && AdminTables.Consistent(w.db) && Administers(a)
    ensures Agreement(Perform(w, user, token, a, f).0) && AdminTables.Consistent(Perform(w, user, token, a, f).0.db)
  {
    match a
    case RestoreAdmin(id) => RestoreAgrees(w, id);
    case SetRoles(id, roleIds) =>
      if AdminTables.Live(w.db, id) {
        SetRolesAgrees(w, id, roleIds);
      }
    case CreateAdmin(username, password, roleIds) => CreateAdminAgrees(w, username, password, roleIds);
  }

  lemma PerformAgrees(w: World, user: AuthUser, token: string, a: Action, f: Faults)
    requires Agreement(w) && AdminTables.Consistent(w.db) && SessionOf(w, token, user.userId)
    ensures Agreement(Perform(w, user, token, a, f).0) <==>
      !(a.DeleteAdmin? && a.id != user.userId && Online(w, a.id) && SkipsKick(f))
  {
    if Administers(a) {
      AdministersAgrees(w, user, token, a, f);
    } else {
      match a
      case Logout => DropAgrees(w, token, user.userId);
      case ChangePassword(old', new') => NewPasswordAgrees(w, user, token, old', new', f);
      case DeleteAdmin(id) => DeleteAgrees(w, user, id, f);
      case _ =>
    }
  }

  /** What a handler may do to the account tables. */
  function Administration(user: AuthUser, a: Action, now: int): Option<AdminRuns.Op> {
    match a
    case ChangePassword(_, newPassword) => Some(AdminRuns.Password(user.userId, AdminTables.Hashed(newPassword)))
    case DeleteAdmin(id) => Some(AdminRuns.Delete(id, now))
    case RestoreAdmin(id) => Some(AdminRuns.Undelete(id))
    case SetRoles(id, roleIds) => Some(AdminRuns.Assign(id, roleIds))
    case CreateAdmin(username, password, roleIds) =>
      Some(AdminRuns.Create(username, AdminTables.Hashed(password), roleIds))
    case _ => None
  }

  lemma PerformAdministers(w: World, user: AuthUser, token: string, a: Action, f: Faults)
    ensures var db' := Perform(w, user, token, a, f).0.db;
      || db' == w.db
      || (Administration(user, a, w.now).Some? && db' == AdminRuns.Apply(w.db, Administration(user, a, w.now).value).0)
  {
  }

  lemma PerformKeepsConsistent(w: World, user: AuthUser, token: string, a: Action, f: Faults)
    requires AdminTables.Consistent(w.db)
    ensures AdminTables.Consistent(Perform(w, user, token, a, f).0.db)
  {
    PerformAdministers(w, user, token, a, f);
    if Administration(user, a, w.now).Some? {
      AdminRuns.ApplyKeepsConsistent(w.db, Administration(user, a, w.now).value);
    }
  }

  lemma CallKeepsConsistent(w: World, token: string, a: Action, f: Faults)
    requires AdminTables.Consistent(w.db)
    ensures AdminTables.Consistent(CallStep(w, token, a, f).0.db)
  {
    if Admitted(w, token, f) {
      var user := Sender(w, token, f);
      SlideSparesDb(w, token, user, f);
      PerformKeepsConsistent(Slide(w, token, user, f), user, token, a, f);
    }
  }

  lemma OnlineAfterSlide(w: World, token: string, user: AuthUser, f: Faults, u: nat)
    requires w.tokenDuration > 0
    ensures Online(Slide(w, token, user, f), u) == Online(w, u)
  {
    var w' := Slide(w, token, user, f);
    forall t, v ensures SessionOf(w', t, v) == SessionOf(w, t, v) { }
    if Online(w, u) { var t :| SessionOf(w, t, u); assert SessionOf(w', t, u); }
    if Online(w', u) { var t :| SessionOf(w', t, u); assert SessionOf(w, t, u); }
  }

  /** However the deadlines slid, dropping the caller's keys restores the agreement. */
  lemma DropAfterSlideAgrees(w: World, token: string, user: AuthUser, f: Faults, db: AdminTables.Tables)
    requires Agreement(w) && w.tokenDuration > 0 && SessionOf(w, token, user.userId)
    requires forall u :: AdminTables.Live(w.db, u) ==> AdminTables.Live(db, u)
    ensures Agreement(Drop(Slide(w, token, user, f).(db := db), token, user.userId))
  {
    var u := user.userId;
    var w' := Drop(Slide(w, token, user, f).(db := db), token, u);
    assert Indexed(w, token, u);
    forall t, v | SessionOf(w', t, v) ensures Indexed(w', t, v) {
      assert SessionOf(w, t, v) && Indexed(w, t, v) && v != u;
    }
  }

  /** A handler that does not end its caller's session leaves both its keys alone. */
  lemma PerformSparesCaller(w: World, user: AuthUser, token: string, a: Action, f: Faults)
    requires IndexOwned(w.cache) && SessionOf(w, token, user.userId) && !EndsCaller(w.db, user.userId, a, f)
    ensures var c, c', i := w.cache, Perform(w, user, token, a, f).0.cache, AdminSession(user.userId);
      && Session(token) in c' && c'[Session(token)] == c[Session(token)]
      && (i in c <==> i in c') && (i in c ==> c'[i] == c[i])
      && Perform(w, user, token, a, f).0.now == w.now
  {
  }

  lemma CallerEnds(w: World, user: AuthUser, token: string, a: Action, f: Faults)
    requires EndsCaller(w.db, user.userId, a, f)
    ensures exists db :: && Perform(w, user, token, a, f).0 == Drop(w.(db := db), token, user.userId)
                         && forall u :: AdminTables.Live(w.db, u) ==> AdminTables.Live(db, u)
  {
    var db :=
      if a.Logout? then w.db else AdminTables.UpdatePassword(w.db, user.userId, AdminTables.Hashed(a.newPassword));
    assert Perform(w, user, token, a, f).0 == Drop(w.(db := db), token, user.userId);
  }

  lemma StaysUneven(w: World, token: string, user: AuthUser, f: Faults, w': World)
    requires Agreement(w) && w.tokenDuration > 0 && SessionOf(w, token, user.userId)
    requires Reaches(f, ExpireSession) != Reaches(f, ExpireIndex)
    requires w.cache[Session(token)].deadline != Some(w.now + w.tokenDuration)
    requires var c, i := Slide(w, token, user, f).cache, AdminSession(user.userId);
      && w'.now == w.now && Session(token) in w'.cache && w'.cache[Session(token)] == c[Session(token)]
      && (i in w'.cache <==> i in c) && (i in c ==> w'.cache[i] == c[i])
    ensures !Agreement(w')
  {
    assert Indexed(w, token, user.userId);
    assert SessionOf(w', token, user.userId) && !Indexed(w', token, user.userId);
  }

  /** Deadlines that came apart stay apart unless the session ends. */
  lemma UnevenCallAgrees(w: World, token: string, a: Action, f: Faults)
    requires Agreement(w) && IndexOwned(w.cache) && w.tokenDuration > 0 && Admitted(w, token, f)
    requires Reaches(f, ExpireSession) != Reaches(f, ExpireIndex)
    requires w.cache[Session(token)].deadline != Some(w.now + w.tokenDuration)
    ensures Agreement(CallStep(w, token, a, f).0) <==> EndsCaller(w.db, Sender(w, token, f).userId, a, f)
  {
    var user := Sender(w, token, f);
    var slid := Slide(w, token, user, f);
    SlideSparesDb(w, token, user, f);
    assert SessionOf(w, token, user.userId) && Indexed(w, token, user.userId);
    assert SessionOf(slid, token, user.userId);
    if EndsCaller(w.db, user.userId, a, f) {
      CallerEnds(slid, user, token, a, f);
      var db :| && Perform(slid, user, token, a, f).0 == Drop(slid.(db := db), token, user.userId)
                && forall u :: AdminTables.Live(slid.db, u) ==> AdminTables.Live(db, u);
      DropAfterSlideAgrees(w, token, user, f, db);
    } else {
      SlideShrinks(w, token, user, f);
      OwnedShrinks(w.cache, slid.cache, w.now);
      PerformSparesCaller(slid, user, token, a, f);
      StaysUneven(w, token, user, f, CallStep(w, token, a, f).0);
    }
  }

  lemma EvenCallAgrees(w: World, token: string, a: Action, f: Faults)
    requires Agreement(w) && w.tokenDuration > 0 && AdminTables.Consistent(w.db) && Admitted(w, token, f)
    requires Reaches(f, ExpireSession) == Reaches(f, ExpireIndex)
      || w.cache[Session(token)].deadline == Some(w.now + w.tokenDuration)
    ensures Agreement(CallStep(w, token, a, f).0) <==> !MissesKick(w, token, a, f)
  {
    var user := Sender(w, token, f);
    var slid := Slide(w, token, user, f);
    SlideSparesDb(w, token, user, f);
    assert SessionOf(w, token, user.userId);
    SlideAgrees(w, token, user.userId, f);
    PerformAgrees(slid, user, token, a, f);
    if a.DeleteAdmin? {
      OnlineAfterSlide(w, token, user, f, a.id);
    }
  }

  /** An authenticated request keeps the agreement exactly when it misses no kick and
      does not let its sender's deadlines slip apart. */
  lemma CallAgrees(w: World, token: string, a: Action, f: Faults)
    requires Agreement(w) && IndexOwned(w.cache) && w.tokenDuration > 0 && AdminTables.Consistent(w.db)
    ensures Agreement(CallStep(w, token, a, f).0) <==> !MissesKick(w, token, a, f) && !SlipsApart(w, token, a, f)
  {
    if Admitted(w, token, f) {
      if Reaches(f, ExpireSession) == Reaches(f, ExpireIndex)
         || w.cache[Session(token)].deadline == Some(w.now + w.tokenDuration) {
        EvenCallAgrees(w, token, a, f);
      } else {
        UnevenCallAgrees(w, token, a, f);
      }
    }
  }

  lemma TickAgrees(w: World, seconds: nat)
    requires Agreement(w)
    ensures Agreement(w.(now := w.now + seconds))
  {
    var w' := w.(now := w.now + seconds);
    forall t, u | SessionOf(w', t, u) ensures Indexed(w', t, u) {
      assert SessionOf(w, t, u) && Indexed(w, t, u);
    }
  }
}
