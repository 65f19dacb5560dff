// Whole runs of requests, whatever happens to their calls: exactly when cache and
// tables stay in agreement, and exactly when an account is left.
module SessionRuns {
  import opened Base
  import opened Cache
  import opened Sessions
  import opened SessionAgreement
  import AdminTables
  import AdminRuns

  datatype Turn = Turn(request: Request, faults: Faults)

  /** UUIDs do not repeat. */
  ghost predicate DistinctTokens(turns: seq<Turn>) {
    forall j, k :: 0 <= j < k < |turns| && turns[j].request.Login? && turns[k].request.Login? ==>
      turns[j].request.token != turns[k].request.token
  }

  /** Requests served one after the other. */
  ghost predicate IsRun(worlds: seq<World>, turns: seq<Turn>) {
    && |worlds| == |turns| + 1
    && (forall k :: 0 <= k < |turns| ==> worlds[k + 1] == Serve(worlds[k], turns[k].request, turns[k].faults).0)
    && DistinctTokens(turns)
  }

  function ReplyAt(w: World, t: Turn): Reply {
    Serve(w, t.request, t.faults).1
  }

  ghost predicate Staffed(db: AdminTables.Tables) {
    exists u :: AdminTables.Live(db, u)
  }

  /** Empty cache, positive token lifetime, some live admin account. */
  ghost predicate Starts(w: World) {
    w.cache == map[] && w.tokenDuration > 0 && AdminTables.Consistent(w.db) && Staffed(w.db)
  }

  /** The request breaks no promise of the session keys: an opened session strands
      nobody, deadlines do not slip apart, and a deleted account is kicked. */
  ghost predicate Harmless(w: World, t: Turn) {
    match t.request
    case Login(username, password, _) =>
      !(Enters(w, username, password, t.faults) && Strands(w, Account(w.db, username, password).value, t.faults))
    case Call(token, a) => !MissesKick(w, token, a, t.faults) && !SlipsApart(w, token, a, t.faults)
    case Tick(_) => true
  }

  // ---- Tokens ----

  lemma OpenMentions(w: World, user: AuthUser, drawn: string, f: Faults, token: string)
    requires Unused(w.cache, token) && drawn != token
    ensures Unused(OpenSession(w, user, drawn, f).0.cache, token)
  {
    var e := EvictOld(w, user.userId, f);
    assert Unused(e.cache, token);
    var written := WriteSession(e, user, drawn, f);
    assert Unused(written.cache, token);
    assert Unused(WriteIndex(written, user.userId, drawn, f).cache, token);
  }

  lemma LoginMentions(w: World, username: string, password: string, drawn: string, f: Faults, token: string)
    requires Unused(w.cache, token) && drawn != token
    ensures Unused(LoginStep(w, username, password, drawn, f).0.cache, token)
  {
    var account := Account(w.db, username, password);
    if account.None? {
      assert Unused(RecordFail(w, username, f).cache, token);
    } else {
      assert Unused(Cleared(w, username, f).cache, token);
      OpenMentions(Cleared(w, username, f), Snapshot(w.db, account.value), drawn, f, token);
    }
  }

  lemma ServeMentions(w: World, r: Request, f: Faults, token: string)
    requires Unused(w.cache, token) && (r.Login? ==> r.token != token)
    ensures Unused(Serve(w, r, f).0.cache, token)
  {
    match r
    case Login(username, password, drawn) => LoginMentions(w, username, password, drawn, f, token);
    case Call(caller, a) => CallShrinks(w, caller, a, f);
    case Tick(_) =>
  }

  /** A token nobody has logged in with appears nowhere. */
  lemma {:induction false} FreshIsUnused(worlds: seq<World>, turns: seq<Turn>, n: nat, token: string)
    requires IsRun(worlds, turns) && Starts(worlds[0]) && n <= |turns|
    requires forall k :: 0 <= k < n && turns[k].request.Login? ==> turns[k].request.token != token
    ensures Unused(worlds[n].cache, token)
  {
    if n == 0 {
    } else {
      FreshIsUnused(worlds, turns, n - 1, token);
      ServeMentions(worlds[n - 1], turns[n - 1].request, turns[n - 1].faults, token);
    }
  }

  // ---- What no fault can break ----

  /** Keys hold what their writers put there, an index entry never names another
      account's session, and the tables obey their constraints. */
  ghost predicate Sound(w: World) {
    WellTyped(w.cache) && IndexOwned(w.cache) && AdminTables.Consistent(w.db) && w.tokenDuration > 0
  }

  lemma DurationFixed(w: World, t: Turn)
    ensures Serve(w, t.request, t.faults).0.tokenDuration == w.tokenDuration
  {
  }

  lemma LoginKeepsSound(w: World, username: string, password: string, token: string, f: Faults)
    requires Sound(w) && Unused(w.cache, token)
    ensures Sound(LoginStep(w, username, password, token, f).0)
  {
    LoginKeepsTyped(w, username, password, token, f);
    LoginKeepsOwned(w, username, password, token, f);
    LoginSparesDb(w, username, password, token, f);
    DurationFixed(w, Turn(Login(username, password, token), f));
  }

  lemma ServeKeepsSound(w: World, t: Turn)
    requires Sound(w) && (t.request.Login? ==> Unused(w.cache, t.request.token))
    ensures Sound(Serve(w, t.request, t.faults).0)
  {
    match t.request
    case Login(username, password, token) => LoginKeepsSound(w, username, password, token, t.faults);
    case Call(token, a) =>
      CallShrinks(w, token, a, t.faults);
      OwnedShrinks(w.cache, CallStep(w, token, a, t.faults).0.cache, w.now);
      CallKeepsConsistent(w, token, a, t.faults);
      DurationFixed(w, t);
    case Tick(_) =>
  }

  lemma {:induction false} AlwaysSound(worlds: seq<World>, turns: seq<Turn>, n: nat)
    requires IsRun(worlds, turns) && Starts(worlds[0]) && n <= |turns|
    ensures Sound(worlds[n])
  {
    if n == 0 {
    } else {
      AlwaysSound(worlds, turns, n - 1);
      if turns[n - 1].request.Login? {
        FreshIsUnused(worlds, turns, n - 1, turns[n - 1].request.token);
      }
      ServeKeepsSound(worlds[n - 1], turns[n - 1]);
    }
  }

  // ---- Agreement over runs ----

  /** A request keeps the agreement exactly when it is harmless. */
  lemma ServeAgrees(w: World, t: Turn)
    requires Agreement(w) && Sound(w) && (t.request.Login? ==> Unused(w.cache, t.request.token))
    ensures Agreement(Serve(w, t.request, t.faults).0) <==> Harmless(w, t)
  {
    match t.request
    case Login(username, password, token) => LoginAgrees(w, username, password, token, t.faults);
    case Call(token, a) => CallAgrees(w, token, a, t.faults);
    case Tick(seconds) => TickAgrees(w, seconds);
  }

  lemma TurnAgrees(worlds: seq<World>, turns: seq<Turn>, k: nat)
    requires IsRun(worlds, turns) && Starts(worlds[0]) && k < |turns| && Agreement(worlds[k])
    ensures Agreement(worlds[k + 1]) <==> Harmless(worlds[k], turns[k])
  {
    AlwaysSound(worlds, turns, k);
    if turns[k].request.Login? {
      FreshIsUnused(worlds, turns, k, turns[k].request.token);
    }
    ServeAgrees(worlds[k], turns[k]);
  }

  /** As long as every request so far was harmless, which failure-free requests are,
      every live session is its account's only one, is indexed with the same deadline,
      and belongs to an account not deleted. */
  lemma {:induction false} AgreementHolds(worlds: seq<World>, turns: seq<Turn>, n: nat)
    requires IsRun(worlds, turns) && Starts(worlds[0]) && n <= |turns|
    requires forall k :: 0 <= k < n ==> Harmless(worlds[k], turns[k])
    ensures Agreement(worlds[n])
    ensures forall t1, t2, u :: SessionOf(worlds[n], t1, u) && SessionOf(worlds[n], t2, u) ==> t1 == t2
  {
    if n == 0 {
    } else {
      AgreementHolds(worlds, turns, n - 1);
      TurnAgrees(worlds, turns, n - 1);
    }
    forall t1, t2, u | SessionOf(worlds[n], t1, u) && SessionOf(worlds[n], t2, u) ensures t1 == t2 {
      OneSessionPerUser(worlds[n], t1, t2, u);
    }
  }

  /** Cache/database agreement, exactly: it holds all along a run if and only if
      every request was harmless. */
  lemma AgreementIff(worlds: seq<World>, turns: seq<Turn>, n: nat)
    requires IsRun(worlds, turns) && Starts(worlds[0]) && n <= |turns|
    ensures (forall k :: 0 <= k <= n ==> Agreement(worlds[k])) <==>
      (forall k :: 0 <= k < n ==> Harmless(worlds[k], turns[k]))
  {
    if forall k :: 0 <= k < n ==> Harmless(worlds[k], turns[k]) {
      forall k | 0 <= k <= n ensures Agreement(worlds[k]) {
        AgreementHolds(worlds, turns, k);
      }
    }
    if forall k :: 0 <= k <= n ==> Agreement(worlds[k]) {
      forall k | 0 <= k < n ensures Harmless(worlds[k], turns[k]) {
        assert Agreement(worlds[k + 1]);
        TurnAgrees(worlds, turns, k);
      }
    }
  }

  lemma NoFaultsHarmless(w: World, r: Request)
    ensures Harmless(w, Turn(r, NO_FAULTS))
  {
  }

  // ---- Somebody is left ----

  predicate SentBy(w: World, token: string, user: AuthUser) {
    Live(w.cache, w.now, Session(token)) && w.cache[Session(token)].value == Payload(user)
  }

  /** A deletion that is let through and reaches the database. */
  predicate Deletes(w: World, t: Turn, id: nat) {
    && t.request.Call? && t.request.action == DeleteAdmin(id) && Admitted(w, t.request.token, t.faults)
    && Permitted(Sender(w, t.request.token, t.faults), DeleteAdmin(id))
    && Sender(w, t.request.token, t.faults).userId != id && Reaches(t.faults, Statement)
  }

  /** It names the only account not deleted; so its sender's own account is deleted. */
  ghost predicate DeletesLast(w: World, t: Turn) {
    exists id :: Deletes(w, t, id) && forall u :: AdminTables.Live(w.db, u) ==> u == id
  }

  lemma CreationSparesRows(db: AdminTables.Tables, username: string, h: AdminTables.Hashed, ids: seq<int>, u: nat)
    requires AdminTables.Live(db, u)
    ensures AdminTables.Live(AdminTables.CreateAdmin(db, username, h, ids).0, u)
  {
  }

  lemma PerformRemovesOnly(w: World, user: AuthUser, token: string, a: Action, f: Faults, u: nat)
    requires AdminTables.Live(w.db, u)
    ensures AdminTables.Live(Perform(w, user, token, a, f).0.db, u) <==>
      !(a == DeleteAdmin(u) && u != user.userId && Reaches(f, Statement))
  {
    PerformAdministers(w, user, token, a, f);
    if a.CreateAdmin? {
      CreationSparesRows(w.db, a.username, AdminTables.Hashed(a.password), a.roleIds, u);
    }
  }

  /** An account is removed exactly by a permitted deletion that names it. */
  lemma ServeRemovesIff(w: World, t: Turn, u: nat)
    requires AdminTables.Live(w.db, u)
    ensures AdminTables.Live(Serve(w, t.request, t.faults).0.db, u) <==> !Deletes(w, t, u)
  {
    match t.request
    case Login(username, password, token) => LoginSparesDb(w, username, password, token, t.faults);
    case Call(token, a) =>
      if Admitted(w, token, t.faults) {
        var sender := Sender(w, token, t.faults);
        SlideSparesDb(w, token, sender, t.faults);
        PerformRemovesOnly(Slide(w, token, sender, t.faults), sender, token, a, t.faults, u);
      }
    case Tick(_) =>
  }

  lemma DeletionRevivesNobody(w: World, t: Turn, id: nat, u: nat)
    requires Deletes(w, t, id) && AdminTables.Live(Serve(w, t.request, t.faults).0.db, u)
    ensures AdminTables.Live(w.db, u)
  {
    var sender := Sender(w, t.request.token, t.faults);
    SlideSparesDb(w, t.request.token, sender, t.faults);
    PerformAdministers(Slide(w, t.request.token, sender, t.faults), sender, t.request.token, t.request.action,
      t.faults);
  }

  /** Somebody is left after a request exactly when it does not delete the last account. */
  lemma StaffedIff(w: World, t: Turn)
    requires Staffed(w.db)
    ensures Staffed(Serve(w, t.request, t.faults).0.db) <==> !DeletesLast(w, t)
  {
    var db' := Serve(w, t.request, t.faults).0.db;
    if DeletesLast(w, t) {
      var id :| Deletes(w, t, id) && forall u :: AdminTables.Live(w.db, u) ==> u == id;
      forall u ensures !AdminTables.Live(db', u) {
        if AdminTables.Live(db', u) {
          DeletionRevivesNobody(w, t, id, u);
          ServeRemovesIff(w, t, u);
        }
      }
    } else {
      var u :| AdminTables.Live(w.db, u);
      ServeRemovesIff(w, t, u);
      if Deletes(w, t, u) {
        var v :| AdminTables.Live(w.db, v) && v != u;
        ServeRemovesIff(w, t, v);
      }
    }
  }

  /** Over a run, whatever fails: there is always an account not deleted if and only
      if no request deleted the last one. */
  lemma {:induction false} AlwaysStaffedIff(worlds: seq<World>, turns: seq<Turn>, n: nat)
    requires IsRun(worlds, turns) && Starts(worlds[0]) && n <= |turns|
    ensures (forall k :: 0 <= k <= n ==> Staffed(worlds[k].db)) <==>
      (forall k :: 0 <= k < n ==> !DeletesLast(worlds[k], turns[k]))
  {
    if n == 0 {
    } else {
      AlwaysStaffedIff(worlds, turns, n - 1);
      if forall k :: 0 <= k < n ==> Staffed(worlds[k].db) {
        StaffedIff(worlds[n - 1], turns[n - 1]);
        assert Staffed(worlds[n].db) <==> !DeletesLast(worlds[n - 1], turns[n - 1]);
      }
    }
  }

  /** Under agreement a sender's account is not deleted, so no request deletes the last. */
  lemma AgreementKeepsStaff(w: World, t: Turn)
    requires Agreement(w)
    ensures !DeletesLast(w, t)
  {
    if id :| Deletes(w, t, id) && forall u :: AdminTables.Live(w.db, u) ==> u == id {
      var sender := Sender(w, t.request.token, t.faults);
      assert SessionOf(w, t.request.token, sender.userId) && Indexed(w, t.request.token, sender.userId);
    }
  }

  /** In particular every run of harmless requests leaves an active admin in every state. */
  lemma AlwaysStaffed(worlds: seq<World>, turns: seq<Turn>, n: nat)
    requires IsRun(worlds, turns) && Starts(worlds[0]) && n <= |turns|
    requires forall k :: 0 <= k < n ==> Harmless(worlds[k], turns[k])
    ensures Staffed(worlds[n].db)
  {
    forall k | 0 <= k < n ensures !DeletesLast(worlds[k], turns[k]) {
      AgreementHolds(worlds, turns, k);
      AgreementKeepsStaff(worlds[k], turns[k]);
    }
    AlwaysStaffedIff(worlds, turns, n);
  }

  // ---- Passwords ----

  /** Accounts found by name do not depend on a password written elsewhere. */
  lemma {:induction false} SameNames(t: AdminTables.Tables, u: nat, h: AdminTables.Hashed, username: string, n: nat)
    ensures AdminTables.FindBelow(AdminTables.UpdatePassword(t, u, h), username, n) ==
      AdminTables.FindBelow(t, username, n)
  {
    if n == 0 {
    } else {
      SameNames(t, u, h, username, n - 1);
    }
  }

  /** A password change: from then on exactly the new password opens the account, all
      other accounts open as before, and, if the DEL takes effect, nobody is online. */
  lemma PasswordTakesEffect(w: World, token: string, o: string, n: string, f: Faults, user: AuthUser)
    requires Agreement(w) && Sound(w) && SentBy(w, token, user)
    requires CallStep(w, token, ChangePassword(o, n), f).1 == Ok
    ensures var w', u := CallStep(w, token, ChangePassword(o, n), f).0, user.userId;
      && AdminTables.Live(w.db, u) && w.db.users[u].hashedPassword.password == o
      && (forall p :: Account(w'.db, w.db.users[u].username, p) == (if p == n then Some(u) else None))
      && (forall name, p :: name != w.db.users[u].username ==> Account(w'.db, name, p) == Account(w.db, name, p))
      && (Reaches(f, DelBoth) ==> !Online(w', u))
  {
    var u := user.userId;
    assert SessionOf(w, token, u) && Indexed(w, token, u);
    SlideSparesDb(w, token, user, f);
    var db' := AdminTables.UpdatePassword(w.db, u, AdminTables.Hashed(n));
    AdminRuns.LookupIsTheAccount(w.db, w.db.users[u].username, u);
    forall name ensures AdminTables.FindByUsername(db', name) == AdminTables.FindByUsername(w.db, name) {
      SameNames(w.db, u, AdminTables.Hashed(n), name, w.db.nextUser);
    }
    if Reaches(f, DelBoth) {
      DropAfterSlideAgrees(w, token, user, f, db');
      assert CallStep(w, token, ChangePassword(o, n), f).0 == Drop(Slide(w, token, user, f).(db := db'), token, u);
    }
  }
}
