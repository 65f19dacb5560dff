// What each answer of the admin API means, on the rows and keys as they stood when the
// request came in: for every request, every answer and every set of failing calls, both
// ways, together with what the request did to the tables.
module Answers {
  import opened Base
  import opened Cache
  import opened Sessions
  import opened SessionAgreement
  import AdminTables
  import AdminRuns

  // ---- Login ----

  /** Failures counted against the name; a missing or expired counter is none. */
  function Failures(w: World, username: string): int {
    var k := LoginFail(username);
    if Live(w.cache, w.now, k) && w.cache[k].value.Count? then w.cache[k].value.n else 0
  }

  /** A row, not deleted, that these credentials open. */
  predicate Opens(db: AdminTables.Tables, username: string, password: string, u: nat) {
    && u in db.users && db.users[u].deletedAt == None
    && db.users[u].username == username && db.users[u].hashedPassword == AdminTables.Hashed(password)
  }

  lemma AccountIff(db: AdminTables.Tables, username: string, password: string, u: nat)
    requires AdminTables.Consistent(db)
    ensures Account(db, username, password) == Some(u) <==> Opens(db, username, password, u)
  {
    AdminRuns.LookupIsTheAccount(db, username, u);
  }

  lemma NoAccountIff(db: AdminTables.Tables, username: string, password: string)
    requires AdminTables.Consistent(db)
    ensures Account(db, username, password) == None <==> forall u: nat :: !Opens(db, username, password, u)
  {
    var account := Account(db, username, password);
    forall u: nat ensures account == Some(u) <==> Opens(db, username, password, u) {
      AccountIff(db, username, password, u);
    }
    if account.Some? {
      assert Opens(db, username, password, account.value);
    }
  }

  /** A login is refused unexamined exactly at five counted failures, is told its
      credentials are wrong exactly when they open no row, and gets its session exactly
      when none of the calls that matter fails; clearing the counter, recording a failure
      and dropping the old session do not matter. */
  lemma LoginAnswers(w: World, username: string, password: string, token: string, f: Faults)
    requires WellTyped(w.cache) && AdminTables.Consistent(w.db)
    ensures var reply, known := LoginStep(w, username, password, token, f).1,
        exists u: nat :: Opens(w.db, username, password, u);
      && (reply == TooManyFails <==> Replies(f, GetCount) && Failures(w, username) >= 5)
      && (reply == WrongCredentials <==>
           Replies(f, GetCount) && Failures(w, username) < 5 && Replies(f, FindUser) && !known)
      && (reply.LoggedIn? <==>
           && Replies(f, GetCount) && Failures(w, username) < 5 && Replies(f, FindUser) && known
           && Replies(f, ListCodes) && Replies(f, SetSession) && Replies(f, SetIndex))
      && (reply.LoggedIn? ==> && reply.token == token && reply.user.username == username
                              && Opens(w.db, username, password, reply.user.userId))
      && (reply in {TooManyFails, WrongCredentials, Internal} || reply.LoggedIn?)
  {
    NoAccountIff(w.db, username, password);
    var account := Account(w.db, username, password);
    if account.Some? {
      AccountIff(w.db, username, password, account.value);
    }
  }

  // ---- The middlewares ----

  /** The permission code a route asks for. */
  predicate Holds(permissions: seq<string>, code: string) {
    code in permissions || "*" in permissions
  }

  /** The session's snapshot lets it use the route: `code` for a route behind that code,
      admin_user:write for the administration of accounts, nothing for one's own. */
  predicate MayUse(permissions: seq<string>, a: Action) {
    match a
    case Use(code) => Holds(permissions, code)
    case DeleteAdmin(_) => Holds(permissions, "admin_user:write")
    case RestoreAdmin(_) => Holds(permissions, "admin_user:write")
    case SetRoles(_, _) => Holds(permissions, "admin_user:write")
    case CreateAdmin(_, _, _) => Holds(permissions, "admin_user:write")
    case Me => true
    case Logout => true
    case ChangePassword(_, _) => true
  }

  /** A request is unauthorized exactly without a live session, and forbidden exactly when
      the session's snapshot lacks what the route asks for. */
  lemma CallAnswers(w: World, token: string, a: Action, f: Faults)
    requires WellTyped(w.cache)
    ensures var reply, s := CallStep(w, token, a, f).1, Session(token);
      && (reply == Unauthorized <==> token == "" || (Replies(f, GetSession) && !Live(w.cache, w.now, s)))
      && (reply == Forbidden <==>
           && token != "" && Replies(f, GetSession) && Live(w.cache, w.now, s)
           && !MayUse(w.cache[s].value.user.permissions, a))
      && (token != "" && !Replies(f, GetSession) ==> reply == Internal)
  {
  }

  /** The request reaches its handler. */
  predicate Reached(w: World, token: string, a: Action, f: Faults) {
    Admitted(w, token, f) && MayUse(Sender(w, token, f).permissions, a)
  }

  lemma ReachedPerforms(w: World, token: string, a: Action, f: Faults)
    requires Reached(w, token, a, f)
    ensures var user := Sender(w, token, f);
      var slid := Slide(w, token, user, f);
      && CallStep(w, token, a, f) == Perform(slid, user, token, a, f)
      && slid.db == w.db && slid.now == w.now
  {
  }

  // ---- The handlers ----

  predicate Exists(db: AdminTables.Tables, id: nat) {
    id in db.users && db.users[id].deletedAt == None
  }

  predicate IsDeleted(db: AdminTables.Tables, id: nat) {
    id in db.users && db.users[id].deletedAt != None
  }

  ghost predicate NameTaken(db: AdminTables.Tables, username: string) {
    exists u: nat :: Exists(db, u) && db.users[u].username == username
  }

  function WithRow(db: AdminTables.Tables, id: nat, row: AdminTables.AdminUser): AdminTables.Tables {
    db.(users := db.users[id := row])
  }

  /** Neither the session nor its account's index entry is left. */
  predicate KeysGone(w: World, token: string, u: nat) {
    Session(token) !in w.cache && AdminSession(u) !in w.cache
  }

  lemma DeleteAnswers(w: World, token: string, id: nat, f: Faults)
    requires Reached(w, token, DeleteAdmin(id), f)
    ensures var (w', reply) := CallStep(w, token, DeleteAdmin(id), f);
      var other := id != Sender(w, token, f).userId;
      && (reply == CannotDeleteSelf <==> !other)
      && (reply == Internal <==> other && !Replies(f, Statement))
      && (reply == NoSuchUser <==> other && Replies(f, Statement) && !Exists(w.db, id))
      && (reply == Ok <==> other && Replies(f, Statement) && Exists(w.db, id))
      && w'.db == if other && Reaches(f, Statement) && Exists(w.db, id)
                  then WithRow(w.db, id, w.db.users[id].(deletedAt := Some(w.now))) else w.db
  {
    ReachedPerforms(w, token, DeleteAdmin(id), f);
    AdminRuns.DeleteIff(w.db, id, w.now);
  }

  /** A kick that gets through takes the indexed session and the index with it. */
  lemma DeleteKicks(w: World, token: string, id: nat, f: Faults, t: string)
    requires WellTyped(w.cache) && w.tokenDuration > 0 && Reached(w, token, DeleteAdmin(id), f)
    requires Replies(f, KickGet) && Reaches(f, KickDel) && Names(w, t, id)
    ensures var (w', reply) := CallStep(w, token, DeleteAdmin(id), f);
      reply == Ok ==> KeysGone(w', t, id)
  {
    ReachedPerforms(w, token, DeleteAdmin(id), f);
  }

  lemma RestoreAnswers(w: World, token: string, id: nat, f: Faults)
    requires Reached(w, token, RestoreAdmin(id), f) && AdminTables.Consistent(w.db)
    ensures var (w', reply) := CallStep(w, token, RestoreAdmin(id), f);
      var taken := IsDeleted(w.db, id) && NameTaken(w.db, w.db.users[id].username);
      && (reply == Internal <==> !Replies(f, Statement))
      && (reply == Conflict <==> Replies(f, Statement) && taken)
      && (reply == NoSuchUser <==> Replies(f, Statement) && !IsDeleted(w.db, id))
      && (reply == Ok <==> Replies(f, Statement) && IsDeleted(w.db, id) && !taken)
      && w'.db == if Reaches(f, Statement) && IsDeleted(w.db, id) && !taken
                  then WithRow(w.db, id, w.db.users[id].(deletedAt := None)) else w.db
  {
    ReachedPerforms(w, token, RestoreAdmin(id), f);
    AdminRuns.RestoreIff(w.db, id);
  }

  /** Pairwise distinct ids of existing roles. */
  predicate Fit(db: AdminTables.Tables, ids: seq<int>) {
    && (forall i, j :: 0 <= i < j < |ids| ==> ids[i] != ids[j])
    && (forall i :: 0 <= i < |ids| ==> ids[i] in db.roles)
  }

  /** The grants in b are those of a, except that `id` holds exactly `ids`. */
  ghost predicate Regranted(a: AdminTables.Tables, b: AdminTables.Tables, id: nat, ids: seq<int>) {
    forall u: nat, r :: (u, r) in b.grants <==> if u == id then r in ids else (u, r) in a.grants
  }

  lemma ReplacementOutcome(db: AdminTables.Tables, id: nat, ids: seq<int>)
    requires Exists(db, id)
    ensures var (db', err) := AdminTables.ReplaceRoles(db, id, ids);
      && (err == AdminTables.Nil <==> Fit(db, ids))
      && (err == AdminTables.DuplicateKey <==> AdminTables.RepeatsFirst(db, ids))
      && err != AdminTables.Connection
      && if Fit(db, ids) then db' == db.(grants := db'.grants) && Regranted(db, db', id, ids) else db' == db
  {
    AdminTables.InsertableIff(db, id, ids);
    AdminTables.DuplicateIff(db, id, ids);
    assert AdminTables.Distinct(ids) <==> forall i, j :: 0 <= i < j < |ids| ==> ids[i] != ids[j];
  }

  lemma SetRolesAnswers(w: World, token: string, id: nat, ids: seq<int>, f: Faults)
    requires Reached(w, token, SetRoles(id, ids), f)
    ensures var (w', reply) := CallStep(w, token, SetRoles(id, ids), f);
      var found, repeats := Replies(f, ReadUser) && Exists(w.db, id), AdminTables.RepeatsFirst(w.db, ids);
      && (reply == NoSuchUser <==> Replies(f, ReadUser) && !Exists(w.db, id))
      && (reply == Ok <==> found && Replies(f, Statement) && Fit(w.db, ids))
      && (reply == InvalidParams <==> found && Replies(f, Statement) && !Fit(w.db, ids) && !repeats)
      && (reply == Internal <==> !Replies(f, ReadUser) || (found && (!Replies(f, Statement) || repeats)))
      && if found && Reaches(f, Statement) && Fit(w.db, ids)
         then w'.db == w.db.(grants := w'.db.grants) && Regranted(w.db, w'.db, id, ids) else w'.db == w.db
  {
    ReachedPerforms(w, token, SetRoles(id, ids), f);
    if Exists(w.db, id) {
      ReplacementOutcome(w.db, id, ids);
    }
  }

  lemma CreationOutcome(db: AdminTables.Tables, username: string, h: AdminTables.Hashed, ids: seq<int>)
    requires AdminTables.Consistent(db)
    ensures var (db', id, err) := AdminTables.CreateAdmin(db, username, h, ids);
      && (err == AdminTables.Nil <==> !NameTaken(db, username) && Fit(db, ids))
      && (err == AdminTables.DuplicateKey <==> NameTaken(db, username) || AdminTables.RepeatsFirst(db, ids))
      && err != AdminTables.Connection
      && if err == AdminTables.Nil
         then && db' == WithRow(db, db.nextUser, AdminTables.AdminUser(username, h, None))
                          .(nextUser := db.nextUser + 1, grants := db'.grants)
              && Regranted(db, db', db.nextUser, ids)
         else db' == db.(nextUser := db'.nextUser)
  {
    AdminTables.CreateAdminEffect(db, username, h, ids);
    AdminTables.CreateAdminDuplicateIff(db, username, h, ids);
    assert AdminTables.NameFree(db, username) <==> !NameTaken(db, username);
  }

  lemma CreateAnswers(w: World, token: string, username: string, password: string, ids: seq<int>, f: Faults)
    requires Reached(w, token, CreateAdmin(username, password, ids), f) && AdminTables.Consistent(w.db)
    ensures var (w', reply) := CallStep(w, token, CreateAdmin(username, password, ids), f);
      var taken, repeats := NameTaken(w.db, username), AdminTables.RepeatsFirst(w.db, ids);
      && (reply == Internal <==> !Replies(f, Statement))
      && (reply == Ok <==> Replies(f, Statement) && !taken && Fit(w.db, ids))
      && (reply == Conflict <==> Replies(f, Statement) && (taken || repeats))
      && (reply == InvalidParams <==> Replies(f, Statement) && !taken && !repeats && !Fit(w.db, ids))
      && if Reaches(f, Statement) && !taken && Fit(w.db, ids)
         then && w'.db == WithRow(w.db, w.db.nextUser,
                                  AdminTables.AdminUser(username, AdminTables.Hashed(password), None))
                            .(nextUser := w.db.nextUser + 1, grants := w'.db.grants)
              && Regranted(w.db, w'.db, w.db.nextUser, ids)
         else w'.db == w.db.(nextUser := w'.db.nextUser)
  {
    ReachedPerforms(w, token, CreateAdmin(username, password, ids), f);
    CreationOutcome(w.db, username, AdminTables.Hashed(password), ids);
  }

  lemma ChangeAnswers(w: World, token: string, o: string, n: string, f: Faults)
    requires Reached(w, token, ChangePassword(o, n), f)
    ensures var (w', reply) := CallStep(w, token, ChangePassword(o, n), f);
      var u := Sender(w, token, f).userId;
      var right := Exists(w.db, u) && w.db.users[u].hashedPassword == AdminTables.Hashed(o);
      && (reply == Internal <==>
           !Replies(f, ReadUser) || !Exists(w.db, u) || (right && !Replies(f, Statement)))
      && (reply == WrongCredentials <==> Replies(f, ReadUser) && Exists(w.db, u) && !right)
      && (reply == Ok <==> Replies(f, ReadUser) && right && Replies(f, Statement))
      && (reply == Ok && Reaches(f, DelBoth) ==> KeysGone(w', token, u))
      && w'.db == if Replies(f, ReadUser) && right && Reaches(f, Statement)
                  then WithRow(w.db, u, w.db.users[u].(hashedPassword := AdminTables.Hashed(n))) else w.db
  {
    ReachedPerforms(w, token, ChangePassword(o, n), f);
  }

  lemma LogoutAnswers(w: World, token: string, f: Faults)
    requires Reached(w, token, Logout, f)
    ensures var (w', reply) := CallStep(w, token, Logout, f);
      && (reply == Ok <==> Replies(f, DelBoth)) && (reply == Internal <==> !Replies(f, DelBoth))
      && (Reaches(f, DelBoth) ==> KeysGone(w', token, Sender(w, token, f).userId))
      && w'.db == w.db
  {
    ReachedPerforms(w, token, Logout, f);
  }

  /** The remaining routes only look. */
  lemma LookingAnswers(w: World, token: string, a: Action, f: Faults)
    requires Reached(w, token, a, f) && (a.Me? || a.Use?)
    ensures CallStep(w, token, a, f).1 == Ok && CallStep(w, token, a, f).0.db == w.db
  {
    ReachedPerforms(w, token, a, f);
  }
}
