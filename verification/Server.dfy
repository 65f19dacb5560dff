// The handlers as the server runs them, call by call against the cache and the
// store, each proved to do what Sessions says for every set of failing calls.
module Server {
  import opened Base
  import opened Cache
  import opened Sessions
  import AdminTables
  import Answers
  import AdminStore

  class Handlers {
    const cache: RedisCache
    const store: AdminStore.Store
    const tokenDuration: int

    constructor (cache: RedisCache, store: AdminStore.Store, tokenDuration: int)
      ensures this.cache == cache && this.store == store && this.tokenDuration == tokenDuration
    {
      this.cache, this.store, this.tokenDuration := cache, store, tokenDuration;
    }

    ghost function Now(): World
      reads this, cache, store
    {
      World(tokenDuration, cache.now, cache.entries, store.tables)
    }

    // ---- auth.go ----

    method GetLoginFailCount(username: string, f: Faults) returns (count: Option<int>)
      ensures count == if Replies(f, GetCount) then FailCount(Now(), username) else None
    {
      var r := cache.Get(LoginFail(username), FaultAt(f, GetCount));
      match r
      case Unreachable => return None;
      case NotFound => return Some(0);
      case Found(Count(n)) => return Some(n);
      case Found(_) => return None;
    }

    method RecordLoginFail(username: string, f: Faults)
      modifies cache`entries
      ensures Now() == RecordFail(old(Now()), username, f)
    {
      var _ := cache.Incr(LoginFail(username), LOGIN_FAIL_TTL, FaultAt(f, IncrCount), FaultAt(f, ExpireCount));
    }

    /** The end of login: the session of this account, and no other, from now on. */
    method StartSession(user: AuthUser, token: string, f: Faults) returns (reply: Reply)
      modifies cache`entries
      ensures (Now(), reply) == OpenSession(old(Now()), user, token, f)
    {
      var index := cache.Get(AdminSession(user.userId), FaultAt(f, GetIndex));
      match index {
        case Found(Token(oldToken)) =>
          var _ := cache.Del([Session(oldToken)], FaultAt(f, DelOld));
          assert Reaches(f, DelOld) ==> cache.entries == old(cache.entries) - {Session(oldToken)};
        case _ =>
      }
      assert Now() == EvictOld(old(Now()), user.userId, f);
      var ok := cache.Set(Session(token), Payload(user), tokenDuration, FaultAt(f, SetSession));
      if !ok {
        return Internal;
      }
      ok := cache.Set(AdminSession(user.userId), Token(token), tokenDuration, FaultAt(f, SetIndex));
      if !ok {
        ghost var indexed := Now();
        var _ := cache.Del([Session(token)], FaultAt(f, DelNew));
        assert Reaches(f, DelNew) ==> cache.entries == indexed.cache - {Session(token)};
        return Internal;
      }
      return LoggedIn(token, user);
    }

    /** POST /login; `token` is the UUID the request will draw. */
    method Login(username: string, password: string, token: string, f: Faults) returns (reply: Reply)
      modifies cache`entries
      ensures (Now(), reply) == LoginStep(old(Now()), username, password, token, f)
    {
      var failCount := GetLoginFailCount(username, f);
      if failCount.None? {
        return Internal;
      }
      if failCount.value >= MAX_LOGIN_ATTEMPTS {
        return TooManyFails;
      }
      if !Replies(f, FindUser) {
        return Internal;
      }
      var found := store.GetAdminUserByUsername(username);
      if found.None? {
        RecordLoginFail(username, f);
        return WrongCredentials;
      }
      if store.tables.users[found.value].hashedPassword.password != password {
        RecordLoginFail(username, f);
        return WrongCredentials;
      }
      var _ := cache.Del([LoginFail(username)], FaultAt(f, DelCount));
      assert Reaches(f, DelCount) ==> cache.entries == old(cache.entries) - {LoginFail(username)};
      if !Replies(f, ListCodes) {
        return Internal;
      }
      reply := StartSession(Snapshot(store.tables, found.value), token, f);
    }

    /** One DEL for both keys. */
    method DropSession(token: string, id: nat, fault: Fault) returns (ok: bool)
      modifies cache`entries
      ensures ok <==> fault == Fine
      ensures Now() == if fault == Lost then old(Now()) else Drop(old(Now()), token, id)
    {
      ok := cache.Del([Session(token), AdminSession(id)], fault);
      assert fault != Lost ==> cache.entries == old(cache.entries) - {Session(token), AdminSession(id)};
    }

    method Logout(user: AuthUser, token: string, f: Faults) returns (reply: Reply)
      modifies cache`entries
      ensures (Now(), reply) == Perform(old(Now()), user, token, Action.Logout, f)
    {
      var ok := DropSession(token, user.userId, FaultAt(f, DelBoth));
      return if ok then Ok else Internal;
    }

    method ChangePassword(user: AuthUser, token: string, oldPassword: string, newPassword: string, f: Faults)
      returns (reply: Reply)
      modifies cache`entries, store`tables
      ensures (Now(), reply) == NewPassword(old(Now()), user, token, oldPassword, newPassword, f)
    {
      if !Replies(f, ReadUser) {
        return Internal;
      }
      var row := store.GetAdminUser(user.userId);
      if row.None? {
        return Internal;
      }
      if row.value.hashedPassword.password != oldPassword {
        return WrongCredentials;
      }
      if Reaches(f, Statement) {
        store.UpdateAdminUserPassword(user.userId, AdminTables.Hashed(newPassword));
      }
      if !Replies(f, Statement) {
        return Internal;
      }
      var _ := DropSession(token, user.userId, FaultAt(f, DelBoth));
      return Ok;
    }

    method KickAdminSession(id: nat, f: Faults)
      modifies cache`entries
      ensures Now() == Kick(old(Now()), id, f)
    {
      var index := cache.Get(AdminSession(id), FaultAt(f, KickGet));
      match index {
        case Found(Token(token)) => var _ := DropSession(token, id, FaultAt(f, KickDel));
        case _ =>
      }
    }

    // ---- middleware.go ----

    /** Looks the token up and slides both deadlines; no user means the request
        stops with this reply. */
    method AuthMiddleware(token: string, f: Faults) returns (user: Option<AuthUser>, reply: Reply)
      modifies cache`entries
      ensures user.Some? <==> && token != "" && Replies(f, GetSession)
                              && Live(old(cache.entries), cache.now, Session(token))
                              && old(cache.entries)[Session(token)].value.Payload?
      ensures user.Some? ==> && old(cache.entries)[Session(token)].value == Payload(user.value)
                             && Now() == Slide(old(Now()), token, user.value, f)
      ensures user.None? ==> Now() == old(Now()) && forall a :: CallStep(old(Now()), token, a, f) == (Now(), reply)
    {
      if token == "" {
        return None, Unauthorized;
      }
      var r := cache.Get(Session(token), FaultAt(f, GetSession));
      match r
      case NotFound => return None, Unauthorized;
      case Unreachable => return None, Internal;
      case Found(Payload(u)) =>
        var _ := cache.Expire(Session(token), tokenDuration, FaultAt(f, ExpireSession));
        var _ := cache.Expire(AdminSession(u.userId), tokenDuration, FaultAt(f, ExpireIndex));
        return Some(u), Ok;
      case Found(_) => return None, Internal;
    }

    method PermMiddleware(user: AuthUser, a: Action) returns (allowed: bool)
      ensures allowed == Permitted(user, a)
      ensures allowed == Answers.MayUse(user.permissions, a)
    {
      match Required(a)
      case None => return true;
      case Some(code) => allowed := AdminTables.HasPermission(user.permissions, code);
    }

    // ---- admin_user.go ----

    method DeleteAdminUser(user: AuthUser, id: nat, f: Faults) returns (reply: Reply)
      modifies cache`entries, store`tables
      ensures (Now(), reply) == Delete(old(Now()), user, id, f)
      ensures reply == NoSuchUser <==>
        id != user.userId && Replies(f, Statement) && !Answers.Exists(old(store.tables), id)
    {
      if id == user.userId {
        return CannotDeleteSelf;
      }
      var rows := 0;
      if Reaches(f, Statement) {
        rows := store.SoftDeleteAdminUser(id, cache.now);
      }
      if !Replies(f, Statement) {
        return Internal;
      }
      if rows == 0 {
        return NoSuchUser;
      }
      KickAdminSession(id, f);
      return Ok;
    }

    method RestoreAdminUser(user: AuthUser, token: string, id: nat, f: Faults) returns (reply: Reply)
      modifies store`tables
      ensures (Now(), reply) == Perform(old(Now()), user, token, RestoreAdmin(id), f)
      ensures reply == NoSuchUser <==> Replies(f, Statement) && !Answers.IsDeleted(old(store.tables), id)
      ensures reply == Conflict ==> Answers.IsDeleted(old(store.tables), id)
    {
      var rows, err := 0, AdminTables.Nil;
      if Reaches(f, Statement) {
        rows, err := store.RestoreAdminUser(id);
      }
      if !Replies(f, Statement) {
        return Internal;
      }
      if err != AdminTables.Nil {
        return Conflict;
      }
      return if rows == 0 then NoSuchUser else Ok;
    }

    method UpdateAdminUserRoles(user: AuthUser, token: string, id: nat, roleIds: seq<int>, f: Faults)
      returns (reply: Reply)
      modifies store
      ensures (Now(), reply) == Perform(old(Now()), user, token, SetRoles(id, roleIds), f)
    {
      if !Replies(f, ReadUser) {
        return Internal;
      }
      var row := store.GetAdminUser(id);
      if row.None? {
        return NoSuchUser;
      }
      var err := store.UpdateAdminUserRolesTx(id, roleIds, if Reaches(f, Statement) then None else Some(0));
      if !Replies(f, Statement) {
        return Internal;
      }
      match err
      case Nil => return Ok;
      case ForeignKey => return InvalidParams;
      case _ => return Internal;
    }

    method CreateAdminUser(user: AuthUser, token: string, username: string, password: string, roleIds: seq<int>,
        f: Faults)
      returns (reply: Reply)
      requires AdminTables.Consistent(store.tables)
      modifies store
      ensures (Now(), reply) == Perform(old(Now()), user, token, CreateAdmin(username, password, roleIds), f)
    {
      var hash := AdminTables.Hashed(password);
      var _, err := store.CreateAdminUserTx(username, hash, roleIds, if Reaches(f, Statement) then None else Some(0));
      if !Replies(f, Statement) {
        return Internal;
      }
      match err
      case Nil => return Ok;
      case ForeignKey => return InvalidParams;
      case DuplicateKey => return Conflict;
      case Connection => return Internal;
    }

    // ---- server.go: an authenticated route ----

    method Handle(token: string, a: Action, f: Faults) returns (reply: Reply)
      requires AdminTables.Consistent(store.tables)
      modifies cache`entries, store
      ensures (Now(), reply) == CallStep(old(Now()), token, a, f)
    {
      var user;
      user, reply := AuthMiddleware(token, f);
      if user.None? {
        return;
      }
      var allowed := PermMiddleware(user.value, a);
      if !allowed {
        return Forbidden;
      }
      match a
      case Me => reply := Ok;
      case Use(_) => reply := Ok;
      case Logout => reply := Logout(user.value, token, f);
      case ChangePassword(o, n) => reply := ChangePassword(user.value, token, o, n, f);
      case DeleteAdmin(id) => reply := DeleteAdminUser(user.value, id, f);
      case RestoreAdmin(id) => reply := RestoreAdminUser(user.value, token, id, f);
      case SetRoles(id, roleIds) => reply := UpdateAdminUserRoles(user.value, token, id, roleIds, f);
      case CreateAdmin(username, password, roleIds) =>
        reply := CreateAdminUser(user.value, token, username, password, roleIds, f);
    }
  }
}
