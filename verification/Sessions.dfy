// Admin sessions, one request at a time: what each handler does to the cache and
// the admin tables, and what it answers, whichever of its calls are lost or reported
// as failed after taking effect.
module Sessions {
  import opened Base
  import opened Cache
  import AdminTables

  const MAX_LOGIN_ATTEMPTS := 5
  const LOGIN_FAIL_TTL := 900    // 15 minutes, in seconds

  datatype World = World(tokenDuration: int, now: int, cache: Entries, db: AdminTables.Tables)

  /** The cache and database calls of the handlers. */
  datatype Site =
    | GetCount | IncrCount | ExpireCount | DelCount              // login: failure counter
    | FindUser | ListCodes                                       // login: database
    | GetIndex | DelOld | SetSession | SetIndex | DelNew         // login: session
    | GetSession | ExpireSession | ExpireIndex                   // authMiddleware
    | DelBoth                                                    // logout, changePassword
    | ReadUser | Statement                                       // handlers: database
    | KickGet | KickDel                                          // kickAdminSession

  /** What happens to the calls of one request; those not named succeed. */
  type Faults = map<Site, Fault>

  const NO_FAULTS: Faults := map[]

  function FaultAt(f: Faults, s: Site): Fault {
    if s in f then f[s] else Fine
  }

  /** The call takes effect. */
  predicate Reaches(f: Faults, s: Site) {
    FaultAt(f, s) != Lost
  }

  /** The call takes effect and the caller knows. */
  predicate Replies(f: Faults, s: Site) {
    FaultAt(f, s) == Fine
  }

  datatype Action =
    | Me
    | Use(code: string)              // any other route behind permMiddleware(code)
    | Logout
    | ChangePassword(oldPassword: string, newPassword: string)
    | DeleteAdmin(id: nat)
    | RestoreAdmin(id: nat)
    | SetRoles(id: nat, roleIds: seq<int>)
    | CreateAdmin(username: string, password: string, roleIds: seq<int>)

  datatype Request =
    | Login(username: string, password: string, token: string)   // token: the UUID the server will draw
    | Call(token: string, action: Action)
    | Tick(seconds: nat)

  datatype Reply =
    | LoggedIn(token: string, user: AuthUser) | Ok
    | TooManyFails | WrongCredentials | Unauthorized | Forbidden
    | CannotDeleteSelf | NoSuchUser | Conflict | InvalidParams | Internal

  function WithCache(w: World, c: Entries): World {
    w.(cache := c)
  }

  function Without(w: World, ks: set<Key>): World {
    WithCache(w, w.cache - ks)
  }

  // ---- login ----

  /** getLoginFailCount; None when the value is not a number. */
  function FailCount(w: World, username: string): Option<int> {
    match GetOf(w.cache, w.now, LoginFail(username))
    case NotFound => Some(0)
    case Found(Count(n)) => Some(n)
    case _ => None
  }

  function RecordFail(w: World, username: string, f: Faults): World {
    var (incr, expire) := (FaultAt(f, IncrCount), FaultAt(f, ExpireCount));
    WithCache(w, IncrThenExpire(w.cache, w.now, LoginFail(username), LOGIN_FAIL_TTL, incr, expire).0)
  }

  /** The account these credentials open, if any. */
  function Account(db: AdminTables.Tables, username: string, password: string): Option<nat> {
    var found := AdminTables.FindByUsername(db, username);
    if found.Some? && db.users[found.value].hashedPassword.password == password then found else None
  }

  /** The session payload: identity and permissions as they stand now. */
  function Snapshot(db: AdminTables.Tables, id: nat): AuthUser
    requires id in db.users
  {
    AuthUser(id, db.users[id].username, AdminTables.PermissionCodes(db, id))
  }

  /** One session per account: drop the indexed one, then write session and index. */
  function EvictOld(w: World, id: nat, f: Faults): World {
    if !Replies(f, GetIndex) then w
    else match GetOf(w.cache, w.now, AdminSession(id))
      case Found(Token(old')) => if Reaches(f, DelOld) then Without(w, {Session(old')}) else w
      case _ => w
  }

  function WriteSession(w: World, user: AuthUser, token: string, f: Faults): World {
    if !Reaches(f, SetSession) then w
    else WithCache(w, SetTo(w.cache, w.now, Session(token), Payload(user), w.tokenDuration))
  }

  function WriteIndex(w: World, id: nat, token: string, f: Faults): World {
    if !Reaches(f, SetIndex) then w
    else WithCache(w, SetTo(w.cache, w.now, AdminSession(id), Token(token), w.tokenDuration))
  }

  function OpenSession(w: World, user: AuthUser, token: string, f: Faults): (World, Reply) {
    var written := WriteSession(EvictOld(w, user.userId, f), user, token, f);
    if !Replies(f, SetSession) then (written, Internal)
    else
      var indexed := WriteIndex(written, user.userId, token, f);
      if !Replies(f, SetIndex) then
        (if Reaches(f, DelNew) then Without(indexed, {Session(token)}) else indexed, Internal)
      else (indexed, LoggedIn(token, user))
  }

  function Cleared(w: World, username: string, f: Faults): World {
    if Reaches(f, DelCount) then Without(w, {LoginFail(username)}) else w
  }

  function LoginStep(w: World, username: string, password: string, token: string, f: Faults): (World, Reply) {
    var count := FailCount(w, username);
    if !Replies(f, GetCount) || count.None? then (w, Internal)
    else if count.value >= MAX_LOGIN_ATTEMPTS then (w, TooManyFails)
    else if !Replies(f, FindUser) then (w, Internal)
    else
      var account := Account(w.db, username, password);
      if account.None? then (RecordFail(w, username, f), WrongCredentials)
      else
        var cleared := Cleared(w, username, f);
        if !Replies(f, ListCodes) then (cleared, Internal)
        else OpenSession(cleared, Snapshot(w.db, account.value), token, f)
  }

  // ---- authMiddleware and permMiddleware ----

  function Slide(w: World, token: string, user: AuthUser, f: Faults): World {
    var c1 := if Reaches(f, ExpireSession) then ExpireIn(w.cache, w.now, Session(token), w.tokenDuration) else w.cache;
    var c2 := if Reaches(f, ExpireIndex) then ExpireIn(c1, w.now, AdminSession(user.userId), w.tokenDuration) else c1;
    WithCache(w, c2)
  }

  function Required(a: Action): Option<string> {
    match a
    case Use(code) => Some(code)
    case DeleteAdmin(_) => Some("admin_user:write")
    case RestoreAdmin(_) => Some("admin_user:write")
    case SetRoles(_, _) => Some("admin_user:write")
    case CreateAdmin(_, _, _) => Some("admin_user:write")
    case _ => None
  }

  predicate Permitted(user: AuthUser, a: Action) {
    Required(a).Some? ==> AdminTables.Allows(user.permissions, Required(a).value)
  }

  // ---- the handlers behind it ----

  function Drop(w: World, token: string, id: nat): World {
    Without(w, {Session(token), AdminSession(id)})
  }

  /** A statement's new tables, if it reached the database. */
  function Stored(w: World, db: AdminTables.Tables, f: Faults): World {
    if Reaches(f, Statement) then w.(db := db) else w
  }

  function NewPassword(w: World, user: AuthUser, token: string, oldPassword: string, newPassword: string, f: Faults)
    : (World, Reply)
  {
    if !Replies(f, ReadUser) || !AdminTables.Live(w.db, user.userId) then (w, Internal)
    else if w.db.users[user.userId].hashedPassword.password != oldPassword then (w, WrongCredentials)
    else
      var changed := Stored(w, AdminTables.UpdatePassword(w.db, user.userId, AdminTables.Hashed(newPassword)), f);
      if !Replies(f, Statement) then (changed, Internal)
      else (if Reaches(f, DelBoth) then Drop(changed, token, user.userId) else changed, Ok)
  }

  /** kickAdminSession. */
  function Kick(w: World, id: nat, f: Faults): World {
    if !Replies(f, KickGet) then w
    else match GetOf(w.cache, w.now, AdminSession(id))
      case Found(Token(token)) => if Reaches(f, KickDel) then Drop(w, token, id) else w
      case _ => w
  }

  function Delete(w: World, user: AuthUser, id: nat, f: Faults): (World, Reply) {
    if id == user.userId then (w, CannotDeleteSelf)
    else
      var (db, rows) := AdminTables.SoftDelete(w.db, id, w.now);
      if !Replies(f, Statement) then (Stored(w, db, f), Internal)
      else if rows == 0 then (w, NoSuchUser)
      else (Kick(w.(db := db), id, f), Ok)
  }

  function Perform(w: World, user: AuthUser, token: string, a: Action, f: Faults): (World, Reply) {
    match a
    case Me => (w, Ok)
    case Use(_) => (w, Ok)
    case Logout =>
      (if Reaches(f, DelBoth) then Drop(w, token, user.userId) else w, if Replies(f, DelBoth) then Ok else Internal)
    case ChangePassword(oldPassword, newPassword) => NewPassword(w, user, token, oldPassword, newPassword, f)
    case DeleteAdmin(id) => Delete(w, user, id, f)
    case RestoreAdmin(id) =>
      var (db, rows, err) := AdminTables.Restore(w.db, id);
      (Stored(w, db, f),
       if !Replies(f, Statement) then Internal
       else if err != AdminTables.Nil then Conflict
       else if rows == 0 then NoSuchUser else Ok)
    case SetRoles(id, roleIds) =>
      if !Replies(f, ReadUser) then (w, Internal)
      else if !AdminTables.Live(w.db, id) then (w, NoSuchUser)
      else
        var (db, err) := AdminTables.ReplaceRoles(w.db, id, roleIds);
        (Stored(w, db, f),
         if !Replies(f, Statement) then Internal
         else if err == AdminTables.Nil then Ok
         else if err == AdminTables.ForeignKey then InvalidParams else Internal)
    case CreateAdmin(username, password, roleIds) =>
      var (db, _, err) := AdminTables.CreateAdmin(w.db, username, AdminTables.Hashed(password), roleIds);
      (Stored(w, db, f),
       if !Replies(f, Statement) then Internal
       else if err == AdminTables.Nil then Ok
       else if err == AdminTables.ForeignKey then InvalidParams else Conflict)
  }

  function CallStep(w: World, token: string, a: Action, f: Faults): (World, Reply) {
    if token == "" then (w, Unauthorized)
    else if !Replies(f, GetSession) then (w, Internal)
    else match GetOf(w.cache, w.now, Session(token))
      case NotFound => (w, Unauthorized)
      case Found(Payload(user)) =>
        var slid := Slide(w, token, user, f);
        if Permitted(user, a) then Perform(slid, user, token, a, f) else (slid, Forbidden)
      case _ => (w, Internal)
  }

  function Serve(w: World, r: Request, f: Faults): (World, Reply) {
    match r
    case Login(username, password, token) => LoginStep(w, username, password, token, f)
    case Call(token, a) => CallStep(w, token, a, f)
    case Tick(seconds) => (w.(now := w.now + seconds), Ok)
  }
}
