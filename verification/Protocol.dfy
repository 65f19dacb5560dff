// Many requests in flight at once.  A step is one cache command or one database
// statement of one request; it may succeed, fail without effect, or take effect and
// still be reported as failed.
module Protocol {
  import opened Base
  import opened Cache
  import opened Sessions
  import AdminTables

  /** Where a request stands: the call it makes next and what it remembers. */
  datatype Proc =
    // login
    | Gate(username: string, password: string, token: string)       // GET login_fail
    | Lookup(username: string, password: string, token: string)     // SELECT admin user
    | Record(username: string)                                      // INCR login_fail
    | ArmExpiry(username: string)                                   // EXPIRE login_fail, after INCR gave 1
    | Clear(id: nat, username: string, token: string)               // DEL login_fail
    | ReadCodes(id: nat, username: string, token: string)           // SELECT permission codes
    | ReadIndex(user: AuthUser, token: string)                      // GET admin_session
    | Evict(user: AuthUser, token: string, oldToken: string)        // DEL the old session
    | PutSession(user: AuthUser, token: string)                     // SET session
    | PutIndex(user: AuthUser, token: string)                       // SET admin_session
    | TakeBack(user: AuthUser, token: string)                       // DEL the new session
    // authenticated routes
    | Authenticate(token: string, action: Action)                   // GET session
    | RenewSession(user: AuthUser, token: string, action: Action)   // EXPIRE session
    | RenewIndex(user: AuthUser, token: string, action: Action)     // EXPIRE admin_session
    | Act(user: AuthUser, token: string, action: Action)            // the handler's first call
    | WritePassword(user: AuthUser, token: string, newPassword: string)
    | DropKeys(user: AuthUser, token: string)                       // DEL both keys after a password change
    | KickRead(id: nat)                                             // GET admin_session of the deleted
    | KickDrop(id: nat, token: string)                              // DEL both keys of the deleted
    | ReplaceRoles(id: nat, roleIds: seq<int>)
    | Finished(reply: Reply)

  /** The middlewares and checks that precede a handler's first call. */
  predicate MakesNoCall(p: Proc) {
    match p
    case Authenticate(token, _) => token == ""
    case Act(user, _, a) => !Permitted(user, a) || a.Me? || a.Use? || a == DeleteAdmin(user.userId)
    case _ => false
  }

  function ActEffect(w: World, user: AuthUser, token: string, a: Action): World {
    match a
    case Logout => Drop(w, token, user.userId)
    case DeleteAdmin(id) => w.(db := AdminTables.SoftDelete(w.db, id, w.now).0)
    case RestoreAdmin(id) => w.(db := AdminTables.Restore(w.db, id).0)
    case CreateAdmin(username, password, roleIds) =>
      w.(db := AdminTables.CreateAdmin(w.db, username, AdminTables.Hashed(password), roleIds).0)
    case _ => w
  }

  /** What the call does when it reaches its server. */
  function Effect(w: World, p: Proc): World {
    match p
    case Record(username) => WithCache(w, IncrOf(w.cache, w.now, LoginFail(username)).0)
    case ArmExpiry(username) => WithCache(w, ExpireIn(w.cache, w.now, LoginFail(username), LOGIN_FAIL_TTL))
    case Clear(_, username, _) => Without(w, {LoginFail(username)})
    case Evict(_, _, oldToken) => Without(w, {Session(oldToken)})
    case PutSession(user, token) => WithCache(w, SetTo(w.cache, w.now, Session(token), Payload(user), w.tokenDuration))
    case PutIndex(user, token) =>
      WithCache(w, SetTo(w.cache, w.now, AdminSession(user.userId), Token(token), w.tokenDuration))
    case TakeBack(_, token) => Without(w, {Session(token)})
    case RenewSession(_, token, _) => WithCache(w, ExpireIn(w.cache, w.now, Session(token), w.tokenDuration))
    case RenewIndex(user, _, _) => WithCache(w, ExpireIn(w.cache, w.now, AdminSession(user.userId), w.tokenDuration))
    case Act(user, token, a) => if MakesNoCall(p) then w else ActEffect(w, user, token, a)
    case WritePassword(user, _, newPassword) =>
      w.(db := AdminTables.UpdatePassword(w.db, user.userId, AdminTables.Hashed(newPassword)))
    case DropKeys(user, token) => Drop(w, token, user.userId)
    case KickDrop(id, token) => Drop(w, token, id)
    case ReplaceRoles(id, roleIds) => w.(db := AdminTables.ReplaceRoles(w.db, id, roleIds).0)
    case _ => w
  }

  function AfterAct(w: World, user: AuthUser, token: string, a: Action): Proc {
    match a
    case Me => Finished(Ok)
    case Use(_) => Finished(Ok)
    case Logout => Finished(Ok)
    case ChangePassword(oldPassword, newPassword) =>
      if !AdminTables.Live(w.db, user.userId) then Finished(Internal)
      else if w.db.users[user.userId].hashedPassword.password != oldPassword then Finished(WrongCredentials)
      else WritePassword(user, token, newPassword)
    case DeleteAdmin(id) =>
      if id == user.userId then Finished(CannotDeleteSelf)
      else if AdminTables.SoftDelete(w.db, id, w.now).1 == 0 then Finished(NoSuchUser)
      else KickRead(id)
    case RestoreAdmin(id) =>
      var (_, rows, err) := AdminTables.Restore(w.db, id);
      Finished(if err != AdminTables.Nil then Conflict else if rows == 0 then NoSuchUser else Ok)
    case SetRoles(id, roleIds) => if AdminTables.Live(w.db, id) then ReplaceRoles(id, roleIds) else Finished(NoSuchUser)
    case CreateAdmin(username, password, roleIds) =>
      var err := AdminTables.CreateAdmin(w.db, username, AdminTables.Hashed(password), roleIds).2;
      Finished(if err == AdminTables.Nil then Ok else if err == AdminTables.ForeignKey then InvalidParams else Conflict)
  }

  /** How the request goes on when the call, made in w, succeeds. */
  function After(w: World, p: Proc): Proc
    requires !p.Finished?
  {
    match p
    case Gate(username, password, token) =>
      var count := FailCount(w, username);
      if count.None? then Finished(Internal)
      else if count.value >= MAX_LOGIN_ATTEMPTS then Finished(TooManyFails)
      else Lookup(username, password, token)
    case Lookup(username, password, token) =>
      var account := Account(w.db, username, password);
      if account.None? then Record(username) else Clear(account.value, username, token)
    case Record(username) =>
      if IncrOf(w.cache, w.now, LoginFail(username)).1 == Some(1) then ArmExpiry(username)
      else Finished(WrongCredentials)
    case ArmExpiry(_) => Finished(WrongCredentials)
    case Clear(id, username, token) => ReadCodes(id, username, token)
    case ReadCodes(id, username, token) =>
      ReadIndex(AuthUser(id, username, AdminTables.PermissionCodes(w.db, id)), token)
    case ReadIndex(user, token) =>
      (match GetOf(w.cache, w.now, AdminSession(user.userId))
       case Found(Token(oldToken)) => Evict(user, token, oldToken)
       case _ => PutSession(user, token))
    case Evict(user, token, _) => PutSession(user, token)
    case PutSession(user, token) => PutIndex(user, token)
    case PutIndex(user, token) => Finished(LoggedIn(token, user))
    case TakeBack(_, _) => Finished(Internal)
    case Authenticate(token, a) =>
      if token == "" then Finished(Unauthorized)
      else (match GetOf(w.cache, w.now, Session(token))
            case NotFound => Finished(Unauthorized)
            case Found(Payload(user)) => RenewSession(user, token, a)
            case _ => Finished(Internal))
    case RenewSession(user, token, a) => RenewIndex(user, token, a)
    case RenewIndex(user, token, a) => Act(user, token, a)
    case Act(user, token, a) => if !Permitted(user, a) then Finished(Forbidden) else AfterAct(w, user, token, a)
    case WritePassword(user, token, _) => DropKeys(user, token)
    case DropKeys(_, _) => Finished(Ok)
    case KickRead(id) =>
      (match GetOf(w.cache, w.now, AdminSession(id))
       case Found(Token(token)) => KickDrop(id, token)
       case _ => Finished(Ok))
    case KickDrop(_, _) => Finished(Ok)
    case ReplaceRoles(id, roleIds) =>
      var err := AdminTables.ReplaceRoles(w.db, id, roleIds).1;
      Finished(if err == AdminTables.Nil then Ok else if err == AdminTables.ForeignKey then InvalidParams else Internal)
  }

  /** How the request goes on when the call reports an error: best-effort calls are
      only logged. */
  function OnError(w: World, p: Proc): Proc
    requires !p.Finished?
  {
    if MakesNoCall(p) then After(w, p)
    else match p
      case Record(_) => Finished(WrongCredentials)
      case ArmExpiry(_) => Finished(WrongCredentials)
      case Clear(id, username, token) => ReadCodes(id, username, token)
      case ReadIndex(user, token) => PutSession(user, token)
      case Evict(user, token, _) => PutSession(user, token)
      case PutIndex(user, token) => TakeBack(user, token)
      case RenewSession(user, token, a) => RenewIndex(user, token, a)
      case RenewIndex(user, token, a) => Act(user, token, a)
      case DropKeys(_, _) => Finished(Ok)
      case KickRead(_) => Finished(Ok)
      case KickDrop(_, _) => Finished(Ok)
      case _ => Finished(Internal)
  }

  /** The world and the request after a call that met this fault. */
  function Carried(w: World, p: Proc, fault: Fault): World {
    if fault == Lost then w else Effect(w, p)
  }

  function Continued(w: World, p: Proc, fault: Fault): Proc
    requires !p.Finished?
  {
    if fault == Fine then After(w, p) else OnError(w, p)
  }

  // ---- The machine ----

  /** `drawn` remembers every token drawn and, once the credentials are checked, the
      account it was drawn for. */
  datatype State = State(world: World, procs: seq<Proc>, drawn: map<string, Option<nat>>)

  datatype Step = Spawn(proc: Proc) | Run(i: nat, fault: Fault) | Pass(seconds: nat)

  predicate Enabled(s: State, step: Step) {
    match step
    case Spawn(p) => (p.Gate? && p.token !in s.drawn) || p.Authenticate?
    case Run(i, _) => i < |s.procs| && !s.procs[i].Finished?
    case Pass(_) => true
  }

  function Next(s: State, step: Step): State
    requires Enabled(s, step)
  {
    match step
    case Spawn(p) => s.(procs := s.procs + [p], drawn := if p.Gate? then s.drawn[p.token := None] else s.drawn)
    case Pass(seconds) => s.(world := s.world.(now := s.world.now + seconds))
    case Run(i, fault) =>
      var p := s.procs[i];
      State(Carried(s.world, p, fault),
            s.procs[i := Continued(s.world, p, fault)],
            if p.Lookup? && fault == Fine && After(s.world, p).Clear? then
              s.drawn[p.token := Some(After(s.world, p).id)]
            else s.drawn)
  }

  ghost predicate IsRun(run: seq<State>, steps: seq<Step>) {
    && |run| == |steps| + 1
    && forall k :: 0 <= k < |steps| ==> Enabled(run[k], steps[k]) && run[k + 1] == Next(run[k], steps[k])
  }

  ghost predicate Starts(s: State) {
    s.procs == [] && s.drawn == map[] && s.world.cache == map[] && s.world.tokenDuration > 0
  }

  predicate AtRest(s: State) {
    forall i :: 0 <= i < |s.procs| ==> s.procs[i].Finished?
  }

  // ---- One request, uninterrupted ----

  function Site(p: Proc): Option<Sessions.Site> {
    match p
    case Gate(_, _, _) => Some(GetCount)
    case Lookup(_, _, _) => Some(FindUser)
    case Record(_) => Some(IncrCount)
    case ArmExpiry(_) => Some(ExpireCount)
    case Clear(_, _, _) => Some(DelCount)
    case ReadCodes(_, _, _) => Some(ListCodes)
    case ReadIndex(_, _) => Some(GetIndex)
    case Evict(_, _, _) => Some(DelOld)
    case PutSession(_, _) => Some(SetSession)
    case PutIndex(_, _) => Some(SetIndex)
    case TakeBack(_, _) => Some(DelNew)
    case Authenticate(_, _) => Some(GetSession)
    case RenewSession(_, _, _) => Some(ExpireSession)
    case RenewIndex(_, _, _) => Some(ExpireIndex)
    case Act(_, _, a) =>
      if a.Logout? then Some(DelBoth) else if a.ChangePassword? || a.SetRoles? then Some(ReadUser) else Some(Statement)
    case WritePassword(_, _, _) => Some(Statement)
    case DropKeys(_, _) => Some(DelBoth)
    case KickRead(_) => Some(KickGet)
    case KickDrop(_, _) => Some(KickDel)
    case ReplaceRoles(_, _) => Some(Statement)
    case Finished(_) => None
  }

  /** Calls a request may still make. */
  function Remaining(p: Proc): nat {
    match p
    case Gate(_, _, _) => 10
    case Lookup(_, _, _) => 9
    case Clear(_, _, _) => 8
    case ReadCodes(_, _, _) => 7
    case ReadIndex(_, _) => 6
    case Evict(_, _, _) => 5
    case PutSession(_, _) => 4
    case PutIndex(_, _) => 3
    case TakeBack(_, _) => 2
    case Record(_) => 2
    case ArmExpiry(_) => 1
    case Authenticate(_, _) => 6
    case RenewSession(_, _, _) => 5
    case RenewIndex(_, _, _) => 4
    case Act(_, _, _) => 3
    case WritePassword(_, _, _) => 2
    case DropKeys(_, _) => 1
    case KickRead(_) => 2
    case KickDrop(_, _) => 1
    case ReplaceRoles(_, _) => 2
    case Finished(_) => 0
  }

  lemma SuccessAdvances(w: World, p: Proc)
    requires !p.Finished?
    ensures Remaining(After(w, p)) < Remaining(p)
  {
  }

  /** Every call brings a request nearer its end, whether it succeeds or not. */
  lemma CallsRunOut(w: World, p: Proc)
    requires !p.Finished?
    ensures Remaining(After(w, p)) < Remaining(p)
    ensures Remaining(OnError(w, p)) < Remaining(p)
  {
    SuccessAdvances(w, p);
  }

  function FaultOf(p: Proc, f: Faults): Fault
    requires !p.Finished?
  {
    FaultAt(f, Site(p).value)
  }

  /** The request makes its calls back to back, with the faults of f. */
  function Solo(w: World, p: Proc, f: Faults): (World, Reply)
    decreases Remaining(p)
  {
    if p.Finished? then (w, p.reply)
    else
      CallsRunOut(w, p);
      Solo(Carried(w, p, FaultOf(p, f)), Continued(w, p, FaultOf(p, f)), f)
  }

  lemma SoloCalls(w: World, p: Proc, f: Faults)
    requires !p.Finished?
    ensures Solo(w, p, f) == Solo(Carried(w, p, FaultOf(p, f)), Continued(w, p, FaultOf(p, f)), f)
  {
  }

  /** The last call of a request. */
  lemma SoloMakes(w: World, p: Proc, f: Faults)
    requires !p.Finished? && After(w, p).Finished? && OnError(w, p).Finished?
    ensures Solo(w, p, f) == (Carried(w, p, FaultOf(p, f)), Continued(w, p, FaultOf(p, f)).reply)
  {
    SoloCalls(w, p, f);
    var w', q := Carried(w, p, FaultOf(p, f)), Continued(w, p, FaultOf(p, f));
    assert Solo(w', q, f) == (w', q.reply);
  }

  lemma SoloOpens(w: World, user: AuthUser, token: string, f: Faults)
    ensures Solo(w, PutSession(user, token), f) ==
      var written := WriteSession(w, user, token, f);
      if !Replies(f, SetSession) then (written, Internal)
      else
        var indexed := WriteIndex(written, user.userId, token, f);
        if !Replies(f, SetIndex) then
          (if Reaches(f, DelNew) then Without(indexed, {Session(token)}) else indexed, Internal)
        else (indexed, LoggedIn(token, user))
  {
    SoloCalls(w, PutSession(user, token), f);
    if Replies(f, SetSession) {
      var written := WriteSession(w, user, token, f);
      SoloCalls(written, PutIndex(user, token), f);
      SoloMakes(WriteIndex(written, user.userId, token, f), TakeBack(user, token), f);
    }
  }

  lemma SoloEvicts(w: World, user: AuthUser, token: string, f: Faults)
    ensures Solo(w, ReadIndex(user, token), f) == Solo(EvictOld(w, user.userId, f), PutSession(user, token), f)
  {
    SoloCalls(w, ReadIndex(user, token), f);
    var p := After(w, ReadIndex(user, token));
    if Replies(f, GetIndex) && p.Evict? {
      SoloCalls(w, p, f);
    }
  }

  lemma SoloRecords(w: World, username: string, f: Faults)
    ensures Solo(w, Record(username), f) == (RecordFail(w, username, f), WrongCredentials)
  {
    SoloCalls(w, Record(username), f);
    var w1, p := Effect(w, Record(username)), After(w, Record(username));
    if Replies(f, IncrCount) && p.ArmExpiry? {
      SoloMakes(w1, p, f);
    }
  }

  lemma SoloVerified(w: World, id: nat, username: string, token: string, f: Faults)
    requires id in w.db.users && w.db.users[id].username == username
    ensures Solo(w, Clear(id, username, token), f) ==
      if !Replies(f, ListCodes) then (Cleared(w, username, f), Internal)
      else OpenSession(Cleared(w, username, f), Snapshot(w.db, id), token, f)
  {
    var cleared := Cleared(w, username, f);
    SoloCalls(w, Clear(id, username, token), f);
    SoloCalls(cleared, ReadCodes(id, username, token), f);
    if Replies(f, ListCodes) {
      var user := Snapshot(w.db, id);
      SoloEvicts(cleared, user, token, f);
      SoloOpens(EvictOld(cleared, id, f), user, token, f);
    }
  }

  /** A login nobody interrupts is the login of the serial model, whatever happens to
      its calls. */
  lemma SoloLogin(w: World, username: string, password: string, token: string, f: Faults)
    ensures Solo(w, Gate(username, password, token), f) == LoginStep(w, username, password, token, f)
  {
    SoloCalls(w, Gate(username, password, token), f);
    if Replies(f, GetCount) && After(w, Gate(username, password, token)).Lookup? {
      SoloCalls(w, Lookup(username, password, token), f);
      var account := Account(w.db, username, password);
      if Replies(f, FindUser) && account.None? {
        SoloRecords(w, username, f);
      } else if Replies(f, FindUser) {
        SoloVerified(w, account.value, username, token, f);
      }
    }
  }

  lemma SoloKicks(w: World, id: nat, f: Faults)
    ensures Solo(w, KickRead(id), f) == (Kick(w, id, f), Ok)
  {
    SoloCalls(w, KickRead(id), f);
    var p := After(w, KickRead(id));
    if p.KickDrop? {
      SoloMakes(w, p, f);
    }
  }

  lemma SoloWritesPassword(w: World, user: AuthUser, token: string, n: string, f: Faults)
    ensures Solo(w, WritePassword(user, token, n), f) ==
      var changed := Stored(w, AdminTables.UpdatePassword(w.db, user.userId, AdminTables.Hashed(n)), f);
      if !Replies(f, Statement) then (changed, Internal)
      else (if Reaches(f, DelBoth) then Drop(changed, token, user.userId) else changed, Ok)
  {
    SoloCalls(w, WritePassword(user, token, n), f);
    SoloMakes(Effect(w, WritePassword(user, token, n)), DropKeys(user, token), f);
  }

  lemma SoloChangesPassword(w: World, user: AuthUser, token: string, o: string, n: string, f: Faults)
    ensures Solo(w, Act(user, token, ChangePassword(o, n)), f) == NewPassword(w, user, token, o, n, f)
  {
    var act := Act(user, token, ChangePassword(o, n));
    SoloCalls(w, act, f);
    if Replies(f, ReadUser) && After(w, act).WritePassword? {
      SoloWritesPassword(w, user, token, n, f);
    }
  }

  lemma SoloDeletes(w: World, user: AuthUser, token: string, id: nat, f: Faults)
    requires Permitted(user, DeleteAdmin(id))
    ensures Solo(w, Act(user, token, DeleteAdmin(id)), f) == Delete(w, user, id, f)
  {
    var act := Act(user, token, DeleteAdmin(id));
    SoloCalls(w, act, f);
    if id != user.userId && Replies(f, Statement) {
      SoloKicks(Effect(w, act), id, f);
    }
  }

  lemma SoloSetsRoles(w: World, user: AuthUser, token: string, id: nat, roleIds: seq<int>, f: Faults)
    requires Permitted(user, SetRoles(id, roleIds))
    ensures Solo(w, Act(user, token, SetRoles(id, roleIds)), f) == Perform(w, user, token, SetRoles(id, roleIds), f)
  {
    var act := Act(user, token, SetRoles(id, roleIds));
    SoloCalls(w, act, f);
    if Replies(f, ReadUser) && After(w, act).ReplaceRoles? {
      SoloMakes(w, After(w, act), f);
    }
  }

  lemma SoloActs(w: World, user: AuthUser, token: string, a: Action, f: Faults)
    requires Permitted(user, a)
    ensures Solo(w, Act(user, token, a), f) == Perform(w, user, token, a, f)
  {
    match a
    case ChangePassword(o, n) => SoloChangesPassword(w, user, token, o, n, f);
    case DeleteAdmin(id) => SoloDeletes(w, user, token, id, f);
    case SetRoles(id, roleIds) => SoloSetsRoles(w, user, token, id, roleIds, f);
    case _ => SoloMakes(w, Act(user, token, a), f);
  }

  lemma SoloAdmits(w: World, user: AuthUser, token: string, a: Action, f: Faults)
    ensures Solo(w, Act(user, token, a), f) ==
      if Permitted(user, a) then Perform(w, user, token, a, f) else (w, Forbidden)
  {
    if Permitted(user, a) {
      SoloActs(w, user, token, a, f);
    } else {
      SoloMakes(w, Act(user, token, a), f);
    }
  }

  lemma SoloRenews(w: World, user: AuthUser, token: string, a: Action, f: Faults)
    ensures Solo(w, RenewSession(user, token, a), f) == Solo(Slide(w, token, user, f), Act(user, token, a), f)
  {
    SoloCalls(w, RenewSession(user, token, a), f);
    var renewed := Carried(w, RenewSession(user, token, a), FaultAt(f, ExpireSession));
    SoloCalls(renewed, RenewIndex(user, token, a), f);
  }

  /** And so is every authenticated request. */
  lemma SoloCall(w: World, token: string, a: Action, f: Faults)
    ensures Solo(w, Authenticate(token, a), f) == CallStep(w, token, a, f)
  {
    SoloCalls(w, Authenticate(token, a), f);
    var p := After(w, Authenticate(token, a));
    if token != "" && Replies(f, GetSession) && p.RenewSession? {
      SoloRenews(w, p.user, token, a, f);
      SoloAdmits(Slide(w, token, p.user, f), p.user, token, a, f);
    }
  }
}
