// What does not survive interleaving, without a single failing call: two logins of one
// account, a login and the deletion of its account, a logout and a later login, a login
// and a password change, or two deletions can pass each other; and a slow renewal can
// lose its index with no overlap at all.
module ProtocolRaces {
  import opened Base
  import opened Cache
  import opened Sessions
  import opened SessionAgreement
  import opened Protocol
  import AdminTables

  function Last(run: seq<State>): State
    requires run != []
  {
    run[|run| - 1]
  }

  /** A run in which no call fails. */
  ghost predicate FaultFree(run: seq<State>, steps: seq<Step>) {
    IsRun(run, steps) && forall k :: 0 <= k < |steps| && steps[k].Run? ==> steps[k].fault == Fine
  }

  lemma Extend(run: seq<State>, steps: seq<Step>, step: Step) returns (run': seq<State>, steps': seq<Step>)
    requires FaultFree(run, steps) && Enabled(Last(run), step) && (step.Run? ==> step.fault == Fine)
    ensures FaultFree(run', steps') && run <= run' && Last(run') == Next(Last(run), step)
    ensures steps <= steps' && |steps'| == |steps| + 1 && steps'[|steps|] == step
  {
    run', steps' := run + [Next(Last(run), step)], steps + [step];
  }

  /** The account's next login would find no counter and no index entry. */
  predicate Undisturbed(w: World, username: string, u: nat) {
    LoginFail(username) !in w.cache && AdminSession(u) !in w.cache
  }

  /** One call of request i that succeeds. */
  lemma Move(run: seq<State>, steps: seq<Step>, i: nat, p: Proc, q: Proc)
    returns (run': seq<State>, steps': seq<Step>)
    requires FaultFree(run, steps) && i < |Last(run).procs| && Last(run).procs[i] == p && !p.Finished?
    requires After(Last(run).world, p) == q
    ensures FaultFree(run', steps') && run <= run' && steps <= steps'
    ensures Last(run').world == Effect(Last(run).world, p) && Last(run').procs == Last(run).procs[i := q]
  {
    run', steps' := Extend(run, steps, Run(i, Fine));
  }

  lemma LoginVerified(run: seq<State>, steps: seq<Step>, i: nat, username: string, password: string, token: string,
      u: nat)
    returns (run': seq<State>, steps': seq<Step>)
    requires FaultFree(run, steps) && i < |Last(run).procs| && Last(run).procs[i] == Gate(username, password, token)
    requires Account(Last(run).world.db, username, password) == Some(u) && LoginFail(username) !in Last(run).world.cache
    ensures FaultFree(run', steps') && run'[0] == run[0] && Last(run').world == Last(run).world
    ensures Last(run').procs == Last(run).procs[i := Clear(u, username, token)]
  {
    run', steps' := Move(run, steps, i, Gate(username, password, token), Lookup(username, password, token));
    run', steps' := Move(run', steps', i, Lookup(username, password, token), Clear(u, username, token));
  }

  /** Four calls take a correct login from the gate to its look at the index. */
  lemma LoginUpToIndex(run: seq<State>, steps: seq<Step>, i: nat, username: string, password: string, token: string,
      u: nat)
    returns (run': seq<State>, steps': seq<Step>)
    requires FaultFree(run, steps) && i < |Last(run).procs| && Last(run).procs[i] == Gate(username, password, token)
    requires Account(Last(run).world.db, username, password) == Some(u) && LoginFail(username) !in Last(run).world.cache
    ensures FaultFree(run', steps') && run'[0] == run[0] && Last(run').world == Last(run).world
    ensures Last(run').procs == Last(run).procs[i := ReadIndex(Snapshot(Last(run).world.db, u), token)]
  {
    var w := Last(run).world;
    run', steps' := LoginVerified(run, steps, i, username, password, token, u);
    run', steps' := Move(run', steps', i, Clear(u, username, token), ReadCodes(u, username, token));
    assert Last(run').world.cache == w.cache;
    run', steps' := Move(run', steps', i, ReadCodes(u, username, token), ReadIndex(Snapshot(w.db, u), token));
  }

  /** Without an index entry the next call takes it to where it writes its session. */
  lemma LoginUpToPut(run: seq<State>, steps: seq<Step>, i: nat, username: string, password: string, token: string,
      u: nat)
    returns (run': seq<State>, steps': seq<Step>)
    requires FaultFree(run, steps) && i < |Last(run).procs| && Last(run).procs[i] == Gate(username, password, token)
    requires Account(Last(run).world.db, username, password) == Some(u) && Undisturbed(Last(run).world, username, u)
    ensures FaultFree(run', steps') && run'[0] == run[0] && Last(run').world == Last(run).world
    ensures Last(run').procs == Last(run).procs[i := PutSession(Snapshot(Last(run).world.db, u), token)]
  {
    var user := Snapshot(Last(run).world.db, u);
    run', steps' := LoginUpToIndex(run, steps, i, username, password, token, u);
    run', steps' := Move(run', steps', i, ReadIndex(user, token), PutSession(user, token));
  }

  /** With one, two calls do, and the old session is gone. */
  lemma LoginOverIndex(run: seq<State>, steps: seq<Step>, i: nat, username: string, password: string, token: string,
      u: nat, old': string)
    returns (run': seq<State>, steps': seq<Step>)
    requires FaultFree(run, steps) && i < |Last(run).procs| && Last(run).procs[i] == Gate(username, password, token)
    requires var w := Last(run).world;
      && Account(w.db, username, password) == Some(u) && LoginFail(username) !in w.cache
      && Names(w, old', u)
    ensures FaultFree(run', steps') && run'[0] == run[0]
    ensures Last(run').world == Without(Last(run).world, {Session(old')})
    ensures Last(run').procs == Last(run).procs[i := PutSession(Snapshot(Last(run).world.db, u), token)]
  {
    var user := Snapshot(Last(run).world.db, u);
    run', steps' := LoginUpToIndex(run, steps, i, username, password, token, u);
    run', steps' := Move(run', steps', i, ReadIndex(user, token), Evict(user, token, old'));
    run', steps' := Move(run', steps', i, Evict(user, token, old'), PutSession(user, token));
  }

  /** Two more make it visible. */
  lemma LoginFromPut(run: seq<State>, steps: seq<Step>, i: nat, user: AuthUser, token: string)
    returns (run': seq<State>, steps': seq<Step>)
    requires FaultFree(run, steps) && i < |Last(run).procs| && Last(run).procs[i] == PutSession(user, token)
    requires Last(run).world.tokenDuration > 0
    ensures FaultFree(run', steps') && run'[0] == run[0]
    ensures var w := Last(run).world;
      Last(run').world == w.(cache := w.cache[Session(token) := Item(Payload(user), Some(w.now + w.tokenDuration))]
                                             [AdminSession(user.userId) :=
                                               Item(Token(token), Some(w.now + w.tokenDuration))])
    ensures Last(run').procs == Last(run).procs[i := Finished(LoggedIn(token, user))]
  {
    run', steps' := Move(run, steps, i, PutSession(user, token), PutIndex(user, token));
    run', steps' := Move(run', steps', i, PutIndex(user, token), Finished(LoggedIn(token, user)));
  }

  /** Two logins of one account, neither of which sees the other's index entry, leave
      two live sessions, one of them beyond the reach of any later kick. */
  lemma TwoLoginsTwoSessions(s: State, username: string, password: string, t1: string, t2: string, u: nat)
    returns (run: seq<State>, steps: seq<Step>)
    requires Starts(s) && t1 != t2 && Account(s.world.db, username, password) == Some(u)
    ensures FaultFree(run, steps) && run[0] == s
    ensures SessionOf(Last(run).world, t1, u) && SessionOf(Last(run).world, t2, u) && !Agreement(Last(run).world)
  {
    var user := Snapshot(s.world.db, u);
    run, steps := [s], [];
    run, steps := Extend(run, steps, Spawn(Gate(username, password, t1)));
    run, steps := Extend(run, steps, Spawn(Gate(username, password, t2)));
    assert Last(run).procs == [Gate(username, password, t1), Gate(username, password, t2)];
    run, steps := LoginUpToPut(run, steps, 0, username, password, t1, u);
    run, steps := LoginUpToPut(run, steps, 1, username, password, t2, u);
    assert Last(run).procs == [PutSession(user, t1), PutSession(user, t2)];
    run, steps := LoginFromPut(run, steps, 0, user, t1);
    run, steps := LoginFromPut(run, steps, 1, user, t2);
    if Agreement(Last(run).world) {
      OneSessionPerUser(Last(run).world, t1, t2, u);
    }
  }

  /** The same keys with the same values, alive where they were alive. */
  ghost predicate SameContents(w: World, w': World) {
    && w' == w.(cache := w'.cache)
    && (forall k :: k in w'.cache <==> k in w.cache)
    && (forall k :: k in w.cache ==> w'.cache[k].value == w.cache[k].value)
    && (forall k :: Live(w.cache, w.now, k) ==> Live(w'.cache, w.now, k))
  }

  lemma RenewalSameContents(w: World, p: Proc)
    requires (p.RenewSession? || p.RenewIndex?) && w.tokenDuration > 0
    ensures SameContents(w, Effect(w, p))
  {
  }

  lemma CallRenewed(run: seq<State>, steps: seq<Step>, i: nat, user: AuthUser, token: string, a: Action)
    returns (run': seq<State>, steps': seq<Step>)
    requires FaultFree(run, steps) && i < |Last(run).procs| && Last(run).procs[i] == RenewSession(user, token, a)
    requires Last(run).world.tokenDuration > 0
    ensures FaultFree(run', steps') && run'[0] == run[0]
    ensures Last(run').procs == Last(run).procs[i := Act(user, token, a)]
    ensures SameContents(Last(run).world, Last(run').world)
  {
    RenewalSameContents(Last(run).world, RenewSession(user, token, a));
    run', steps' := Move(run, steps, i, RenewSession(user, token, a), RenewIndex(user, token, a));
    RenewalSameContents(Last(run').world, RenewIndex(user, token, a));
    run', steps' := Move(run', steps', i, RenewIndex(user, token, a), Act(user, token, a));
  }

  /** The caller's session is live, lives on, and the handler's first call comes next. */
  lemma CallUpToAct(run: seq<State>, steps: seq<Step>, i: nat, token: string, a: Action)
    returns (run': seq<State>, steps': seq<Step>)
    requires FaultFree(run, steps) && token != ""
    requires i < |Last(run).procs| && Last(run).procs[i] == Authenticate(token, a)
    requires Last(run).world.tokenDuration > 0
    requires Live(Last(run).world.cache, Last(run).world.now, Session(token))
    requires Last(run).world.cache[Session(token)].value.Payload?
    ensures FaultFree(run', steps') && run'[0] == run[0]
    ensures Last(run').procs ==
      Last(run).procs[i := Act(Last(run).world.cache[Session(token)].value.user, token, a)]
    ensures SameContents(Last(run).world, Last(run').world)
  {
    var w := Last(run).world;
    var user := w.cache[Session(token)].value.user;
    run', steps' := Move(run, steps, i, Authenticate(token, a), RenewSession(user, token, a));
    run', steps' := CallRenewed(run', steps', i, user, token, a);
  }

  /** With nobody indexed, a deletion kicks nobody. */
  lemma DeleteUnindexed(run: seq<State>, steps: seq<Step>, i: nat, user: AuthUser, token: string, id: nat)
    returns (run': seq<State>, steps': seq<Step>)
    requires FaultFree(run, steps) && i < |Last(run).procs| && Last(run).procs[i] == Act(user, token, DeleteAdmin(id))
    requires Permitted(user, DeleteAdmin(id)) && id != user.userId && AdminTables.Live(Last(run).world.db, id)
    requires AdminSession(id) !in Last(run).world.cache
    ensures FaultFree(run', steps') && run'[0] == run[0]
    ensures Last(run').procs == Last(run).procs[i := Finished(Ok)]
    ensures Last(run').world.tokenDuration == Last(run).world.tokenDuration
    ensures !AdminTables.Live(Last(run').world.db, id)
  {
    run', steps' := Move(run, steps, i, Act(user, token, DeleteAdmin(id)), KickRead(id));
    run', steps' := Move(run', steps', i, KickRead(id), Finished(Ok));
  }

  predicate Halfway(w: World, s: State, t1: string, u1: nat, t2: string, u2: nat) {
    && s.world.db == w.db && s.world.tokenDuration == w.tokenDuration
    && u1 in w.db.users && u2 in w.db.users
    && s.procs == [Finished(LoggedIn(t1, Snapshot(w.db, u1))), PutSession(Snapshot(w.db, u2), t2)]
    && SessionOf(s.world, t1, u1) && s.world.cache[Session(t1)].value == Payload(Snapshot(w.db, u1))
    && s.world.cache.Keys == {Session(t1), AdminSession(u1)} && Names(s.world, t1, u1)
  }

  /** u1 has logged in; u2's login is about to write its session. */
  lemma OneInOneHalfway(s: State, name1: string, password1: string, t1: string, u1: nat,
                        name2: string, password2: string, t2: string, u2: nat)
    returns (run: seq<State>, steps: seq<Step>)
    requires Starts(s) && t1 != t2 && u1 != u2
    requires Account(s.world.db, name1, password1) == Some(u1) && Account(s.world.db, name2, password2) == Some(u2)
    ensures FaultFree(run, steps) && run[0] == s
    ensures Halfway(s.world, Last(run), t1, u1, t2, u2)
  {
    var admin, user := Snapshot(s.world.db, u1), Snapshot(s.world.db, u2);
    run, steps := [s], [];
    run, steps := Extend(run, steps, Spawn(Gate(name1, password1, t1)));
    run, steps := Extend(run, steps, Spawn(Gate(name2, password2, t2)));
    assert Last(run).procs == [Gate(name1, password1, t1), Gate(name2, password2, t2)];
    run, steps := LoginUpToPut(run, steps, 0, name1, password1, t1, u1);
    run, steps := LoginFromPut(run, steps, 0, admin, t1);
    run, steps := LoginUpToPut(run, steps, 1, name2, password2, t2, u2);
  }

  /** A deletion that runs between a login's database checks and its cache writes finds
      nobody to kick; the login then completes for a deleted account. */
  lemma DeletedButLoggedIn(s: State, name1: string, password1: string, t1: string, u1: nat,
                           name2: string, password2: string, t2: string, u2: nat)
    returns (run: seq<State>, steps: seq<Step>)
    requires Starts(s) && t1 != t2 && t1 != "" && u1 != u2
    requires Account(s.world.db, name1, password1) == Some(u1) && Account(s.world.db, name2, password2) == Some(u2)
    requires Permitted(Snapshot(s.world.db, u1), DeleteAdmin(u2))
    ensures FaultFree(run, steps) && run[0] == s
    ensures SessionOf(Last(run).world, t2, u2) && !AdminTables.Live(Last(run).world.db, u2)
  {
    run, steps := OneInOneHalfway(s, name1, password1, t1, u1, name2, password2, t2, u2);
    run, steps := Extend(run, steps, Spawn(Authenticate(t1, DeleteAdmin(u2))));
    run, steps := CallUpToAct(run, steps, 2, t1, DeleteAdmin(u2));
    run, steps := DeleteUnindexed(run, steps, 2, Snapshot(s.world.db, u1), t1, u2);
    run, steps := LoginFromPut(run, steps, 1, Snapshot(s.world.db, u2), t2);
  }

  /** With the account indexed, a deletion kicks its session. */
  lemma DeleteIndexed(run: seq<State>, steps: seq<Step>, i: nat, user: AuthUser, token: string, id: nat, kicked: string)
    returns (run': seq<State>, steps': seq<Step>)
    requires FaultFree(run, steps) && i < |Last(run).procs| && Last(run).procs[i] == Act(user, token, DeleteAdmin(id))
    requires Permitted(user, DeleteAdmin(id)) && id != user.userId && AdminTables.Live(Last(run).world.db, id)
    requires Names(Last(run).world, kicked, id)
    ensures FaultFree(run', steps') && run <= run' && steps <= steps' && |steps'| > |steps|
    ensures steps'[|steps|] == Run(i, Fine)
    ensures Last(run').procs == Last(run).procs[i := Finished(Ok)]
    ensures var w := Last(run).world;
      Last(run').world == Drop(w.(db := AdminTables.SoftDelete(w.db, id, w.now).0), kicked, id)
  {
    run', steps' := Extend(run, steps, Run(i, Fine));
    assert Last(run').procs[i] == KickRead(id);
    run', steps' := Move(run', steps', i, KickRead(id), KickDrop(id, kicked));
    run', steps' := Move(run', steps', i, KickDrop(id, kicked), Finished(Ok));
  }

  /** Both logged in, and each about to delete the other. */
  predicate Facing(w: World, s: State, t1: string, u1: nat, t2: string, u2: nat) {
    && s.world.db == w.db && u1 in w.db.users && u2 in w.db.users
    && s.world.cache.Keys == {Session(t1), AdminSession(u1), Session(t2), AdminSession(u2)}
    && Names(s.world, t1, u1) && Names(s.world, t2, u2)
    && s.procs == [Finished(LoggedIn(t1, Snapshot(w.db, u1))), Finished(LoggedIn(t2, Snapshot(w.db, u2))),
                   Act(Snapshot(w.db, u1), t1, DeleteAdmin(u2)), Act(Snapshot(w.db, u2), t2, DeleteAdmin(u1))]
    && SessionOf(s.world, t1, u1)
  }

  lemma BothFacing(s: State, name1: string, password1: string, t1: string, u1: nat,
                   name2: string, password2: string, t2: string, u2: nat)
    returns (run: seq<State>, steps: seq<Step>)
    requires Starts(s) && t1 != t2 && t1 != "" && t2 != "" && u1 != u2
    requires Account(s.world.db, name1, password1) == Some(u1) && Account(s.world.db, name2, password2) == Some(u2)
    ensures FaultFree(run, steps) && run[0] == s
    ensures Facing(s.world, Last(run), t1, u1, t2, u2)
  {
    run, steps := OneInOneHalfway(s, name1, password1, t1, u1, name2, password2, t2, u2);
    run, steps := LoginFromPut(run, steps, 1, Snapshot(s.world.db, u2), t2);
    run, steps := Extend(run, steps, Spawn(Authenticate(t1, DeleteAdmin(u2))));
    run, steps := Extend(run, steps, Spawn(Authenticate(t2, DeleteAdmin(u1))));
    run, steps := CallUpToAct(run, steps, 2, t1, DeleteAdmin(u2));
    run, steps := CallUpToAct(run, steps, 3, t2, DeleteAdmin(u1));
  }

  /** Two admins, each let in to delete the other.  The first deletion is done, its kick
      answered and the second admin's session gone (state k), when the second's statement
      runs: nobody is left, with no call failing and the last sender offline. */
  lemma CrossfireLeavesNobody(s: State, name1: string, password1: string, t1: string, u1: nat,
                              name2: string, password2: string, t2: string, u2: nat)
    returns (run: seq<State>, steps: seq<Step>, k: nat)
    requires Starts(s) && t1 != t2 && t1 != "" && t2 != "" && u1 != u2
    requires Account(s.world.db, name1, password1) == Some(u1) && Account(s.world.db, name2, password2) == Some(u2)
    requires Permitted(Snapshot(s.world.db, u1), DeleteAdmin(u2))
    requires Permitted(Snapshot(s.world.db, u2), DeleteAdmin(u1))
    requires forall u :: AdminTables.Live(s.world.db, u) ==> u == u1 || u == u2
    ensures FaultFree(run, steps) && run[0] == s && AtRest(Last(run)) && k < |steps|
    ensures |run[k].procs| == 4 && run[k].procs[2] == Finished(Ok) && steps[k] == Run(3, Fine)
    ensures run[k].procs[3] == Act(Snapshot(s.world.db, u2), t2, DeleteAdmin(u1))
    ensures !AdminTables.Live(run[k].world.db, u2) && !Online(run[k].world, u2)
    ensures forall u :: !AdminTables.Live(Last(run).world.db, u)
  {
    var user1, user2 := Snapshot(s.world.db, u1), Snapshot(s.world.db, u2);
    run, steps := BothFacing(s, name1, password1, t1, u1, name2, password2, t2, u2);
    run, steps := DeleteIndexed(run, steps, 2, user1, t1, u2, t2);
    k := |steps|;
    ghost var between := Last(run);
    forall t ensures !SessionOf(between.world, t, u2) { }
    run, steps := DeleteIndexed(run, steps, 3, user2, t2, u1, t1);
    assert run[k] == between;
    var db := s.world.db;
    forall u ensures !AdminTables.Live(Last(run).world.db, u) {
      assert AdminTables.Live(Last(run).world.db, u) ==> AdminTables.Live(db, u) && u != u1 && u != u2;
    }
  }

  /** Logged in with t1; a request under t1 admitted; a second login about to begin. */
  lemma RequestAdmitted(s: State, username: string, password: string, t1: string, t2: string, u: nat, a: Action)
    returns (run: seq<State>, steps: seq<Step>)
    requires Starts(s) && t1 != t2 && t1 != "" && Account(s.world.db, username, password) == Some(u)
    ensures FaultFree(run, steps) && run[0] == s
    ensures var w, user := Last(run).world, Snapshot(s.world.db, u);
      && w == s.world.(cache := w.cache) && w.cache.Keys == {Session(t1), AdminSession(u)}
      && Names(w, t1, u)
      && Last(run).procs == [Finished(LoggedIn(t1, user)), Gate(username, password, t2), Act(user, t1, a)]
  {
    var user := Snapshot(s.world.db, u);
    run, steps := [s], [];
    run, steps := Extend(run, steps, Spawn(Gate(username, password, t1)));
    run, steps := Extend(run, steps, Spawn(Gate(username, password, t2)));
    assert Last(run).procs == [Gate(username, password, t1), Gate(username, password, t2)];
    run, steps := LoginUpToPut(run, steps, 0, username, password, t1, u);
    run, steps := LoginFromPut(run, steps, 0, user, t1);
    run, steps := Extend(run, steps, Spawn(Authenticate(t1, a)));
    run, steps := CallUpToAct(run, steps, 2, t1, a);
  }

  lemma LogoutFinishes(run: seq<State>, steps: seq<Step>, i: nat, user: AuthUser, token: string)
    returns (run': seq<State>, steps': seq<Step>)
    requires FaultFree(run, steps) && i < |Last(run).procs| && Last(run).procs[i] == Act(user, token, Logout)
    ensures FaultFree(run', steps') && run'[0] == run[0]
    ensures Last(run').world == Drop(Last(run).world, token, user.userId)
    ensures Last(run').procs == Last(run).procs[i := Finished(Ok)]
  {
    run', steps' := Move(run, steps, i, Act(user, token, Logout), Finished(Ok));
  }

  /** A logout that has been admitted, a login of the same account, and then the DEL of
      the logout: it takes the new login's index with it, and at rest the new session
      is beyond the reach of a deletion, with no other login in sight. */
  lemma LogoutAfterRelogin(s: State, username: string, password: string, t1: string, t2: string, u: nat)
    returns (run: seq<State>, steps: seq<Step>)
    requires Starts(s) && t1 != t2 && t1 != "" && Account(s.world.db, username, password) == Some(u)
    ensures FaultFree(run, steps) && run[0] == s && AtRest(Last(run))
    ensures SessionOf(Last(run).world, t2, u) && AdminSession(u) !in Last(run).world.cache
  {
    var user := Snapshot(s.world.db, u);
    run, steps := RequestAdmitted(s, username, password, t1, t2, u, Logout);
    run, steps := LoginOverIndex(run, steps, 1, username, password, t2, u, t1);
    run, steps := LoginFromPut(run, steps, 1, user, t2);
    run, steps := LogoutFinishes(run, steps, 2, user, t1);
  }

  lemma ChangeFinishes(run: seq<State>, steps: seq<Step>, i: nat, user: AuthUser, token: string, o: string, n: string)
    returns (run': seq<State>, steps': seq<Step>)
    requires FaultFree(run, steps) && i < |Last(run).procs|
    requires Last(run).procs[i] == Act(user, token, ChangePassword(o, n))
    requires AdminTables.Live(Last(run).world.db, user.userId)
    requires Last(run).world.db.users[user.userId].hashedPassword.password == o
    ensures FaultFree(run', steps') && run'[0] == run[0]
    ensures Last(run').world.db == AdminTables.UpdatePassword(Last(run).world.db, user.userId, AdminTables.Hashed(n))
    ensures Last(run').world.tokenDuration == Last(run).world.tokenDuration
    ensures Last(run').procs == Last(run).procs[i := Finished(Ok)]
  {
    run', steps' := Move(run, steps, i, Act(user, token, ChangePassword(o, n)), WritePassword(user, token, n));
    run', steps' := Move(run', steps', i, WritePassword(user, token, n), DropKeys(user, token));
    run', steps' := Move(run', steps', i, DropKeys(user, token), Finished(Ok));
  }

  /** A login checks the password, the password is changed and its sessions dropped, and
      the login completes: at rest a session opened with the old password is alive. */
  lemma OldPasswordOutlives(s: State, username: string, o: string, n: string, t1: string, t2: string, u: nat)
    returns (run: seq<State>, steps: seq<Step>)
    requires Starts(s) && t1 != t2 && t1 != "" && Account(s.world.db, username, o) == Some(u)
    ensures FaultFree(run, steps) && run[0] == s && AtRest(Last(run))
    ensures |Last(run).procs| == 3 && Last(run).procs[2] == Finished(Ok) && SessionOf(Last(run).world, t2, u)
    ensures u in Last(run).world.db.users && Last(run).world.db.users[u].hashedPassword == AdminTables.Hashed(n)
  {
    var user := Snapshot(s.world.db, u);
    run, steps := RequestAdmitted(s, username, o, t1, t2, u, ChangePassword(o, n));
    run, steps := LoginOverIndex(run, steps, 1, username, o, t2, u, t1);
    run, steps := ChangeFinishes(run, steps, 2, user, t1, o, n);
    run, steps := LoginFromPut(run, steps, 1, user, t2);
  }

  /** Session and index of the account, both with this deadline. */
  predicate LoggedInUntil(w: World, user: AuthUser, token: string, d: int) {
    && Session(token) in w.cache && w.cache[Session(token)] == Item(Payload(user), Some(d))
    && AdminSession(user.userId) in w.cache && w.cache[AdminSession(user.userId)] == Item(Token(token), Some(d))
  }

  /** Just before the deadline a request is admitted and renews the session... */
  lemma AdmittedLate(run: seq<State>, steps: seq<Step>, user: AuthUser, token: string, d: int)
    returns (run': seq<State>, steps': seq<Step>)
    requires FaultFree(run, steps) && token != ""
    requires |Last(run).procs| == 2 && Last(run).procs[1] == Authenticate(token, Me)
    requires Last(run).world.now + 1 == d && Last(run).world.tokenDuration > 1
    requires LoggedInUntil(Last(run).world, user, token, d)
    ensures FaultFree(run', steps') && run'[0] == run[0]
    ensures var w := Last(run).world;
      Last(run').world == w.(cache := w.cache[Session(token) := Item(Payload(user), Some(w.now + w.tokenDuration))])
    ensures Last(run').procs == Last(run).procs[1 := RenewIndex(user, token, Me)]
  {
    run', steps' := Move(run, steps, 1, Authenticate(token, Me), RenewSession(user, token, Me));
    run', steps' := Move(run', steps', 1, RenewSession(user, token, Me), RenewIndex(user, token, Me));
  }

  /** ...and just after it the renewal of the index finds none. */
  lemma RenewedTooLate(run: seq<State>, steps: seq<Step>, user: AuthUser, token: string)
    returns (run': seq<State>, steps': seq<Step>)
    requires FaultFree(run, steps) && |Last(run).procs| == 2 && Last(run).procs[1] == RenewIndex(user, token, Me)
    requires !Live(Last(run).world.cache, Last(run).world.now, AdminSession(user.userId))
    ensures FaultFree(run', steps') && run'[0] == run[0] && Last(run').world == Last(run).world
    ensures Last(run').procs == Last(run).procs[1 := Finished(Ok)]
  {
    run', steps' := Move(run, steps, 1, RenewIndex(user, token, Me), Act(user, token, Me));
    run', steps' := Move(run', steps', 1, Act(user, token, Me), Finished(Ok));
  }

  /** Logged in, and time has passed to one second before the deadline. */
  lemma LoggedInLongAgo(s: State, username: string, password: string, token: string, u: nat)
    returns (run: seq<State>, steps: seq<Step>)
    requires Starts(s) && s.world.tokenDuration > 1 && token != "" && Account(s.world.db, username, password) == Some(u)
    ensures FaultFree(run, steps) && run[0] == s
    ensures var w, d, user := Last(run).world, s.world.now + s.world.tokenDuration, Snapshot(s.world.db, u);
      && LoggedInUntil(w, user, token, d) && w.now == d - 1 && w.tokenDuration == s.world.tokenDuration
      && Last(run).procs == [Finished(LoggedIn(token, user)), Authenticate(token, Me)]
  {
    run, steps := [s], [];
    run, steps := Extend(run, steps, Spawn(Gate(username, password, token)));
    run, steps := LoginUpToPut(run, steps, 0, username, password, token, u);
    run, steps := LoginFromPut(run, steps, 0, Snapshot(s.world.db, u), token);
    run, steps := Extend(run, steps, Spawn(Authenticate(token, Me)));
    run, steps := Extend(run, steps, Pass(s.world.tokenDuration - 1));
  }

  /** A request admitted just before its session expires: the session is renewed, the
      index expires before its own renewal arrives, and the session lives on without.
      No two requests overlap. */
  lemma SlowRenewal(s: State, username: string, password: string, token: string, u: nat)
    returns (run: seq<State>, steps: seq<Step>)
    requires Starts(s) && s.world.tokenDuration > 1 && token != "" && Account(s.world.db, username, password) == Some(u)
    ensures FaultFree(run, steps) && run[0] == s && AtRest(Last(run))
    ensures SessionOf(Last(run).world, token, u) && !Live(Last(run).world.cache, Last(run).world.now, AdminSession(u))
  {
    var user := Snapshot(s.world.db, u);
    run, steps := LoggedInLongAgo(s, username, password, token, u);
    run, steps := AdmittedLate(run, steps, user, token, s.world.now + s.world.tokenDuration);
    run, steps := Extend(run, steps, Pass(1));
    run, steps := RenewedTooLate(run, steps, user, token);
  }
}
