// Which single calls leave a live session that its account's index does not cover:
// for every call of every request, from every state, exactly those.
module ProtocolExposure {
  import opened Base
  import opened Cache
  import opened Sessions
  import opened SessionAgreement
  import opened Protocol
  import AdminTables

  predicate LastsAsLong(a: Option<int>, b: Option<int>) {
    a.None? || (b.Some? && b.value <= a.value)
  }

  /** The account's index names the session and does not expire before it, and the account is not deleted: a kick will
      find the session as long as it lives. */
  predicate Covered(w: World, t: string, u: nat)
    requires Session(t) in w.cache
  {
    && Names(w, t, u) && AdminTables.Live(w.db, u)
    && LastsAsLong(w.cache[AdminSession(u)].deadline, w.cache[Session(t)].deadline)
  }

  predicate Exposed(w: World, t: string, u: nat) {
    SessionOf(w, t, u) && !Covered(w, t, u)
  }

  /** Session and index deadlines lie at most one token duration ahead. */
  ghost predicate Dated(w: World) {
    && w.tokenDuration > 0
    && forall k :: k in w.cache && !k.LoginFail? ==>
         w.cache[k].deadline.Some? && w.cache[k].deadline.value <= w.now + w.tokenDuration
  }

  lemma EffectKeepsDated(w: World, p: Proc)
    requires Dated(w)
    ensures Dated(Effect(w, p))
  {
  }

  lemma {:induction false} AlwaysDated(run: seq<State>, steps: seq<Step>, n: nat)
    requires IsRun(run, steps) && Starts(run[0]) && n < |run|
    ensures Dated(run[n].world)
  {
    if n == 0 {
    } else {
      AlwaysDated(run, steps, n - 1);
      if steps[n - 1].Run? {
        EffectKeepsDated(run[n - 1].world, run[n - 1].procs[steps[n - 1].i]);
      }
    }
  }

  /** The calls that expose session t of account u: writing it before it is indexed,
      indexing another session, dropping the index on behalf of another session,
      renewing it ahead of its index, deleting the account. */
  predicate Exposes(w: World, p: Proc, t: string, u: nat) {
    match p
    case PutSession(user, token) =>
      && t == token && u == user.userId
      && !(Names(w, t, u) && AdminTables.Live(w.db, u)
           && LastsAsLong(w.cache[AdminSession(u)].deadline, Some(w.now + w.tokenDuration)))
    case PutIndex(user, token) => u == user.userId && t != token && SessionOf(w, t, u)
    case RenewSession(_, token, _) =>
      && t == token && SessionOf(w, t, u) && AdminSession(u) in w.cache
      && !LastsAsLong(w.cache[AdminSession(u)].deadline, Some(w.now + w.tokenDuration))
    case Act(user, token, a) =>
      || (a.Logout? && u == user.userId && t != token && SessionOf(w, t, u))
      || (a == DeleteAdmin(u) && u != user.userId && Permitted(user, a) && SessionOf(w, t, u))
    case DropKeys(user, token) => u == user.userId && t != token && SessionOf(w, t, u)
    case KickDrop(id, token) => u == id && t != token && SessionOf(w, t, u)
    case _ => false
  }

  lemma EffectSparesAccounts(w: World, p: Proc, u: nat)
    requires AdminTables.Live(w.db, u) && !(p.Act? && p.action == DeleteAdmin(u) && !MakesNoCall(p))
    ensures AdminTables.Live(Effect(w, p).db, u)
  {
  }

  predicate Stores(p: Proc) {
    p.PutSession? || p.PutIndex? || p.RenewSession? || p.RenewIndex?
  }

  lemma StoringExposesIff(w: World, p: Proc, t: string, u: nat)
    requires Dated(w) && !Exposed(w, t, u) && Stores(p)
    ensures Exposed(Effect(w, p), t, u) <==> Exposes(w, p, t, u)
  {
  }

  lemma DroppingExposesIff(w: World, p: Proc, t: string, u: nat)
    requires !Exposed(w, t, u) && !Stores(p) && !p.Act?
    ensures Exposed(Effect(w, p), t, u) <==> Exposes(w, p, t, u)
  {
    if AdminTables.Live(w.db, u) {
      EffectSparesAccounts(w, p, u);
    }
  }

  lemma ActingExposesIff(w: World, p: Proc, t: string, u: nat)
    requires !Exposed(w, t, u) && p.Act?
    ensures Exposed(Effect(w, p), t, u) <==> Exposes(w, p, t, u)
  {
    if AdminTables.Live(w.db, u) && !(p.action == DeleteAdmin(u) && !MakesNoCall(p)) {
      EffectSparesAccounts(w, p, u);
    }
  }

  /** A call's effect exposes a session exactly when it is one of those. */
  lemma EffectExposesIff(w: World, p: Proc, t: string, u: nat)
    requires Dated(w) && !Exposed(w, t, u)
    ensures Exposed(Effect(w, p), t, u) <==> Exposes(w, p, t, u)
  {
    if Stores(p) {
      StoringExposesIff(w, p, t, u);
    } else if p.Act? {
      ActingExposesIff(w, p, t, u);
    } else {
      DroppingExposesIff(w, p, t, u);
    }
  }

  /** A step exposes a session exactly when it is such a call and takes effect; time
      alone never does. */
  lemma StepExposesIff(s: State, step: Step, t: string, u: nat)
    requires Dated(s.world) && Enabled(s, step) && !Exposed(s.world, t, u)
    ensures Exposed(Next(s, step).world, t, u) <==>
      step.Run? && step.fault != Lost && Exposes(s.world, s.procs[step.i], t, u)
  {
    if step.Run? {
      EffectExposesIff(s.world, s.procs[step.i], t, u);
    }
  }

  // ---- How an exposure ends ----

  /** The index names the session and lasts at least until `d`. */
  predicate NamedUntil(w: World, t: string, u: nat, d: Option<int>) {
    Names(w, t, u) && LastsAsLong(w.cache[AdminSession(u)].deadline, d)
  }

  /** The statement makes an account live that was not. */
  predicate Revives(w: World, user: AuthUser, a: Action, u: nat) {
    && Permitted(user, a) && !AdminTables.Live(w.db, u)
    && match a
       case RestoreAdmin(id) => id == u && AdminTables.Restore(w.db, id).1 == 1
       case CreateAdmin(username, password, roleIds) =>
         && u == w.db.nextUser
         && AdminTables.CreateAdmin(w.db, username, AdminTables.Hashed(password), roleIds).2 == AdminTables.Nil
       case _ => false
  }

  /** The calls after which session t of u is no longer exposed: dropping it, writing it
      anew for another account or under an index that covers it, indexing it, renewing
      the index that names it, and bringing its account back. */
  predicate Heals(w: World, p: Proc, t: string, u: nat)
    requires Session(t) in w.cache
  {
    match p
    case Evict(_, _, oldToken) => oldToken == t
    case TakeBack(_, token) => token == t
    case DropKeys(_, token) => token == t
    case KickDrop(_, token) => token == t
    case PutSession(user, token) =>
      && token == t
      && (user.userId != u || (NamedUntil(w, t, u, Some(w.now + w.tokenDuration)) && AdminTables.Live(w.db, u)))
    case PutIndex(user, token) => token == t && user.userId == u && AdminTables.Live(w.db, u)
    case RenewIndex(user, _, _) => user.userId == u && Names(w, t, u) && AdminTables.Live(w.db, u)
    case Act(user, token, a) =>
      || (a.Logout? && token == t)
      || (Revives(w, user, a, u) && NamedUntil(w, t, u, w.cache[Session(t)].deadline))
    case _ => false
  }

  lemma StoringHealsIff(w: World, p: Proc, t: string, u: nat)
    requires Dated(w) && Exposed(w, t, u) && Stores(p)
    ensures !Exposed(Effect(w, p), t, u) <==> Heals(w, p, t, u)
  {
  }

  lemma OnlyStatementsRevive(w: World, p: Proc, u: nat)
    requires !p.Act? && !AdminTables.Live(w.db, u)
    ensures !AdminTables.Live(Effect(w, p).db, u)
  {
  }

  lemma DroppingHealsIff(w: World, p: Proc, t: string, u: nat)
    requires Exposed(w, t, u) && !Stores(p) && !p.Act?
    ensures !Exposed(Effect(w, p), t, u) <==> Heals(w, p, t, u)
  {
    if !AdminTables.Live(w.db, u) {
      OnlyStatementsRevive(w, p, u);
    }
  }

  lemma RevivesIff(w: World, p: Proc, u: nat)
    requires p.Act? && !AdminTables.Live(w.db, u)
    ensures AdminTables.Live(Effect(w, p).db, u) <==> Revives(w, p.user, p.action, u)
  {
  }

  lemma ActingHealsIff(w: World, p: Proc, t: string, u: nat)
    requires Exposed(w, t, u) && p.Act?
    ensures !Exposed(Effect(w, p), t, u) <==> Heals(w, p, t, u)
  {
    if !AdminTables.Live(w.db, u) {
      RevivesIff(w, p, u);
    }
  }

  /** What ends an exposure: exactly those calls, and the session's own expiry. */
  predicate StepHeals(s: State, step: Step, t: string, u: nat) {
    && Session(t) in s.world.cache
    && match step
       case Spawn(_) => false
       case Run(i, fault) => i < |s.procs| && fault != Lost && Heals(s.world, s.procs[i], t, u)
       case Pass(seconds) => !Live(s.world.cache, s.world.now + seconds, Session(t))
  }

  lemma StepHealsIff(s: State, step: Step, t: string, u: nat)
    requires Dated(s.world) && Enabled(s, step) && Exposed(s.world, t, u)
    ensures !Exposed(Next(s, step).world, t, u) <==> StepHeals(s, step, t, u)
  {
    if step.Run? {
      var p := s.procs[step.i];
      if Stores(p) {
        StoringHealsIff(s.world, p, t, u);
      } else if p.Act? {
        ActingHealsIff(s.world, p, t, u);
      } else {
        DroppingHealsIff(s.world, p, t, u);
      }
    }
  }

  // ---- Runs ----

  predicate StepExposes(s: State, step: Step, t: string, u: nat) {
    && step.Run? && step.i < |s.procs| && step.fault != Lost
    && !Exposed(s.world, t, u) && Exposes(s.world, s.procs[step.i], t, u)
  }

  /** Step k exposed the session and nothing has ended that since. */
  ghost predicate ExposedSince(run: seq<State>, steps: seq<Step>, k: int, n: int, t: string, u: nat)
    requires IsRun(run, steps) && n <= |steps|
  {
    && 0 <= k < n && StepExposes(run[k], steps[k], t, u)
    && forall j :: k < j < n ==> !StepHeals(run[j], steps[j], t, u)
  }

  lemma ExposedSinceStep(run: seq<State>, steps: seq<Step>, k: int, n: nat, t: string, u: nat)
    requires IsRun(run, steps) && n < |steps|
    ensures ExposedSince(run, steps, k, n + 1, t, u) <==>
      || (k == n && StepExposes(run[n], steps[n], t, u))
      || (ExposedSince(run, steps, k, n, t, u) && !StepHeals(run[n], steps[n], t, u))
  {
    if ExposedSince(run, steps, k, n + 1, t, u) && k < n {
      assert !StepHeals(run[n], steps[n], t, u);
    }
  }

  lemma StepExposed(s: State, step: Step, t: string, u: nat)
    requires Dated(s.world) && Enabled(s, step)
    ensures Exposed(Next(s, step).world, t, u) <==>
      StepExposes(s, step, t, u) || (Exposed(s.world, t, u) && !StepHeals(s, step, t, u))
  {
    if Exposed(s.world, t, u) {
      StepHealsIff(s, step, t, u);
    } else {
      StepExposesIff(s, step, t, u);
    }
  }

  ghost predicate SomeExposedSince(run: seq<State>, steps: seq<Step>, n: nat, t: string, u: nat)
    requires IsRun(run, steps) && n <= |steps|
  {
    exists k :: ExposedSince(run, steps, k, n, t, u)
  }

  lemma SomeExposedStep(run: seq<State>, steps: seq<Step>, n: nat, t: string, u: nat)
    requires IsRun(run, steps) && n < |steps|
    ensures SomeExposedSince(run, steps, n + 1, t, u) <==>
      || StepExposes(run[n], steps[n], t, u)
      || (SomeExposedSince(run, steps, n, t, u) && !StepHeals(run[n], steps[n], t, u))
  {
    var m := n + 1;
    if k :| ExposedSince(run, steps, k, m, t, u) {
      ExposedSinceStep(run, steps, k, n, t, u);
    }
    if StepExposes(run[n], steps[n], t, u) {
      ExposedSinceStep(run, steps, n, n, t, u);
    }
    if k :| ExposedSince(run, steps, k, n, t, u) {
      ExposedSinceStep(run, steps, k, n, t, u);
    }
  }

  /** Over every run, whatever fails: a live session is not covered by its index if and
      only if some effective call exposed it and since then no call has covered or
      dropped it and it has not expired. */
  lemma {:induction false} ExposedIff(run: seq<State>, steps: seq<Step>, n: nat, t: string, u: nat)
    requires IsRun(run, steps) && Starts(run[0]) && n <= |steps|
    ensures Exposed(run[n].world, t, u) <==> SomeExposedSince(run, steps, n, t, u)
  {
    if n == 0 {
    } else {
      ExposedIff(run, steps, n - 1, t, u);
      AlwaysDated(run, steps, n - 1);
      StepExposed(run[n - 1], steps[n - 1], t, u);
      SomeExposedStep(run, steps, n - 1, t, u);
    }
  }
  /** So the sessions of a deleted account are exactly those exposed and not ended since. */
  lemma DeletedOnlineIff(run: seq<State>, steps: seq<Step>, n: nat, t: string, u: nat)
    requires IsRun(run, steps) && Starts(run[0]) && n <= |steps| && !AdminTables.Live(run[n].world.db, u)
    ensures SessionOf(run[n].world, t, u) <==> SomeExposedSince(run, steps, n, t, u)
  {
    ExposedIff(run, steps, n, t, u);
  }

  /** And of two live sessions of one account one is such. */
  lemma SecondSessionExposed(run: seq<State>, steps: seq<Step>, n: nat, t1: string, t2: string, u: nat)
    requires IsRun(run, steps) && Starts(run[0]) && n <= |steps| && t1 != t2
    requires SessionOf(run[n].world, t1, u) && SessionOf(run[n].world, t2, u)
    ensures SomeExposedSince(run, steps, n, t1, u) || SomeExposedSince(run, steps, n, t2, u)
  {
    ExposedIff(run, steps, n, t1, u);
    ExposedIff(run, steps, n, t2, u);
  }
}
