// A password change among other requests: who can still be logged in afterwards.  A
// login checks the password in one call and writes its session in a later one, so
// overlap matters; without it every later session comes from a check of the new password.
module ProtocolPasswords {
  import opened Base
  import opened Cache
  import opened Sessions
  import opened SessionAgreement
  import opened Protocol
  import opened ProtocolSafety
  import opened ProtocolExposure
  import opened ProtocolOrder
  import AdminTables
  import ProtocolAdmins

  // ---- Where sessions come from ----

  /** A login of u that has passed its check and not yet written its session. */
  predicate Opening(p: Proc, u: nat) {
    || ((p.Clear? || p.ReadCodes?) && p.id == u)
    || ((p.ReadIndex? || p.Evict? || p.PutSession?) && p.user.userId == u)
  }

  /** The step is a login's check: these credentials open u's account there and then. */
  predicate Checks(s: State, step: Step, token: string, u: nat) {
    && step.Run? && step.fault == Fine && step.i < |s.procs|
    && var p := s.procs[step.i];
       p.Lookup? && p.token == token && Account(s.world.db, p.username, p.password) == Some(u)
  }

  ghost predicate CheckedSince(run: seq<State>, steps: seq<Step>, m: nat, n: nat, token: string, u: nat)
    requires IsRun(run, steps) && n <= |steps|
  {
    exists l :: m <= l < n && Checks(run[l], steps[l], token, u)
  }

  lemma CheckedSinceGrows(run: seq<State>, steps: seq<Step>, m: nat, n: nat, token: string, u: nat)
    requires IsRun(run, steps) && m <= n < |steps|
    requires CheckedSince(run, steps, m, n, token, u) || Checks(run[n], steps[n], token, u)
    ensures CheckedSince(run, steps, m, n + 1, token, u)
  {
    if CheckedSince(run, steps, m, n, token, u) {
      var l :| m <= l < n && Checks(run[l], steps[l], token, u);
    }
  }

  /** Only one call makes a session. */
  lemma EffectOpens(w: World, p: Proc, t: string, u: nat)
    requires SessionOf(Effect(w, p), t, u)
    ensures SessionOf(w, t, u) || (p.PutSession? && Opening(p, u) && p.token == t)
  {
  }

  lemma ContinuationOpens(w: World, p: Proc, fault: Fault, u: nat)
    requires !p.Finished? && Opening(Continued(w, p, fault), u)
    ensures var q := Continued(w, p, fault);
      || (Opening(p, u) && p.token == q.token)
      || (fault == Fine && p.Lookup? && p.token == q.token && Account(w.db, p.username, p.password) == Some(u))
  {
  }

  /** Since m, every session and every login about to write one has been checked. */
  ghost predicate AllChecked(run: seq<State>, steps: seq<Step>, m: nat, n: nat, u: nat)
    requires IsRun(run, steps) && n <= |steps|
  {
    && (forall t :: SessionOf(run[n].world, t, u) ==> CheckedSince(run, steps, m, n, t, u))
    && (forall i :: 0 <= i < |run[n].procs| && Opening(run[n].procs[i], u) ==>
          CheckedSince(run, steps, m, n, run[n].procs[i].token, u))
  }

  lemma SessionsChecked(run: seq<State>, steps: seq<Step>, m: nat, n: nat, u: nat, t: string)
    requires IsRun(run, steps) && m <= n < |steps| && AllChecked(run, steps, m, n, u)
    requires SessionOf(run[n + 1].world, t, u)
    ensures CheckedSince(run, steps, m, n + 1, t, u)
  {
    var s, step := run[n], steps[n];
    if step.Run? && step.fault != Lost {
      EffectOpens(s.world, s.procs[step.i], t, u);
    }
    CheckedSinceGrows(run, steps, m, n, t, u);
  }

  lemma OpeningsChecked(run: seq<State>, steps: seq<Step>, m: nat, n: nat, u: nat, i: nat)
    requires IsRun(run, steps) && m <= n < |steps| && AllChecked(run, steps, m, n, u)
    requires i < |run[n + 1].procs| && Opening(run[n + 1].procs[i], u)
    ensures CheckedSince(run, steps, m, n + 1, run[n + 1].procs[i].token, u)
  {
    var s, step := run[n], steps[n];
    if step.Run? && step.i == i {
      ContinuationOpens(s.world, s.procs[i], step.fault, u);
    } else {
      assert run[n + 1].procs[i] == s.procs[i];
    }
    CheckedSinceGrows(run, steps, m, n, run[n + 1].procs[i].token, u);
  }

  /** With u offline and no login of u past its check at m, every later session of u
      comes from a login checked since. */
  lemma {:induction false} EverythingChecked(run: seq<State>, steps: seq<Step>, m: nat, n: nat, u: nat)
    requires IsRun(run, steps) && m <= n <= |steps| && !Online(run[m].world, u)
    requires forall i :: 0 <= i < |run[m].procs| ==> !Opening(run[m].procs[i], u)
    ensures AllChecked(run, steps, m, n, u)
  {
    if n == m {
    } else {
      EverythingChecked(run, steps, m, n - 1, u);
      forall t | SessionOf(run[n].world, t, u) ensures CheckedSince(run, steps, m, n, t, u) {
        SessionsChecked(run, steps, m, n - 1, u, t);
      }
      forall i | 0 <= i < |run[n].procs| && Opening(run[n].procs[i], u)
        ensures CheckedSince(run, steps, m, n, run[n].procs[i].token, u)
      {
        OpeningsChecked(run, steps, m, n - 1, u, i);
      }
    }
  }

  // ---- What the password is ----

  predicate PasswordIs(db: AdminTables.Tables, u: nat, password: string) {
    u in db.users && db.users[u].hashedPassword == AdminTables.Hashed(password)
  }

  /** A statement that writes u's password takes effect. */
  predicate Rewrites(s: State, step: Step, u: nat) {
    && step.Run? && step.i < |s.procs| && step.fault != Lost
    && s.procs[step.i].WritePassword? && s.procs[step.i].user.userId == u
  }

  lemma EffectKeepsPassword(w: World, p: Proc, u: nat, password: string)
    requires AdminTables.Consistent(w.db) && PasswordIs(w.db, u, password)
    requires !(p.WritePassword? && p.user.userId == u)
    ensures PasswordIs(Effect(w, p).db, u, password)
  {
  }

  lemma StepKeepsPassword(s: State, step: Step, u: nat, password: string)
    requires Enabled(s, step) && AdminTables.Consistent(s.world.db) && PasswordIs(s.world.db, u, password)
    requires !Rewrites(s, step, u)
    ensures PasswordIs(Next(s, step).world.db, u, password)
  {
    if step.Run? && step.fault != Lost {
      EffectKeepsPassword(s.world, s.procs[step.i], u, password);
    }
  }

  lemma {:induction false} PasswordStays(run: seq<State>, steps: seq<Step>, k: nat, n: nat, u: nat, password: string)
    requires IsRun(run, steps) && AdminTables.Consistent(run[0].world.db) && k <= n <= |steps|
    requires PasswordIs(run[k].world.db, u, password)
    requires forall l :: k <= l < n ==> !Rewrites(run[l], steps[l], u)
    ensures PasswordIs(run[n].world.db, u, password)
  {
    if n == k {
    } else {
      PasswordStays(run, steps, k, n - 1, u, password);
      ProtocolAdmins.AlwaysConsistent(run, steps, n - 1);
      StepKeepsPassword(run[n - 1], steps[n - 1], u, password);
    }
  }

  // ---- A password change ----

  lemma EffectKeepsRows(w: World, p: Proc)
    ensures w.db.users.Keys <= Effect(w, p).db.users.Keys
  {
  }

  lemma FoundBeforeWriting(w: World, p: Proc, fault: Fault)
    requires !p.Finished? && Continued(w, p, fault).WritePassword?
    ensures Continued(w, p, fault).user.userId in w.db.users
  {
  }

  /** A password is written only to an account found before, and rows stay. */
  lemma {:induction false} RewrittenExists(run: seq<State>, steps: seq<Step>, n: nat, i: nat)
    requires IsRun(run, steps) && Starts(run[0]) && n <= |steps|
    requires i < |run[n].procs| && run[n].procs[i].WritePassword?
    ensures run[n].procs[i].user.userId in run[n].world.db.users
  {
    if n == 0 {
    } else {
      var s, step := run[n - 1], steps[n - 1];
      if step.Run? {
        EffectKeepsRows(s.world, s.procs[step.i]);
      }
      if step.Run? && step.i == i {
        FoundBeforeWriting(s.world, s.procs[i], step.fault);
      } else {
        RewrittenExists(run, steps, n - 1, i);
      }
    }
  }

  /** The DEL that ends a password change of u takes effect. */
  predicate DropsKeys(s: State, step: Step, u: nat) {
    && step.Run? && step.i < |s.procs| && step.fault != Lost
    && s.procs[step.i].DropKeys? && s.procs[step.i].user.userId == u
  }

  /** Right after it nobody is logged in as u, nor about to be. */
  lemma ChangeEndsSessions(s: State, step: Step, u: nat)
    requires Enabled(s, step) && Kept(s, u) && DropsKeys(s, step, u)
    ensures !Online(Next(s, step).world, u)
    ensures forall j :: 0 <= j < |Next(s, step).procs| ==> !Opening(Next(s, step).procs[j], u)
  {
    var i, s' := step.i, Next(s, step);
    assert WritesFor(s.procs[i], u);
    forall t ensures !SessionOf(s'.world, t, u) {
      assert SessionOf(s'.world, t, u) ==> SessionOf(s.world, t, u);
    }
    forall j | 0 <= j < |s'.procs| ensures !Opening(s'.procs[j], u) {
      assert j != i ==> s'.procs[j] == s.procs[j] && !WritesFor(s.procs[j], u);
    }
  }

  /** The login's check, after the change, met the password then stored. */
  ghost predicate OpenedWith(run: seq<State>, steps: seq<Step>, m: nat, n: nat, t: string, u: nat, password: string)
    requires IsRun(run, steps) && n <= |steps|
  {
    exists l :: m < l < n && Checks(run[l], steps[l], t, u) && run[l].procs[steps[l].i].password == password
  }

  /** A password change in an orderly run: step k writes the new password, step m drops
      the account's keys, and until the password is next written every live session of
      the account was opened after m by a login that presented the new password. */
  lemma ChangeShutsOut(run: seq<State>, steps: seq<Step>, k: nat, m: nat, n: nat, u: nat)
    requires IsRun(run, steps) && Starts(run[0]) && AdminTables.Consistent(run[0].world.db)
    requires k < m < n <= |steps| && OrderlyRun(run, steps, m, u)
    requires Rewrites(run[k], steps[k], u) && DropsKeys(run[m], steps[m], u)
    requires forall l :: k < l < n ==> !Rewrites(run[l], steps[l], u)
    ensures forall t :: SessionOf(run[n].world, t, u) ==>
      OpenedWith(run, steps, m, n, t, u, run[k].procs[steps[k].i].newPassword)
  {
    var password := run[k].procs[steps[k].i].newPassword;
    OrderlyKeeps(run, steps, m, u);
    ChangeEndsSessions(run[m], steps[m], u);
    EverythingChecked(run, steps, m + 1, n, u);
    RewrittenExists(run, steps, k, steps[k].i);
    assert PasswordIs(run[k + 1].world.db, u, password);
    forall t | SessionOf(run[n].world, t, u) ensures OpenedWith(run, steps, m, n, t, u, password) {
      assert CheckedSince(run, steps, m + 1, n, t, u);
      var l :| m + 1 <= l < n && Checks(run[l], steps[l], t, u);
      PasswordStays(run, steps, k + 1, l, u, password);
    }
  }
}
