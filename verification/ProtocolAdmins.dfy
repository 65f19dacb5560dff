// Who is left to administer, over interleaved requests.  Exactly which statements leave
// no account, or nobody with admin_user:write, whatever overlaps and whatever fails; and
// a condition on overlaps under which an account is always left.
module ProtocolAdmins {
  import opened Base
  import opened Cache
  import opened Sessions
  import opened SessionAgreement
  import opened Protocol
  import opened ProtocolSafety
  import opened ProtocolExposure
  import opened ProtocolOrder
  import AdminTables
  import SessionRuns
  import Writers

  // ---- The tables in every reachable state ----

  lemma ReplacementKeepsConsistent(db: AdminTables.Tables, id: nat, ids: seq<int>)
    requires AdminTables.Consistent(db)
    ensures AdminTables.Consistent(AdminTables.ReplaceRoles(db, id, ids).0)
  {
    AdminTables.InsertableIff(db, id, ids);
    if id in db.users {
      AdminTables.ReplaceRolesEffect(db, id, ids);
    }
  }

  lemma EffectKeepsConsistent(w: World, p: Proc)
    requires AdminTables.Consistent(w.db)
    ensures AdminTables.Consistent(Effect(w, p).db)
  {
    match p
    case ReplaceRoles(id, ids) => ReplacementKeepsConsistent(w.db, id, ids);
    case Act(_, _, CreateAdmin(username, password, ids)) =>
      AdminTables.CreateAdminEffect(w.db, username, AdminTables.Hashed(password), ids);
    case _ =>
  }

  /** Unique live usernames and grants without dangling references, at every step. */
  lemma {:induction false} AlwaysConsistent(run: seq<State>, steps: seq<Step>, n: nat)
    requires IsRun(run, steps) && AdminTables.Consistent(run[0].world.db) && n <= |steps|
    ensures AdminTables.Consistent(run[n].world.db)
  {
    if n == 0 {
    } else {
      AlwaysConsistent(run, steps, n - 1);
      if steps[n - 1].Run? {
        EffectKeepsConsistent(run[n - 1].world, run[n - 1].procs[steps[n - 1].i]);
      }
    }
  }

  // ---- An account is left ----

  /** The statement of a deletion of id that was let through takes effect. */
  predicate Deletes(s: State, step: Step, id: nat) {
    && step.Run? && step.i < |s.procs| && step.fault != Lost
    && var p := s.procs[step.i]; p.Act? && p.action == DeleteAdmin(id) && !MakesNoCall(p)
  }

  ghost predicate DeletesLast(s: State, step: Step) {
    exists id :: Deletes(s, step, id) && forall u :: AdminTables.Live(s.world.db, u) ==> u == id
  }

  /** A step removes an account exactly when it is such a statement. */
  lemma StepRemovesIff(s: State, step: Step, u: nat)
    requires Enabled(s, step) && AdminTables.Live(s.world.db, u)
    ensures AdminTables.Live(Next(s, step).world.db, u) <==> !Deletes(s, step, u)
  {
    if step.Run? && !Deletes(s, step, u) && step.fault != Lost {
      EffectSparesAccounts(s.world, s.procs[step.i], u);
    }
  }

  lemma DeletionRevivesNobody(s: State, step: Step, id: nat, u: nat)
    requires Enabled(s, step) && Deletes(s, step, id) && AdminTables.Live(Next(s, step).world.db, u)
    ensures AdminTables.Live(s.world.db, u)
  {
  }

  /** Somebody is left after a step exactly when it does not delete the last account. */
  lemma StaffedIff(s: State, step: Step)
    requires Enabled(s, step) && SessionRuns.Staffed(s.world.db)
    ensures SessionRuns.Staffed(Next(s, step).world.db) <==> !DeletesLast(s, step)
  {
    var db' := Next(s, step).world.db;
    if DeletesLast(s, step) {
      var id :| Deletes(s, step, id) && forall u :: AdminTables.Live(s.world.db, u) ==> u == id;
      forall u ensures !AdminTables.Live(db', u) {
        if AdminTables.Live(db', u) {
          DeletionRevivesNobody(s, step, id, u);
          StepRemovesIff(s, step, u);
        }
      }
    } else {
      var u :| AdminTables.Live(s.world.db, u);
      StepRemovesIff(s, step, u);
      if Deletes(s, step, u) {
        var v :| AdminTables.Live(s.world.db, v) && v != u;
        StepRemovesIff(s, step, v);
      }
    }
  }

  /** Over every interleaving, whatever fails: there is always an account not deleted if
      and only if no statement deleted the last one. */
  lemma {:induction false} AlwaysStaffedIff(run: seq<State>, steps: seq<Step>, n: nat)
    requires IsRun(run, steps) && SessionRuns.Staffed(run[0].world.db) && n <= |steps|
    ensures (forall k :: 0 <= k <= n ==> SessionRuns.Staffed(run[k].world.db)) <==>
      (forall k :: 0 <= k < n ==> !DeletesLast(run[k], steps[k]))
  {
    if n == 0 {
    } else {
      AlwaysStaffedIff(run, steps, n - 1);
      if forall k :: 0 <= k < n ==> SessionRuns.Staffed(run[k].world.db) {
        StaffedIff(run[n - 1], steps[n - 1]);
        assert SessionRuns.Staffed(run[n].world.db) <==> !DeletesLast(run[n - 1], steps[n - 1]);
      }
    }
  }

  // ---- Somebody can administer ----

  /** A replacement that commits. */
  predicate Replaces(s: State, step: Step, id: nat, ids: seq<int>) {
    && step.Run? && step.i < |s.procs| && step.fault != Lost && s.procs[step.i] == ReplaceRoles(id, ids)
    && AdminTables.Distinct(ids) && (forall i :: 0 <= i < |ids| ==> ids[i] in s.world.db.roles)
    && (ids != [] ==> id in s.world.db.users)
  }

  /** The statement deletes the only holder, or gives it roles none of which carries the
      permission. */
  ghost predicate LosesWriter(s: State, step: Step) {
    var db := s.world.db;
    || (exists id :: Deletes(s, step, id) && !Writers.AnotherWriter(db, id))
    || (exists id, ids ::
          Replaces(s, step, id, ids) && !Writers.AnotherWriter(db, id) && Writers.NoneCarriesWrite(db, ids))
  }

  lemma EffectKeepsCodes(w: World, p: Proc, u: nat)
    requires AdminTables.Consistent(w.db) && u in w.db.users
    requires p.ReplaceRoles? ==> AdminTables.ReplaceRoles(w.db, p.id, p.roleIds).1 != AdminTables.Nil
    ensures AdminTables.PermissionCodes(Effect(w, p).db, u) == AdminTables.PermissionCodes(w.db, u)
  {
    if p.Act? && p.action.CreateAdmin? {
      Writers.CreationKeepsCodes(w.db, p.action.username, AdminTables.Hashed(p.action.password), p.action.roleIds, u);
    } else {
      Writers.SameGrantsSameCodes(w.db, Effect(w, p).db, u);
    }
  }

  lemma DeletingLosesIff(s: State, step: Step, id: nat)
    requires Enabled(s, step) && Writers.HasWriter(s.world.db) && Deletes(s, step, id)
    ensures Writers.HasWriter(Next(s, step).world.db) <==> Writers.AnotherWriter(s.world.db, id)
  {
    if AdminTables.Live(s.world.db, id) {
      Writers.DeletionKeepsWriterIff(s.world.db, id, s.world.now);
    }
  }

  /** The only holder is live; if the account replaced is not, somebody else holds on. */
  lemma ReplacingLosesIff(s: State, step: Step, id: nat, ids: seq<int>)
    requires Enabled(s, step) && Writers.HasWriter(s.world.db) && Replaces(s, step, id, ids)
    ensures Writers.HasWriter(Next(s, step).world.db) <==>
      Writers.AnotherWriter(s.world.db, id) || !Writers.NoneCarriesWrite(s.world.db, ids)
  {
    AdminTables.InsertableIff(s.world.db, id, ids);
    if AdminTables.Live(s.world.db, id) {
      Writers.ReplacementKeepsWriterIff(s.world.db, id, ids);
    } else {
      var u :| Writers.Writer(s.world.db, u);
      Writers.OthersKeepCodes(s.world.db, Next(s, step).world.db, id, ids, u);
      assert Writers.Writer(Next(s, step).world.db, u);
    }
  }

  lemma OthersKeepWriter(s: State, step: Step)
    requires Enabled(s, step) && AdminTables.Consistent(s.world.db) && Writers.HasWriter(s.world.db)
    requires forall id :: !Deletes(s, step, id)
    requires forall id, ids :: !Replaces(s, step, id, ids)
    ensures Writers.HasWriter(Next(s, step).world.db)
  {
    var u :| Writers.Writer(s.world.db, u);
    StepRemovesIff(s, step, u);
    if step.Run? && step.fault != Lost {
      var p := s.procs[step.i];
      if p.ReplaceRoles? {
        assert !Replaces(s, step, p.id, p.roleIds);
        AdminTables.InsertableIff(s.world.db, p.id, p.roleIds);
      }
      EffectKeepsCodes(s.world, p, u);
    }
    assert Writers.Writer(Next(s, step).world.db, u);
  }

  /** Somebody holds the permission after a step exactly when it is not one of those. */
  lemma HasWriterIff(s: State, step: Step)
    requires Enabled(s, step) && AdminTables.Consistent(s.world.db) && Writers.HasWriter(s.world.db)
    ensures Writers.HasWriter(Next(s, step).world.db) <==> !LosesWriter(s, step)
  {
    if id :| Deletes(s, step, id) {
      DeletingLosesIff(s, step, id);
    } else if id, ids :| Replaces(s, step, id, ids) {
      ReplacingLosesIff(s, step, id, ids);
    } else {
      OthersKeepWriter(s, step);
    }
  }

  lemma WriterStepIff(run: seq<State>, steps: seq<Step>, k: nat)
    requires IsRun(run, steps) && AdminTables.Consistent(run[0].world.db) && k < |steps|
    requires Writers.HasWriter(run[k].world.db)
    ensures Writers.HasWriter(run[k + 1].world.db) <==> !LosesWriter(run[k], steps[k])
  {
    AlwaysConsistent(run, steps, k);
    HasWriterIff(run[k], steps[k]);
  }

  /** Over every interleaving, whatever fails: somebody always holds the permission if
      and only if no statement lost it. */
  lemma {:induction false} AlwaysAWriterIff(run: seq<State>, steps: seq<Step>, n: nat)
    requires IsRun(run, steps) && AdminTables.Consistent(run[0].world.db) && Writers.HasWriter(run[0].world.db)
    requires n <= |steps|
    ensures (forall k :: 0 <= k <= n ==> Writers.HasWriter(run[k].world.db)) <==>
      (forall k :: 0 <= k < n ==> !LosesWriter(run[k], steps[k]))
  {
    if n == 0 {
    } else {
      AlwaysAWriterIff(run, steps, n - 1);
      if Writers.HasWriter(run[n - 1].world.db) {
        WriterStepIff(run, steps, n - 1);
      }
    }
  }

  // ---- When overlap cannot lose the last account ----

  /** A deletion that has been let in and has not yet run its statement. */
  predicate SendsDeletion(p: Proc) {
    (p.RenewSession? || p.RenewIndex? || p.Act?) && p.action.DeleteAdmin?
  }

  predicate Kicks(p: Proc, u: nat) {
    (p.KickRead? || p.KickDrop?) && p.id == u
  }

  /** No account is being deleted while a deletion it sent is under way. */
  ghost predicate NoCrossfire(s: State) {
    forall i, j :: 0 <= i < |s.procs| && 0 <= j < |s.procs| && SendsDeletion(s.procs[i]) ==>
      !Kicks(s.procs[j], s.procs[i].user.userId)
  }

  ghost predicate SendersLive(s: State) {
    forall i :: 0 <= i < |s.procs| && SendsDeletion(s.procs[i]) ==>
      AdminTables.Live(s.world.db, s.procs[i].user.userId)
  }

  /** In order, whoever is online and not being kicked is not deleted. */
  lemma OnlineIsLive(s: State, u: nat)
    requires Kept(s, u) && Online(s.world, u)
    requires forall j :: 0 <= j < |s.procs| ==> !Kicks(s.procs[j], u)
    ensures AdminTables.Live(s.world.db, u)
  {
    if !NoWriter(s, u) {
      var i :| 0 <= i < |s.procs| && WritesFor(s.procs[i], u);
      assert Relies(s.world, s.procs[i], u, Renewing(s, u)) && !Kicks(s.procs[i], u);
    }
  }

  /** A deletion comes in only from a live session. */
  lemma DeletionAdmitted(w: World, p: Proc, fault: Fault)
    requires !p.Finished? && !SendsDeletion(p) && SendsDeletion(Continued(w, p, fault))
    ensures SessionOf(w, Continued(w, p, fault).token, Continued(w, p, fault).user.userId)
    ensures p.Authenticate? && fault == Fine
  {
  }

  lemma DeletionGoesOn(w: World, p: Proc, fault: Fault)
    requires !p.Finished? && SendsDeletion(p) && SendsDeletion(Continued(w, p, fault))
    ensures Continued(w, p, fault).user == p.user && !p.Act?
  {
  }

  /** The statement that removes an account goes on to kick it. */
  lemma RemovalKicks(s: State, i: nat, fault: Fault, u: nat)
    requires Enabled(s, Run(i, fault)) && Deletes(s, Run(i, fault), u) && AdminTables.Live(s.world.db, u)
    requires Bearable(s.procs[i], fault, u)
    ensures Kicks(Next(s, Run(i, fault)).procs[i], u)
  {
  }

  lemma PendingStaysLive(s: State, i: nat, fault: Fault, u: nat)
    requires Enabled(s, Run(i, fault)) && AdminTables.Live(s.world.db, u) && Bearable(s.procs[i], fault, u)
    requires !Kicks(Next(s, Run(i, fault)).procs[i], u)
    ensures AdminTables.Live(Next(s, Run(i, fault)).world.db, u)
  {
    StepRemovesIff(s, Run(i, fault), u);
    if Deletes(s, Run(i, fault), u) {
      RemovalKicks(s, i, fault, u);
    }
  }

  lemma AdmittedIsLive(s: State, i: nat, fault: Fault)
    requires Enabled(s, Run(i, fault)) && NoCrossfire(Next(s, Run(i, fault))) && forall u :: Kept(s, u)
    requires !SendsDeletion(s.procs[i]) && SendsDeletion(Next(s, Run(i, fault)).procs[i])
    ensures AdminTables.Live(s.world.db, Next(s, Run(i, fault)).procs[i].user.userId)
  {
    var s' := Next(s, Run(i, fault));
    var u := s'.procs[i].user.userId;
    DeletionAdmitted(s.world, s.procs[i], fault);
    forall j | 0 <= j < |s.procs| ensures !Kicks(s.procs[j], u) {
      assert !Kicks(s'.procs[j], u);
    }
    assert SessionOf(s.world, s'.procs[i].token, u);
    OnlineIsLive(s, u);
  }

  lemma RunKeepsSendersLive(s: State, i: nat, fault: Fault)
    requires Enabled(s, Run(i, fault)) && SendersLive(s) && NoCrossfire(Next(s, Run(i, fault)))
    requires forall u :: Kept(s, u) && Bearable(s.procs[i], fault, u)
    ensures SendersLive(Next(s, Run(i, fault)))
  {
    var s' := Next(s, Run(i, fault));
    forall j | 0 <= j < |s'.procs| && SendsDeletion(s'.procs[j])
      ensures AdminTables.Live(s'.world.db, s'.procs[j].user.userId)
    {
      var u := s'.procs[j].user.userId;
      assert !Kicks(s'.procs[i], u);
      if j != i {
        assert s'.procs[j] == s.procs[j];
      } else if SendsDeletion(s.procs[i]) {
        DeletionGoesOn(s.world, s.procs[i], fault);
      } else {
        AdmittedIsLive(s, i, fault);
      }
      PendingStaysLive(s, i, fault, u);
    }
  }

  lemma StepKeepsSendersLive(s: State, step: Step)
    requires Enabled(s, step) && SendersLive(s) && NoCrossfire(Next(s, step))
    requires forall u :: Kept(s, u) && Orderly(s, step, u)
    ensures SendersLive(Next(s, step))
  {
    match step
    case Run(i, fault) =>
      forall u ensures Kept(s, u) && Bearable(s.procs[i], fault, u) {
        assert Orderly(s, step, u);
      }
      RunKeepsSendersLive(s, i, fault);
    case Spawn(p) =>
      assert forall j :: 0 <= j < |s.procs| ==> Next(s, step).procs[j] == s.procs[j];
    case Pass(_) =>
  }

  lemma {:induction false} OrderlySendersLive(run: seq<State>, steps: seq<Step>, n: nat)
    requires IsRun(run, steps) && Starts(run[0]) && n <= |steps|
    requires forall u :: OrderlyRun(run, steps, n, u)
    requires forall k :: 0 <= k <= n ==> NoCrossfire(run[k])
    ensures SendersLive(run[n])
  {
    if n == 0 {
    } else {
      var m, s, step := n - 1, run[n - 1], steps[n - 1];
      forall u ensures OrderlyRun(run, steps, m, u) {
        assert OrderlyRun(run, steps, n, u);
      }
      forall u ensures Kept(s, u) && Orderly(s, step, u) {
        assert OrderlyRun(run, steps, n, u);
        OrderlyKeeps(run, steps, m, u);
      }
      OrderlySendersLive(run, steps, m);
      assert NoCrossfire(run[n]) && run[n] == Next(s, step);
      StepKeepsSendersLive(s, step);
    }
  }

  lemma LiveSenderKeepsStaff(s: State, step: Step)
    requires Enabled(s, step) && SendersLive(s)
    ensures !DeletesLast(s, step)
  {
    if id :| Deletes(s, step, id) && forall u :: AdminTables.Live(s.world.db, u) ==> u == id {
      assert SendsDeletion(s.procs[step.i]);
    }
  }

  /** If every account's requests are orderly and nobody is deleted while a deletion of
      its own is under way, an account is left in every state. */
  lemma OrderlyStaffed(run: seq<State>, steps: seq<Step>, n: nat)
    requires IsRun(run, steps) && Starts(run[0]) && SessionRuns.Staffed(run[0].world.db) && n <= |steps|
    requires forall u :: OrderlyRun(run, steps, n, u)
    requires forall k :: 0 <= k <= n ==> NoCrossfire(run[k])
    ensures SessionRuns.Staffed(run[n].world.db)
  {
    forall k | 0 <= k < n ensures !DeletesLast(run[k], steps[k]) {
      forall u ensures OrderlyRun(run, steps, k, u) {
        assert OrderlyRun(run, steps, n, u);
      }
      OrderlySendersLive(run, steps, k);
      LiveSenderKeepsStaff(run[k], steps[k]);
    }
    AlwaysStaffedIff(run, steps, n);
  }
}
