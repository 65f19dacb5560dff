// Nobody waits for ever: a transaction holds at most one row lock and never waits
// while holding it.
module WalletProgress {
  import opened Ledger
  import opened WalletMachine

  /** Statements a transaction may still issue. */
  function Remaining(p: Phase): nat {
    match p
    case Ready => 3
    case Updated(_) => 2
    case Missed => 1
    case Inserted(_, _) => 1
    case Done(_) => 0
  }

  function Work(txs: seq<Tx>): nat {
    if txs == [] then 0 else Work(txs[..|txs| - 1]) + Remaining(txs[|txs| - 1].phase)
  }

  lemma {:induction false} WorkUpdate(txs: seq<Tx>, i: nat, tx: Tx)
    requires i < |txs|
    ensures Work(txs[i := tx]) == Work(txs) - Remaining(txs[i].phase) + Remaining(tx.phase)
  {
    var last := |txs| - 1;
    if i == last {
      assert txs[i := tx][..last] == txs[..last];
    } else {
      assert txs[i := tx][..last] == txs[..last][i := tx];
      WorkUpdate(txs[..last], i, tx);
    }
  }

  predicate AllDone(s: State) {
    forall i :: 0 <= i < |s.txs| ==> s.txs[i].phase.Done?
  }

  /** The only statement that waits is an UPDATE of a row it could change as committed,
      while another transaction has changed it and not ended.  A call that will be
      refused is refused at once. */
  lemma WaitsIff(s: State, i: nat)
    requires i < |s.txs| && !s.txs[i].phase.Done?
    ensures var tx := s.txs[i];
      !Enabled(s, Advance(i)) <==>
        && tx.phase.Ready? && tx.fault != AtBegin && tx.fault != AtUpdate && Pays(s.tables, tx.call)
        && exists j :: && 0 <= j < |s.txs| && j != i && s.txs[j].call.walletId == tx.call.walletId
                       && (s.txs[j].phase.Updated? || s.txs[j].phase.Inserted?)
  {
    if !Enabled(s, Advance(i)) {
      var j :| 0 <= j < |s.txs| && Holds(s.txs[j], s.txs[i].call.walletId);
    }
    if j :| && 0 <= j < |s.txs| && j != i && s.txs[j].call.walletId == s.txs[i].call.walletId
            && (s.txs[j].phase.Updated? || s.txs[j].phase.Inserted?) {
      assert Holds(s.txs[j], s.txs[i].call.walletId);
    }
  }

  /** While any call is unanswered, some statement can run. */
  lemma NoDeadlock(s: State)
    requires Inv(s) && !AllDone(s)
    ensures exists i :: 0 <= i < |s.txs| && Enabled(s, Advance(i))
  {
    var i :| 0 <= i < |s.txs| && !s.txs[i].phase.Done?;
    if Blocked(s, s.txs[i]) {
      var j :| 0 <= j < |s.txs| && Holds(s.txs[j], s.txs[i].call.walletId);
      assert Enabled(s, Advance(j));
    } else {
      assert Enabled(s, Advance(i));
    }
  }

  /** Every statement uses up work. */
  lemma AdvanceConsumes(s: State, i: nat)
    requires Enabled(s, Advance(i))
    ensures Work(Next(s, Advance(i)).txs) < Work(s.txs)
  {
    WorkUpdate(s.txs, i, Next(s, Advance(i)).txs[i]);
  }

  /** With no new calls, no schedule runs longer than the work it started with... */
  lemma {:induction false} BatchIsBounded(run: seq<State>, steps: seq<Step>, n: nat)
    requires IsRun(run, steps) && n <= |steps| && forall k :: 0 <= k < n ==> steps[k].Advance?
    ensures n + Work(run[n].txs) <= Work(run[0].txs)
  {
    if n == 0 {
    } else {
      BatchIsBounded(run, steps, n - 1);
      AdvanceConsumes(run[n - 1], steps[n - 1].tx);
    }
  }

  /** ...and a schedule that cannot go on has answered every call. */
  lemma StuckMeansDone(run: seq<State>, steps: seq<Step>, n: nat)
    requires IsRun(run, steps) && Starts(run[0]) && n < |run|
    requires forall i :: 0 <= i < |run[n].txs| ==> !Enabled(run[n], Advance(i))
    ensures AllDone(run[n])
  {
    Conservation(run, steps, n);
    if !AllDone(run[n]) {
      NoDeadlock(run[n]);
    }
  }

  // ---- A call that meets nobody ----

  predicate OthersHold(s: State, i: nat)
    requires i < |s.txs|
  {
    !s.txs[i].phase.Done? &&
    exists j :: 0 <= j < |s.txs| && Holds(s.txs[j], s.txs[i].call.walletId) && (j != i || s.txs[i].phase.Ready?)
  }

  /** Transaction i runs its statements back to back. */
  function RunAlone(s: State, i: nat): State
    requires i < |s.txs| && !OthersHold(s, i)
    decreases Remaining(s.txs[i].phase)
  {
    if s.txs[i].phase.Done? then s else RunAlone(Next(s, Advance(i)), i)
  }

  /** Meeting nobody, the statements add up to Adjust: the interleaved machine and
      the sequential specification describe the same call. */
  lemma AloneIsAdjust(s: State, i: nat)
    requires i < |s.txs| && s.txs[i].phase.Ready? && !OthersHold(s, i)
    ensures var c, f := s.txs[i].call, s.txs[i].fault;
      RunAlone(s, i) == State(Adjust(s.tables, c, f).0, s.txs[i := Tx(c, f, Done(Adjust(s.tables, c, f).1))])
  {
    var s1 := Next(s, Advance(i));
    assert RunAlone(s, i) == RunAlone(s1, i);
    if !s1.txs[i].phase.Done? {
      var s2 := Next(s1, Advance(i));
      assert RunAlone(s1, i) == RunAlone(s2, i);
      if !s2.txs[i].phase.Done? {
        var s3 := Next(s2, Advance(i));
        assert RunAlone(s2, i) == RunAlone(s3, i) == s3;
      }
    }
  }
}
