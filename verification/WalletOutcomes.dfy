// What a caller may conclude from the answer it got, over every interleaving:
// receipts against the ledger, and the meaning of each refusal.
module WalletOutcomes {
  import opened Base
  import opened Ledger
  import opened WalletMachine

  // ---- Receipts ----

  predicate Posted?(tx: Tx) {
    tx.phase.Done? && tx.phase.outcome.Success?
  }

  /** The entry records the wallet, the amount, the note and the operator of the call. */
  predicate Records(e: Entry, c: Call) {
    && e.walletId == c.walletId && e.amount == c.amount && e.note == c.note
    && e.operatorId == c.operatorId && e.operatorUsername == c.operatorUsername
  }

  ghost predicate Receipt(t: Tables, tx: Tx)
    requires Posted?(tx)
  {
    var o := tx.phase.outcome;
    && o.entryId in t.entries && t.entries[o.entryId] == o.entry && Records(o.entry, tx.call)
    && Total(Listing(t.entries, tx.call.walletId, o.entryId + 1)) == o.balance
  }

  /** The balance a caller was told is the sum of its wallet's entries up to and
      including its own, and no two callers share an entry. */
  ghost predicate ReceiptsMatch(s: State) {
    && (forall i :: 0 <= i < |s.txs| && Posted?(s.txs[i]) ==> Receipt(s.tables, s.txs[i]))
    && (forall i, j :: 0 <= i < j < |s.txs| && Posted?(s.txs[i]) && Posted?(s.txs[j]) ==>
         s.txs[i].phase.outcome.entryId != s.txs[j].phase.outcome.entryId)
  }

  lemma CommitIssuesReceipt(s: State, i: nat)
    requires Inv(s) && i < |s.txs| && Commits(s.txs[i])
    ensures Receipt(Next(s, Advance(i)).tables, Next(s, Advance(i)).txs[i])
  {
    var tx := s.txs[i];
    var w, id := tx.call.walletId, tx.phase.entryId;
    assert Holds(tx, w);
    ListingPut(s.tables.entries, id, EntryOf(tx.call), w, id + 1);
    ListingStops(s.tables.entries, w, id + 1, s.tables.nextId);
    TotalSnoc(History(s.tables, w), EntryOf(tx.call));
  }

  /** A later commit on the same wallet has a larger id, so it falls outside the receipt. */
  lemma ReceiptSurvives(t: Tables, tx: Tx, c: Call, balance: int, id: nat)
    requires Posted?(tx) && Receipt(t, tx) && id !in t.entries
    requires forall k :: k in t.entries && t.entries[k].walletId == c.walletId ==> k < id
    ensures Receipt(Posted(t, c, balance, id), tx)
  {
    var w, n := tx.call.walletId, tx.phase.outcome.entryId + 1;
    ListingPut(t.entries, id, EntryOf(c), w, n);
    assert Listing(t.entries[id := EntryOf(c)], w, n) == Listing(t.entries, w, n);
  }

  lemma CommitKeepsReceipts(s: State, i: nat)
    requires Inv(s) && ReceiptsMatch(s) && i < |s.txs| && Commits(s.txs[i])
    ensures ReceiptsMatch(Next(s, Advance(i)))
  {
    var tx := s.txs[i];
    var s' := Next(s, Advance(i));
    CommitIssuesReceipt(s, i);
    assert s'.tables == Posted(s.tables, tx.call, tx.phase.balance, tx.phase.entryId);
    forall j | 0 <= j < |s'.txs| && j != i && Posted?(s'.txs[j])
      ensures Receipt(s'.tables, s'.txs[j]) && s'.txs[j].phase.outcome.entryId != tx.phase.entryId
    {
      assert s'.txs[j] == s.txs[j] && Receipt(s.tables, s.txs[j]);
      ReceiptSurvives(s.tables, s.txs[j], tx.call, tx.phase.balance, tx.phase.entryId);
    }
  }

  lemma OtherStepKeepsReceipts(s: State, step: Step)
    requires ReceiptsMatch(s) && Enabled(s, step) && !(step.Advance? && Commits(s.txs[step.tx]))
    ensures ReceiptsMatch(Next(s, step))
  {
    var s' := Next(s, step);
    assert s'.tables.entries == s.tables.entries;
    forall j | 0 <= j < |s'.txs| && Posted?(s'.txs[j])
      ensures j < |s.txs| && s'.txs[j] == s.txs[j] && Receipt(s'.tables, s'.txs[j])
    {
      assert s'.txs[j] == s.txs[j] && Receipt(s.tables, s.txs[j]);
    }
  }

  lemma StepKeepsReceipts(s: State, step: Step)
    requires Inv(s) && ReceiptsMatch(s) && Enabled(s, step)
    ensures ReceiptsMatch(Next(s, step))
  {
    if step.Advance? && Commits(s.txs[step.tx]) {
      CommitKeepsReceipts(s, step.tx);
    } else {
      OtherStepKeepsReceipts(s, step);
    }
  }

  /** Ledger replay: in every reachable state all receipts match the ledger. */
  lemma {:induction false} LedgerReplay(run: seq<State>, steps: seq<Step>, n: nat)
    requires IsRun(run, steps) && Starts(run[0]) && n < |run|
    ensures ReceiptsMatch(run[n])
  {
    if n == 0 {
    } else {
      LedgerReplay(run, steps, n - 1);
      Conservation(run, steps, n - 1);
      StepKeepsReceipts(run[n - 1], steps[n - 1]);
    }
  }

  /** Committed entries are still there, unchanged. */
  ghost predicate Keeps(before: Tables, after: Tables) {
    forall id :: id in before.entries ==> id in after.entries && after.entries[id] == before.entries[id]
  }

  lemma RunAppends(run: seq<State>, steps: seq<Step>, k: nat, w: int)
    requires IsRun(run, steps) && Starts(run[0]) && k < |steps|
    ensures History(run[k].tables, w) <= History(run[k + 1].tables, w)
    ensures Keeps(run[k].tables, run[k + 1].tables)
  {
    Conservation(run, steps, k);
    StepAppends(run[k], steps[k], w);
  }

  /** Id order is commit order: whatever a wallet's history was, later commits only
      append to it. */
  lemma {:induction false} HistoryOnlyGrows(run: seq<State>, steps: seq<Step>, m: nat, n: nat, w: int)
    requires IsRun(run, steps) && Starts(run[0]) && m <= n < |run|
    ensures History(run[m].tables, w) <= History(run[n].tables, w)
    ensures Keeps(run[m].tables, run[n].tables)
  {
    if m == n {
    } else {
      HistoryOnlyGrows(run, steps, m, n - 1, w);
      RunAppends(run, steps, n - 1, w);
    }
  }

  /** Every entry is somebody's receipt: nothing else writes the ledger. */
  lemma {:induction false} EntriesAreReceipts(run: seq<State>, steps: seq<Step>, n: nat, id: nat)
    requires IsRun(run, steps) && n < |run| && id in run[n].tables.entries && id !in run[0].tables.entries
    ensures exists i :: 0 <= i < |run[n].txs| && Posted?(run[n].txs[i]) && run[n].txs[i].phase.outcome.entryId == id
  {
    if id in run[n - 1].tables.entries {
      EntriesAreReceipts(run, steps, n - 1, id);
      var i :| 0 <= i < |run[n - 1].txs| && Posted?(run[n - 1].txs[i]) && run[n - 1].txs[i].phase.outcome.entryId == id;
      assert run[n].txs[i] == run[n - 1].txs[i];
    } else {
      var i := steps[n - 1].tx;
      assert Posted?(run[n].txs[i]) && run[n].txs[i].phase.outcome.entryId == id;
    }
  }

  // ---- Refusals ----

  /** Step k is transaction i's UPDATE, returning no row. */
  ghost predicate RefusedAt(run: seq<State>, steps: seq<Step>, k: int, i: nat)
    requires IsRun(run, steps)
  {
    && 0 <= k < |steps| && steps[k] == Advance(i)
    && run[k].txs[i].phase.Ready? && run[k + 1].txs[i].phase.Missed?
  }

  /** Step k is transaction i's GetWallet. */
  ghost predicate LooksUpAt(run: seq<State>, steps: seq<Step>, k: int, i: nat)
    requires IsRun(run, steps)
  {
    0 <= k < |steps| && steps[k] == Advance(i) && run[k].txs[i].phase.Missed?
  }

  /** A refusal at k was about money exactly if the wallet existed then; otherwise
      some later GetWallet found a wallet created in between. */
  ghost predicate TruthfulOrRaced(run: seq<State>, steps: seq<Step>, k: nat, n: nat, i: nat)
    requires IsRun(run, steps) && k < n < |run| && i < |run[n].txs|
  {
    var c := run[n].txs[i].call;
    if c.walletId in run[k].tables.balances then
      run[k].tables.balances[c.walletId] + c.amount < 0 && c.amount < 0
    else
      exists l :: k < l < n && LooksUpAt(run, steps, l, i) && c.walletId in run[l].tables.balances
  }

  ghost predicate AbsentUpTo(run: seq<State>, l: nat, w: int)
    requires l < |run|
  {
    forall k :: 0 <= k <= l ==> w !in run[k].tables.balances
  }

  lemma {:induction false} RefusalHappened(run: seq<State>, steps: seq<Step>, n: nat, i: nat)
    requires IsRun(run, steps) && Starts(run[0]) && n < |run| && i < |run[n].txs| && run[n].txs[i].phase.Missed?
    ensures exists k :: k < n && RefusedAt(run, steps, k, i)
  {
    if i < |run[n - 1].txs| && run[n - 1].txs[i].phase.Missed? {
      RefusalHappened(run, steps, n - 1, i);
    } else {
      assert RefusedAt(run, steps, n - 1, i);
    }
  }

  lemma RefusalExplained(run: seq<State>, steps: seq<Step>, k: nat, l: nat, i: nat)
    requires IsRun(run, steps) && Starts(run[0]) && k < l < |steps|
    requires RefusedAt(run, steps, k, i) && LooksUpAt(run, steps, l, i) && run[l + 1].txs[i].phase == Done(Insufficient)
    ensures TruthfulOrRaced(run, steps, k, l + 1, i)
  {
    RunExtends(run, steps, k, l + 1);
    var c := run[l + 1].txs[i].call;
    assert run[k].txs[i].call == c && run[l].txs[i].call == c;
    if c.walletId in run[k].tables.balances {
      assert 0 <= run[k].tables.balances[c.walletId] <= MAX_INT64 by { Conservation(run, steps, k); }
    }
  }

  /** ErrInsufficientBalance: the UPDATE saw either a wallet that could not pay, so
      the amount was a debit, or no wallet at all and GetWallet a later one. */
  lemma {:induction false} InsufficientMeans(run: seq<State>, steps: seq<Step>, n: nat, i: nat)
    requires IsRun(run, steps) && Starts(run[0]) && n < |run| && i < |run[n].txs|
    requires run[n].txs[i].phase == Done(Insufficient)
    ensures exists k :: k < n && RefusedAt(run, steps, k, i) && TruthfulOrRaced(run, steps, k, n, i)
  {
    if i < |run[n - 1].txs| && run[n - 1].txs[i].phase.Done? {
      InsufficientMeans(run, steps, n - 1, i);
    } else {
      var l := n - 1;
      RefusalHappened(run, steps, l, i);
      var k :| k < l && RefusedAt(run, steps, k, i);
      RefusalExplained(run, steps, k, l, i);
    }
  }

  /** sql.ErrNoRows, when GetWallet itself did not fail: no such wallet existed at
      any moment up to the lookup. */
  lemma {:induction false} NoRowsMeans(run: seq<State>, steps: seq<Step>, n: nat, i: nat)
    requires IsRun(run, steps) && Starts(run[0]) && n < |run| && i < |run[n].txs|
    requires run[n].txs[i].phase == Done(NoWallet) && run[n].txs[i].fault != AtLookup
    ensures exists l :: l < n && LooksUpAt(run, steps, l, i) && AbsentUpTo(run, l, run[n].txs[i].call.walletId)
  {
    if i < |run[n - 1].txs| && run[n - 1].txs[i].phase.Done? {
      NoRowsMeans(run, steps, n - 1, i);
    } else {
      var l := n - 1;
      assert LooksUpAt(run, steps, l, i);
      forall k | 0 <= k <= l ensures run[n].txs[i].call.walletId !in run[k].tables.balances {
        RunExtends(run, steps, k, l);
      }
    }
  }

  // ---- Every answer, from what the statements saw ----

  /** Step k is transaction i's UPDATE. */
  ghost predicate UpdatesAt(run: seq<State>, steps: seq<Step>, k: int, i: nat)
    requires IsRun(run, steps)
  {
    0 <= k < |steps| && steps[k] == Advance(i) && run[k].txs[i].phase.Ready?
  }

  /** Where a transaction stands after an UPDATE that saw `seen`. */
  ghost predicate UnderWay(seen: Tables, now: Tables, tx: Tx) {
    && now.operators == seen.operators && tx.fault != AtBegin && tx.fault != AtUpdate
    && (tx.phase.Missed? ==> Refuses(seen, tx.call))
    && (tx.phase.Updated? ==> Pays(seen, tx.call))
    && (tx.phase.Inserted? ==> && Pays(seen, tx.call) && tx.call.operatorId in seen.operators
                               && tx.fault != AtInsert)
  }

  /** The UPDATE may be the last statement... */
  lemma UpdateAnswers(t: Tables, tx: Tx)
    requires tx.phase.Ready? && PhaseAfter(t, tx).Done?
    ensures AnsweredBy(t, t, tx.call, tx.fault, PhaseAfter(t, tx).outcome)
    ensures tx.fault == AtBegin || tx.fault == AtUpdate || !Refuses(t, tx.call)
  {
  }

  /** ...or a later one. */
  lemma LaterStatementAnswers(seen: Tables, now: Tables, tx: Tx)
    requires !tx.phase.Ready? && !tx.phase.Done? && UnderWay(seen, now, tx) && PhaseAfter(now, tx).Done?
    ensures AnsweredBy(seen, now, tx.call, tx.fault, PhaseAfter(now, tx).outcome)
    ensures Refuses(seen, tx.call) ==> tx.phase.Missed?
  {
  }

  lemma {:induction false} UpdateHappened(run: seq<State>, steps: seq<Step>, n: nat, i: nat) returns (k: nat)
    requires IsRun(run, steps) && Starts(run[0]) && n < |run| && i < |run[n].txs|
    requires !run[n].txs[i].phase.Ready? && !run[n].txs[i].phase.Done?
    ensures k < n && UpdatesAt(run, steps, k, i) && UnderWay(run[k].tables, run[n].tables, run[n].txs[i])
  {
    if i < |run[n - 1].txs| && !run[n - 1].txs[i].phase.Ready? {
      k := UpdateHappened(run, steps, n - 1, i);
    } else {
      k := n - 1;
    }
  }

  /** Step k was the UPDATE of a finished call; step l was its GetWallet, if the UPDATE
      found no row and did not fail; what these two saw decides the answer. */
  ghost predicate Explains(run: seq<State>, steps: seq<Step>, k: int, l: int, i: nat, tx: Tx)
    requires IsRun(run, steps)
  {
    && tx.phase.Done? && k <= l < |steps| && UpdatesAt(run, steps, k, i)
    && (tx.fault != AtBegin && tx.fault != AtUpdate && Refuses(run[k].tables, tx.call) ==> LooksUpAt(run, steps, l, i))
    && AnsweredBy(run[k].tables, run[l].tables, tx.call, tx.fault, tx.phase.outcome)
  }

  /** Every answer, over every interleaving and every fault, has its cause in the rows
      that the call's own statements saw, and every such cause has its answer. */
  lemma {:induction false} AnswerIff(run: seq<State>, steps: seq<Step>, n: nat, i: nat) returns (k: nat, l: nat)
    requires IsRun(run, steps) && Starts(run[0]) && n < |run| && i < |run[n].txs| && run[n].txs[i].phase.Done?
    ensures l < n && Explains(run, steps, k, l, i, run[n].txs[i])
  {
    var m := n - 1;
    if i < |run[m].txs| && run[m].txs[i].phase.Done? {
      k, l := AnswerIff(run, steps, m, i);
      assert run[n].txs[i] == run[m].txs[i];
    } else if run[m].txs[i].phase.Ready? {
      k, l := m, m;
      UpdateAnswers(run[m].tables, run[m].txs[i]);
    } else {
      k := UpdateHappened(run, steps, m, i);
      l := m;
      LaterStatementAnswers(run[k].tables, run[m].tables, run[m].txs[i]);
    }
  }

  /** Why the wallet must exist first: a deposit, which can never lack funds, is
      reported as ErrInsufficientBalance when its wallet is created between its
      UPDATE and its GetWallet; no sequential execution answers so. */
  lemma DepositReportedInsufficient(t: Tables, c: Call) returns (run: seq<State>, steps: seq<Step>)
    requires WellFormed(t) && Conserved(t) && c.walletId !in t.balances && c.amount > 0
    ensures IsRun(run, steps) && Starts(run[0]) && run[0].tables == t
    ensures |run| == 5 && run[4].txs == [Tx(c, NoFault, Done(Insufficient))]
    ensures forall u: Tables, f :: WellFormed(u) && Conserved(u) ==> Adjust(u, c, f).1 != Insufficient
  {
    steps := [Begin(c, NoFault), Advance(0), CreateWallet(c.walletId), Advance(0)];
    var s0 := State(t, []);
    var s1 := Next(s0, steps[0]);
    var s2 := Next(s1, steps[1]);
    var s3 := Next(s2, steps[2]);
    var s4 := Next(s3, steps[3]);
    run := [s0, s1, s2, s3, s4];
    forall u: Tables, f | WellFormed(u) && Conserved(u)
      ensures Adjust(u, c, f).1 != Insufficient
    {
      if c.walletId in u.balances {
        var l := History(u, c.walletId);
        assert l[..|l|] == l;
      }
    }
  }
}
