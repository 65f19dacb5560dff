// Any number of AdjustWalletTx calls in flight over the same tables, at READ
// COMMITTED.  A step is one statement of one transaction; the row lock of an
// UPDATE is held until the transaction ends.  A call's fault is fixed when it
// begins, so every place where the connection may be lost is some run.
module WalletMachine {
  import opened Base
  import opened Ledger

  datatype Phase =
    | Ready                                  // next: the conditional UPDATE
    | Missed                                 // the UPDATE returned no row; next: GetWallet
    | Updated(balance: int)                  // holds the row lock; next: the entry INSERT
    | Inserted(balance: int, entryId: nat)   // holds the row lock; next: COMMIT
    | Done(outcome: Outcome)

  datatype Tx = Tx(call: Call, fault: Fault, phase: Phase)

  /** The committed tables and every transaction begun so far. */
  datatype State = State(tables: Tables, txs: seq<Tx>)

  datatype Step =
    | Begin(call: Call, fault: Fault)
    | Advance(tx: nat)
    | CreateWallet(wallet: int)              // the commit of some CreateUserTx

  predicate Holds(tx: Tx, w: int) {
    (tx.phase.Updated? || tx.phase.Inserted?) && tx.call.walletId == w
  }

  predicate Locked(s: State, w: int) {
    exists i :: 0 <= i < |s.txs| && Holds(s.txs[i], w)
  }

  /** An UPDATE that selects a locked row waits; nothing else ever does. */
  predicate Blocked(s: State, tx: Tx) {
    && tx.phase.Ready?
    && tx.fault != AtBegin && tx.fault != AtUpdate
    && Pays(s.tables, tx.call)
    && Locked(s, tx.call.walletId)
  }

  predicate Enabled(s: State, step: Step) {
    match step
    case Begin(_, _) => true
    case Advance(i) => i < |s.txs| && !s.txs[i].phase.Done? && !Blocked(s, s.txs[i])
    case CreateWallet(w) => w !in s.tables.balances
  }

  /** The transaction's own progress through its statements. */
  function PhaseAfter(t: Tables, tx: Tx): Phase
    requires !tx.phase.Done?
  {
    match tx.phase
    case Ready =>
      if tx.fault == AtBegin || tx.fault == AtUpdate then Done(Failed(Infrastructure))
      else if tx.call.walletId !in t.balances then Missed
      else
        var balance := t.balances[tx.call.walletId] + tx.call.amount;
        if balance > MAX_INT64 then Done(AfterRollback(tx.fault, Failed(OutOfRange)))
        else if balance < 0 then Missed
        else Updated(balance)
    case Missed =>
      Done(AfterRollback(tx.fault,
        if tx.fault != AtLookup && tx.call.walletId in t.balances then Insufficient else NoWallet))
    case Updated(balance) =>
      if tx.fault == AtInsert then Done(Failed(Infrastructure))
      else if tx.call.operatorId !in t.operators then Done(AfterRollback(tx.fault, Failed(ForeignKey)))
      else Inserted(balance, t.nextId)
    case Inserted(balance, id) =>
      if tx.fault == AtCommit then Done(Failed(Infrastructure))
      else Done(Success(balance, id, EntryOf(tx.call)))
  }

  /** What others see of it: ids are drawn at the INSERT, rows appear at COMMIT. */
  function TablesAfter(t: Tables, tx: Tx): Tables
    requires !tx.phase.Done?
  {
    match tx.phase
    case Updated(_) => if tx.fault == AtInsert then t else t.(nextId := t.nextId + 1)
    case Inserted(balance, id) => if tx.fault == AtCommit then t else Posted(t, tx.call, balance, id)
    case _ => t
  }

  function Next(s: State, step: Step): State
    requires Enabled(s, step)
  {
    match step
    case Begin(c, f) => s.(txs := s.txs + [Tx(c, f, Ready)])
    case CreateWallet(w) => s.(tables := s.tables.(balances := s.tables.balances[w := 0]))
    case Advance(i) =>
      State(TablesAfter(s.tables, s.txs[i]), s.txs[i := s.txs[i].(phase := PhaseAfter(s.tables, s.txs[i]))])
  }

  /** A run: states joined by enabled steps. */
  ghost predicate IsRun(run: seq<State>, steps: seq<Step>) {
    && |run| == |steps| + 1
    && forall k :: 0 <= k < |steps| ==> Enabled(run[k], steps[k]) && run[k + 1] == Next(run[k], steps[k])
  }

  ghost predicate Starts(s: State) {
    s.txs == [] && WellFormed(s.tables) && Conserved(s.tables)
  }

  // ---- What every step keeps ----

  /** A lock holder's new balance is the committed one plus its amount. */
  ghost predicate HoldersAgree(s: State) {
    forall i :: 0 <= i < |s.txs| && Holds(s.txs[i], s.txs[i].call.walletId) ==>
      && Pays(s.tables, s.txs[i].call)
      && s.txs[i].phase.balance == s.tables.balances[s.txs[i].call.walletId] + s.txs[i].call.amount
  }

  ghost predicate OneHolder(s: State) {
    forall i, j :: 0 <= i < j < |s.txs| && Holds(s.txs[i], s.txs[i].call.walletId) ==>
      !Holds(s.txs[j], s.txs[i].call.walletId)
  }

  /** An uncommitted entry's id is its own, and above all entries of its wallet:
      it was drawn while the row lock was held. */
  ghost predicate IdsDrawnUnderLock(s: State) {
    && (forall i :: 0 <= i < |s.txs| && s.txs[i].phase.Inserted? ==>
         && s.txs[i].phase.entryId < s.tables.nextId
         && s.txs[i].phase.entryId !in s.tables.entries)
    && (forall i, id :: 0 <= i < |s.txs| && s.txs[i].phase.Inserted? && id in s.tables.entries ==>
         s.tables.entries[id].walletId == s.txs[i].call.walletId ==> id < s.txs[i].phase.entryId)
    && (forall i, j :: 0 <= i < j < |s.txs| && s.txs[i].phase.Inserted? && s.txs[j].phase.Inserted? ==>
         s.txs[i].phase.entryId != s.txs[j].phase.entryId)
  }

  /** Later phases have passed the checks of the earlier statements. */
  ghost predicate ChecksPassed(s: State) {
    && (forall i :: 0 <= i < |s.txs| && !s.txs[i].phase.Ready? && !s.txs[i].phase.Done? ==>
         s.txs[i].fault != AtBegin && s.txs[i].fault != AtUpdate)
    && (forall i :: 0 <= i < |s.txs| && s.txs[i].phase.Inserted? ==>
         s.txs[i].fault != AtInsert && s.txs[i].call.operatorId in s.tables.operators)
  }

  ghost predicate Inv(s: State) {
    && WellFormed(s.tables) && Conserved(s.tables)
    && HoldersAgree(s) && OneHolder(s) && IdsDrawnUnderLock(s) && ChecksPassed(s)
  }

  lemma NewCallKeepsIds(s: State, c: Call, f: Fault)
    requires IdsDrawnUnderLock(s)
    ensures IdsDrawnUnderLock(Next(s, Begin(c, f)))
  {
  }

  lemma NewCallKeepsInv(s: State, c: Call, f: Fault)
    requires Inv(s)
    ensures Inv(Next(s, Begin(c, f)))
  {
    var s' := Next(s, Begin(c, f));
    NewCallKeepsIds(s, c, f);
    assert forall j :: 0 <= j < |s'.txs| && !s'.txs[j].phase.Ready? ==> j < |s.txs| && s'.txs[j] == s.txs[j];
  }

  lemma NewWalletKeepsInv(s: State, w: int)
    requires Inv(s) && w !in s.tables.balances
    ensures Inv(Next(s, CreateWallet(w)))
  {
    var t := s.tables;
    var t' := Next(s, CreateWallet(w)).tables;
    assert forall v :: History(t', v) == History(t, v);
    assert forall k :: k in t.entries ==> t.entries[k].walletId != w;
    ListingStops(t.entries, w, 0, t.nextId);
    assert History(t', w) == [];
  }

  predicate Commits(tx: Tx) {
    tx.phase.Inserted? && tx.fault != AtCommit
  }

  /** Only a COMMIT moves balances or histories, by its own amount and entry. */
  lemma AdvanceEffect(s: State, i: nat)
    requires Inv(s) && Enabled(s, Advance(i))
    ensures var tx, t, t' := s.txs[i], s.tables, Next(s, Advance(i)).tables;
      if Commits(tx) then
        && tx.call.walletId in t.balances && 0 <= t.balances[tx.call.walletId] + tx.call.amount <= MAX_INT64
        && t'.balances == t.balances[tx.call.walletId := t.balances[tx.call.walletId] + tx.call.amount]
        && forall w :: History(t', w) == History(t, w) + if w == tx.call.walletId then [EntryOf(tx.call)] else []
      else
        t'.balances == t.balances && forall w :: History(t', w) == History(t, w)
  {
    var tx := s.txs[i];
    if tx.phase.Updated? {
      SkipId(s.tables);
    } else if Commits(tx) {
      assert Holds(tx, tx.call.walletId);
      PostedHistory(s.tables, tx.call, tx.phase.balance, tx.phase.entryId);
    }
  }

  lemma AdvanceKeepsTables(s: State, i: nat)
    requires Inv(s) && Enabled(s, Advance(i))
    ensures WellFormed(Next(s, Advance(i)).tables) && Conserved(Next(s, Advance(i)).tables)
  {
    var tx := s.txs[i];
    if tx.phase.Updated? {
      SkipId(s.tables);
    } else if Commits(tx) {
      assert Holds(tx, tx.call.walletId);
      PostedHistory(s.tables, tx.call, tx.phase.balance, tx.phase.entryId);
      PostedConserved(s.tables, tx.call, tx.phase.balance, tx.phase.entryId);
    }
  }

  lemma AdvanceKeepsOneHolder(s: State, i: nat)
    requires OneHolder(s) && Enabled(s, Advance(i))
    ensures OneHolder(Next(s, Advance(i)))
  {
    assert s.txs[i].phase.Ready? && PhaseAfter(s.tables, s.txs[i]).Updated? ==> !Locked(s, s.txs[i].call.walletId);
  }

  /** Only the holder's commit moves the balance of a locked row. */
  lemma AdvanceKeepsHoldersAgree(s: State, i: nat)
    requires HoldersAgree(s) && OneHolder(s) && Enabled(s, Advance(i))
    ensures HoldersAgree(Next(s, Advance(i)))
  {
    var tx, s' := s.txs[i], Next(s, Advance(i));
    forall j | 0 <= j < |s'.txs| && Holds(s'.txs[j], s'.txs[j].call.walletId)
      ensures Pays(s'.tables, s'.txs[j].call)
      ensures s'.txs[j].phase.balance == s'.tables.balances[s'.txs[j].call.walletId] + s'.txs[j].call.amount
    {
      if j != i {
        assert Holds(s.txs[j], s.txs[j].call.walletId);
        assert Holds(tx, tx.call.walletId) ==> tx.call.walletId != s.txs[j].call.walletId;
      }
    }
  }

  lemma AdvanceKeepsIds(s: State, i: nat)
    requires WellFormed(s.tables) && OneHolder(s) && IdsDrawnUnderLock(s) && Enabled(s, Advance(i))
    ensures IdsDrawnUnderLock(Next(s, Advance(i)))
  {
    var tx, s' := s.txs[i], Next(s, Advance(i));
    forall j | 0 <= j < |s'.txs| && j != i && s'.txs[j].phase.Inserted?
      ensures tx.phase.Inserted? ==> tx.call.walletId != s.txs[j].call.walletId
    {
      assert Holds(s.txs[j], s.txs[j].call.walletId);
      assert tx.phase.Inserted? ==> Holds(tx, tx.call.walletId);
    }
  }

  lemma AdvanceKeepsChecks(s: State, i: nat)
    requires ChecksPassed(s) && Enabled(s, Advance(i))
    ensures ChecksPassed(Next(s, Advance(i)))
  {
  }

  lemma StepKeepsInv(s: State, step: Step)
    requires Inv(s) && Enabled(s, step)
    ensures Inv(Next(s, step))
  {
    match step
    case Begin(c, f) => NewCallKeepsInv(s, c, f);
    case CreateWallet(w) => NewWalletKeepsInv(s, w);
    case Advance(i) =>
      AdvanceKeepsTables(s, i);
      AdvanceKeepsOneHolder(s, i);
      AdvanceKeepsHoldersAgree(s, i);
      AdvanceKeepsIds(s, i);
      AdvanceKeepsChecks(s, i);
  }

  /** Conservation over all interleavings: in every reachable state each wallet's
      committed balance is the sum of its committed entries, and no prefix of
      its history ever left [0, 2^63-1]. */
  lemma {:induction false} Conservation(run: seq<State>, steps: seq<Step>, k: nat)
    requires IsRun(run, steps) && Starts(run[0]) && k < |run|
    ensures Inv(run[k])
    ensures forall w :: w in run[k].tables.balances ==>
      && run[k].tables.balances[w] == Total(History(run[k].tables, w))
      && 0 <= run[k].tables.balances[w] <= 9_223_372_036_854_775_807
  {
    if k == 0 {
    } else {
      Conservation(run, steps, k - 1);
      StepKeepsInv(run[k - 1], steps[k - 1]);
    }
    forall w | w in run[k].tables.balances ensures 0 <= run[k].tables.balances[w] <= MAX_INT64 {
      var l := History(run[k].tables, w);
      assert l[..|l|] == l;
    }
  }

  /** A step leaves the wallets it does not name, and the transactions other than
      its own, exactly as they were. */
  lemma StepTouchesOne(s: State, step: Step, w: int)
    requires Inv(s) && Enabled(s, step)
    requires step.Advance? ==> s.txs[step.tx].call.walletId != w
    requires step.CreateWallet? ==> step.wallet != w
    ensures (w in Next(s, step).tables.balances) == (w in s.tables.balances)
    ensures w in s.tables.balances ==> Next(s, step).tables.balances[w] == s.tables.balances[w]
    ensures History(Next(s, step).tables, w) == History(s.tables, w)
  {
    if step.Advance? {
      AdvanceEffect(s, step.tx);
    }
  }

  /** A step only appends to a wallet's history. */
  lemma StepAppends(s: State, step: Step, w: int)
    requires Inv(s) && Enabled(s, step)
    ensures History(s.tables, w) <= History(Next(s, step).tables, w)
    ensures forall id :: id in s.tables.entries ==>
      id in Next(s, step).tables.entries && Next(s, step).tables.entries[id] == s.tables.entries[id]
  {
    var s' := Next(s, step);
    if step.Advance? {
      AdvanceEffect(s, step.tx);
    } else {
      assert s'.tables.entries == s.tables.entries;
      assert History(s'.tables, w) == History(s.tables, w);
    }
  }

  /** Over a run wallets are never removed, calls keep their arguments, and answers stand. */
  lemma {:induction false} RunExtends(run: seq<State>, steps: seq<Step>, m: nat, n: nat)
    requires IsRun(run, steps) && m <= n < |run|
    ensures run[m].tables.balances.Keys <= run[n].tables.balances.Keys
    ensures |run[m].txs| <= |run[n].txs|
    ensures forall i :: 0 <= i < |run[m].txs| ==>
      && run[n].txs[i].call == run[m].txs[i].call
      && run[n].txs[i].fault == run[m].txs[i].fault
      && (run[m].txs[i].phase.Done? ==> run[n].txs[i] == run[m].txs[i])
  {
    if m == n {
    } else {
      RunExtends(run, steps, m, n - 1);
    }
  }
}
