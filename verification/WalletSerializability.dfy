// Every interleaving of AdjustWalletTx calls is equivalent to running the same
// calls, with the same faults, one after the other.
module WalletSerializability {
  import opened Ledger
  import opened WalletMachine

  datatype Op = AdjustOp(tx: nat, call: Call, fault: Fault) | CreateOp(wallet: int)

  // ---- The sequential execution ----

  function Perform(t: Tables, op: Op): Tables {
    match op
    case AdjustOp(_, c, f) => Adjust(t, c, f).0
    case CreateOp(w) => t.(balances := t.balances[w := 0])
  }

  function Replay(t: Tables, ops: seq<Op>): Tables {
    if ops == [] then t else Perform(Replay(t, ops[..|ops| - 1]), ops[|ops| - 1])
  }

  /** What the k-th operation of the sequential execution returned. */
  function Answer(t: Tables, ops: seq<Op>, k: nat): Outcome
    requires k < |ops| && ops[k].AdjustOp?
  {
    Adjust(Replay(t, ops[..k]), ops[k].call, ops[k].fault).1
  }

  // ---- The order the run induces ----

  /** Its answer may still change: a call the UPDATE found no wallet for is refused
      for want of the wallet or, if the wallet is created meanwhile, of money. */
  predicate Undecided(now: Tables, tx: Tx) {
    || tx.phase.Ready? || tx.phase.Updated? || tx.phase.Inserted?
    || (tx.phase.Missed? && tx.call.walletId !in now.balances)
  }

  /** What a decided transaction returned, or will when GetWallet runs. */
  function Decided(now: Tables, tx: Tx): Outcome
    requires !Undecided(now, tx)
  {
    match tx.phase
    case Done(o) => o
    case Missed => PhaseAfter(now, tx).outcome
  }

  /** Told that funds are insufficient though it takes none. */
  predicate Misled(now: Tables, tx: Tx) {
    !Undecided(now, tx) && Decided(now, tx) == Insufficient && tx.call.amount >= 0
  }

  predicate Settled(now: Tables, tx: Tx) {
    !Undecided(now, tx) && !Misled(now, tx)
  }

  /** A call that missed wallet w and can be answered as it will be: before the
      wallet's creation when GetWallet or the rollback fails, after it when it is a debit. */
  predicate Stray(tx: Tx, w: int, early: bool) {
    && tx.phase.Missed? && tx.call.walletId == w
    && if early then tx.fault == AtLookup || tx.fault == AtRollback
       else tx.fault != AtLookup && tx.fault != AtRollback && tx.call.amount < 0
  }

  function Strays(txs: seq<Tx>, w: int, early: bool): seq<Op> {
    if txs == [] then []
    else
      var last := |txs| - 1;
      Strays(txs[..last], w, early) +
      if Stray(txs[last], w, early) then [AdjustOp(last, txs[last].call, txs[last].fault)] else []
  }

  /** A call takes effect at its COMMIT when it posts, at its UPDATE when that finds
      the wallet and turns it away, where it fails, or, if it missed the wallet, at
      GetWallet or next to the wallet's creation. */
  function Event(s: State, step: Step): seq<Op>
    requires Enabled(s, step)
  {
    match step
    case Begin(_, _) => []
    case CreateWallet(w) => Strays(s.txs, w, true) + [CreateOp(w)] + Strays(s.txs, w, false)
    case Advance(i) =>
      var tx := s.txs[i];
      if Undecided(s.tables, tx) && !Undecided(TablesAfter(s.tables, tx), tx.(phase := PhaseAfter(s.tables, tx)))
      then [AdjustOp(i, tx.call, tx.fault)] else []
  }

  ghost function SerialOrder(run: seq<State>, steps: seq<Step>, n: nat): seq<Op>
    requires IsRun(run, steps) && n <= |steps|
  {
    if n == 0 then [] else SerialOrder(run, steps, n - 1) + Event(run[n - 1], steps[n - 1])
  }

  // ---- What "equal" means ----

  /** Equal tables up to the values of the entry ids. */
  ghost predicate SameBooks(a: Tables, b: Tables) {
    a.balances == b.balances && a.operators == b.operators && forall w :: History(a, w) == History(b, w)
  }

  predicate SameOutcome(a: Outcome, b: Outcome) {
    a == b || (a.Success? && b.Success? && a.balance == b.balance && a.entry == b.entry)
  }

  /** The k-th sequential operation is transaction i's, and answers as it was answered. */
  ghost predicate Answers(now: Tables, t: Tables, log: seq<Op>, k: int, i: nat, tx: Tx) {
    && 0 <= k < |log| && log[k] == AdjustOp(i, tx.call, tx.fault)
    && !Undecided(now, tx) && SameOutcome(Decided(now, tx), Answer(t, log, k))
  }

  ghost predicate Answered(now: Tables, t: Tables, log: seq<Op>, i: nat, tx: Tx) {
    exists k :: Answers(now, t, log, k, i, tx)
  }

  ghost predicate OncePerCall(log: seq<Op>) {
    forall k, l :: 0 <= k < l < |log| && log[k].AdjustOp? && log[l].AdjustOp? ==> log[k].tx != log[l].tx
  }

  /** The operation is the call of a transaction of the run. */
  predicate CallOf(s: State, op: Op)
    requires op.AdjustOp?
  {
    op.tx < |s.txs| && op.call == s.txs[op.tx].call && op.fault == s.txs[op.tx].fault
  }

  ghost predicate OnlySettled(s: State, log: seq<Op>) {
    forall k :: 0 <= k < |log| && log[k].AdjustOp? ==> CallOf(s, log[k]) && Settled(s.tables, s.txs[log[k].tx])
  }

  ghost predicate AllAnswered(s: State, t: Tables, log: seq<Op>) {
    forall i :: 0 <= i < |s.txs| && Settled(s.tables, s.txs[i]) ==> Answered(s.tables, t, log, i, s.txs[i])
  }

  /** The log explains the state: its tables, and every call but the misled. */
  ghost predicate Linearized(s: State, t: Tables, log: seq<Op>) {
    && SameBooks(s.tables, Replay(t, log)) && WellFormed(Replay(t, log))
    && OncePerCall(log) && OnlySettled(s, log) && AllAnswered(s, t, log)
  }

  // ---- Proof ----

  lemma ReplaySnoc(t: Tables, log: seq<Op>, op: Op)
    ensures Replay(t, log + [op]) == Perform(Replay(t, log), op)
  {
    assert (log + [op])[..|log|] == log;
  }

  lemma AnswerKept(now: Tables, t: Tables, log: seq<Op>, ops: seq<Op>, i: nat, tx: Tx)
    requires Answered(now, t, log, i, tx)
    ensures Answered(now, t, log + ops, i, tx)
  {
    var k :| Answers(now, t, log, k, i, tx);
    assert (log + ops)[..k] == log[..k];
    assert Answers(now, t, log + ops, k, i, tx);
  }

  /** Equal books answer a call alike and stay equal. */
  lemma AdjustRespectsBooks(a: Tables, b: Tables, c: Call, f: Fault)
    requires SameBooks(a, b) && WellFormed(a) && WellFormed(b)
    ensures SameBooks(Adjust(a, c, f).0, Adjust(b, c, f).0)
    ensures SameOutcome(Adjust(a, c, f).1, Adjust(b, c, f).1)
    ensures WellFormed(Adjust(b, c, f).0)
  {
    AdjustEffect(a, c, f);
    AdjustEffect(b, c, f);
  }

  /** The whole call, run alone on t, does what this one step of tx does. */
  ghost predicate StepIsWholeCall(t: Tables, tx: Tx)
    requires !tx.phase.Done?
  {
    var t', tx' := TablesAfter(t, tx), tx.(phase := PhaseAfter(t, tx));
    && !Undecided(t', tx')
    && SameBooks(t', Adjust(t, tx.call, tx.fault).0)
    && SameOutcome(Decided(t', tx'), Adjust(t, tx.call, tx.fault).1)
  }

  lemma UpdateDecides(t: Tables, tx: Tx)
    requires tx.phase.Ready? && !PhaseAfter(t, tx).Updated? && !Undecided(t, tx.(phase := PhaseAfter(t, tx)))
    ensures StepIsWholeCall(t, tx)
  {
  }

  lemma LookupDecides(t: Tables, tx: Tx)
    requires tx.phase.Missed? && tx.call.walletId !in t.balances && tx.fault != AtBegin && tx.fault != AtUpdate
    ensures StepIsWholeCall(t, tx)
  {
  }

  lemma InsertDecides(t: Tables, tx: Tx)
    requires WellFormed(t) && tx.phase.Updated? && !PhaseAfter(t, tx).Inserted?
    requires Pays(t, tx.call) && tx.fault != AtBegin && tx.fault != AtUpdate
    ensures StepIsWholeCall(t, tx)
  {
    SkipId(t);
  }

  lemma CommitDecides(t: Tables, tx: Tx)
    requires WellFormed(t) && tx.phase.Inserted? && Pays(t, tx.call)
    requires tx.phase.balance == t.balances[tx.call.walletId] + tx.call.amount
    requires tx.fault != AtBegin && tx.fault != AtUpdate && tx.fault != AtInsert && tx.call.operatorId in t.operators
    requires tx.phase.entryId < t.nextId && tx.phase.entryId !in t.entries
    requires forall id :: id in t.entries && t.entries[id].walletId == tx.call.walletId ==> id < tx.phase.entryId
    ensures StepIsWholeCall(t, tx)
  {
    AdjustEffect(t, tx.call, tx.fault);
    if tx.fault != AtCommit {
      PostedHistory(t, tx.call, tx.phase.balance, tx.phase.entryId);
    }
  }

  /** At the step that decides it, a transaction does to the committed tables what
      the whole call would do if run there alone. */
  lemma DecidingStepIsWholeCall(s: State, i: nat)
    requires Inv(s) && Enabled(s, Advance(i)) && Event(s, Advance(i)) != []
    ensures StepIsWholeCall(s.tables, s.txs[i])
  {
    var tx := s.txs[i];
    match tx.phase
    case Ready => UpdateDecides(s.tables, tx);
    case Missed => LookupDecides(s.tables, tx);
    case Updated(_) =>
      assert Holds(tx, tx.call.walletId);
      InsertDecides(s.tables, tx);
    case Inserted(_, _) =>
      assert Holds(tx, tx.call.walletId);
      CommitDecides(s.tables, tx);
  }

  ghost predicate NonNegative(t: Tables) {
    forall w :: w in t.balances ==> t.balances[w] >= 0
  }

  lemma ConservedNonNegative(t: Tables)
    requires Conserved(t)
    ensures NonNegative(t)
  {
    forall w | w in t.balances ensures t.balances[w] >= 0 {
      assert History(t, w)[..|History(t, w)|] == History(t, w);
    }
  }

  /** The call alone tells nobody that funds are insufficient who takes none. */
  lemma AloneMisleadsNobody(t: Tables, c: Call, f: Fault)
    requires NonNegative(t) && Adjust(t, c, f).1 == Insufficient
    ensures c.amount < 0
  {
  }

  /** Unless the wallet of a missed call is created, nothing changes what a decided
      call returns. */
  lemma DecisionStands(s: State, step: Step, j: nat)
    requires Inv(s) && Enabled(s, step) && j < |s.txs| && !Undecided(s.tables, s.txs[j])
    ensures Next(s, step).txs[j].call == s.txs[j].call && Next(s, step).txs[j].fault == s.txs[j].fault
    ensures !Undecided(Next(s, step).tables, Next(s, step).txs[j])
    ensures Decided(Next(s, step).tables, Next(s, step).txs[j]) == Decided(s.tables, s.txs[j])
  {
    if step.Advance? {
      AdvanceEffect(s, step.tx);
    }
  }

  lemma AnswerStands(s: State, t: Tables, log: seq<Op>, step: Step, j: nat)
    requires Inv(s) && Enabled(s, step) && j < |s.txs| && Answered(s.tables, t, log, j, s.txs[j])
    ensures Answered(Next(s, step).tables, t, log, j, Next(s, step).txs[j])
  {
    var k :| Answers(s.tables, t, log, k, j, s.txs[j]);
    DecisionStands(s, step, j);
    assert Answers(Next(s, step).tables, t, log, k, j, Next(s, step).txs[j]);
  }

  lemma AnswersStand(s: State, t: Tables, log: seq<Op>, step: Step, ops: seq<Op>)
    requires Inv(s) && AllAnswered(s, t, log) && Enabled(s, step)
    ensures var s' := Next(s, step); forall j :: 0 <= j < |s.txs| && Settled(s.tables, s.txs[j]) ==>
      Answered(s'.tables, t, log + ops, j, s'.txs[j])
  {
    var s' := Next(s, step);
    forall j | 0 <= j < |s.txs| && Settled(s.tables, s.txs[j])
      ensures Answered(s'.tables, t, log + ops, j, s'.txs[j])
    {
      AnswerStands(s, t, log, step, j);
      AnswerKept(s'.tables, t, log, ops, j, s'.txs[j]);
    }
  }

  lemma SettledStands(s: State, log: seq<Op>, step: Step)
    requires Inv(s) && OnlySettled(s, log) && Enabled(s, step)
    ensures OnlySettled(Next(s, step), log)
  {
    var s' := Next(s, step);
    forall k | 0 <= k < |log| && log[k].AdjustOp?
      ensures CallOf(s', log[k]) && Settled(s'.tables, s'.txs[log[k].tx])
    {
      DecisionStands(s, step, log[k].tx);
    }
  }

  /** A step settles at most its own transaction. */
  lemma OthersSettledBefore(s: State, step: Step)
    requires Inv(s) && Enabled(s, step) && !step.CreateWallet?
    ensures forall j :: 0 <= j < |Next(s, step).txs| && Settled(Next(s, step).tables, Next(s, step).txs[j]) ==>
      j < |s.txs| && (Settled(s.tables, s.txs[j]) || (step == Advance(j) && Event(s, step) != []))
  {
    var s' := Next(s, step);
    if step.Advance? {
      AdvanceEffect(s, step.tx);
    }
    forall j | 0 <= j < |s'.txs| && Settled(s'.tables, s'.txs[j])
      ensures j < |s.txs| && (Settled(s.tables, s.txs[j]) || (step == Advance(j) && Event(s, step) != []))
    {
      if j < |s.txs| && !Undecided(s.tables, s.txs[j]) {
        DecisionStands(s, step, j);
      }
    }
  }

  lemma DecisionExtends(s: State, t: Tables, log: seq<Op>, i: nat)
    requires Inv(s) && Linearized(s, t, log) && Enabled(s, Advance(i)) && Event(s, Advance(i)) != []
    ensures Linearized(Next(s, Advance(i)), t, log + Event(s, Advance(i)))
  {
    var s' := Next(s, Advance(i));
    var op := AdjustOp(i, s.txs[i].call, s.txs[i].fault);
    ReplaySnoc(t, log, op);
    DecidingStepIsWholeCall(s, i);
    AdjustRespectsBooks(s.tables, Replay(t, log), op.call, op.fault);
    assert !Misled(s'.tables, s'.txs[i]) by {
      ConservedNonNegative(s.tables);
      if Decided(s'.tables, s'.txs[i]) == Insufficient {
        AloneMisleadsNobody(s.tables, op.call, op.fault);
      }
    }
    SettledStands(s, log, Advance(i));
    AnswersStand(s, t, log, Advance(i), [op]);
    assert (log + [op])[..|log|] == log;
    assert Answers(s'.tables, t, log + [op], |log|, i, s'.txs[i]);
    OthersSettledBefore(s, Advance(i));
  }

  lemma SilentSparesBooks(s: State, i: nat)
    requires Inv(s) && Enabled(s, Advance(i)) && Event(s, Advance(i)) == []
    ensures SameBooks(Next(s, Advance(i)).tables, s.tables)
  {
    AdvanceEffect(s, i);
  }

  lemma SilentStep(s: State, t: Tables, log: seq<Op>, step: Step)
    requires Inv(s) && Linearized(s, t, log) && Enabled(s, step) && Event(s, step) == []
    ensures Linearized(Next(s, step), t, log)
  {
    assert SameBooks(Next(s, step).tables, s.tables) by {
      if step.Advance? {
        SilentSparesBooks(s, step.tx);
      }
    }
    AnswersStand(s, t, log, step, []);
    assert log + [] == log;
    SettledStands(s, log, step);
    OthersSettledBefore(s, step);
  }

  // ---- The creation of a wallet that calls have missed ----

  predicate IsStray(txs: seq<Tx>, w: int, early: bool, op: Op) {
    && op.AdjustOp? && op.tx < |txs| && Stray(txs[op.tx], w, early)
    && op.call == txs[op.tx].call && op.fault == txs[op.tx].fault
  }

  /** The strays are the calls that fit, each once. */
  lemma {:induction false} StraysAre(txs: seq<Tx>, w: int, early: bool)
    ensures var ops := Strays(txs, w, early);
      && OncePerCall(ops)
      && (forall k :: 0 <= k < |ops| ==> IsStray(txs, w, early, ops[k]))
      && (forall i :: 0 <= i < |txs| && Stray(txs[i], w, early) ==> AdjustOp(i, txs[i].call, txs[i].fault) in ops)
  {
    if txs == [] {
    } else {
      var last := |txs| - 1;
      var init, ops := txs[..last], Strays(txs[..last], w, early);
      StraysAre(init, w, early);
      forall k | 0 <= k < |ops| ensures IsStray(txs, w, early, ops[k]) && ops[k].tx < last {
        assert IsStray(init, w, early, ops[k]) && init[ops[k].tx] == txs[ops[k].tx];
      }
      forall i | 0 <= i < last && Stray(txs[i], w, early) ensures AdjustOp(i, txs[i].call, txs[i].fault) in ops {
        assert init[i] == txs[i];
      }
    }
  }

  ghost predicate Refusals(r: Tables, ops: seq<Op>) {
    forall k :: 0 <= k < |ops| ==> ops[k].AdjustOp? && Adjust(r, ops[k].call, ops[k].fault).0 == r
  }

  /** Refusals replay without a trace... */
  lemma {:induction false} RefusalsReplay(t: Tables, log: seq<Op>, ops: seq<Op>)
    requires Refusals(Replay(t, log), ops)
    ensures Replay(t, log + ops) == Replay(t, log)
  {
    if ops == [] {
      assert log + ops == log;
    } else {
      var init, op := ops[..|ops| - 1], ops[|ops| - 1];
      RefusalsReplay(t, log, init);
      ReplaySnoc(t, log + init, op);
      assert log + ops == log + init + [op];
    }
  }

  /** ...and each answers as it would alone. */
  lemma RefusalAnswers(t: Tables, log: seq<Op>, ops: seq<Op>, k: nat)
    requires k < |ops| && Refusals(Replay(t, log), ops)
    ensures (log + ops)[|log| + k] == ops[k]
    ensures Answer(t, log + ops, |log| + k) == Adjust(Replay(t, log), ops[k].call, ops[k].fault).1
  {
    assert (log + ops)[..|log| + k] == log + ops[..k];
    RefusalsReplay(t, log, ops[..k]);
  }

  /** A stray alone on the tables, before or after the creation, is refused as the
      machine will refuse it, and leaves them. */
  lemma StrayIsRefused(t: Tables, tx: Tx, w: int, early: bool, now: Tables)
    requires Stray(tx, w, early) && tx.fault != AtBegin && tx.fault != AtUpdate && w in now.balances
    requires if early then w !in t.balances else w in t.balances && t.balances[w] == 0
    ensures Adjust(t, tx.call, tx.fault) == (t, Decided(now, tx)) && Settled(now, tx)
  {
  }

  lemma StraysAnswered(t: Tables, log: seq<Op>, s: State, w: int, early: bool, now: Tables)
    requires ChecksPassed(s) && w in now.balances
    requires if early then w !in Replay(t, log).balances
             else w in Replay(t, log).balances && Replay(t, log).balances[w] == 0
    ensures var log' := log + Strays(s.txs, w, early);
      && Replay(t, log') == Replay(t, log)
      && forall i :: 0 <= i < |s.txs| && Stray(s.txs[i], w, early) ==> Answered(now, t, log', i, s.txs[i])
  {
    var ops, r := Strays(s.txs, w, early), Replay(t, log);
    StraysAre(s.txs, w, early);
    forall k | 0 <= k < |ops|
      ensures Adjust(r, ops[k].call, ops[k].fault) == (r, Decided(now, s.txs[ops[k].tx]))
    {
      StrayIsRefused(r, s.txs[ops[k].tx], w, early, now);
    }
    RefusalsReplay(t, log, ops);
    forall i | 0 <= i < |s.txs| && Stray(s.txs[i], w, early)
      ensures Answered(now, t, log + ops, i, s.txs[i])
    {
      var k :| 0 <= k < |ops| && ops[k] == AdjustOp(i, s.txs[i].call, s.txs[i].fault);
      StrayIsRefused(r, s.txs[i], w, early, now);
      RefusalAnswers(t, log, ops, k);
      assert Answers(now, t, log + ops, |log| + k, i, s.txs[i]);
    }
  }

  lemma CreationReplays(t: Tables, log: seq<Op>, w: int)
    requires WellFormed(Replay(t, log)) && w !in Replay(t, log).balances
    ensures var r, r' := Replay(t, log), Replay(t, log + [CreateOp(w)]);
      && r' == r.(balances := r.balances[w := 0]) && WellFormed(r') && forall v :: History(r', v) == History(r, v)
  {
    ReplaySnoc(t, log, CreateOp(w));
  }

  lemma SettledByCreation(s: State, w: int, i: nat)
    requires Inv(s) && Enabled(s, CreateWallet(w)) && i < |s.txs|
    requires Settled(Next(s, CreateWallet(w)).tables, s.txs[i])
    ensures Settled(s.tables, s.txs[i]) || Stray(s.txs[i], w, true) || Stray(s.txs[i], w, false)
  {
  }

  /** The log without, then with the early strays, with the wallet, with the late strays. */
  lemma CreationReplay(s: State, t: Tables, log: seq<Op>, w: int)
    requires Inv(s) && WellFormed(Replay(t, log)) && Enabled(s, CreateWallet(w))
    requires s.tables.balances == Replay(t, log).balances
    ensures var s', r := Next(s, CreateWallet(w)), Replay(t, log);
      var log1 := log + Strays(s.txs, w, true);
      var log3 := log1 + [CreateOp(w)] + Strays(s.txs, w, false);
      && Replay(t, log3) == r.(balances := r.balances[w := 0])
      && (forall i :: 0 <= i < |s.txs| && Stray(s.txs[i], w, true) ==> Answered(s'.tables, t, log1, i, s.txs[i]))
      && (forall i :: 0 <= i < |s.txs| && Stray(s.txs[i], w, false) ==> Answered(s'.tables, t, log3, i, s.txs[i]))
  {
    var s' := Next(s, CreateWallet(w));
    var log1 := log + Strays(s.txs, w, true);
    StraysAnswered(t, log, s, w, true, s'.tables);
    CreationReplays(t, log1, w);
    StraysAnswered(t, log1 + [CreateOp(w)], s, w, false, s'.tables);
  }

  lemma Regroup(log: seq<Op>, a: seq<Op>, b: seq<Op>, c: seq<Op>)
    ensures log + (a + b + c) == log + a + (b + c)
    ensures log + (a + b + c) == log + a + b + c
  {
  }

  lemma CreationAnswersOne(s: State, t: Tables, log: seq<Op>, w: int, i: nat)
    requires Inv(s) && AllAnswered(s, t, log) && WellFormed(Replay(t, log)) && Enabled(s, CreateWallet(w))
    requires s.tables.balances == Replay(t, log).balances
    requires i < |s.txs| && Settled(Next(s, CreateWallet(w)).tables, s.txs[i])
    ensures Answered(Next(s, CreateWallet(w)).tables, t, log + Event(s, CreateWallet(w)), i, s.txs[i])
  {
    var now, tx := Next(s, CreateWallet(w)).tables, s.txs[i];
    var before, after := Strays(s.txs, w, true), Strays(s.txs, w, false);
    Regroup(log, before, [CreateOp(w)], after);
    SettledByCreation(s, w, i);
    if Settled(s.tables, tx) {
      AnswerStands(s, t, log, CreateWallet(w), i);
      AnswerKept(now, t, log, Event(s, CreateWallet(w)), i, tx);
    } else {
      CreationReplay(s, t, log, w);
      if Stray(tx, w, true) {
        AnswerKept(now, t, log + before, [CreateOp(w)] + after, i, tx);
      }
    }
  }

  lemma CreationAnswers(s: State, t: Tables, log: seq<Op>, w: int)
    requires Inv(s) && AllAnswered(s, t, log) && WellFormed(Replay(t, log)) && Enabled(s, CreateWallet(w))
    requires s.tables.balances == Replay(t, log).balances
    ensures AllAnswered(Next(s, CreateWallet(w)), t, log + Event(s, CreateWallet(w)))
  {
    var s' := Next(s, CreateWallet(w));
    forall i | 0 <= i < |s'.txs| && Settled(s'.tables, s'.txs[i])
      ensures Answered(s'.tables, t, log + Event(s, CreateWallet(w)), i, s'.txs[i])
    {
      CreationAnswersOne(s, t, log, w, i);
    }
  }

  /** The calls a creation settles were undecided, and each is settled once. */
  lemma CreationEventSettles(s: State, w: int)
    requires Inv(s) && Enabled(s, CreateWallet(w))
    ensures var s', event := Next(s, CreateWallet(w)), Event(s, CreateWallet(w));
      && OncePerCall(event)
      && forall k :: 0 <= k < |event| && event[k].AdjustOp? ==>
           CallOf(s, event[k]) && Undecided(s.tables, s.txs[event[k].tx]) && Settled(s'.tables, s.txs[event[k].tx])
  {
    var s', event := Next(s, CreateWallet(w)), Event(s, CreateWallet(w));
    StraysAre(s.txs, w, true);
    StraysAre(s.txs, w, false);
    forall k | 0 <= k < |event| && event[k].AdjustOp?
      ensures CallOf(s, event[k]) && Undecided(s.tables, s.txs[event[k].tx]) && Settled(s'.tables, s.txs[event[k].tx])
    {
      var early := k < |Strays(s.txs, w, true)|;
      assert IsStray(s.txs, w, early, event[k]);
    }
  }

  lemma SettledOnce(s: State, log: seq<Op>, event: seq<Op>)
    requires OncePerCall(log) && OncePerCall(event) && OnlySettled(s, log)
    requires forall k :: 0 <= k < |event| && event[k].AdjustOp? ==>
      event[k].tx < |s.txs| && Undecided(s.tables, s.txs[event[k].tx])
    ensures OncePerCall(log + event)
  {
    var all := log + event;
    forall k, l | 0 <= k < l < |all| && all[k].AdjustOp? && all[l].AdjustOp? ensures all[k].tx != all[l].tx {
      if k < |log| <= l {
        assert Settled(s.tables, s.txs[log[k].tx]) && event[l - |log|] == all[l];
      }
    }
  }

  lemma CreationSettles(s: State, log: seq<Op>, w: int)
    requires Inv(s) && OncePerCall(log) && OnlySettled(s, log) && Enabled(s, CreateWallet(w))
    ensures OncePerCall(log + Event(s, CreateWallet(w))) &&
      OnlySettled(Next(s, CreateWallet(w)), log + Event(s, CreateWallet(w)))
  {
    var s', event := Next(s, CreateWallet(w)), Event(s, CreateWallet(w));
    SettledStands(s, log, CreateWallet(w));
    CreationEventSettles(s, w);
    SettledOnce(s, log, event);
  }

  lemma CreationExtends(s: State, t: Tables, log: seq<Op>, w: int)
    requires Inv(s) && Linearized(s, t, log) && Enabled(s, CreateWallet(w))
    ensures Linearized(Next(s, CreateWallet(w)), t, log + Event(s, CreateWallet(w)))
  {
    CreationAnswers(s, t, log, w);
    CreationSettles(s, log, w);
    CreationReplay(s, t, log, w);
    Regroup(log, Strays(s.txs, w, true), [CreateOp(w)], Strays(s.txs, w, false));
    var r := Replay(t, log);
    assert forall v :: History(r.(balances := r.balances[w := 0]), v) == History(r, v);
    assert forall v :: History(Next(s, CreateWallet(w)).tables, v) == History(s.tables, v);
  }

  lemma StepLinearizes(s: State, t: Tables, log: seq<Op>, step: Step)
    requires Inv(s) && Linearized(s, t, log) && Enabled(s, step)
    ensures Linearized(Next(s, step), t, log + Event(s, step))
  {
    if Event(s, step) == [] {
      assert log + [] == log;
      SilentStep(s, t, log, step);
    } else if step.CreateWallet? {
      CreationExtends(s, t, log, step.wallet);
    } else {
      DecisionExtends(s, t, log, step.tx);
    }
  }

  /** Serializability, over every run: the tables are those of the sequential
      execution of SerialOrder, up to entry ids; and every finished call, unless it
      was told of insufficient funds though it takes none, appears in it exactly once
      and was answered as it is answered there. */
  lemma {:induction false} Serializable(run: seq<State>, steps: seq<Step>, n: nat)
    requires IsRun(run, steps) && Starts(run[0]) && n <= |steps|
    ensures Linearized(run[n], run[0].tables, SerialOrder(run, steps, n))
  {
    if n == 0 {
    } else {
      Serializable(run, steps, n - 1);
      Conservation(run, steps, n - 1);
      StepLinearizes(run[n - 1], run[0].tables, SerialOrder(run, steps, n - 1), steps[n - 1]);
    }
  }

  // ---- Exactly when everybody is served ----

  /** The wallets a sequence of operations, or of steps, creates. */
  function Creations(log: seq<Op>): seq<int> {
    if log == [] then []
    else
      var last := log[|log| - 1];
      Creations(log[..|log| - 1]) + if last.CreateOp? then [last.wallet] else []
  }

  function Created(steps: seq<Step>, n: nat): seq<int>
    requires n <= |steps|
  {
    if n == 0 then [] else Created(steps, n - 1) + if steps[n - 1].CreateWallet? then [steps[n - 1].wallet] else []
  }

  lemma {:induction false} CreationsConcat(a: seq<Op>, b: seq<Op>)
    ensures Creations(a + b) == Creations(a) + Creations(b)
  {
    if b == [] {
      assert a + b == a;
    } else {
      assert (a + b)[..|a + b| - 1] == a + b[..|b| - 1];
      CreationsConcat(a, b[..|b| - 1]);
    }
  }

  lemma {:induction false} CallsCreateNothing(log: seq<Op>)
    requires forall k :: 0 <= k < |log| ==> log[k].AdjustOp?
    ensures Creations(log) == []
  {
    if log == [] {
    } else {
      CallsCreateNothing(log[..|log| - 1]);
    }
  }

  lemma EventCreates(s: State, step: Step)
    requires Enabled(s, step)
    ensures Creations(Event(s, step)) == if step.CreateWallet? then [step.wallet] else []
  {
    if step.CreateWallet? {
      var w := step.wallet;
      StraysAre(s.txs, w, true);
      StraysAre(s.txs, w, false);
      CallsCreateNothing(Strays(s.txs, w, true));
      CallsCreateNothing(Strays(s.txs, w, false));
      assert Creations([CreateOp(w)]) == Creations([]) + [w];
      CreationsConcat(Strays(s.txs, w, true), [CreateOp(w)]);
      CreationsConcat(Strays(s.txs, w, true) + [CreateOp(w)], Strays(s.txs, w, false));
    } else {
      CallsCreateNothing(Event(s, step));
    }
  }

  lemma EventAppendsCreations(s: State, step: Step, order: seq<Op>)
    requires Enabled(s, step)
    ensures Creations(order + Event(s, step)) == Creations(order) + if step.CreateWallet? then [step.wallet] else []
  {
    EventCreates(s, step);
    CreationsConcat(order, Event(s, step));
  }

  lemma {:induction false} OrderCreates(run: seq<State>, steps: seq<Step>, n: nat)
    requires IsRun(run, steps) && n <= |steps|
    ensures Creations(SerialOrder(run, steps, n)) == Created(steps, n)
  {
    if n == 0 {
    } else {
      OrderCreates(run, steps, n - 1);
      EventAppendsCreations(run[n - 1], steps[n - 1], SerialOrder(run, steps, n - 1));
      assert SerialOrder(run, steps, n) == SerialOrder(run, steps, n - 1) + Event(run[n - 1], steps[n - 1]);
    }
  }

  /** A sequential execution of calls of the run, each at most once, and of the creation
      of exactly the wallets the run created, has its tables and gave every finished
      call its answer. */
  ghost predicate Serializes(s: State, t: Tables, log: seq<Op>, created: seq<int>) {
    && SameBooks(s.tables, Replay(t, log)) && OncePerCall(log)
    && (forall k :: 0 <= k < |log| && log[k].AdjustOp? ==> CallOf(s, log[k]))
    && multiset(Creations(log)) == multiset(created)
    && (forall i :: 0 <= i < |s.txs| && s.txs[i].phase.Done? ==> Answered(s.tables, t, log, i, s.txs[i]))
  }

  lemma {:induction false} ReplayNonNegative(t: Tables, log: seq<Op>)
    requires NonNegative(t)
    ensures NonNegative(Replay(t, log))
  {
    if log == [] {
    } else {
      ReplayNonNegative(t, log[..|log| - 1]);
    }
  }

  predicate NobodyMisled(s: State) {
    forall i :: 0 <= i < |s.txs| && s.txs[i].phase == Done(Insufficient) ==> s.txs[i].call.amount < 0
  }

  lemma SequentialMisleadsNobody(s: State, t: Tables, log: seq<Op>, created: seq<int>)
    requires NonNegative(t) && Serializes(s, t, log, created)
    ensures NobodyMisled(s)
  {
    forall i | 0 <= i < |s.txs| && s.txs[i].phase == Done(Insufficient) ensures s.txs[i].call.amount < 0 {
      var k :| Answers(s.tables, t, log, k, i, s.txs[i]);
      ReplayNonNegative(t, log[..k]);
      AloneMisleadsNobody(Replay(t, log[..k]), s.txs[i].call, s.txs[i].fault);
    }
  }

  lemma OrderServes(run: seq<State>, steps: seq<Step>, n: nat)
    requires IsRun(run, steps) && Starts(run[0]) && n <= |steps| && NobodyMisled(run[n])
    ensures Serializes(run[n], run[0].tables, SerialOrder(run, steps, n), Created(steps, n))
  {
    Serializable(run, steps, n);
    OrderCreates(run, steps, n);
  }

  ghost predicate HasSequential(s: State, t: Tables, created: seq<int>) {
    exists log :: Serializes(s, t, log, created)
  }

  lemma SequentialServes(s: State, t: Tables, created: seq<int>)
    requires NonNegative(t) && HasSequential(s, t, created)
    ensures NobodyMisled(s)
  {
    var log :| Serializes(s, t, log, created);
    SequentialMisleadsNobody(s, t, log, created);
  }

  lemma WitnessSequential(s: State, t: Tables, log: seq<Op>, created: seq<int>)
    requires Serializes(s, t, log, created)
    ensures HasSequential(s, t, created)
  {
  }

  /** A run is equivalent to some sequential execution exactly when no finished call
      that takes nothing was told that funds are insufficient. */
  lemma SerializableIff(run: seq<State>, steps: seq<Step>, n: nat)
    requires IsRun(run, steps) && Starts(run[0]) && n <= |steps|
    ensures HasSequential(run[n], run[0].tables, Created(steps, n)) <==> NobodyMisled(run[n])
  {
    if NobodyMisled(run[n]) {
      OrderServes(run, steps, n);
      WitnessSequential(run[n], run[0].tables, SerialOrder(run, steps, n), Created(steps, n));
    } else if HasSequential(run[n], run[0].tables, Created(steps, n)) {
      ConservedNonNegative(run[0].tables);
      SequentialServes(run[n], run[0].tables, Created(steps, n));
    }
  }

  /** Step k creates the wallet under a call that takes nothing and has just missed it. */
  ghost predicate MisleadsAt(run: seq<State>, steps: seq<Step>, k: int, i: nat)
    requires IsRun(run, steps)
  {
    && 0 <= k < |steps| && i < |run[k].txs| && run[k].txs[i].phase.Missed?
    && steps[k] == CreateWallet(run[k].txs[i].call.walletId)
    && run[k].txs[i].call.amount >= 0 && run[k].txs[i].fault != AtLookup && run[k].txs[i].fault != AtRollback
  }

  lemma StepMisleads(s: State, step: Step, i: nat)
    requires Inv(s) && Enabled(s, step) && i < |s.txs|
    ensures Misled(Next(s, step).tables, Next(s, step).txs[i]) <==>
      || Misled(s.tables, s.txs[i])
      || (&& step == CreateWallet(s.txs[i].call.walletId) && s.txs[i].phase.Missed? && s.txs[i].call.amount >= 0
          && s.txs[i].fault != AtLookup && s.txs[i].fault != AtRollback)
  {
    if !Undecided(s.tables, s.txs[i]) {
      DecisionStands(s, step, i);
    } else if step == Advance(i) && Event(s, step) != [] {
      DecidingStepIsWholeCall(s, i);
      ConservedNonNegative(s.tables);
      if Misled(Next(s, step).tables, Next(s, step).txs[i]) {
        AloneMisleadsNobody(s.tables, s.txs[i].call, s.txs[i].fault);
      }
    } else if step.Advance? {
      AdvanceEffect(s, step.tx);
    }
  }

  lemma NotYetBegun(run: seq<State>, steps: seq<Step>, m: nat, i: nat)
    requires IsRun(run, steps) && m < |run| && |run[m].txs| <= i
    ensures forall k :: 0 <= k <= m ==> |run[k].txs| <= i
  {
    forall k | 0 <= k <= m ensures |run[k].txs| <= i {
      RunExtends(run, steps, k, m);
    }
  }

  /** A call is misled exactly when its wallet was created between its UPDATE and its
      GetWallet, it takes nothing, and neither GetWallet nor the rollback fails. */
  lemma {:induction false} MisledIff(run: seq<State>, steps: seq<Step>, n: nat, i: nat)
    requires IsRun(run, steps) && Starts(run[0]) && n <= |steps| && i < |run[n].txs|
    ensures Misled(run[n].tables, run[n].txs[i]) <==> exists k :: k < n && MisleadsAt(run, steps, k, i)
  {
    if n == 0 {
    } else {
      var s, step := run[n - 1], steps[n - 1];
      if i < |s.txs| {
        MisledIff(run, steps, n - 1, i);
        Conservation(run, steps, n - 1);
        StepMisleads(s, step, i);
        assert MisleadsAt(run, steps, n - 1, i) <==>
          step == CreateWallet(s.txs[i].call.walletId) && s.txs[i].phase.Missed? && s.txs[i].call.amount >= 0
          && s.txs[i].fault != AtLookup && s.txs[i].fault != AtRollback;
      } else {
        NotYetBegun(run, steps, n - 1, i);
      }
    }
  }

  /** Where every adjusted wallet exists before the run starts, everybody is served. */
  lemma ExistingWalletsServed(run: seq<State>, steps: seq<Step>, n: nat)
    requires IsRun(run, steps) && Starts(run[0]) && n <= |steps|
    requires forall i :: 0 <= i < |run[n].txs| ==> run[n].txs[i].call.walletId in run[0].tables.balances
    ensures Serializes(run[n], run[0].tables, SerialOrder(run, steps, n), Created(steps, n))
  {
    forall i | 0 <= i < |run[n].txs| ensures !Misled(run[n].tables, run[n].txs[i]) {
      MisledIff(run, steps, n, i);
      forall k | 0 <= k < n ensures !MisleadsAt(run, steps, k, i) {
        RunExtends(run, steps, 0, k);
        RunExtends(run, steps, k, n);
      }
    }
    OrderServes(run, steps, n);
  }

  lemma PrefixOfMore(a: seq<Op>, b: seq<Op>, c: seq<Op>)
    requires a <= b
    ensures a <= b + c
  {
  }

  lemma {:induction false} OrderGrows(run: seq<State>, steps: seq<Step>, m: nat, n: nat)
    requires IsRun(run, steps) && m <= n <= |steps|
    ensures SerialOrder(run, steps, m) <= SerialOrder(run, steps, n)
  {
    if m == n {
    } else {
      var before, event := SerialOrder(run, steps, n - 1), Event(run[n - 1], steps[n - 1]);
      OrderGrows(run, steps, m, n - 1);
      PrefixOfMore(SerialOrder(run, steps, m), before, event);
    }
  }

  /** The order respects real time: a call that had returned before another began
      comes before it. */
  lemma RealTime(run: seq<State>, steps: seq<Step>, m: nat, n: nat, k: nat, l: nat)
    requires IsRun(run, steps) && Starts(run[0]) && m <= n <= |steps|
    requires k < |SerialOrder(run, steps, n)| && l < |SerialOrder(run, steps, n)|
    requires var a, b := SerialOrder(run, steps, n)[k], SerialOrder(run, steps, n)[l];
      a.AdjustOp? && b.AdjustOp? && a.tx < |run[m].txs| <= b.tx && run[m].txs[a.tx].phase.Done?
    ensures k < l
  {
    var early, late := SerialOrder(run, steps, m), SerialOrder(run, steps, n);
    RunExtends(run, steps, m, n);
    Serializable(run, steps, m);
    Serializable(run, steps, n);
    OrderGrows(run, steps, m, n);
    var i := late[k].tx;
    assert Settled(run[m].tables, run[m].txs[i]);
    var at :| Answers(run[m].tables, run[0].tables, early, at, i, run[m].txs[i]);
    assert late[at] == early[at];
    assert at == k;
  }
}
