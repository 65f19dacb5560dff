// Equal debits racing for one wallet: exactly as many succeed as the balance pays
// for, whatever the interleaving and whatever happens on other wallets.
module WalletContention {
  import opened Base
  import opened Ledger
  import opened WalletMachine

  predicate Won(tx: Tx, w: int) {
    tx.call.walletId == w && tx.phase.Done? && tx.phase.outcome.Success?
  }

  /** Transactions on wallet w that posted, as a count. */
  function Wins(txs: seq<Tx>, w: int): nat {
    if txs == [] then 0 else Wins(txs[..|txs| - 1], w) + if Won(txs[|txs| - 1], w) then 1 else 0
  }

  /** Transactions on wallet w. */
  function Entrants(txs: seq<Tx>, w: int): nat {
    if txs == [] then 0 else Entrants(txs[..|txs| - 1], w) + if txs[|txs| - 1].call.walletId == w then 1 else 0
  }

  lemma CountSnoc(txs: seq<Tx>, w: int, tx: Tx)
    ensures Wins(txs + [tx], w) == Wins(txs, w) + if Won(tx, w) then 1 else 0
  {
    assert (txs + [tx])[..|txs|] == txs;
  }

  lemma {:induction false} CountUpdate(txs: seq<Tx>, w: int, i: nat, tx: Tx)
    requires i < |txs| && tx.call == txs[i].call && !Won(txs[i], w)
    ensures Wins(txs[i := tx], w) == Wins(txs, w) + if Won(tx, w) then 1 else 0
  {
    var last := |txs| - 1;
    if i == last {
      assert txs[i := tx][..last] == txs[..last];
    } else {
      assert txs[i := tx][..last] == txs[..last][i := tx];
      CountUpdate(txs[..last], w, i, tx);
    }
  }

  /** If everyone won, wins and entrants agree; in general wins are fewer. */
  lemma {:induction false} WinsOfEntrants(txs: seq<Tx>, w: int)
    ensures Wins(txs, w) <= Entrants(txs, w)
    ensures Wins(txs, w) == Entrants(txs, w) <==>
            forall i :: 0 <= i < |txs| && txs[i].call.walletId == w ==> Won(txs[i], w)
  {
    if txs == [] {
    } else {
      var init := txs[..|txs| - 1];
      WinsOfEntrants(init, w);
      assert forall i :: 0 <= i < |init| ==> init[i] == txs[i];
    }
  }

  /** The debits of d that make up all the activity on w. */
  ghost predicate OnlyDebits(s: State, w: int, d: int) {
    forall i :: 0 <= i < |s.txs| && s.txs[i].call.walletId == w ==>
      s.txs[i].call.amount == -d && s.txs[i].fault == NoFault && s.txs[i].call.operatorId in s.tables.operators
  }

  /** Each win took d and left one entry. */
  ghost predicate Paid(s: State, w: int, d: int, funds: int, lines: nat) {
    && w in s.tables.balances
    && s.tables.balances[w] == funds - d * Wins(s.txs, w)
    && |History(s.tables, w)| == lines + Wins(s.txs, w)
  }

  /** A refusal means less than d was left, and it stays so. */
  ghost predicate Refused(s: State, w: int, d: int)
    requires w in s.tables.balances
  {
    forall i :: 0 <= i < |s.txs| && s.txs[i].call.walletId == w ==>
      && (s.txs[i].phase.Missed? ==> s.tables.balances[w] < d)
      && (s.txs[i].phase.Done? && !Won(s.txs[i], w) ==>
        s.txs[i].phase.outcome == Insufficient && s.tables.balances[w] < d)
  }

  ghost predicate Contended(s: State, w: int, d: int, funds: int, lines: nat) {
    Paid(s, w, d, funds, lines) && Refused(s, w, d)
  }

  lemma DebitKeepsPaid(s: State, i: nat, w: int, d: int, funds: int, lines: nat)
    requires Inv(s) && OnlyDebits(s, w, d) && Paid(s, w, d, funds, lines)
    requires Enabled(s, Advance(i)) && s.txs[i].call.walletId == w
    ensures Paid(Next(s, Advance(i)), w, d, funds, lines)
  {
    var tx := s.txs[i];
    CountUpdate(s.txs, w, i, Next(s, Advance(i)).txs[i]);
    AdvanceEffect(s, i);
    assert d * (Wins(s.txs, w) + 1) == d * Wins(s.txs, w) + d;
  }

  lemma DebitKeepsRefused(s: State, i: nat, w: int, d: int)
    requires Inv(s) && 0 < d && OnlyDebits(s, w, d) && w in s.tables.balances && Refused(s, w, d)
    requires Enabled(s, Advance(i)) && s.txs[i].call.walletId == w
    ensures w in Next(s, Advance(i)).tables.balances && Refused(Next(s, Advance(i)), w, d)
  {
    var tx, s' := s.txs[i], Next(s, Advance(i));
    assert s.tables.balances[w] <= MAX_INT64 by {
      assert History(s.tables, w)[..|History(s.tables, w)|] == History(s.tables, w);
    }
    assert Holds(tx, w) ==> Pays(s.tables, tx.call);
    assert s'.tables.balances[w] <= s.tables.balances[w];
    assert forall j :: 0 <= j < |s'.txs| && j != i ==> s'.txs[j] == s.txs[j];
  }

  lemma BystanderKeepsContended(s: State, i: nat, w: int, d: int, funds: int, lines: nat)
    requires Inv(s) && Contended(s, w, d, funds, lines) && Enabled(s, Advance(i)) && s.txs[i].call.walletId != w
    ensures Contended(Next(s, Advance(i)), w, d, funds, lines)
  {
    StepTouchesOne(s, Advance(i), w);
    CountUpdate(s.txs, w, i, Next(s, Advance(i)).txs[i]);
  }

  lemma NewcomerKeepsContended(s: State, step: Step, w: int, d: int, funds: int, lines: nat)
    requires Inv(s) && Contended(s, w, d, funds, lines) && Enabled(s, step) && !step.Advance?
    ensures Contended(Next(s, step), w, d, funds, lines)
  {
    if step.Begin? {
      CountSnoc(s.txs, w, Tx(step.call, step.fault, Ready));
    } else {
      StepTouchesOne(s, step, w);
    }
  }

  lemma DebitKeepsContended(s: State, i: nat, w: int, d: int, funds: int, lines: nat)
    requires Inv(s) && 0 < d && OnlyDebits(s, w, d) && Contended(s, w, d, funds, lines)
    requires Enabled(s, Advance(i)) && s.txs[i].call.walletId == w
    ensures Contended(Next(s, Advance(i)), w, d, funds, lines)
  {
    DebitKeepsPaid(s, i, w, d, funds, lines);
    DebitKeepsRefused(s, i, w, d);
  }

  lemma StepKeepsContended(s: State, step: Step, w: int, d: int, funds: int, lines: nat)
    requires Inv(s) && 0 < d && OnlyDebits(s, w, d) && Contended(s, w, d, funds, lines) && Enabled(s, step)
    ensures Contended(Next(s, step), w, d, funds, lines)
  {
    if !step.Advance? {
      NewcomerKeepsContended(s, step, w, d, funds, lines);
    } else if s.txs[step.tx].call.walletId == w {
      DebitKeepsContended(s, step.tx, w, d, funds, lines);
    } else {
      BystanderKeepsContended(s, step.tx, w, d, funds, lines);
    }
  }

  lemma {:induction false} RunKeepsContended(run: seq<State>, steps: seq<Step>, n: nat, w: int, d: int)
    requires IsRun(run, steps) && Starts(run[0]) && n < |run| && w in run[0].tables.balances && 0 < d
    requires OnlyDebits(run[n], w, d)
    ensures Contended(run[n], w, d, run[0].tables.balances[w], |History(run[0].tables, w)|)
  {
    if n == 0 {
    } else {
      var s, step := run[n - 1], steps[n - 1];
      RunExtends(run, steps, n - 1, n);
      assert run[n].tables.operators == s.tables.operators;
      assert OnlyDebits(s, w, d) by {
        forall i | 0 <= i < |s.txs| && s.txs[i].call.walletId == w
          ensures s.txs[i].call.amount == -d && s.txs[i].fault == NoFault &&
            s.txs[i].call.operatorId in s.tables.operators
        {
          assert run[n].txs[i].call == s.txs[i].call;
        }
      }
      RunKeepsContended(run, steps, n - 1, w, d);
      Conservation(run, steps, n - 1);
      StepKeepsContended(s, step, w, d, run[0].tables.balances[w], |History(run[0].tables, w)|);
    }
  }

  lemma QuotientBounds(funds: int, d: int, k: int)
    requires 0 < d && 0 <= funds - d * k
    ensures k <= funds / d
    ensures funds - d * k < d ==> funds / d == k
  {
    var q := funds / d;
    assert d * q <= funds < d * (q + 1);
    if q + 1 <= k {
      MulMonotone(d, q + 1, k);
    }
    if k + 1 <= q {
      MulMonotone(d, k + 1, q);
    }
  }

  /** n debits of d against a balance of B, once all are answered: min(n, B div d)
      succeed, all others are told the balance is insufficient, the balance has
      dropped by d per success and the ledger has grown by one line per success. */
  lemma ContentionOutcome(run: seq<State>, steps: seq<Step>, n: nat, w: int, d: int)
    requires IsRun(run, steps) && Starts(run[0]) && n < |run| && w in run[0].tables.balances && 0 < d
    requires OnlyDebits(run[n], w, d)
    requires forall i :: 0 <= i < |run[n].txs| && run[n].txs[i].call.walletId == w ==> run[n].txs[i].phase.Done?
    ensures var funds, wins := run[0].tables.balances[w], Wins(run[n].txs, w);
      && wins == Min(Entrants(run[n].txs, w), funds / d)
      && w in run[n].tables.balances && run[n].tables.balances[w] == funds - d * wins
      && |History(run[n].tables, w)| == |History(run[0].tables, w)| + wins
    ensures forall i :: 0 <= i < |run[n].txs| && run[n].txs[i].call.walletId == w ==>
      Won(run[n].txs[i], w) || run[n].txs[i].phase.outcome == Insufficient
  {
    var funds, wins := run[0].tables.balances[w], Wins(run[n].txs, w);
    RunKeepsContended(run, steps, n, w, d);
    Conservation(run, steps, n);
    WinsOfEntrants(run[n].txs, w);
    QuotientBounds(funds, d, wins);
    if wins < Entrants(run[n].txs, w) {
      var i :| 0 <= i < |run[n].txs| && run[n].txs[i].call.walletId == w && !Won(run[n].txs[i], w);
    }
  }
}
