// The bound on overlapping login attempts is reached, for every number of overlaps
// and without a single failing call.
module ProtocolAttempts {
  import opened Base
  import opened Cache
  import opened Sessions
  import opened Protocol
  import opened ProtocolLogin
  import opened ProtocolRaces

  /** A failure-free run with never more than K logins past the gate and unrecorded. */
  ghost predicate AtMost(run: seq<State>, steps: seq<Step>, username: string, K: nat) {
    FaultFree(run, steps) && forall k :: 0 <= k < |run| ==> CountInFlight(run[k].procs, username) <= K
  }

  lemma Go(run: seq<State>, steps: seq<Step>, step: Step, username: string, K: nat)
    returns (run': seq<State>, steps': seq<Step>)
    requires AtMost(run, steps, username, K) && Enabled(Last(run), step) && (step.Run? ==> step.fault == Fine)
    requires CountInFlight(Next(Last(run), step).procs, username) <= K
    ensures AtMost(run', steps', username, K) && run'[0] == run[0] && Last(run') == Next(Last(run), step)
  {
    run', steps' := run + [Next(Last(run), step)], steps + [step];
  }

  lemma InFlightSnoc(procs: seq<Proc>, username: string, p: Proc)
    ensures CountInFlight(procs + [p], username) == CountInFlight(procs, username) + if InFlight(p, username) then 1
      else 0
  {
    assert (procs + [p])[..|procs|] == procs;
  }

  /** A token longer than any drawn so far. */
  function NewToken(n: nat): (t: string)
    ensures |t| == n
  {
    seq(n, _ => 'x')
  }

  ghost predicate TokensBelow(s: State, n: nat) {
    forall t :: t in s.drawn ==> |t| < n
  }

  /** Where the run stands: c failures recorded, `flying` attempts past the gate,
      at the end of the list of requests. */
  ghost predicate Stage(s: State, username: string, password: string, c: int, flying: nat) {
    && FailCount(s.world, username) == Some(c)
    && Account(s.world.db, username, password).None?
    && flying <= |s.procs| && CountInFlight(s.procs, username) == flying
    && forall i :: |s.procs| - flying <= i < |s.procs| ==> s.procs[i] == Record(username)
  }

  /** The newest request makes a call that changes nothing. */
  lemma NextOfLast(s: State, procs: seq<Proc>, p: Proc)
    requires s.procs == procs + [p] && !p.Finished? && Effect(s.world, p) == s.world
    ensures var s' := Next(s, Run(|procs|, Fine));
      && s'.world == s.world && s'.procs == procs + [After(s.world, p)]
      && forall t :: t in s'.drawn <==> t in s.drawn || (p.Lookup? && After(s.world, p).Clear? && t == p.token)
  {
  }

  lemma MoveLast(run: seq<State>, steps: seq<Step>, username: string, K: nat, procs: seq<Proc>, p: Proc)
    returns (run': seq<State>, steps': seq<Step>)
    requires AtMost(run, steps, username, K) && Last(run).procs == procs + [p] && !p.Finished?
    requires Effect(Last(run).world, p) == Last(run).world && CountInFlight(procs, username) < K
    ensures AtMost(run', steps', username, K) && run'[0] == run[0]
    ensures Last(run').world == Last(run).world && Last(run').procs == procs + [After(Last(run).world, p)]
    ensures forall t :: t in Last(run').drawn <==>
      t in Last(run).drawn || (p.Lookup? && After(Last(run).world, p).Clear? && t == p.token)
  {
    NextOfLast(Last(run), procs, p);
    InFlightSnoc(procs, username, After(Last(run).world, p));
    run', steps' := Go(run, steps, Run(|procs|, Fine), username, K);
  }

  /** One more attempt passes the gate and finds its password wrong. */
  lemma Enter(run: seq<State>, steps: seq<Step>, username: string, password: string, c: int, flying: nat, K: nat,
      n: nat)
    returns (run': seq<State>, steps': seq<Step>)
    requires AtMost(run, steps, username, K) && Stage(Last(run), username, password, c, flying)
    requires flying < K && c < 5 && TokensBelow(Last(run), n)
    ensures AtMost(run', steps', username, K) && run'[0] == run[0]
    ensures Stage(Last(run'), username, password, c, flying + 1) && TokensBelow(Last(run'), n + 1)
  {
    var s := Last(run);
    var gate, lookup := Gate(username, password, NewToken(n)), Lookup(username, password, NewToken(n));
    InFlightSnoc(s.procs, username, gate);
    run', steps' := Go(run, steps, Spawn(gate), username, K);
    run', steps' := MoveLast(run', steps', username, K, s.procs, gate);
    run', steps' := MoveLast(run', steps', username, K, s.procs, lookup);
    assert Last(run').procs == s.procs + [Record(username)];
    InFlightSnoc(s.procs, username, Record(username));
  }

  lemma {:induction false} EnterAll(run: seq<State>, steps: seq<Step>, username: string, password: string,
                                  c: int, flying: nat, K: nat, n: nat)
    returns (run': seq<State>, steps': seq<Step>)
    requires AtMost(run, steps, username, K) && Stage(Last(run), username, password, c, flying)
    requires flying <= K && c < 5 && TokensBelow(Last(run), n)
    ensures AtMost(run', steps', username, K) && run'[0] == run[0]
    ensures Stage(Last(run'), username, password, c, K)
    decreases K - flying
  {
    run', steps' := run, steps;
    if flying == K {
    } else {
      run', steps' := Enter(run, steps, username, password, c, flying, K, n);
      run', steps' := EnterAll(run', steps', username, password, c, flying + 1, K, n + 1);
    }
  }

  /** The oldest attempt past the gate is recorded. */
  lemma RecordOne(run: seq<State>, steps: seq<Step>, username: string, password: string, c: int, flying: nat, K: nat)
    returns (run': seq<State>, steps': seq<Step>)
    requires AtMost(run, steps, username, K) && Stage(Last(run), username, password, c, flying)
    requires 0 < flying <= K && c >= 0
    ensures AtMost(run', steps', username, K) && run'[0] == run[0]
    ensures Stage(Last(run'), username, password, c + 1, flying - 1) && Last(run').drawn == Last(run).drawn
  {
    var s := Last(run);
    var i := |s.procs| - flying;
    var p := After(s.world, s.procs[i]);
    InFlightUpdate(s.procs, username, i, p);
    run', steps' := Go(run, steps, Run(i, Fine), username, K);
    assert Last(run').procs == s.procs[i := p];
  }

  lemma {:induction false} RecordAll(run: seq<State>, steps: seq<Step>, username: string, password: string, c: int,
      flying: nat, K: nat)
    returns (run': seq<State>, steps': seq<Step>)
    requires AtMost(run, steps, username, K) && Stage(Last(run), username, password, c, flying)
    requires flying <= K && c >= 0
    ensures AtMost(run', steps', username, K) && run'[0] == run[0]
    ensures Stage(Last(run'), username, password, c + flying, 0)
    decreases flying
  {
    run', steps' := run, steps;
    if flying == 0 {
    } else {
      run', steps' := RecordOne(run, steps, username, password, c, flying, K);
      run', steps' := RecordAll(run', steps', username, password, c + 1, flying - 1, K);
    }
  }

  /** One attempt after the other up to four failures. */
  lemma {:induction false} FailTo(run: seq<State>, steps: seq<Step>, username: string, password: string, c: nat,
      K: nat, n: nat)
    returns (run': seq<State>, steps': seq<Step>, n': nat)
    requires AtMost(run, steps, username, K) && Stage(Last(run), username, password, c, 0) && K >= 1
    requires c < 5 && TokensBelow(Last(run), n)
    ensures AtMost(run', steps', username, K) && run'[0] == run[0]
    ensures Stage(Last(run'), username, password, 4, 0) && TokensBelow(Last(run'), n')
    decreases 5 - c
  {
    run', steps', n' := run, steps, n;
    if c == 4 {
    } else {
      run', steps' := Enter(run, steps, username, password, c, 0, K, n);
      run', steps' := RecordOne(run', steps', username, password, c, 1, K);
      run', steps', n' := FailTo(run', steps', username, password, c + 1, K, n + 1);
    }
  }

  /** With K attempts overlapping, the count reaches four plus K: the bound is exact. */
  lemma AttemptsBoundReached(s: State, username: string, password: string, K: nat)
    returns (run: seq<State>, steps: seq<Step>)
    requires Starts(s) && K >= 1 && Account(s.world.db, username, password).None?
    ensures AtMost(run, steps, username, K) && run[0] == s
    ensures CountOf(Last(run).world, username) == 4 + K
  {
    run, steps := [s], [];
    var n;
    run, steps, n := FailTo(run, steps, username, password, 0, K, 0);
    run, steps := EnterAll(run, steps, username, password, 4, 0, K, n);
    run, steps := RecordAll(run, steps, username, password, 4, K, K);
  }
}
