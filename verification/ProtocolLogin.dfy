// The login lock when attempts overlap: how far past five it can be driven, and when
// it may forget to expire.
module ProtocolLogin {
  import opened Base
  import opened Cache
  import opened Sessions
  import opened SessionAgreement
  import opened Protocol
  import opened ProtocolSafety

  /** The live count, or 0. */
  function CountOf(w: World, username: string): int {
    var k := LoginFail(username);
    if Live(w.cache, w.now, k) && w.cache[k].value.Count? then w.cache[k].value.n else 0
  }

  /** Past the gate, and may still record a failure. */
  predicate InFlight(p: Proc, username: string) {
    (p.Lookup? || p.Record?) && p.username == username
  }

  function CountInFlight(procs: seq<Proc>, username: string): nat {
    if procs == [] then 0
    else CountInFlight(procs[..|procs| - 1], username) + if InFlight(procs[|procs| - 1], username) then 1 else 0
  }

  lemma {:induction false} InFlightUpdate(procs: seq<Proc>, username: string, i: nat, p: Proc)
    requires i < |procs|
    ensures CountInFlight(procs[i := p], username) == CountInFlight(procs, username)
      - (if InFlight(procs[i], username) then 1 else 0) + (if InFlight(p, username) then 1 else 0)
  {
    var last := |procs| - 1;
    if i == last {
      assert procs[i := p][..last] == procs[..last];
    } else {
      assert procs[i := p][..last] == procs[..last][i := p];
      InFlightUpdate(procs[..last], username, i, p);
    }
  }

  /** Only three calls touch a failure counter. */
  lemma CounterUntouched(w: World, p: Proc, username: string)
    ensures var (k, c') := (LoginFail(username), Effect(w, p).cache);
      p.Record? || p.ArmExpiry? || p.Clear? || ((k in c') == (k in w.cache) && (k in c' ==> c'[k] == w.cache[k]))
  {
  }

  /** A call other than INCR never raises the count; INCR raises it by one. */
  lemma EffectOnCount(w: World, p: Proc, username: string)
    requires WellTyped(w.cache) && CountOf(w, username) >= 0
    ensures 0 <= CountOf(Effect(w, p), username) <= CountOf(w, username) + if p == Record(username) then 1 else 0
  {
    CounterUntouched(w, p, username);
  }

  /** A request enters only at the gate, and leaves when it records. */
  lemma EntersAtTheGate(w: World, p: Proc, fault: Fault, username: string)
    requires !p.Finished?
    ensures var p' := Continued(w, p, fault);
      && (InFlight(p', username) && !InFlight(p, username) ==>
           && p.Gate? && fault == Fine && FailCount(w, username).Some?
           && FailCount(w, username).value < 5)
      && (p == Record(username) ==> !InFlight(p', username))
  {
  }

  /** One call changes count plus in-flight only by a login passing the gate, which
      it does at a count of at most four; recording moves one from the second to the
      first; everything else can only lower the sum. */
  lemma CallMovesCount(w: World, p: Proc, fault: Fault, username: string)
    requires WellTyped(w.cache) && !p.Finished? && CountOf(w, username) >= 0
    ensures var w', p' := Carried(w, p, fault), Continued(w, p, fault);
      var before := CountOf(w, username) + if InFlight(p, username) then 1 else 0;
      var now := CountOf(w', username) + if InFlight(p', username) then 1 else 0;
      now <= before || (!InFlight(p, username) && InFlight(p', username) && w' == w &&
        CountOf(w, username) <= 4)
    ensures CountOf(Carried(w, p, fault), username) >= 0
  {
    EffectOnCount(w, p, username);
    EntersAtTheGate(w, p, fault, username);
  }

  function CountAndInFlight(s: State, username: string): int {
    CountOf(s.world, username) + CountInFlight(s.procs, username)
  }

  /** A step raises the sum only by letting one more login past the gate, at a count
      of at most four. */
  lemma StepMovesCount(s: State, step: Step, username: string)
    requires WellTyped(s.world.cache) && Enabled(s, step) && CountOf(s.world, username) >= 0
    ensures var s' := Next(s, step);
      && CountOf(s'.world, username) >= 0
      && (CountAndInFlight(s', username) <= CountAndInFlight(s, username)
          || CountOf(s'.world, username) <= 4)
  {
    match step
    case Run(i, fault) =>
      CallMovesCount(s.world, s.procs[i], fault, username);
      InFlightUpdate(s.procs, username, i, Next(s, step).procs[i]);
    case Spawn(p) =>
      assert Next(s, step).procs[..|s.procs|] == s.procs;
    case Pass(_) =>
  }

  ghost predicate Within(s: State, username: string, bound: int) {
    0 <= CountOf(s.world, username) && CountOf(s.world, username) + CountInFlight(s.procs, username) <= bound
  }

  lemma StepStaysWithin(s: State, step: Step, username: string, K: nat)
    requires WellTyped(s.world.cache) && Enabled(s, step) && Within(s, username, 4 + K)
    requires CountInFlight(Next(s, step).procs, username) <= K
    ensures Within(Next(s, step), username, 4 + K)
  {
    StepMovesCount(s, step, username);
  }

  lemma RunStaysWithin(run: seq<State>, steps: seq<Step>, k: nat, username: string, K: nat)
    requires IsRun(run, steps) && Starts(run[0]) && k < |steps| && Within(run[k], username, 4 + K)
    requires CountInFlight(run[k + 1].procs, username) <= K
    ensures Within(run[k + 1], username, 4 + K)
  {
    AlwaysOwned(run, steps, k);
    StepStaysWithin(run[k], steps[k], username, K);
  }

  /** Overlapping attempts: if never more than K logins for a username are past the
      gate and unrecorded, count and in-flight together stay within four plus K. */
  lemma {:induction false} AttemptsBounded(run: seq<State>, steps: seq<Step>, n: nat, username: string, K: nat)
    requires IsRun(run, steps) && Starts(run[0]) && n < |run|
    requires forall k :: 0 <= k <= n ==> CountInFlight(run[k].procs, username) <= K
    ensures Within(run[n], username, 4 + K)
  {
    if n == 0 {
    } else {
      AttemptsBounded(run, steps, n - 1, username, K);
      RunStaysWithin(run, steps, n - 1, username, K);
    }
  }

  // ---- Expiry ----

  /** A live count nothing will ever expire. */
  predicate Unexpiring(w: World, username: string) {
    Live(w.cache, w.now, LoginFail(username)) && w.cache[LoginFail(username)].deadline.None?
  }

  ghost predicate ExpiryPending(s: State, username: string) {
    exists i :: 0 <= i < |s.procs| && s.procs[i] == ArmExpiry(username)
  }

  /** An INCR that takes effect and finds no live count. */
  predicate StartsCount(s: State, step: Step, username: string) {
    && step.Run? && step.i < |s.procs| && s.procs[step.i] == Record(username) && step.fault != Lost
    && !Live(s.world.cache, s.world.now, LoginFail(username))
  }

  /** An EXPIRE or a clearing DEL of the counter that takes effect. */
  predicate Settles(s: State, step: Step, username: string) {
    && step.Run? && step.i < |s.procs| && step.fault != Lost
    && (s.procs[step.i].ArmExpiry? || s.procs[step.i].Clear?) && s.procs[step.i].username == username
  }

  /** A step leaves a count without a deadline exactly when it starts one, or finds
      one and neither expires nor clears it. */
  lemma StepUnexpiring(s: State, step: Step, username: string)
    requires WellTyped(s.world.cache) && Enabled(s, step)
    ensures Unexpiring(Next(s, step).world, username) <==>
      StartsCount(s, step, username) || (Unexpiring(s.world, username) && !Settles(s, step, username))
  {
    if step.Run? {
      CounterUntouched(s.world, s.procs[step.i], username);
    }
  }

  ghost predicate StartsAt(run: seq<State>, steps: seq<Step>, k: int, username: string)
    requires IsRun(run, steps)
  {
    0 <= k < |steps| && StartsCount(run[k], steps[k], username)
  }

  /** Nothing has expired or cleared the count since step k. */
  ghost predicate Unsettled(run: seq<State>, steps: seq<Step>, k: int, n: int, username: string)
    requires IsRun(run, steps) && n <= |steps|
  {
    forall j :: 0 <= j && k < j < n ==> !Settles(run[j], steps[j], username)
  }

  ghost predicate StartedAndUnsettled(run: seq<State>, steps: seq<Step>, k: int, n: int, username: string)
    requires IsRun(run, steps) && n <= |steps|
  {
    StartsAt(run, steps, k, username) && k < n && Unsettled(run, steps, k, n, username)
  }

  /** One step later the same counts are unsettled, less the one it settles, plus the
      one it starts. */
  lemma UnsettledStep(run: seq<State>, steps: seq<Step>, k: int, n: nat, username: string)
    requires IsRun(run, steps) && n < |steps|
    ensures StartedAndUnsettled(run, steps, k, n + 1, username) <==>
      || (k == n && StartsAt(run, steps, n, username))
      || (StartedAndUnsettled(run, steps, k, n, username) && !Settles(run[n], steps[n], username))
  {
    if StartedAndUnsettled(run, steps, k, n + 1, username) && k < n {
      assert !Settles(run[n], steps[n], username);
    }
  }

  /** Over every run, whatever fails: a count has no deadline if and only if no EXPIRE
      and no DEL has taken effect on it since the INCR that started it. */
  lemma {:induction false} UnexpiringIff(run: seq<State>, steps: seq<Step>, n: nat, username: string)
    requires IsRun(run, steps) && Starts(run[0]) && n <= |steps|
    ensures Unexpiring(run[n].world, username) <==> exists k :: StartedAndUnsettled(run, steps, k, n, username)
  {
    if n == 0 {
    } else {
      UnexpiringIff(run, steps, n - 1, username);
      AlwaysOwned(run, steps, n - 1);
      StepUnexpiring(run[n - 1], steps[n - 1], username);
      forall k ensures StartedAndUnsettled(run, steps, k, n, username) <==>
        || (k == n - 1 && StartsAt(run, steps, n - 1, username))
        || (StartedAndUnsettled(run, steps, k, n - 1, username) && !Settles(run[n - 1], steps[n - 1], username))
      {
        UnsettledStep(run, steps, k, n - 1, username);
      }
      if StartsAt(run, steps, n - 1, username) {
        assert StartedAndUnsettled(run, steps, n - 1, n, username);
      } else if Unexpiring(run[n].world, username) {
        var k :| StartedAndUnsettled(run, steps, k, n - 1, username);
        assert StartedAndUnsettled(run, steps, k, n, username);
      }
    }
  }

  ghost predicate LosesExpiry(run: seq<State>, steps: seq<Step>, j: int, i: nat, username: string)
    requires IsRun(run, steps)
  {
    0 <= j < |steps| && steps[j] == Run(i, Lost) && i < |run[j].procs| && run[j].procs[i] == ArmExpiry(username)
  }

  /** The request that started the count at k never gave it its deadline: its INCR was
      reported as failed, or its EXPIRE was lost. */
  ghost predicate Forgets(run: seq<State>, steps: seq<Step>, k: nat, n: int, username: string)
    requires IsRun(run, steps) && k < |steps| && n <= |steps| && steps[k].Run?
  {
    || steps[k].fault == Late
    || exists j :: k < j < n && LosesExpiry(run, steps, j, steps[k].i, username)
  }

  /** From the INCR on, the request waits at its EXPIRE or has lost it. */
  lemma {:induction false} WaitsOrLoses(run: seq<State>, steps: seq<Step>, k: nat, n: nat, username: string)
    requires IsRun(run, steps) && k < n <= |steps| && StartsAt(run, steps, k, username) && steps[k].fault == Fine
    requires Unsettled(run, steps, k, n, username)
    ensures steps[k].i < |run[n].procs|
    ensures run[n].procs[steps[k].i] == ArmExpiry(username) || Forgets(run, steps, k, n, username)
  {
    var i := steps[k].i;
    if n == k + 1 {
    } else {
      assert Unsettled(run, steps, k, n - 1, username);
      WaitsOrLoses(run, steps, k, n - 1, username);
      assert !Settles(run[n - 1], steps[n - 1], username);
      if run[n - 1].procs[i] != ArmExpiry(username) {
        var j :| k < j < n - 1 && LosesExpiry(run, steps, j, i, username);
        assert k < j < n && LosesExpiry(run, steps, j, i, username);
      } else if steps[n - 1].Run? && steps[n - 1].i == i {
        assert LosesExpiry(run, steps, n - 1, i, username);
      }
    }
  }

  /** Some count was started at k, forgotten, and since then no other EXPIRE, and no
      DEL, has taken effect on it. */
  ghost predicate Forgotten(run: seq<State>, steps: seq<Step>, n: nat, username: string)
    requires IsRun(run, steps) && n <= |steps|
  {
    exists k: nat :: StartedAndUnsettled(run, steps, k, n, username) && Forgets(run, steps, k, n, username)
  }

  /** The exact condition for a count that never ends: with no EXPIRE still to come it
      has no deadline if and only if the request that started it forgot it. */
  lemma ForgottenIff(run: seq<State>, steps: seq<Step>, n: nat, username: string)
    requires IsRun(run, steps) && Starts(run[0]) && n <= |steps| && !ExpiryPending(run[n], username)
    ensures Unexpiring(run[n].world, username) <==> Forgotten(run, steps, n, username)
  {
    UnexpiringIff(run, steps, n, username);
    if k :| StartedAndUnsettled(run, steps, k, n, username) {
      if steps[k].fault == Fine {
        WaitsOrLoses(run, steps, k, n, username);
      }
      assert Forgets(run, steps, k, n, username);
    }
  }

  /** Without failures a count that has no deadline is one whose EXPIRE is still to
      come, so a system at rest holds no lock for ever. */
  lemma NoUnexpiringAtRest(run: seq<State>, steps: seq<Step>, n: nat, username: string)
    requires IsRun(run, steps) && Starts(run[0]) && n < |run|
    requires forall k :: 0 <= k < n && steps[k].Run? ==> steps[k].fault == Fine
    ensures Unexpiring(run[n].world, username) ==> ExpiryPending(run[n], username)
    ensures AtRest(run[n]) ==> !Unexpiring(run[n].world, username)
  {
    if !ExpiryPending(run[n], username) {
      ForgottenIff(run, steps, n, username);
    }
  }

  // ---- How long a lock lasts ----

  predicate Touching(p: Proc, username: string) {
    (p.Lookup? || p.Record? || p.ArmExpiry? || p.Clear?) && p.username == username
  }

  /** No request about this name is past the gate and may still touch the counter. */
  predicate Quiet(s: State, username: string) {
    forall i :: 0 <= i < |s.procs| ==> !Touching(s.procs[i], username)
  }

  predicate Locked(w: World, username: string) {
    FailCount(w, username).Some? && FailCount(w, username).value >= 5
  }

  lemma TouchesOnlyAfterGate(w: World, p: Proc, username: string)
    requires !p.Finished? && !Touching(p, username) && Locked(w, username)
    ensures !Touching(After(w, p), username) && !Touching(OnError(w, p), username)
  {
  }

  /** While the name is locked no attempt gets past the gate, so nothing changes but time. */
  lemma StepKeepsLock(s: State, step: Step, username: string)
    requires Enabled(s, step) && Quiet(s, username) && Locked(s.world, username)
    ensures var s', k := Next(s, step), LoginFail(username);
      Quiet(s', username) && k in s'.world.cache && s'.world.cache[k] == s.world.cache[k]
  {
    var s' := Next(s, step);
    if step.Run? {
      CounterUntouched(s.world, s.procs[step.i], username);
      TouchesOnlyAfterGate(s.world, s.procs[step.i], username);
    }
    forall i | 0 <= i < |s'.procs| ensures !Touching(s'.procs[i], username) {
      if i < |s.procs| && !(step.Run? && step.i == i) {
        assert s'.procs[i] == s.procs[i];
      }
    }
  }

  /** A lock found with nobody past the gate holds until its deadline, for ever if it
      has none, and not a moment longer. */
  lemma {:induction false} LockedUntil(run: seq<State>, steps: seq<Step>, n: nat, m: nat, username: string)
    requires IsRun(run, steps) && n <= m <= |steps|
    requires Quiet(run[n], username) && forall j :: n <= j < m ==> Locked(run[j].world, username)
    requires Locked(run[n].world, username)
    ensures var item, item' := run[n].world.cache[LoginFail(username)], run[m].world.cache;
      && Quiet(run[m], username) && LoginFail(username) in item' && item'[LoginFail(username)] == item
      && (Locked(run[m].world, username) <==> item.deadline.None? || run[m].world.now < item.deadline.value)
  {
    if n == m {
    } else {
      LockedUntil(run, steps, n, m - 1, username);
      StepKeepsLock(run[m - 1], steps[m - 1], username);
    }
  }

  /** Deadlines of counters lie at most fifteen minutes ahead, whatever fails. */
  lemma {:induction false} CounterDated(run: seq<State>, steps: seq<Step>, n: nat, username: string)
    requires IsRun(run, steps) && Starts(run[0]) && n <= |steps|
    ensures var w, k := run[n].world, LoginFail(username);
      k in w.cache && w.cache[k].deadline.Some? ==> w.cache[k].deadline.value <= w.now + 900
  {
    if n == 0 {
    } else {
      CounterDated(run, steps, n - 1, username);
      if steps[n - 1].Run? {
        CounterUntouched(run[n - 1].world, run[n - 1].procs[steps[n - 1].i], username);
      }
    }
  }

  /** An account found locked with the system at rest: while it is, no attempt is
      examined; and once fifteen minutes have passed it is still locked if and only if
      its count was forgotten. */
  lemma RestingLock(run: seq<State>, steps: seq<Step>, n: nat, m: nat, username: string)
    requires IsRun(run, steps) && Starts(run[0]) && n <= m <= |steps|
    requires AtRest(run[n]) && forall j :: n <= j < m ==> Locked(run[j].world, username)
    requires Locked(run[n].world, username)
    ensures Quiet(run[m], username)
    ensures Forgotten(run, steps, n, username) ==> Locked(run[m].world, username)
    ensures run[m].world.now >= run[n].world.now + 900 ==>
      (Locked(run[m].world, username) <==> Forgotten(run, steps, n, username))
  {
    ForgottenIff(run, steps, n, username);
    LockedUntil(run, steps, n, m, username);
    CounterDated(run, steps, n, username);
  }

  // ---- Five failures in a row ----

  function Again(w: World, username: string): World {
    RecordFail(w, username, NO_FAULTS)
  }

  function FourMore(w: World, username: string): World {
    Again(Again(Again(Again(w, username), username), username), username)
  }

  lemma FiveFailures(w: World, username: string, f: Faults)
    requires !Live(w.cache, w.now, LoginFail(username)) && Reaches(f, IncrCount)
    ensures var w1 := RecordFail(w, username, f);
      var w5 := FourMore(w1, username);
      && w5.now == w.now && LoginFail(username) in w5.cache
      && w5.cache[LoginFail(username)] ==
         Item(Count(5), if Replies(f, IncrCount) && Reaches(f, ExpireCount) then Some(w.now + 900) else None)
  {
    var k := LoginFail(username);
    var d := if Replies(f, IncrCount) && Reaches(f, ExpireCount) then Some(w.now + 900) else None;
    var w1 := RecordFail(w, username, f);
    assert k in w1.cache && w1.cache[k] == Item(Count(1), d);
    var w2 := Again(w1, username);
    assert k in w2.cache && w2.cache[k] == Item(Count(2), d);
    var w3 := Again(w2, username);
    assert k in w3.cache && w3.cache[k] == Item(Count(3), d);
    var w4 := Again(w3, username);
    assert k in w4.cache && w4.cache[k] == Item(Count(4), d);
  }

  /** Five failures at one instant: the name is locked for exactly fifteen minutes if
      the first INCR was answered and its EXPIRE took effect, and otherwise for ever. */
  lemma FiveFailuresLock(w: World, username: string, password: string, token: string, seconds: nat, f: Faults,
      g: Faults)
    requires !Live(w.cache, w.now, LoginFail(username)) && Reaches(f, IncrCount) && Replies(g, GetCount)
    ensures var w1 := RecordFail(w, username, f);
      var w5 := FourMore(w1, username);
      LoginStep(w5.(now := w5.now + seconds), username, password, token, g).1 == TooManyFails <==>
        (Replies(f, IncrCount) && Reaches(f, ExpireCount) ==> seconds < 900)
  {
    FiveFailures(w, username, f);
  }
}
