// What survives every interleaving and every pattern of failing calls: requests
// about one account never reach another account's session.
module ProtocolSafety {
  import opened Base
  import opened Cache
  import opened Sessions
  import opened SessionAgreement
  import opened Protocol

  predicate DrawnFor(drawn: map<string, Option<nat>>, token: string, u: nat) {
    token in drawn && drawn[token] == Some(u)
  }

  /** Sessions and index entries belong to the account their token was drawn for. */
  ghost predicate CacheOwned(c: Entries, drawn: map<string, Option<nat>>) {
    && WellTyped(c)
    && (forall t :: Session(t) in c ==> DrawnFor(drawn, t, c[Session(t)].value.user.userId))
    && (forall u :: AdminSession(u) in c ==> DrawnFor(drawn, c[AdminSession(u)].value.token, u))
  }

  /** A request remembers only tokens of the account it works for. */
  predicate ProcOwns(p: Proc, drawn: map<string, Option<nat>>) {
    match p
    case Gate(_, _, token) => token in drawn && drawn[token] == None
    case Lookup(_, _, token) => token in drawn && drawn[token] == None
    case Clear(id, _, token) => DrawnFor(drawn, token, id)
    case ReadCodes(id, _, token) => DrawnFor(drawn, token, id)
    case ReadIndex(user, token) => DrawnFor(drawn, token, user.userId)
    case Evict(user, token, oldToken) => DrawnFor(drawn, token, user.userId) && DrawnFor(drawn, oldToken, user.userId)
    case PutSession(user, token) => DrawnFor(drawn, token, user.userId)
    case PutIndex(user, token) => DrawnFor(drawn, token, user.userId)
    case TakeBack(user, token) => DrawnFor(drawn, token, user.userId)
    case RenewSession(user, token, _) => DrawnFor(drawn, token, user.userId)
    case RenewIndex(user, token, _) => DrawnFor(drawn, token, user.userId)
    case Act(user, token, _) => DrawnFor(drawn, token, user.userId)
    case WritePassword(user, token, _) => DrawnFor(drawn, token, user.userId)
    case DropKeys(user, token) => DrawnFor(drawn, token, user.userId)
    case KickDrop(id, token) => DrawnFor(drawn, token, id)
    case _ => true
  }

  predicate Unverified(p: Proc) {
    p.Gate? || p.Lookup?
  }

  ghost predicate Owned(s: State) {
    && CacheOwned(s.world.cache, s.drawn)
    && (forall i :: 0 <= i < |s.procs| ==> ProcOwns(s.procs[i], s.drawn))
    && (forall i, j :: 0 <= i < j < |s.procs| && Unverified(s.procs[i]) && Unverified(s.procs[j]) ==>
         s.procs[i].token != s.procs[j].token)
  }

  /** What a key can hold after a call: what it held, or what the call wrote. */
  lemma EffectStores(w: World, p: Proc, k: Key)
    requires k in Effect(w, p).cache
    ensures var v := Effect(w, p).cache[k].value;
      || (k in w.cache && v == w.cache[k].value)
      || (p.Record? && k == LoginFail(p.username) && v.Count?)
      || (p.PutSession? && k == Session(p.token) && v == Payload(p.user))
      || (p.PutIndex? && k == AdminSession(p.user.userId) && v == Token(p.token))
  {
  }

  lemma EffectKeepsCacheOwned(w: World, p: Proc, drawn: map<string, Option<nat>>)
    requires CacheOwned(w.cache, drawn) && ProcOwns(p, drawn)
    ensures CacheOwned(Effect(w, p).cache, drawn)
  {
    var c' := Effect(w, p).cache;
    forall k | k in c'
      ensures match k
              case Session(t) => c'[k].value.Payload? && DrawnFor(drawn, t, c'[k].value.user.userId)
              case AdminSession(u) => c'[k].value.Token? && DrawnFor(drawn, c'[k].value.token, u)
              case LoginFail(_) => c'[k].value.Count?
    {
      EffectStores(w, p, k);
    }
  }

  lemma ContinuationOwns(w: World, p: Proc, drawn: map<string, Option<nat>>)
    requires CacheOwned(w.cache, drawn) && ProcOwns(p, drawn) && !p.Finished?
    ensures ProcOwns(OnError(w, p), drawn)
    ensures !p.Lookup? ==> ProcOwns(After(w, p), drawn)
    ensures Unverified(After(w, p)) ==> Unverified(p) && After(w, p).token == p.token
    ensures Unverified(OnError(w, p)) ==> Unverified(p) && OnError(w, p).token == p.token
  {
  }

  /** Assigning a verified login's token disturbs nobody: it was unassigned. */
  lemma AssignmentKeepsOwned(s: State, i: nat, id: nat)
    requires Owned(s) && i < |s.procs| && s.procs[i].Lookup?
    ensures var drawn' := s.drawn[s.procs[i].token := Some(id)];
      && CacheOwned(s.world.cache, drawn')
      && forall j :: 0 <= j < |s.procs| && j != i ==> ProcOwns(s.procs[j], drawn')
  {
    assert ProcOwns(s.procs[i], s.drawn);
    var drawn' := s.drawn[s.procs[i].token := Some(id)];
    forall j | 0 <= j < |s.procs| && j != i ensures ProcOwns(s.procs[j], drawn') {
      assert ProcOwns(s.procs[j], s.drawn);
    }
  }

  lemma RunKeepsOwned(s: State, i: nat, fault: Fault)
    requires Owned(s) && Enabled(s, Run(i, fault))
    ensures Owned(Next(s, Run(i, fault)))
  {
    var p, s' := s.procs[i], Next(s, Run(i, fault));
    assert ProcOwns(p, s.drawn);
    EffectKeepsCacheOwned(s.world, p, s.drawn);
    ContinuationOwns(s.world, p, s.drawn);
    if s'.drawn != s.drawn {
      AssignmentKeepsOwned(s, i, After(s.world, p).id);
    }
    assert forall j :: 0 <= j < |s'.procs| && j != i ==> s'.procs[j] == s.procs[j];
    assert ProcOwns(s'.procs[i], s'.drawn);
  }

  lemma StepKeepsOwned(s: State, step: Step)
    requires Owned(s) && Enabled(s, step)
    ensures Owned(Next(s, step))
  {
    match step
    case Run(i, fault) => RunKeepsOwned(s, i, fault);
    case Pass(_) =>
    case Spawn(p) =>
      var s' := Next(s, step);
      forall j | 0 <= j < |s.procs| ensures ProcOwns(s.procs[j], s'.drawn) {
        assert ProcOwns(s.procs[j], s.drawn);
      }
      assert forall j :: 0 <= j < |s.procs| ==> s'.procs[j] == s.procs[j];
  }

  lemma {:induction false} AlwaysOwned(run: seq<State>, steps: seq<Step>, n: nat)
    requires IsRun(run, steps) && Starts(run[0]) && n < |run|
    ensures Owned(run[n])
  {
    if n == 0 {
    } else {
      AlwaysOwned(run, steps, n - 1);
      StepKeepsOwned(run[n - 1], steps[n - 1]);
    }
  }

  /** The account whose session a request may touch with its next call. */
  function Concerns(p: Proc): Option<nat> {
    match p
    case ReadIndex(user, _) => Some(user.userId)
    case Evict(user, _, _) => Some(user.userId)
    case PutSession(user, _) => Some(user.userId)
    case PutIndex(user, _) => Some(user.userId)
    case TakeBack(user, _) => Some(user.userId)
    case RenewSession(user, _, _) => Some(user.userId)
    case RenewIndex(user, _, _) => Some(user.userId)
    case Act(user, _, a) => if a.Logout? then Some(user.userId) else None
    case DropKeys(user, _) => Some(user.userId)
    case KickDrop(id, _) => Some(id)
    case _ => None
  }

  /** Account v's sessions and index entry are the same in both caches. */
  ghost predicate SameKeys(a: World, b: World, v: nat) {
    && (AdminSession(v) in a.cache <==> AdminSession(v) in b.cache)
    && (AdminSession(v) in a.cache ==> b.cache[AdminSession(v)] == a.cache[AdminSession(v)])
    && (forall t :: SessionOf(a, t, v) ==> SessionOf(b, t, v) && b.cache[Session(t)] == a.cache[Session(t)])
    && (forall t :: SessionOf(b, t, v) ==> SessionOf(a, t, v))
  }

  /** The keys a call may write. */
  function Touches(p: Proc): set<Key> {
    match p
    case Record(username) => {LoginFail(username)}
    case ArmExpiry(username) => {LoginFail(username)}
    case Clear(_, username, _) => {LoginFail(username)}
    case Evict(_, _, oldToken) => {Session(oldToken)}
    case PutSession(_, token) => {Session(token)}
    case PutIndex(user, _) => {AdminSession(user.userId)}
    case TakeBack(_, token) => {Session(token)}
    case RenewSession(_, token, _) => {Session(token)}
    case RenewIndex(user, _, _) => {AdminSession(user.userId)}
    case Act(user, token, a) => if a.Logout? then {Session(token), AdminSession(user.userId)} else {}
    case DropKeys(user, token) => {Session(token), AdminSession(user.userId)}
    case KickDrop(id, token) => {Session(token), AdminSession(id)}
    case _ => {}
  }

  lemma EffectOnlyTouches(w: World, p: Proc, k: Key)
    requires k !in Touches(p)
    ensures var c' := Effect(w, p).cache; (k in c') == (k in w.cache) && (k in c' ==> c'[k] == w.cache[k])
    ensures Effect(w, p).now == w.now
  {
  }

  /** Every key a request touches is a counter or belongs to the account concerned. */
  lemma TouchesOwn(p: Proc, drawn: map<string, Option<nat>>, k: Key)
    requires ProcOwns(p, drawn) && k in Touches(p)
    ensures match k
            case LoginFail(_) => true
            case AdminSession(u) => Concerns(p) == Some(u)
            case Session(t) => t in drawn && drawn[t].Some? && Concerns(p) == drawn[t]
  {
  }

  lemma EffectSparesOthers(w: World, p: Proc, drawn: map<string, Option<nat>>, v: nat)
    requires CacheOwned(w.cache, drawn) && ProcOwns(p, drawn) && Concerns(p) != Some(v)
    ensures SameKeys(w, Effect(w, p), v)
  {
    var w' := Effect(w, p);
    EffectKeepsCacheOwned(w, p, drawn);
    forall k: Key | k !in Touches(p)
      ensures (k in w'.cache) == (k in w.cache) && (k in w'.cache ==> w'.cache[k] == w.cache[k]) && w'.now == w.now
    {
      EffectOnlyTouches(w, p, k);
    }
    forall k | k in Touches(p)
      ensures k != AdminSession(v) && (k.Session? && k.token in drawn ==> drawn[k.token] != Some(v)) {
      TouchesOwn(p, drawn, k);
    }
  }

  /** No cross-account interference, at any point of any run, whatever fails: an index
      entry's session, if live, is its own account's; and a call made about one account
      (logging in again, logging out, changing a password, kicking, renewing) neither
      removes, extends nor creates a session or index entry of any other. */
  lemma NoCrossAccount(run: seq<State>, steps: seq<Step>, n: nat)
    requires IsRun(run, steps) && Starts(run[0]) && n < |run|
    ensures IndexOwned(run[n].world.cache)
    ensures n < |steps| && steps[n].Run? ==>
      forall v: nat :: Concerns(run[n].procs[steps[n].i]) != Some(v) ==> SameKeys(run[n].world, run[n + 1].world, v)
  {
    AlwaysOwned(run, steps, n);
    if n < |steps| && steps[n].Run? {
      var s, p := run[n], run[n].procs[steps[n].i];
      forall v: nat | Concerns(p) != Some(v) ensures SameKeys(s.world, run[n + 1].world, v) {
        EffectSparesOthers(s.world, p, s.drawn, v);
      }
    }
  }
}
