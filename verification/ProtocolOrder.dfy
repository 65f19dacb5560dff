// When interleaving does no harm: if the requests that rewrite one account's session
// keys, or delete the account, do so one after the other, the account's sessions are
// in order whenever none of them is under way, however everything else overlaps.
module ProtocolOrder {
  import opened Base
  import opened Cache
  import opened Sessions
  import opened SessionAgreement
  import opened Protocol
  import opened ProtocolSafety
  import opened ProtocolExposure
  import AdminTables

  predicate Ends(a: Action) {
    a.Logout? || a.ChangePassword?
  }

  /** The account whose keys a request is in the middle of rewriting or dropping: a
      login from the check of its credentials on, a logout or password change from
      its authentication on, a deletion from its statement on. */
  function Writes(p: Proc): Option<nat> {
    match p
    case Clear(id, _, _) => Some(id)
    case ReadCodes(id, _, _) => Some(id)
    case ReadIndex(user, _) => Some(user.userId)
    case Evict(user, _, _) => Some(user.userId)
    case PutSession(user, _) => Some(user.userId)
    case PutIndex(user, _) => Some(user.userId)
    case TakeBack(user, _) => Some(user.userId)
    case RenewSession(user, _, a) => if Ends(a) then Some(user.userId) else None
    case RenewIndex(user, _, a) => if Ends(a) then Some(user.userId) else None
    case Act(user, _, a) => if Ends(a) then Some(user.userId) else None
    case WritePassword(user, _, _) => Some(user.userId)
    case DropKeys(user, _) => Some(user.userId)
    case KickRead(id) => Some(id)
    case KickDrop(id, _) => Some(id)
    case _ => None
  }

  predicate WritesFor(p: Proc, u: nat) {
    Writes(p) == Some(u)
  }

  predicate RenewsFor(p: Proc, u: nat) {
    p.RenewIndex? && p.user.userId == u
  }

  ghost predicate OneWriter(s: State, u: nat) {
    forall i, j :: 0 <= i < j < |s.procs| && WritesFor(s.procs[i], u) ==> !WritesFor(s.procs[j], u)
  }

  predicate NoWriter(s: State, u: nat) {
    forall i :: 0 <= i < |s.procs| ==> !WritesFor(s.procs[i], u)
  }

  /** Some request has renewed its session and is about to renew the index. */
  ghost predicate Renewing(s: State, u: nat) {
    exists i :: 0 <= i < |s.procs| && RenewsFor(s.procs[i], u)
  }

  /** The faults that cannot leave a session of u behind. */
  predicate Bearable(p: Proc, fault: Fault, u: nat) {
    match p
    case ReadIndex(user, _) => user.userId == u ==> fault == Fine
    case Evict(user, _, _) => user.userId == u ==> fault != Lost
    case PutSession(user, _) => user.userId == u ==> fault != Late
    case TakeBack(user, _) => user.userId == u ==> fault != Lost
    case RenewIndex(user, _, _) => user.userId == u ==> fault != Lost
    case Act(_, _, a) => a == DeleteAdmin(u) ==> fault != Late
    case KickRead(id) => id == u ==> fault == Fine
    case KickDrop(id, _) => id == u ==> fault != Lost
    case _ => true
  }

  /** The index does not expire while its renewal is under way. */
  ghost predicate Timely(s: State, step: Step, u: nat) {
    step.Pass? && Renewing(s, u) && Live(s.world.cache, s.world.now, AdminSession(u)) ==>
      Live(s.world.cache, s.world.now + step.seconds, AdminSession(u))
  }

  /** One writer at a time, bearable faults, and no index that expires while its
      renewal is under way. */
  ghost predicate Orderly(s: State, step: Step, u: nat)
    requires Enabled(s, step)
  {
    && OneWriter(Next(s, step), u)
    && (step.Run? ==> Bearable(s.procs[step.i], step.fault, u))
    && Timely(s, step, u)
  }

  // ---- What is kept ----

  /** Every session of u is indexed, by an entry that outlives it unless its renewal
      is under way. */
  ghost predicate AllIndexed(w: World, u: nat, renewing: bool) {
    forall t :: SessionOf(w, t, u) ==>
      Names(w, t, u) && (renewing || LastsAsLong(w.cache[AdminSession(u)].deadline, w.cache[Session(t)].deadline))
  }

  ghost predicate Only(w: World, u: nat, token: string) {
    forall t :: SessionOf(w, t, u) ==> t == token
  }

  ghost predicate LiveIfOnline(w: World, u: nat) {
    Online(w, u) ==> AdminTables.Live(w.db, u)
  }

  ghost predicate InOrder(w: World, u: nat, renewing: bool) {
    AllIndexed(w, u, renewing) && LiveIfOnline(w, u)
  }

  /** What the account's one writer may rely on. */
  ghost predicate Relies(w: World, p: Proc, u: nat, renewing: bool) {
    match p
    case Clear(_, _, _) => AllIndexed(w, u, renewing) && AdminTables.Live(w.db, u)
    case ReadCodes(_, _, _) => AllIndexed(w, u, renewing) && AdminTables.Live(w.db, u)
    case ReadIndex(_, _) => AllIndexed(w, u, renewing) && AdminTables.Live(w.db, u)
    case Evict(_, _, oldToken) => Only(w, u, oldToken) && AdminTables.Live(w.db, u)
    case PutSession(_, _) => !Online(w, u) && AdminTables.Live(w.db, u)
    case PutIndex(_, token) => Only(w, u, token) && AdminTables.Live(w.db, u)
    case TakeBack(_, token) => Only(w, u, token) && AdminTables.Live(w.db, u)
    case RenewSession(_, token, _) => InOrder(w, u, renewing) && Only(w, u, token)
    case RenewIndex(_, token, _) => InOrder(w, u, renewing) && Only(w, u, token)
    case Act(_, token, _) => InOrder(w, u, renewing) && Only(w, u, token)
    case WritePassword(_, token, _) => InOrder(w, u, renewing) && Only(w, u, token)
    case DropKeys(_, token) => InOrder(w, u, renewing) && Only(w, u, token)
    case KickRead(_) => AllIndexed(w, u, renewing)
    case KickDrop(_, token) => Only(w, u, token)
    case _ => true
  }

  ghost predicate Kept(s: State, u: nat) {
    && OneWriter(s, u)
    && (NoWriter(s, u) ==> InOrder(s.world, u, Renewing(s, u)))
    && forall i :: 0 <= i < |s.procs| && WritesFor(s.procs[i], u) ==> Relies(s.world, s.procs[i], u, Renewing(s, u))
  }

  // ---- One call of the writer itself ----

  /** After the call the request either still writes and may rely on its next phase,
      or has left the account in order. */
  ghost predicate Advances(w: World, p: Proc, fault: Fault, u: nat, renewing': bool)
    requires !p.Finished?
  {
    var w', p' := Carried(w, p, fault), Continued(w, p, fault);
    if WritesFor(p', u) then Relies(w', p', u, renewing') else InOrder(w', u, renewing')
  }

  /** A call that leaves u's sessions alone. */
  lemma QuietAdvances(w: World, w': World, u: nat, r: bool)
    requires w'.now == w.now && w'.db == w.db
    requires forall k: Key ::
      !k.LoginFail? ==> (k in w'.cache <==> k in w.cache) && (k in w.cache ==> w'.cache[k] == w.cache[k])
    ensures AllIndexed(w, u, r) ==> AllIndexed(w', u, r)
  {
    forall t ensures SessionOf(w', t, u) == SessionOf(w, t, u) { }
  }

  lemma ClearAdvances(w: World, p: Proc, fault: Fault, u: nat, r: bool)
    requires WritesFor(p, u) && Relies(w, p, u, r) && (p.Clear? || p.ReadCodes?)
    ensures Advances(w, p, fault, u, r)
  {
    QuietAdvances(w, Carried(w, p, fault), u, r);
  }

  lemma ReadIndexAdvances(w: World, p: Proc, fault: Fault, u: nat, r: bool)
    requires WellTyped(w.cache) && WritesFor(p, u) && Bearable(p, fault, u) && Relies(w, p, u, r) && p.ReadIndex?
    ensures Advances(w, p, fault, u, r)
  {
  }

  lemma EvictAdvances(w: World, p: Proc, fault: Fault, u: nat, r: bool)
    requires WritesFor(p, u) && Bearable(p, fault, u) && Relies(w, p, u, r) && p.Evict?
    ensures Advances(w, p, fault, u, r)
  {
    forall t ensures !SessionOf(Carried(w, p, fault), t, u) {
      assert SessionOf(Carried(w, p, fault), t, u) ==> SessionOf(w, t, u);
    }
  }

  lemma PutSessionAdvances(w: World, p: Proc, fault: Fault, u: nat, r: bool)
    requires WritesFor(p, u) && Bearable(p, fault, u) && Relies(w, p, u, r) && p.PutSession?
    ensures Advances(w, p, fault, u, r)
  {
    var w' := Carried(w, p, fault);
    forall t | SessionOf(w', t, u) ensures t == p.token {
      assert t != p.token ==> SessionOf(w, t, u);
    }
  }

  lemma PutIndexAdvances(w: World, p: Proc, fault: Fault, u: nat, r: bool)
    requires Dated(w) && WritesFor(p, u) && Relies(w, p, u, r) && p.PutIndex?
    ensures Advances(w, p, fault, u, r)
  {
    var w' := Carried(w, p, fault);
    forall t ensures SessionOf(w', t, u) == SessionOf(w, t, u) { }
    if fault == Fine {
      assert Names(w', p.token, u);
      assert AllIndexed(w', u, r);
    } else {
      assert Only(w', u, p.token);
    }
  }

  lemma TakeBackAdvances(w: World, p: Proc, fault: Fault, u: nat, r: bool)
    requires WritesFor(p, u) && Bearable(p, fault, u) && Relies(w, p, u, r) && p.TakeBack?
    ensures Advances(w, p, fault, u, r)
  {
    forall t ensures !SessionOf(Carried(w, p, fault), t, u) {
      assert SessionOf(Carried(w, p, fault), t, u) ==> SessionOf(w, t, u);
    }
  }

  /** A renewal, by whichever request: sessions stay what they are; after the index is
      renewed it outlives them all. */
  lemma RenewalKeeps(w: World, p: Proc, fault: Fault, u: nat, r: bool)
    requires Dated(w) && (p.RenewSession? || p.RenewIndex?) && p.user.userId == u && Bearable(p, fault, u)
    ensures var w' := Carried(w, p, fault);
      && (forall t :: SessionOf(w', t, u) == SessionOf(w, t, u))
      && (forall t :: SessionOf(w, t, u) && Names(w, t, u) ==> Names(w', t, u))
      && w'.db == w.db
      && (p.RenewIndex? && AllIndexed(w, u, r) ==> AllIndexed(w', u, false))
  {
    var w' := Carried(w, p, fault);
    forall t ensures SessionOf(w', t, u) == SessionOf(w, t, u) { }
  }

  lemma RenewPhaseAdvances(w: World, p: Proc, fault: Fault, u: nat, r: bool, r': bool)
    requires Dated(w) && WritesFor(p, u) && Bearable(p, fault, u) && Relies(w, p, u, r)
    requires p.RenewSession? || p.RenewIndex?
    requires p.RenewSession? ==> r'
    ensures Advances(w, p, fault, u, r')
  {
    RenewalKeeps(w, p, fault, u, r);
  }

  lemma DroppedIsInOrder(w: World, token: string, u: nat, r: bool)
    requires Only(w, u, token)
    ensures InOrder(Drop(w, token, u), u, r)
  {
    forall t ensures !SessionOf(Drop(w, token, u), t, u) {
      assert SessionOf(Drop(w, token, u), t, u) ==> SessionOf(w, t, u);
    }
  }

  lemma LogoutAdvances(w: World, p: Proc, fault: Fault, u: nat, r: bool)
    requires WritesFor(p, u) && Relies(w, p, u, r) && p.Act? && p.action.Logout?
    ensures Advances(w, p, fault, u, r)
  {
    DroppedIsInOrder(w, p.token, u, r);
    assert !WritesFor(Continued(w, p, fault), u);
  }

  lemma ChangeAdvances(w: World, p: Proc, fault: Fault, u: nat, r: bool)
    requires WritesFor(p, u) && Relies(w, p, u, r) && p.Act? && p.action.ChangePassword?
    ensures Advances(w, p, fault, u, r)
  {
    assert Carried(w, p, fault) == w;
  }

  lemma SameSessions(w: World, w': World, u: nat, token: string, r: bool)
    requires w'.cache == w.cache && w'.now == w.now && (AdminTables.Live(w.db, u) ==> AdminTables.Live(w'.db, u))
    requires InOrder(w, u, r) && Only(w, u, token)
    ensures InOrder(w', u, r) && Only(w', u, token)
  {
    forall t ensures SessionOf(w', t, u) == SessionOf(w, t, u) { }
  }

  lemma PasswordAdvances(w: World, p: Proc, fault: Fault, u: nat, r: bool)
    requires WritesFor(p, u) && Relies(w, p, u, r) && p.WritePassword?
    ensures Advances(w, p, fault, u, r)
  {
    SameSessions(w, Carried(w, p, fault), u, p.token, r);
  }

  lemma DropAdvances(w: World, p: Proc, fault: Fault, u: nat, r: bool)
    requires WritesFor(p, u) && Relies(w, p, u, r) && p.DropKeys?
    ensures Advances(w, p, fault, u, r)
  {
    DroppedIsInOrder(w, p.token, u, r);
  }

  lemma KickDropAdvances(w: World, p: Proc, fault: Fault, u: nat, r: bool)
    requires WritesFor(p, u) && Bearable(p, fault, u) && Relies(w, p, u, r) && p.KickDrop?
    ensures Advances(w, p, fault, u, r)
  {
    DroppedIsInOrder(w, p.token, u, r);
  }

  lemma KickReadAdvances(w: World, p: Proc, fault: Fault, u: nat, r: bool)
    requires WellTyped(w.cache) && WritesFor(p, u) && Bearable(p, fault, u) && Relies(w, p, u, r) && p.KickRead?
    ensures Advances(w, p, fault, u, r)
  {
  }

  lemma RenewingCovers(w: World, u: nat, r: bool, r': bool)
    requires AllIndexed(w, u, r) && (r ==> r')
    ensures AllIndexed(w, u, r')
  {
  }

  lemma MoreRenewing(w: World, p: Proc, fault: Fault, u: nat, r: bool, r': bool)
    requires !p.Finished? && Advances(w, p, fault, u, r) && (r ==> r')
    ensures Advances(w, p, fault, u, r')
  {
    var w' := Carried(w, p, fault);
    if AllIndexed(w', u, r) {
      RenewingCovers(w', u, r, r');
    }
  }

  lemma PhaseAdvances(w: World, p: Proc, fault: Fault, u: nat, r: bool)
    requires Dated(w) && WellTyped(w.cache) && WritesFor(p, u) && Bearable(p, fault, u) && Relies(w, p, u, r)
    requires !p.RenewSession? && !p.RenewIndex?
    ensures Advances(w, p, fault, u, r)
  {
    match p
    case Clear(_, _, _) => ClearAdvances(w, p, fault, u, r);
    case ReadCodes(_, _, _) => ClearAdvances(w, p, fault, u, r);
    case ReadIndex(_, _) => ReadIndexAdvances(w, p, fault, u, r);
    case Evict(_, _, _) => EvictAdvances(w, p, fault, u, r);
    case PutSession(_, _) => PutSessionAdvances(w, p, fault, u, r);
    case PutIndex(_, _) => PutIndexAdvances(w, p, fault, u, r);
    case TakeBack(_, _) => TakeBackAdvances(w, p, fault, u, r);
    case Act(_, _, a) =>
      if a.Logout? {
        LogoutAdvances(w, p, fault, u, r);
      } else {
        ChangeAdvances(w, p, fault, u, r);
      }
    case WritePassword(_, _, _) => PasswordAdvances(w, p, fault, u, r);
    case DropKeys(_, _) => DropAdvances(w, p, fault, u, r);
    case KickRead(_) => KickReadAdvances(w, p, fault, u, r);
    case KickDrop(_, _) => KickDropAdvances(w, p, fault, u, r);
  }

  lemma WriterAdvances(w: World, p: Proc, fault: Fault, u: nat, r: bool, r': bool)
    requires Dated(w) && WellTyped(w.cache) && WritesFor(p, u) && Bearable(p, fault, u) && Relies(w, p, u, r)
    requires if p.RenewSession? then r' else p.RenewIndex? || (r ==> r')
    ensures Advances(w, p, fault, u, r')
  {
    if p.RenewSession? || p.RenewIndex? {
      RenewPhaseAdvances(w, p, fault, u, r, r');
    } else {
      PhaseAdvances(w, p, fault, u, r);
      MoreRenewing(w, p, fault, u, r, r');
    }
  }

  // ---- One call of anybody else ----

  /** The statement that deletes the account. */
  predicate Removes(w: World, p: Proc, fault: Fault, u: nat) {
    p.Act? && p.action == DeleteAdmin(u) && !MakesNoCall(p) && fault != Lost && AdminTables.Live(w.db, u)
  }

  /** What u's sessions are after a call that does not rewrite them. */
  ghost predicate Spared(w: World, w': World, u: nat, r: bool, r': bool) {
    && (forall t :: SessionOf(w', t, u) == SessionOf(w, t, u))
    && (AllIndexed(w, u, r) ==> AllIndexed(w', u, r'))
  }

  lemma SameKeysSpared(w: World, w': World, u: nat, r: bool, r': bool)
    requires SameKeys(w, w', u) && w'.now == w.now && (r ==> r')
    ensures Spared(w, w', u, r, r')
  {
    forall t ensures SessionOf(w', t, u) == SessionOf(w, t, u) { }
  }

  lemma EffectOnlyTouchesNow(w: World, p: Proc)
    ensures Effect(w, p).now == w.now
  {
  }

  lemma OthersSpare(w: World, p: Proc, fault: Fault, u: nat, r: bool, r': bool, drawn: map<string, Option<nat>>)
    requires Dated(w) && CacheOwned(w.cache, drawn) && ProcOwns(p, drawn) && !WritesFor(p, u) && Bearable(p, fault, u)
    requires p.RenewSession? && p.user.userId == u ==> r'
    requires RenewsFor(p, u) || (r ==> r')
    ensures Spared(w, Carried(w, p, fault), u, r, r')
  {
    if (p.RenewSession? || p.RenewIndex?) && p.user.userId == u {
      RenewalKeeps(w, p, fault, u, r);
    } else if fault != Lost {
      EffectSparesOthers(w, p, drawn, u);
      EffectOnlyTouchesNow(w, p);
      SameKeysSpared(w, Effect(w, p), u, r, r');
    } else {
      SameKeysSpared(w, w, u, r, r');
    }
  }

  lemma OthersSpareAccount(w: World, p: Proc, fault: Fault, u: nat)
    requires AdminTables.Live(w.db, u) && !Removes(w, p, fault, u)
    ensures AdminTables.Live(Carried(w, p, fault).db, u)
  {
    if fault != Lost {
      EffectSparesAccounts(w, p, u);
    }
  }

  lemma SparedRelies(w: World, w': World, q: Proc, u: nat, r: bool, r': bool)
    requires Spared(w, w', u, r, r') && (AdminTables.Live(w.db, u) ==> AdminTables.Live(w'.db, u))
    ensures Relies(w, q, u, r) ==> Relies(w', q, u, r')
    ensures InOrder(w, u, r) ==> InOrder(w', u, r')
  {
    assert Online(w', u) ==> Online(w, u) by {
      if Online(w', u) {
        var t :| SessionOf(w', t, u);
        assert SessionOf(w, t, u);
      }
    }
  }

  lemma ErrorStartsNothing(w: World, p: Proc, u: nat)
    requires !p.Finished? && !WritesFor(p, u)
    ensures !WritesFor(OnError(w, p), u)
  {
  }

  /** Only these requests start writing: a verified login, an authenticated logout or
      password change, an effective deletion. */
  lemma StartsWriting(w: World, p: Proc, fault: Fault, u: nat)
    requires !p.Finished? && !WritesFor(p, u) && WritesFor(Continued(w, p, fault), u)
    ensures fault == Fine
    ensures var p' := After(w, p);
      || (p.Lookup? && p'.Clear? && AdminTables.Live(w.db, u))
      || (p.Authenticate? && p'.RenewSession? && SessionOf(w, p'.token, u))
      || (p.Act? && p'.KickRead?)
  {
    ErrorStartsNothing(w, p, u);
    if p.Act? {
      assert !Ends(p.action);
    } else {
      assert p.Lookup? || p.Authenticate?;
    }
  }

  /** And they find the account in order. */
  lemma StartsInOrder(w: World, p: Proc, fault: Fault, u: nat, r: bool, r': bool)
    requires !p.Finished? && !WritesFor(p, u) && WritesFor(Continued(w, p, fault), u) && Bearable(p, fault, u)
    requires InOrder(w, u, r) && (r ==> r') && Spared(w, Carried(w, p, fault), u, r, r')
    ensures Relies(Carried(w, p, fault), Continued(w, p, fault), u, r')
  {
    StartsWriting(w, p, fault, u);
  }

  // ---- Runs ----

  lemma RenewingAfter(s: State, i: nat, fault: Fault, u: nat)
    requires Enabled(s, Run(i, fault))
    ensures var p, s' := s.procs[i], Next(s, Run(i, fault));
      && (RenewsFor(s'.procs[i], u) ==> Renewing(s', u))
      && (!RenewsFor(p, u) && Renewing(s, u) ==> Renewing(s', u))
  {
    var s' := Next(s, Run(i, fault));
    if Renewing(s, u) && !RenewsFor(s.procs[i], u) {
      var j :| 0 <= j < |s.procs| && RenewsFor(s.procs[j], u);
      assert s'.procs[j] == s.procs[j];
    }
  }

  lemma WriterRunKeeps(s: State, i: nat, fault: Fault, u: nat)
    requires Owned(s) && Dated(s.world) && Kept(s, u) && Enabled(s, Run(i, fault)) && Orderly(s, Run(i, fault), u)
    requires WritesFor(s.procs[i], u)
    ensures Kept(Next(s, Run(i, fault)), u)
  {
    var s' := Next(s, Run(i, fault));
    RenewingAfter(s, i, fault, u);
    WriterAdvances(s.world, s.procs[i], fault, u, Renewing(s, u), Renewing(s', u));
    assert forall j :: 0 <= j < |s'.procs| && j != i ==> s'.procs[j] == s.procs[j] && !WritesFor(s'.procs[j], u);
    if WritesFor(s'.procs[i], u) {
      assert !NoWriter(s', u);
    }
  }

  lemma StartKeeps(s: State, i: nat, fault: Fault, u: nat)
    requires Owned(s) && Dated(s.world) && Kept(s, u) && Enabled(s, Run(i, fault)) && Orderly(s, Run(i, fault), u)
    requires !WritesFor(s.procs[i], u) && WritesFor(Next(s, Run(i, fault)).procs[i], u)
    requires !RenewsFor(s.procs[i], u)
    requires Spared(s.world, Next(s, Run(i, fault)).world, u, Renewing(s, u), Renewing(Next(s, Run(i, fault)), u))
    ensures Kept(Next(s, Run(i, fault)), u)
  {
    var s' := Next(s, Run(i, fault));
    forall j | 0 <= j < |s.procs| && j != i ensures s'.procs[j] == s.procs[j] && !WritesFor(s.procs[j], u) { }
    assert NoWriter(s, u);
    RenewingAfter(s, i, fault, u);
    StartsInOrder(s.world, s.procs[i], fault, u, Renewing(s, u), Renewing(s', u));
    assert !NoWriter(s', u);
  }

  lemma BystanderKeeps(s: State, i: nat, fault: Fault, u: nat)
    requires Kept(s, u) && Enabled(s, Run(i, fault))
    requires !WritesFor(s.procs[i], u) && !WritesFor(Next(s, Run(i, fault)).procs[i], u)
    requires Spared(s.world, Next(s, Run(i, fault)).world, u, Renewing(s, u), Renewing(Next(s, Run(i, fault)), u))
    requires AdminTables.Live(s.world.db, u) ==> AdminTables.Live(Next(s, Run(i, fault)).world.db, u)
    ensures Kept(Next(s, Run(i, fault)), u)
  {
    var s' := Next(s, Run(i, fault));
    var r, r' := Renewing(s, u), Renewing(s', u);
    assert forall j :: 0 <= j < |s'.procs| ==> WritesFor(s'.procs[j], u) == WritesFor(s.procs[j], u);
    forall j | 0 <= j < |s'.procs| && WritesFor(s'.procs[j], u) ensures Relies(s'.world, s'.procs[j], u, r') {
      assert s'.procs[j] == s.procs[j];
      SparedRelies(s.world, s'.world, s.procs[j], u, r, r');
    }
    SparedRelies(s.world, s'.world, s.procs[i], u, r, r');
  }

  /** A deletion that takes effect goes on to kick. */
  lemma RemovalStarts(w: World, p: Proc, fault: Fault, u: nat)
    requires Removes(w, p, fault, u) && Bearable(p, fault, u)
    ensures WritesFor(Continued(w, p, fault), u)
  {
  }

  lemma OtherRunKeeps(s: State, i: nat, fault: Fault, u: nat)
    requires Owned(s) && Dated(s.world) && Kept(s, u) && Enabled(s, Run(i, fault)) && Orderly(s, Run(i, fault), u)
    requires !WritesFor(s.procs[i], u)
    ensures Kept(Next(s, Run(i, fault)), u)
  {
    var p, s' := s.procs[i], Next(s, Run(i, fault));
    assert ProcOwns(p, s.drawn);
    RenewingAfter(s, i, fault, u);
    OthersSpare(s.world, p, fault, u, Renewing(s, u), Renewing(s', u), s.drawn);
    if WritesFor(s'.procs[i], u) {
      StartKeeps(s, i, fault, u);
    } else {
      if Removes(s.world, p, fault, u) {
        RemovalStarts(s.world, p, fault, u);
      } else if AdminTables.Live(s.world.db, u) {
        OthersSpareAccount(s.world, p, fault, u);
      }
      BystanderKeeps(s, i, fault, u);
    }
  }

  lemma PassKeeps(s: State, seconds: nat, u: nat)
    requires Dated(s.world) && Kept(s, u) && Orderly(s, Pass(seconds), u)
    ensures Kept(Next(s, Pass(seconds)), u)
  {
    var s', r := Next(s, Pass(seconds)), Renewing(s, u);
    assert Renewing(s', u) == r;
    forall t | SessionOf(s'.world, t, u) ensures SessionOf(s.world, t, u) { }
    assert AllIndexed(s.world, u, r) ==> AllIndexed(s'.world, u, r);
    forall i | 0 <= i < |s'.procs| && WritesFor(s'.procs[i], u) ensures Relies(s'.world, s'.procs[i], u, r) {
      assert Relies(s.world, s.procs[i], u, r);
    }
  }

  lemma SpawnKeeps(s: State, p: Proc, u: nat)
    requires Kept(s, u) && Enabled(s, Spawn(p))
    ensures Kept(Next(s, Spawn(p)), u)
  {
    var s' := Next(s, Spawn(p));
    assert forall j :: 0 <= j < |s.procs| ==> s'.procs[j] == s.procs[j];
    assert !WritesFor(p, u) && !RenewsFor(p, u);
    assert forall j ::
      0 <= j < |s'.procs| && (WritesFor(s'.procs[j], u) || RenewsFor(s'.procs[j], u)) ==> j < |s.procs|;
    assert Renewing(s', u) == Renewing(s, u);
    assert NoWriter(s', u) == NoWriter(s, u);
  }

  lemma StepKeeps(s: State, step: Step, u: nat)
    requires Owned(s) && Dated(s.world) && Kept(s, u) && Enabled(s, step) && Orderly(s, step, u)
    ensures Kept(Next(s, step), u)
  {
    match step
    case Run(i, fault) =>
      if WritesFor(s.procs[i], u) {
        WriterRunKeeps(s, i, fault, u);
      } else {
        OtherRunKeeps(s, i, fault, u);
      }
    case Pass(seconds) => PassKeeps(s, seconds, u);
    case Spawn(p) => SpawnKeeps(s, p, u);
  }

  ghost predicate OrderlyRun(run: seq<State>, steps: seq<Step>, n: nat, u: nat)
    requires IsRun(run, steps) && n <= |steps|
  {
    forall k :: 0 <= k < n ==> Orderly(run[k], steps[k], u)
  }

  lemma {:induction false} OrderlyKeeps(run: seq<State>, steps: seq<Step>, n: nat, u: nat)
    requires IsRun(run, steps) && Starts(run[0]) && n <= |steps| && OrderlyRun(run, steps, n, u)
    ensures Kept(run[n], u)
  {
    if n == 0 {
    } else {
      OrderlyKeeps(run, steps, n - 1, u);
      AlwaysOwned(run, steps, n - 1);
      AlwaysDated(run, steps, n - 1);
      StepKeeps(run[n - 1], steps[n - 1], u);
    }
  }

  /** If the requests that rewrite u's keys or delete u come one after the other, and no
      fault or expiry strikes where it cannot be borne, then whenever none of them is
      under way u has at most one live session, its index names it and outlives it,
      and u is not deleted. */
  lemma OrderlyAgrees(run: seq<State>, steps: seq<Step>, n: nat, u: nat)
    requires IsRun(run, steps) && Starts(run[0]) && n <= |steps| && OrderlyRun(run, steps, n, u)
    requires NoWriter(run[n], u) && !Renewing(run[n], u)
    ensures forall t :: SessionOf(run[n].world, t, u) ==> Covered(run[n].world, t, u)
    ensures forall t1, t2 :: SessionOf(run[n].world, t1, u) && SessionOf(run[n].world, t2, u) ==> t1 == t2
  {
    OrderlyKeeps(run, steps, n, u);
    var w := run[n].world;
    forall t | SessionOf(w, t, u) ensures Covered(w, t, u) {
      assert Online(w, u) && Names(w, t, u);
    }
    forall t1, t2 | SessionOf(w, t1, u) && SessionOf(w, t2, u) ensures t1 == t2 {
      assert Names(w, t1, u) && Names(w, t2, u);
    }
  }

  /** So a deleted account is offline as soon as its deletion is through. */
  lemma DeletedIsOffline(run: seq<State>, steps: seq<Step>, n: nat, u: nat)
    requires IsRun(run, steps) && Starts(run[0]) && n <= |steps| && OrderlyRun(run, steps, n, u)
    requires NoWriter(run[n], u) && !AdminTables.Live(run[n].world.db, u)
    ensures !Online(run[n].world, u)
  {
    OrderlyKeeps(run, steps, n, u);
  }

  /** Calls that do not fail can always be borne. */
  lemma FineIsBearable(p: Proc, u: nat)
    ensures Bearable(p, Fine, u)
  {
  }

  /** In a run without failures overlap and expiry are all there is to fear. */
  lemma FailureFreeIsOrderly(run: seq<State>, steps: seq<Step>, n: nat, u: nat)
    requires IsRun(run, steps) && n <= |steps|
    requires forall k :: 0 <= k < n && steps[k].Run? ==> steps[k].fault == Fine
    requires forall k :: 0 <= k <= n ==> OneWriter(run[k], u)
    requires forall k :: 0 <= k < n ==> Timely(run[k], steps[k], u)
    ensures OrderlyRun(run, steps, n, u)
  {
    forall k | 0 <= k < n ensures Orderly(run[k], steps[k], u) {
      assert run[k + 1] == Next(run[k], steps[k]);
      if steps[k].Run? {
        FineIsBearable(run[k].procs[steps[k].i], u);
      }
    }
  }

  lemma FailureFreeAgrees(run: seq<State>, steps: seq<Step>, n: nat, u: nat)
    requires IsRun(run, steps) && Starts(run[0]) && n <= |steps|
    requires forall k :: 0 <= k < n && steps[k].Run? ==> steps[k].fault == Fine
    requires forall k :: 0 <= k <= n ==> OneWriter(run[k], u)
    requires forall k :: 0 <= k < n ==> Timely(run[k], steps[k], u)
    requires NoWriter(run[n], u) && !Renewing(run[n], u)
    ensures forall t :: SessionOf(run[n].world, t, u) ==> Covered(run[n].world, t, u)
    ensures forall t1, t2 :: SessionOf(run[n].world, t1, u) && SessionOf(run[n].world, t2, u) ==> t1 == t2
  {
    FailureFreeIsOrderly(run, steps, n, u);
    OrderlyAgrees(run, steps, n, u);
  }
}
