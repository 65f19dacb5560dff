// The login lock, told from the history: five failures within a window that opens
// with the first of them and is never extended.
module Lockout {
  import opened Base
  import opened Cache
  import opened Sessions
  import opened SessionAgreement
  import opened SessionRuns
  import opened SessionHistory
  import Answers

  /** Failures recorded since `start`, the time of the first. */
  datatype Window = Window(count: int, start: int)

  predicate Attempts(t: Turn, username: string) {
    t.request.Login? && t.request.username == username
  }

  predicate Fails(w: World, t: Turn, username: string) {
    Attempts(t, username) && ReplyAt(w, t) == WrongCredentials
  }

  predicate Succeeds(w: World, t: Turn, username: string) {
    Attempts(t, username) && ReplyAt(w, t).LoggedIn?
  }

  predicate Open(w: World, g: Option<Window>) {
    g.Some? && w.now < g.value.start + 900
  }

  /** A failure joins the open window or opens one; a success closes it; nothing else
      counts. */
  function WindowAfter(w: World, t: Turn, g: Option<Window>, username: string): Option<Window> {
    if Fails(w, t, username) then
      Some(if Open(w, g) then g.value.(count := g.value.count + 1) else Window(1, w.now))
    else if Succeeds(w, t, username) then None
    else g
  }

  ghost function WindowOf(worlds: seq<World>, turns: seq<Turn>, n: nat, username: string): Option<Window>
    requires IsRun(worlds, turns) && n <= |turns|
  {
    if n == 0 then None
      else WindowAfter(worlds[n - 1], turns[n - 1], WindowOf(worlds, turns, n - 1, username), username)
  }

  /** The counter key is the open window. */
  ghost predicate Counts(w: World, username: string, g: Option<Window>) {
    && (Live(w.cache, w.now, LoginFail(username)) <==> Open(w, g))
    && (Open(w, g) ==> w.cache[LoginFail(username)] == Item(Count(g.value.count), Some(g.value.start + 900)))
    && (g.Some? ==> 1 <= g.value.count <= 5 && g.value.start <= w.now)
  }

  /** The item under a key is the same in both caches, or missing from both. */
  predicate SameItem(c: Entries, c': Entries, k: Key) {
    (k in c') == (k in c) && (k in c ==> c'[k] == c[k])
  }

  lemma OpenSparesCounter(w: World, user: AuthUser, token: string, f: Faults, username: string)
    ensures SameItem(w.cache, OpenSession(w, user, token, f).0.cache, LoginFail(username))
    ensures OpenSession(w, user, token, f).0.now == w.now
    ensures f == NO_FAULTS ==> OpenSession(w, user, token, f).1.LoggedIn?
  {
  }

  lemma FailureCounts(w: World, username: string, g: Option<Window>)
    requires Counts(w, username, g) && (Open(w, g) ==> g.value.count < 5)
    ensures Counts(RecordFail(w, username, NO_FAULTS), username,
                   Some(if Open(w, g) then g.value.(count := g.value.count + 1) else Window(1, w.now)))
  {
  }

  lemma OtherLoginSparesCounter(w: World, username: string, password: string, token: string, other: string)
    requires other != username
    ensures var w' := LoginStep(w, username, password, token, NO_FAULTS).0;
      SameItem(w.cache, w'.cache, LoginFail(other)) && w'.now == w.now
  {
    var account := Account(w.db, username, password);
    if account.Some? {
      OpenSparesCounter(Without(w, {LoginFail(username)}), Snapshot(w.db, account.value), token, NO_FAULTS, other);
    }
  }

  lemma OwnLoginCounts(w: World, username: string, password: string, token: string, g: Option<Window>)
    requires Counts(w, username, g)
    ensures Counts(LoginStep(w, username, password, token, NO_FAULTS).0, username,
                   WindowAfter(w, Turn(Login(username, password, token), NO_FAULTS), g, username))
  {
    var account := Account(w.db, username, password);
    var count := FailCount(w, username);
    assert count == Some(if Open(w, g) then g.value.count else 0);
    if account.Some? {
      OpenSparesCounter(Without(w, {LoginFail(username)}), Snapshot(w.db, account.value), token, NO_FAULTS, username);
    } else if count.Some? && count.value < 5 {
      FailureCounts(w, username, g);
    }
  }

  lemma LoginCounts(w: World, t: Turn, username: string, g: Option<Window>)
    requires t.request.Login? && t.faults == NO_FAULTS && Counts(w, username, g)
    ensures Counts(Serve(w, t.request, t.faults).0, username, WindowAfter(w, t, g, username))
  {
    var r := t.request;
    if r.username == username {
      OwnLoginCounts(w, r.username, r.password, r.token, g);
      assert t == Turn(Login(r.username, r.password, r.token), NO_FAULTS);
    } else {
      OtherLoginSparesCounter(w, r.username, r.password, r.token, username);
    }
  }

  lemma PerformSparesCounter(w: World, user: AuthUser, token: string, a: Action, f: Faults, username: string)
    ensures SameItem(w.cache, Perform(w, user, token, a, f).0.cache, LoginFail(username))
    ensures Perform(w, user, token, a, f).0.now == w.now
  {
  }

  lemma SlideSparesCounter(w: World, token: string, user: AuthUser, f: Faults, username: string)
    ensures SameItem(w.cache, Slide(w, token, user, f).cache, LoginFail(username))
  {
  }

  lemma CallSparesCounter(w: World, token: string, a: Action, f: Faults, username: string)
    ensures SameItem(w.cache, CallStep(w, token, a, f).0.cache, LoginFail(username))
    ensures CallStep(w, token, a, f).0.now == w.now
  {
    if Admitted(w, token, f) {
      var user := Sender(w, token, f);
      SlideSparesCounter(w, token, user, f, username);
      PerformSparesCounter(Slide(w, token, user, f), user, token, a, f, username);
    }
  }

  lemma CallCounts(w: World, t: Turn, username: string, g: Option<Window>)
    requires t.request.Call? && Counts(w, username, g)
    ensures Counts(Serve(w, t.request, t.faults).0, username, WindowAfter(w, t, g, username))
  {
    CallSparesCounter(w, t.request.token, t.request.action, t.faults, username);
  }

  lemma {:induction false} CounterIsWindow(worlds: seq<World>, turns: seq<Turn>, n: nat, username: string)
    requires IsRun(worlds, turns) && Starts(worlds[0]) && FailureFree(turns) && n <= |turns|
    ensures WellTyped(worlds[n].cache) && Counts(worlds[n], username, WindowOf(worlds, turns, n, username))
  {
    AgreementHolds(worlds, turns, n);
    if n == 0 {
    } else {
      CounterIsWindow(worlds, turns, n - 1, username);
      var w, t, g := worlds[n - 1], turns[n - 1], WindowOf(worlds, turns, n - 1, username);
      match t.request
      case Login(_, _, _) => LoginCounts(w, t, username, g);
      case Call(_, _) => CallCounts(w, t, username, g);
      case Tick(_) =>
    }
  }

  /** An attempt is turned away unexamined exactly when five failures stand in a
      window opened less than fifteen minutes ago. */
  lemma LockedIff(worlds: seq<World>, turns: seq<Turn>, n: nat, username: string)
    requires IsRun(worlds, turns) && Starts(worlds[0]) && FailureFree(turns) && n < |turns| &&
      Attempts(turns[n], username)
    ensures var g := WindowOf(worlds, turns, n, username);
      ReplyAt(worlds[n], turns[n]) == TooManyFails <==>
        g.Some? && g.value.count == 5 && worlds[n].now < g.value.start + 900
  {
    CounterIsWindow(worlds, turns, n, username);
  }

  /** Every login of a failure-free run: with five failures in an open window it is refused
      unexamined; with fewer, or after the fifteen minutes, the right password is let in
      and only a wrong one is told so. */
  lemma LoginAnsweredIff(worlds: seq<World>, turns: seq<Turn>, n: nat, username: string, password: string,
      token: string)
    requires IsRun(worlds, turns) && Starts(worlds[0]) && FailureFree(turns) && n < |turns|
    requires turns[n].request == Login(username, password, token)
    ensures var g, reply := WindowOf(worlds, turns, n, username), ReplyAt(worlds[n], turns[n]);
      var locked := g.Some? && g.value.count == 5 && worlds[n].now < g.value.start + 900;
      var known := exists u: nat :: Answers.Opens(worlds[n].db, username, password, u);
      && (reply == TooManyFails <==> locked)
      && (reply.LoggedIn? <==> !locked && known)
      && (reply == WrongCredentials <==> !locked && !known)
  {
    CounterIsWindow(worlds, turns, n, username);
    AlwaysSound(worlds, turns, n);
    Answers.LoginAnswers(worlds[n], username, password, token, NO_FAULTS);
  }

  function FailuresIn(worlds: seq<World>, turns: seq<Turn>, k: nat, n: nat, username: string): nat
    requires k <= n <= |turns| && n < |worlds|
  {
    if k == n then 0
    else FailuresIn(worlds, turns, k, n - 1, username) + if Fails(worlds[n - 1], turns[n - 1], username) then 1 else 0
  }

  ghost predicate NoSuccessIn(worlds: seq<World>, turns: seq<Turn>, k: nat, n: nat, username: string)
    requires k <= n <= |turns| && n < |worlds|
  {
    forall j :: k <= j < n ==> !Succeeds(worlds[j], turns[j], username)
  }

  ghost predicate WindowFrom(worlds: seq<World>, turns: seq<Turn>, k: nat, n: nat, username: string, g: Window)
    requires k < n <= |turns| && n < |worlds|
  {
    && Fails(worlds[k], turns[k], username) && worlds[k].now == g.start
    && FailuresIn(worlds, turns, k, n, username) == g.count
    && NoSuccessIn(worlds, turns, k, n, username)
  }

  lemma WindowGrows(worlds: seq<World>, turns: seq<Turn>, k: nat, n: nat, username: string, g: Window)
    requires k < n < |turns| && n + 1 < |worlds| && WindowFrom(worlds, turns, k, n, username, g)
    requires !Succeeds(worlds[n], turns[n], username)
    ensures WindowFrom(worlds, turns, k, n + 1, username,
                       if Fails(worlds[n], turns[n], username) then g.(count := g.count + 1) else g)
  {
  }

  lemma WindowOpens(worlds: seq<World>, turns: seq<Turn>, n: nat, username: string)
    requires n < |turns| && n + 1 < |worlds| && Fails(worlds[n], turns[n], username)
    ensures WindowFrom(worlds, turns, n, n + 1, username, Window(1, worlds[n].now))
  {
    assert FailuresIn(worlds, turns, n, n, username) == 0;
  }

  /** What a window means: it opened at a failure, and its count is the number of
      failures from that one on, with no success between. */
  lemma {:induction false} WindowMeans(worlds: seq<World>, turns: seq<Turn>, n: nat, username: string)
    requires IsRun(worlds, turns) && n <= |turns| && WindowOf(worlds, turns, n, username).Some?
    ensures exists k ::
      0 <= k < n && WindowFrom(worlds, turns, k, n, username, WindowOf(worlds, turns, n, username).value)
  {
    var m := n - 1;
    var g, g' := WindowOf(worlds, turns, m, username), WindowOf(worlds, turns, n, username);
    if Fails(worlds[m], turns[m], username) && !Open(worlds[m], g) {
      WindowOpens(worlds, turns, m, username);
      assert WindowFrom(worlds, turns, m, n, username, g'.value);
    } else {
      WindowMeans(worlds, turns, m, username);
      var k :| 0 <= k < m && WindowFrom(worlds, turns, k, m, username, g.value);
      WindowGrows(worlds, turns, k, m, username, g.value);
      assert WindowFrom(worlds, turns, k, n, username, g'.value);
    }
  }
}
