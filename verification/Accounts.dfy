// Front-office users, their wallets and soft deletion: the users and wallets
// tables under their constraints, one request at a time.
module Accounts {
  import opened Base
  import opened Ledger

  datatype User = User(username: string, email: string, hashedPassword: string, deletedAt: Option<int>)

  /** users by id with its sequence; wallets as owner (user_id by wallet id), the
      wallet id sequence, and the balances and entries of the ledger. */
  datatype Db = Db(users: map<nat, User>, nextUser: nat, owner: map<int, nat>, nextWallet: nat, ledger: Tables)

  datatype CreateFault = Unfailing | BeforeUser | AfterUser | AtCommitOfUser

  datatype Op =
    | Create(username: string, email: string, hashedPassword: string, createFault: CreateFault)
    | SoftDelete(id: nat, now: int)
    | Restore(id: nat)
    | AdjustWallet(call: Call, fault: Fault)

  datatype Reply = Created(user: nat, wallet: nat) | Rows(count: nat) | UniqueViolation | Adjusted(outcome: Outcome)
    | Down

  predicate LiveIn(users: map<nat, User>, id: nat) {
    id in users && users[id].deletedAt.None?
  }

  /** Would a live row with these keys hit users_username_key or users_email_key? */
  predicate Clash(users: map<nat, User>, username: string, email: string) {
    exists id ::
      id in users && users[id].deletedAt.None? && (users[id].username == username || users[id].email == email)
  }

  function WithUser(db: Db, id: nat, user: User, wallet: nat): Db {
    db.(users := db.users[id := user], owner := db.owner[wallet := id],
        ledger := db.ledger.(balances := db.ledger.balances[wallet := 0]))
  }

  function SetDeleted(db: Db, id: nat, at: Option<int>): Db
    requires id in db.users
  {
    db.(users := db.users[id := db.users[id].(deletedAt := at)])
  }

  function Apply(db: Db, op: Op): (Db, Reply) {
    match op
    case Create(username, email, hash, fault) =>
      if fault == BeforeUser then (db, Down)
      else
        var drawn := db.(nextUser := db.nextUser + 1);
        if Clash(db.users, username, email) then (drawn, UniqueViolation)
        else if fault == AfterUser then (drawn, Down)
        else
          var drawn2 := drawn.(nextWallet := db.nextWallet + 1);
          if fault == AtCommitOfUser then (drawn2, Down)
          else (WithUser(drawn2, db.nextUser, User(username, email, hash, None), db.nextWallet),
                Created(db.nextUser, db.nextWallet))
    case SoftDelete(id, now) =>
      if LiveIn(db.users, id) then (SetDeleted(db, id, Some(now)), Rows(1)) else (db, Rows(0))
    case Restore(id) =>
      if id !in db.users || db.users[id].deletedAt.None? then (db, Rows(0))
      else if Clash(db.users, db.users[id].username, db.users[id].email) then (db, UniqueViolation)
      else (SetDeleted(db, id, None), Rows(1))
    case AdjustWallet(c, f) =>
      var (ledger, o) := Adjust(db.ledger, c, f);
      (db.(ledger := ledger), Adjusted(o))
  }

  function Run(db: Db, ops: seq<Op>): Db {
    if ops == [] then db else Apply(Run(db, ops[..|ops| - 1]), ops[|ops| - 1]).0
  }

  // ---- Partial unique keys ----

  ghost predicate LiveKeysUnique(users: map<nat, User>) {
    forall i, j :: i in users && j in users && i != j && users[i].deletedAt.None? && users[j].deletedAt.None? ==>
      users[i].username != users[j].username && users[i].email != users[j].email
  }

  ghost predicate HasWallet(db: Db, id: nat) {
    exists w :: w in db.owner && db.owner[w] == id
  }

  /** Each user has exactly one wallet, and ids come from the sequences. */
  ghost predicate OneToOne(db: Db) {
    && (forall id :: id in db.users ==> id < db.nextUser)
    && (forall w :: w in db.owner ==> 0 <= w < db.nextWallet && db.owner[w] in db.users)
    && (forall v, w :: v in db.owner && w in db.owner && db.owner[v] == db.owner[w] ==> v == w)
    && (forall id :: id in db.users ==> HasWallet(db, id))
    && db.ledger.balances.Keys == db.owner.Keys
  }

  ghost predicate Consistent(db: Db) {
    LiveKeysUnique(db.users) && OneToOne(db) && WellFormed(db.ledger) && Conserved(db.ledger)
  }

  /** The database before any front-office user; operators are the admin accounts. */
  function Initial(operators: set<int>): Db {
    Db(map[], 1, map[], 1, Tables(map[], map[], 1, operators))
  }

  lemma CreateKeepsOneToOne(db: Db, id: nat, user: User, wallet: nat)
    requires OneToOne(db) && id == db.nextUser && wallet == db.nextWallet
    ensures OneToOne(WithUser(db.(nextUser := id + 1, nextWallet := wallet + 1), id, user, wallet))
  {
    var db' := WithUser(db.(nextUser := id + 1, nextWallet := wallet + 1), id, user, wallet);
    forall u | u in db'.users ensures HasWallet(db', u) {
      if u == id {
        assert db'.owner[wallet] == id;
      } else {
        var w :| w in db.owner && db.owner[w] == u;
        assert db'.owner[w] == u;
      }
    }
  }

  lemma NewWalletIsEmpty(t: Tables, wallet: int)
    requires WellFormed(t) && Conserved(t) && wallet !in t.balances
    ensures WellFormed(t.(balances := t.balances[wallet := 0])) && Conserved(t.(balances := t.balances[wallet := 0]))
  {
    var t' := t.(balances := t.balances[wallet := 0]);
    forall w | w in t'.balances ensures t'.balances[w] == Total(History(t', w)) && NeverNegative(History(t', w)) {
      assert History(t', w) == History(t, w);
      if w == wallet {
        ListingStops(t.entries, wallet, 0, t.nextId);
      }
    }
  }

  lemma CreateKeepsKeys(users: map<nat, User>, id: nat, user: User)
    requires LiveKeysUnique(users) && id !in users && !Clash(users, user.username, user.email)
    ensures LiveKeysUnique(users[id := user])
  {
  }

  lemma SequencesMoveOn(db: Db, nextUser: nat, nextWallet: nat)
    requires OneToOne(db) && db.nextUser <= nextUser && db.nextWallet <= nextWallet
    ensures OneToOne(db.(nextUser := nextUser, nextWallet := nextWallet))
  {
    assert forall u :: HasWallet(db, u) ==> HasWallet(db.(nextUser := nextUser, nextWallet := nextWallet), u);
  }

  /** Drawing both ids and writing user and wallet. */
  function Registered(db: Db, user: User): Db {
    WithUser(db.(nextUser := db.nextUser + 1, nextWallet := db.nextWallet + 1), db.nextUser, user, db.nextWallet)
  }

  lemma RegisteredIsConsistent(db: Db, user: User)
    requires Consistent(db) && !Clash(db.users, user.username, user.email)
    ensures Consistent(Registered(db, user))
  {
    assert LiveKeysUnique(Registered(db, user).users) by { CreateKeepsKeys(db.users, db.nextUser, user); }
    assert OneToOne(Registered(db, user)) by { CreateKeepsOneToOne(db, db.nextUser, user, db.nextWallet); }
    assert WellFormed(Registered(db, user).ledger) && Conserved(Registered(db, user).ledger) by {
      NewWalletIsEmpty(db.ledger, db.nextWallet);
    }
  }

  lemma DrawnIsConsistent(db: Db, nextUser: nat, nextWallet: nat)
    requires Consistent(db) && db.nextUser <= nextUser && db.nextWallet <= nextWallet
    ensures Consistent(db.(nextUser := nextUser, nextWallet := nextWallet))
  {
    SequencesMoveOn(db, nextUser, nextWallet);
  }

  /** Creation registers the user or only draws ids. */
  lemma CreateRegistersOrDraws(db: Db, op: Op)
    requires op.Create?
    ensures var db', user := Apply(db, op).0, User(op.username, op.email, op.hashedPassword, None);
      || (!Clash(db.users, op.username, op.email) && db' == Registered(db, user))
      || (db' == db.(nextUser := db'.nextUser, nextWallet := db'.nextWallet)
          && db.nextUser <= db'.nextUser && db.nextWallet <= db'.nextWallet)
  {
  }

  lemma CreateKeepsConsistent(db: Db, op: Op)
    requires Consistent(db) && op.Create?
    ensures Consistent(Apply(db, op).0)
  {
    var db', user := Apply(db, op).0, User(op.username, op.email, op.hashedPassword, None);
    CreateRegistersOrDraws(db, op);
    if !Clash(db.users, op.username, op.email) && db' == Registered(db, user) {
      RegisteredIsConsistent(db, user);
    } else {
      DrawnIsConsistent(db, db'.nextUser, db'.nextWallet);
    }
  }

  lemma SetDeletedKeepsOneToOne(db: Db, id: nat, at: Option<int>)
    requires OneToOne(db) && id in db.users
    ensures OneToOne(SetDeleted(db, id, at))
  {
    assert forall u :: HasWallet(db, u) ==> HasWallet(SetDeleted(db, id, at), u);
  }

  lemma SetDeletedKeepsKeys(users: map<nat, User>, id: nat, at: Option<int>)
    requires LiveKeysUnique(users) && id in users
    requires at.None? && users[id].deletedAt.Some? ==> !Clash(users, users[id].username, users[id].email)
    ensures LiveKeysUnique(users[id := users[id].(deletedAt := at)])
  {
  }

  lemma DeletionKeepsConsistent(db: Db, op: Op)
    requires Consistent(db) && (op.SoftDelete? || op.Restore?)
    ensures Consistent(Apply(db, op).0)
  {
    if Apply(db, op).1 == Rows(1) {
      var at := if op.SoftDelete? then Some(op.now) else None;
      SetDeletedKeepsOneToOne(db, op.id, at);
      SetDeletedKeepsKeys(db.users, op.id, at);
      assert Apply(db, op).0 == SetDeleted(db, op.id, at);
    }
  }

  lemma LedgerKeepsOneToOne(db: Db, t: Tables)
    requires OneToOne(db) && t.balances.Keys == db.ledger.balances.Keys
    ensures OneToOne(db.(ledger := t))
  {
    assert forall u :: HasWallet(db, u) ==> HasWallet(db.(ledger := t), u);
  }

  lemma AdjustKeepsConsistent(db: Db, op: Op)
    requires Consistent(db) && op.AdjustWallet?
    ensures Consistent(Apply(db, op).0)
  {
    AdjustEffect(db.ledger, op.call, op.fault);
    LedgerKeepsOneToOne(db, Adjust(db.ledger, op.call, op.fault).0);
  }

  lemma ApplyKeepsConsistent(db: Db, op: Op)
    requires Consistent(db)
    ensures Consistent(Apply(db, op).0)
  {
    match op
    case Create(_, _, _, _) => CreateKeepsConsistent(db, op);
    case SoftDelete(_, _) => DeletionKeepsConsistent(db, op);
    case Restore(_) => DeletionKeepsConsistent(db, op);
    case AdjustWallet(_, _) => AdjustKeepsConsistent(db, op);
  }

  /** In every reachable state live usernames and emails are unique and users and
      wallets correspond one to one. */
  lemma {:induction false} RunKeepsConsistent(db: Db, ops: seq<Op>)
    requires Consistent(db)
    ensures Consistent(Run(db, ops))
  {
    if ops == [] {
    } else {
      RunKeepsConsistent(db, ops[..|ops| - 1]);
      ApplyKeepsConsistent(Run(db, ops[..|ops| - 1]), ops[|ops| - 1]);
    }
  }

  /** The rows GetUserByUsername may return. */
  ghost predicate Matches(users: map<nat, User>, username: string, id: nat) {
    LiveIn(users, id) && users[id].username == username
  }

  lemma {:induction false} LookupHasOneAnswer(operators: set<int>, ops: seq<Op>, username: string, i: nat, j: nat)
    requires var users := Run(Initial(operators), ops).users; Matches(users, username, i) && Matches(users, username, j)
    ensures i == j
  {
    RunKeepsConsistent(Initial(operators), ops);
  }

  ghost predicate KeysFree(db: Db, username: string, email: string) {
    forall id :: id in db.users && db.users[id].deletedAt == None ==>
      db.users[id].username != username && db.users[id].email != email
  }

  /** What registration answers: a taken key is reported as such once the INSERT is
      reached, and nothing else is. */
  lemma RegistrationAnswers(db: Db, username: string, email: string, hash: string, fault: CreateFault)
    ensures var reply := Apply(db, Create(username, email, hash, fault)).1;
      && (reply == UniqueViolation <==> fault != BeforeUser && !KeysFree(db, username, email))
      && (reply == Down <==>
           fault == BeforeUser || (fault in {AfterUser, AtCommitOfUser} && KeysFree(db, username, email)))
      && (reply.Created? <==> fault == Unfailing && KeysFree(db, username, email))
  {
  }

  lemma RegistrationSparesHistories(db: Db, username: string, email: string, hash: string, fault: CreateFault)
    requires Consistent(db)
    ensures var (db', reply) := Apply(db, Create(username, email, hash, fault));
      && (forall w: int :: History(db'.ledger, w) == History(db.ledger, w))
      && (reply.Created? ==> History(db'.ledger, reply.wallet) == [])
  {
    var (db', reply) := Apply(db, Create(username, email, hash, fault));
    forall w: int ensures History(db'.ledger, w) == History(db.ledger, w) { }
    if reply.Created? {
      ListingStops(db.ledger.entries, db.nextWallet, 0, db.ledger.nextId);
    }
  }

  /** Registration: it succeeds exactly when nothing failed and no live row uses the
      name or the email; then one user and its one empty wallet are new, and whatever
      happens all earlier rows, balances and histories stay. */
  lemma RegistrationEffect(db: Db, username: string, email: string, hash: string, fault: CreateFault)
    requires Consistent(db)
    ensures var (db', reply) := Apply(db, Create(username, email, hash, fault));
      && (reply.Created? <==> fault == Unfailing && KeysFree(db, username, email))
      && (reply.Created? ==>
            && reply.user !in db.users && db'.users == db.users[reply.user := User(username, email, hash, None)]
            && reply.wallet !in db.owner && db'.owner == db.owner[reply.wallet := reply.user]
            && db'.ledger.balances == db.ledger.balances[reply.wallet := 0] && History(db'.ledger, reply.wallet) == [])
      && (!reply.Created? ==> db'.users == db.users && db'.owner == db.owner && db'.ledger == db.ledger)
      && forall w: int :: w in db.owner ==> History(db'.ledger, w) == History(db.ledger, w)
  {
    RegistrationAnswers(db, username, email, hash, fault);
    RegistrationSparesHistories(db, username, email, hash, fault);
  }

  /** What a deletion answers, and that it writes one mark. */
  lemma DeletionAnswers(db: Db, id: nat, now: int)
    ensures var (db', reply) := Apply(db, SoftDelete(id, now));
      && (reply == Rows(1) <==> id in db.users && db.users[id].deletedAt == None)
      && (reply == Rows(0) <==> id !in db.users || db.users[id].deletedAt != None)
      && db' == (if reply == Rows(1)
                 then db.(users := db.users[id := db.users[id].(deletedAt := Some(now))]) else db)
  {
  }

  /** What a restore answers: a violation exactly for a deleted row one of whose keys a
      live row has taken, no row exactly for one that is missing or live. */
  lemma RestoreAnswers(db: Db, id: nat)
    ensures var (db', reply) := Apply(db, Restore(id));
      && (reply == UniqueViolation <==>
           && id in db.users && db.users[id].deletedAt != None
           && !KeysFree(db, db.users[id].username, db.users[id].email))
      && (reply == Rows(0) <==> id !in db.users || db.users[id].deletedAt == None)
      && (reply == Rows(1) <==>
           && id in db.users && db.users[id].deletedAt != None
           && KeysFree(db, db.users[id].username, db.users[id].email))
      && db' == (if reply == Rows(1)
                 then db.(users := db.users[id := db.users[id].(deletedAt := None)]) else db)
  {
  }

  /** What an adjustment answers is what the ledger's rows say. */
  lemma AdjustmentAnswers(db: Db, c: Call, f: Fault)
    ensures var reply := Apply(db, AdjustWallet(c, f)).1;
      reply.Adjusted? && AnsweredBy(db.ledger, db.ledger, c, f, reply.outcome)
  {
    AdjustAnswers(db.ledger, c, f);
  }

  // ---- Deleting and restoring ----

  /** The operation neither names u nor wants one of u's keys. */
  predicate Unrelated(db: Db, op: Op, u: nat)
    requires u in db.users
  {
    match op
    case Create(username, email, _, _) => username != db.users[u].username && email != db.users[u].email
    case SoftDelete(id, _) => id != u
    case Restore(id) =>
      id != u && (id in db.users ==>
        db.users[id].username != db.users[u].username && db.users[id].email != db.users[u].email)
    case AdjustWallet(_, _) => true
  }

  /** Along a run from db, every operation is unrelated to u. */
  ghost predicate AllUnrelated(db: Db, ops: seq<Op>, u: nat)
    decreases |ops|
  {
    ops == [] ||
    (AllUnrelated(db, ops[..|ops| - 1], u) &&
     var before := Run(db, ops[..|ops| - 1]); u in before.users && Unrelated(before, ops[|ops| - 1], u))
  }

  /** Writing another row and marking u deleted commute. */
  lemma MarksCommute(users: map<nat, User>, u: nat, now: int, id: nat, row: User)
    requires u in users && id != u
    ensures users[u := users[u].(deletedAt := Some(now))][id := row]
         == users[id := row][u := users[u].(deletedAt := Some(now))]
  {
  }

  lemma BlindTables(db: Db, op: Op, u: nat, now: int)
    requires u < db.nextUser && LiveIn(db.users, u) && Unrelated(db, op, u) && !op.AdjustWallet?
    requires Apply(SetDeleted(db, u, Some(now)), op).1 == Apply(db, op).1
    ensures LiveIn(Apply(db, op).0.users, u)
    ensures Apply(SetDeleted(db, u, Some(now)), op).0 == SetDeleted(Apply(db, op).0, u, Some(now))
  {
    match op
    case Create(username, email, hash, _) =>
      MarksCommute(db.users, u, now, db.nextUser, User(username, email, hash, None));
    case SoftDelete(id, at) =>
      if id in db.users {
        MarksCommute(db.users, u, now, id, db.users[id].(deletedAt := Some(at)));
      }
    case Restore(id) =>
      if id in db.users {
        MarksCommute(db.users, u, now, id, db.users[id].(deletedAt := None));
      }
  }

  lemma SameClash(db: Db, u: nat, now: int, username: string, email: string)
    requires LiveIn(db.users, u) && username != db.users[u].username && email != db.users[u].email
    ensures Clash(SetDeleted(db, u, Some(now)).users, username, email) == Clash(db.users, username, email)
  {
    var gone := SetDeleted(db, u, Some(now)).users;
    forall id | id in db.users && id != u ensures gone[id] == db.users[id] { }
    if Clash(db.users, username, email) {
      var id :| id in db.users && db.users[id].deletedAt.None? &&
        (db.users[id].username == username || db.users[id].email == email);
      assert id != u && gone[id] == db.users[id];
    }
  }

  /** Unrelated work cannot tell whether u is deleted. */
  lemma UnrelatedIsBlind(db: Db, op: Op, u: nat, now: int)
    requires Consistent(db) && LiveIn(db.users, u) && Unrelated(db, op, u)
    ensures LiveIn(Apply(db, op).0.users, u)
    ensures Apply(SetDeleted(db, u, Some(now)), op) == (SetDeleted(Apply(db, op).0, u, Some(now)), Apply(db, op).1)
  {
    match op
    case Create(username, email, _, _) =>
      SameClash(db, u, now, username, email);
      BlindTables(db, op, u, now);
    case SoftDelete(_, _) => BlindTables(db, op, u, now);
    case Restore(id) =>
      if id in db.users {
        SameClash(db, u, now, db.users[id].username, db.users[id].email);
      }
      BlindTables(db, op, u, now);
    case AdjustWallet(_, _) =>
  }

  lemma {:induction false} BlindRun(db: Db, ops: seq<Op>, u: nat, now: int)
    requires Consistent(db) && LiveIn(db.users, u) && AllUnrelated(db, ops, u)
    ensures LiveIn(Run(db, ops).users, u)
    ensures Run(SetDeleted(db, u, Some(now)), ops) == SetDeleted(Run(db, ops), u, Some(now))
  {
    if ops == [] {
    } else {
      var init := ops[..|ops| - 1];
      BlindRun(db, init, u, now);
      RunKeepsConsistent(db, init);
      UnrelatedIsBlind(Run(db, init), ops[|ops| - 1], u, now);
    }
  }

  lemma RestoreUndoes(db: Db, u: nat, now: int)
    requires Consistent(db) && LiveIn(db.users, u)
    ensures Apply(SetDeleted(db, u, Some(now)), Restore(u)) == (db, Rows(1))
  {
    var gone := SetDeleted(db, u, Some(now));
    assert !Clash(gone.users, db.users[u].username, db.users[u].email);
    assert SetDeleted(gone, u, None).users == db.users;
  }

  /** Delete, any unrelated work, restore: all tables, wallets and entries included,
      are as if the user had never been deleted. */
  lemma DeleteThenRestore(db: Db, ops: seq<Op>, u: nat, now: int)
    requires Consistent(db) && LiveIn(db.users, u) && AllUnrelated(db, ops, u)
    ensures Apply(Run(Apply(db, SoftDelete(u, now)).0, ops), Restore(u)) == (Run(db, ops), Rows(1))
  {
    BlindRun(db, ops, u, now);
    RunKeepsConsistent(db, ops);
    RestoreUndoes(Run(db, ops), u, now);
  }

  // ---- Dashboard totals ----

  function LiveUsers(db: Db): set<nat> {
    set id | id in db.users && db.users[id].deletedAt.None?
  }

  function LiveWallets(db: Db): set<int> {
    set w | w in db.owner && LiveIn(db.users, db.owner[w])
  }

  /** SELECT count(*) FROM users WHERE deleted_at IS NULL. */
  function CountUsers(db: Db): nat {
    |LiveUsers(db)|
  }

  /** SELECT count(*) FROM wallets JOIN users ... WHERE deleted_at IS NULL. */
  function CountWallets(db: Db): nat {
    |LiveWallets(db)|
  }

  /** An injective image has as many elements. */
  lemma {:induction false} InjectiveImage(ws: set<int>, us: set<nat>, f: map<int, nat>)
    requires ws <= f.Keys
    requires forall v, w :: v in ws && w in ws && f[v] == f[w] ==> v == w
    requires us == set w | w in ws :: f[w]
    ensures |ws| == |us|
  {
    if w: int :| w in ws {
      var ws', us' := ws - {w}, us - {f[w]};
      assert us' == set v | v in ws' :: f[v];
      InjectiveImage(ws', us', f);
      assert f[w] in us && us == us' + {f[w]} && ws == ws' + {w};
    } else {
      assert forall w: int :: w !in ws;
      assert us == {} && ws == {};
    }
  }

  lemma CountsAgree(db: Db)
    requires Consistent(db)
    ensures CountWallets(db) == CountUsers(db)
  {
    forall u ensures u in LiveUsers(db) <==> u in set w | w in LiveWallets(db) :: db.owner[w] {
      if u in LiveUsers(db) {
        assert HasWallet(db, u);
        var w :| w in db.owner && db.owner[w] == u;
        assert w in LiveWallets(db);
      }
    }
    InjectiveImage(LiveWallets(db), LiveUsers(db), db.owner);
  }

  /** Sum of the balances of live users' wallets with id below n. */
  function BalanceTotal(db: Db, n: nat): int {
    if n == 0 then 0
    else BalanceTotal(db, n - 1) +
         if n - 1 in LiveWallets(db) && n - 1 in db.ledger.balances then db.ledger.balances[n - 1] else 0
  }

  /** SELECT COALESCE(sum(balance), 0)::bigint; the cast fails when it does not fit. */
  function SumWalletBalances(db: Db): Option<int> {
    var total := BalanceTotal(db, db.nextWallet);
    if total > MAX_INT64 then None else Some(total)
  }

  /** The entry's wallet belongs to a user whose row is there and not deleted. */
  predicate Owned(db: Db, w: int) {
    w in db.owner && db.owner[w] in db.users && db.users[db.owner[w]].deletedAt == None
  }

  /** Sum over the entries with id below k whose wallet is below n and has a live owner. */
  function EntryTotal(db: Db, n: nat, k: nat): int {
    if k == 0 then 0
    else EntryTotal(db, n, k - 1) +
         if k - 1 in db.ledger.entries && db.ledger.entries[k - 1].walletId < n &&
           Owned(db, db.ledger.entries[k - 1].walletId)
         then db.ledger.entries[k - 1].amount else 0
  }

  lemma {:induction false} OneMoreWallet(db: Db, n: nat, k: nat)
    requires Consistent(db)
    ensures EntryTotal(db, n + 1, k) ==
            EntryTotal(db, n, k) + if Owned(db, n) then Total(Listing(db.ledger.entries, n, k)) else 0
  {
    if k == 0 {
    } else {
      OneMoreWallet(db, n, k - 1);
      var before := Listing(db.ledger.entries, n, k - 1);
      if k - 1 in db.ledger.entries && db.ledger.entries[k - 1].walletId == n {
        TotalSnoc(before, db.ledger.entries[k - 1]);
      } else {
        assert Listing(db.ledger.entries, n, k) == before;
      }
    }
  }

  lemma {:induction false} NoWalletsNoEntries(db: Db, k: nat)
    requires Consistent(db)
    ensures EntryTotal(db, 0, k) == 0
  {
    if k == 0 {
    } else {
      NoWalletsNoEntries(db, k - 1);
    }
  }

  lemma {:induction false} TotalsMeet(db: Db, n: nat)
    requires Consistent(db) && n <= db.nextWallet
    ensures BalanceTotal(db, n) == EntryTotal(db, n, db.ledger.nextId)
  {
    if n == 0 {
      NoWalletsNoEntries(db, db.ledger.nextId);
    } else {
      TotalsMeet(db, n - 1);
      OneMoreWallet(db, n - 1, db.ledger.nextId);
    }
  }

  /** In every reachable state the dashboard's wallet total, when the cast allows
      one, is the sum of all entries of undeleted users' wallets, and there are as
      many listed wallets as listed users. */
  lemma DashboardTotals(operators: set<int>, ops: seq<Op>)
    ensures var db := Run(Initial(operators), ops);
      && CountWallets(db) == CountUsers(db)
      && SumWalletBalances(db) ==
           (var total := EntryTotal(db, db.nextWallet, db.ledger.nextId);
            if total <= 9_223_372_036_854_775_807 then Some(total) else None)
  {
    var db := Run(Initial(operators), ops);
    RunKeepsConsistent(Initial(operators), ops);
    CountsAgree(db);
    TotalsMeet(db, db.nextWallet);
  }
  /** Deleting the owner of wallet w takes w's balance out of the sum over wallets below
      n, and nothing else. */
  lemma {:induction false} DeletionLeavesTotal(db: Db, u: nat, now: int, w: int, n: nat)
    requires Consistent(db) && LiveIn(db.users, u) && w in db.owner && db.owner[w] == u
    ensures BalanceTotal(SetDeleted(db, u, Some(now)), n) ==
            BalanceTotal(db, n) - if w < n then db.ledger.balances[w] else 0
  {
    if n == 0 {
    } else {
      DeletionLeavesTotal(db, u, now, w, n - 1);
    }
  }

  lemma DeletionLowersCounts(db: Db, u: nat, now: int)
    requires Consistent(db) && LiveIn(db.users, u)
    ensures var db' := SetDeleted(db, u, Some(now));
      CountUsers(db') == CountUsers(db) - 1 && CountWallets(db') == CountWallets(db) - 1
  {
    var db' := SetDeleted(db, u, Some(now));
    assert Consistent(db') by { ApplyKeepsConsistent(db, SoftDelete(u, now)); }
    assert LiveUsers(db') == LiveUsers(db) - {u};
    CountsAgree(db);
    CountsAgree(db');
  }

  /** A deletion lowers the dashboard by exactly the deleted user and its balance. */
  lemma DeletionLowersTotals(db: Db, u: nat, now: int, w: int)
    requires Consistent(db) && LiveIn(db.users, u) && w in db.owner && db.owner[w] == u
    ensures var db' := Apply(db, SoftDelete(u, now)).0;
      && BalanceTotal(db', db'.nextWallet) == BalanceTotal(db, db.nextWallet) - db.ledger.balances[w]
      && CountUsers(db') == CountUsers(db) - 1 && CountWallets(db') == CountWallets(db) - 1
  {
    DeletionLeavesTotal(db, u, now, w, db.nextWallet);
    DeletionLowersCounts(db, u, now);
  }
}
