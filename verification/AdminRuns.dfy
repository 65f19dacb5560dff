// Back-office accounts over whole runs of administration: unique live usernames,
// when a restore succeeds, and that deleting and restoring undoes itself.
module AdminRuns {
  import opened Base
  import opened AdminTables

  datatype Op =
    | Create(username: string, h: Hashed, roleIds: seq<int>)
    | Delete(id: nat, now: int)
    | Undelete(id: nat)
    | Assign(id: nat, roleIds: seq<int>)
    | Password(id: nat, h: Hashed)

  /** updateAdminUserRoles and changePassword look the account up first, among the live. */
  function Apply(t: Tables, op: Op): (Tables, TxError) {
    match op
    case Create(username, h, ids) => var (t', _, err) := CreateAdmin(t, username, h, ids); (t', err)
    case Delete(id, now) => (SoftDelete(t, id, now).0, Nil)
    case Undelete(id) => var (t', _, err) := Restore(t, id); (t', err)
    case Assign(id, ids) => if Live(t, id) then ReplaceRoles(t, id, ids) else (t, Nil)
    case Password(id, h) => (if Live(t, id) then UpdatePassword(t, id, h) else t, Nil)
  }

  function Run(t: Tables, ops: seq<Op>): Tables {
    if ops == [] then t else Apply(Run(t, ops[..|ops| - 1]), ops[|ops| - 1]).0
  }

  lemma ApplyKeepsConsistent(t: Tables, op: Op)
    requires Consistent(t)
    ensures Consistent(Apply(t, op).0)
    ensures t.users.Keys <= Apply(t, op).0.users.Keys
  {
    match op
    case Create(username, h, ids) => CreateAdminEffect(t, username, h, ids);
    case Assign(id, ids) =>
      if Live(t, id) {
        ReplaceRolesEffect(t, id, ids);
      }
    case _ =>
  }

  /** In every reachable state live usernames are unique, roles name existing rows, and
      no row has ever disappeared. */
  lemma {:induction false} RunKeepsConsistent(t: Tables, ops: seq<Op>)
    requires Consistent(t)
    ensures Consistent(Run(t, ops)) && t.users.Keys <= Run(t, ops).users.Keys
  {
    if ops == [] {
    } else {
      RunKeepsConsistent(t, ops[..|ops| - 1]);
      ApplyKeepsConsistent(Run(t, ops[..|ops| - 1]), ops[|ops| - 1]);
    }
  }

  /** The lookup by username finds the one live account of that name, and a name is
      free exactly when the lookup finds nothing. */
  lemma LookupIsTheAccount(t: Tables, username: string, id: nat)
    requires Consistent(t)
    ensures FindByUsername(t, username) == Some(id) <==> Live(t, id) && t.users[id].username == username
    ensures FindByUsername(t, username).None? <==> NameFree(t, username)
  {
  }

  /** A deletion affects one row exactly for a live account, and writes one mark. */
  lemma DeleteIff(t: Tables, id: nat, now: int)
    ensures var (t', rows) := SoftDelete(t, id, now);
      && (rows == 1 <==> id in t.users && t.users[id].deletedAt == None)
      && (rows == 0 <==> id !in t.users || t.users[id].deletedAt != None)
      && t' == (if rows == 1 then t.(users := t.users[id := t.users[id].(deletedAt := Some(now))]) else t)
  {
  }

  /** A restore succeeds exactly for a deleted account whose name no live account has
      taken, is a violation exactly for a deleted account whose name is taken, and
      affects no row exactly when the account is missing or live. */
  lemma RestoreIff(t: Tables, id: nat)
    requires Consistent(t)
    ensures var (t', rows, err) := Restore(t, id);
      && (rows == 1 && err == Nil <==>
           id in t.users && t.users[id].deletedAt != None && NameFree(t, t.users[id].username))
      && (err == DuplicateKey <==>
           id in t.users && t.users[id].deletedAt != None && !NameFree(t, t.users[id].username))
      && (rows == 0 && err == Nil <==> id !in t.users || t.users[id].deletedAt == None)
      && t' == (if rows == 1 then t.(users := t.users[id := t.users[id].(deletedAt := None)]) else t)
  {
    if id in t.users {
      LookupIsTheAccount(t, t.users[id].username, id);
    }
  }

  // ---- Deleting and restoring ----

  function Marked(t: Tables, u: nat, now: int): Tables
    requires u in t.users
  {
    SetUser(t, u, t.users[u].(deletedAt := Some(now)))
  }

  /** The operation neither names u nor wants its username. */
  predicate Unrelated(t: Tables, op: Op, u: nat)
    requires u in t.users
  {
    match op
    case Create(username, _, _) => username != t.users[u].username
    case Undelete(id) => id != u && (id in t.users ==> t.users[id].username != t.users[u].username)
    case Delete(id, _) => id != u
    case Assign(id, _) => id != u
    case Password(id, _) => id != u
  }

  ghost predicate AllUnrelated(t: Tables, ops: seq<Op>, u: nat)
    decreases |ops|
  {
    ops == [] ||
    (AllUnrelated(t, ops[..|ops| - 1], u) &&
     var before := Run(t, ops[..|ops| - 1]); u in before.users && Unrelated(before, ops[|ops| - 1], u))
  }

  lemma {:induction false} SameLookup(t: Tables, u: nat, now: int, username: string, n: nat)
    requires u in t.users && username != t.users[u].username
    ensures FindBelow(Marked(t, u, now), username, n) == FindBelow(t, username, n)
  {
    if n == 0 {
    } else {
      SameLookup(t, u, now, username, n - 1);
    }
  }

  /** Writing another row and marking u deleted commute. */
  lemma MarksCommute(t: Tables, u: nat, now: int, id: nat, row: AdminUser)
    requires u in t.users && id != u
    ensures SetUser(Marked(t, u, now), id, row) == Marked(SetUser(t, id, row), u, now)
  {
    assert SetUser(Marked(t, u, now), id, row).users == Marked(SetUser(t, id, row), u, now).users;
  }

  lemma CreateIsBlind(t: Tables, op: Op, u: nat, now: int)
    requires Consistent(t) && Live(t, u) && op.Create? && Unrelated(t, op, u)
    ensures Live(Apply(t, op).0, u)
    ensures Apply(Marked(t, u, now), op) == (Marked(Apply(t, op).0, u, now), Apply(t, op).1)
  {
    var m, id := Marked(t, u, now), t.nextUser;
    var row := AdminUser(op.username, op.h, None);
    SameLookup(t, u, now, op.username, id);
    MarksCommute(t.(nextUser := id + 1), u, now, id, row);
    var a, b := SetUser(t.(nextUser := id + 1), id, row), SetUser(m.(nextUser := id + 1), id, row);
    assert b == Marked(a, u, now);
    SameErrors(a, b, id, op.roleIds);
  }

  /** Unrelated administration cannot tell whether u is deleted. */
  lemma UnrelatedIsBlind(t: Tables, op: Op, u: nat, now: int)
    requires Consistent(t) && Live(t, u) && Unrelated(t, op, u)
    ensures Live(Apply(t, op).0, u)
    ensures Apply(Marked(t, u, now), op) == (Marked(Apply(t, op).0, u, now), Apply(t, op).1)
  {
    match op
    case Create(_, _, _) => CreateIsBlind(t, op, u, now);
    case Delete(id, at) =>
      if Live(t, id) {
        MarksCommute(t, u, now, id, t.users[id].(deletedAt := Some(at)));
      }
    case Undelete(id) =>
      if id in t.users {
        SameLookup(t, u, now, t.users[id].username, t.nextUser);
        MarksCommute(t, u, now, id, t.users[id].(deletedAt := None));
      }
    case Assign(id, ids) => SameErrors(t, Marked(t, u, now), id, ids);
    case Password(id, h) =>
      if id in t.users {
        MarksCommute(t, u, now, id, t.users[id].(hashedPassword := h));
      }
  }

  lemma {:induction false} BlindRun(t: Tables, ops: seq<Op>, u: nat, now: int)
    requires Consistent(t) && Live(t, u) && AllUnrelated(t, ops, u)
    ensures Live(Run(t, ops), u)
    ensures Run(Marked(t, u, now), ops) == Marked(Run(t, ops), u, now)
  {
    if ops == [] {
    } else {
      var init := ops[..|ops| - 1];
      BlindRun(t, init, u, now);
      RunKeepsConsistent(t, init);
      UnrelatedIsBlind(Run(t, init), ops[|ops| - 1], u, now);
    }
  }

  /** Delete an account, do any unrelated administration, restore it: every table,
      its password and roles included, is as if it had never been deleted. */
  lemma DeleteThenRestore(t: Tables, ops: seq<Op>, u: nat, now: int)
    requires Consistent(t) && Live(t, u) && AllUnrelated(t, ops, u)
    ensures Restore(Run(SoftDelete(t, u, now).0, ops), u) == (Run(t, ops), 1, Nil)
  {
    BlindRun(t, ops, u, now);
    RunKeepsConsistent(t, ops);
    var end := Run(t, ops);
    var gone := Marked(end, u, now);
    assert SoftDelete(t, u, now).0 == Marked(t, u, now);
    assert FindByUsername(gone, end.users[u].username).None? by {
      assert forall id: nat :: Live(gone, id) ==> Live(end, id) && id != u && gone.users[id] == end.users[id];
    }
    assert SetUser(gone, u, gone.users[u].(deletedAt := None)).users == end.users;
  }
}
