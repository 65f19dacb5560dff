// The store's admin-account queries and its two role transactions, statement by
// statement.  A statement given as failing loses its connection and has no effect.
module AdminStore {
  import opened Base
  import opened AdminTables

  /** What the insert loop reports when the connection is lost at its statement `lost`:
      an earlier error if there is one. */
  function LoopError(t: Tables, user: nat, ids: seq<int>, lost: Option<nat>): TxError {
    if lost.None? || lost.value >= |ids| then InsertError(t, user, ids)
    else
      var earlier := InsertError(t, user, ids[..lost.value]);
      if earlier == Nil then Connection else earlier
  }

  /** What a whole role transaction reports: statement 0 comes before the loop, |ids| + 1
      is the COMMIT. */
  function TxErrorOf(t: Tables, user: nat, ids: seq<int>, lost: Option<nat>): TxError {
    if lost == Some(0) then Connection
    else
      var err := LoopError(t, user, ids, if lost.Some? then Some(lost.value - 1) else None);
      if err == Nil && lost == Some(|ids| + 1) then Connection else err
  }

  /** The new account's row in place, its roles still to come. */
  function Inserted(t: Tables, username: string, h: Hashed): Tables {
    SetUser(t.(nextUser := t.nextUser + 1), t.nextUser, AdminUser(username, h, None))
  }

  /** An error met among the first n ids is the error of the whole list. */
  lemma {:induction false} ErrorStays(t: Tables, user: nat, ids: seq<int>, n: nat)
    requires n <= |ids| && InsertError(t, user, ids[..n]) != Nil
    ensures InsertError(t, user, ids) == InsertError(t, user, ids[..n])
    decreases |ids|
  {
    if n == |ids| {
      assert ids[..n] == ids;
    } else {
      var init := ids[..|ids| - 1];
      assert init[..n] == ids[..n];
      ErrorStays(t, user, init, n);
    }
  }

  /** Nothing before index n is an obstacle to the inserts. */
  predicate ClearUpTo(t: Tables, user: nat, ids: seq<int>, n: int)
    requires 0 <= n <= |ids|
  {
    forall k :: 0 <= k < n ==> user in t.users && ids[k] in t.roles && ids[k] !in ids[..k]
  }

  lemma ClearIff(t: Tables, user: nat, ids: seq<int>, n: nat)
    requires n <= |ids|
    ensures InsertError(t, user, ids[..n]) == Nil <==> ClearUpTo(t, user, ids, n)
  {
    var init := ids[..n];
    forall k | 0 <= k < n ensures init[k] == ids[k] && init[..k] == ids[..k] { }
    if ClearUpTo(t, user, ids, n) {
      assert forall k: nat :: k < n ==> !Offends(t, user, init, k);
      NoOffenceNoError(t, user, init);
    } else {
      var k: nat :| k < n && !(user in t.users && ids[k] in t.roles && ids[k] !in ids[..k]);
      assert Offends(t, user, init, k);
      var i := SomeFirstOffence(t, user, init, k);
      FirstOffenceDecides(t, user, init, i);
    }
  }

  /** A role transaction is reported as committed exactly when every role can be inserted
      and no statement is lost; a lost statement is what is reported exactly when nothing
      before it is an obstacle. */
  lemma TxErrorIff(t: Tables, user: nat, ids: seq<int>, lost: Option<nat>)
    ensures TxErrorOf(t, user, ids, lost) == Nil <==>
      ClearUpTo(t, user, ids, |ids|) && (lost.None? || lost.value > |ids| + 1)
    ensures TxErrorOf(t, user, ids, lost) == Connection <==>
      && lost.Some? && lost.value <= |ids| + 1
      && ClearUpTo(t, user, ids, if lost.value == 0 then 0 else lost.value - 1)
  {
    assert ids[..|ids|] == ids;
    ClearIff(t, user, ids, |ids|);
    if lost.Some? && 0 < lost.value <= |ids| + 1 {
      ClearIff(t, user, ids, lost.value - 1);
    }
  }

  class Store {
    var tables: Tables
    var working: Tables    // the open transaction's view

    constructor (t: Tables)
      ensures tables == t
    {
      tables, working := t, t;
    }

    // ---- Single statements ----

    method GetAdminUser(id: nat) returns (user: Option<AdminUser>)
      ensures user.Some? <==> Live(tables, id)
      ensures user.Some? ==> user.value == tables.users[id]
    {
      if id in tables.users && tables.users[id].deletedAt.None? {
        return Some(tables.users[id]);
      }
      return None;
    }

    method GetAdminUserByUsername(username: string) returns (id: Option<nat>)
      ensures id == FindByUsername(tables, username)
    {
      id := FindByUsername(tables, username);
    }

    method SoftDeleteAdminUser(id: nat, now: int) returns (rows: nat)
      modifies this`tables
      ensures (tables, rows) == SoftDelete(old(tables), id, now)
      ensures rows == if id in old(tables).users && old(tables).users[id].deletedAt == None then 1 else 0
    {
      if id in tables.users && tables.users[id].deletedAt.None? {
        tables := tables.(users := tables.users[id := tables.users[id].(deletedAt := Some(now))]);
        return 1;
      }
      return 0;
    }

    method RestoreAdminUser(id: nat) returns (rows: nat, err: TxError)
      modifies this`tables
      ensures (tables, rows, err) == Restore(old(tables), id)
      ensures rows == 0 && err == Nil <==> id !in old(tables).users || old(tables).users[id].deletedAt == None
      ensures err != Nil ==> err == DuplicateKey && rows == 0
    {
      if id !in tables.users || tables.users[id].deletedAt.None? {
        return 0, Nil;
      }
      if FindByUsername(tables, tables.users[id].username).Some? {
        return 0, DuplicateKey;
      }
      tables := tables.(users := tables.users[id := tables.users[id].(deletedAt := None)]);
      return 1, Nil;
    }

    method UpdateAdminUserPassword(id: nat, h: Hashed)
      modifies this`tables
      ensures tables == UpdatePassword(old(tables), id, h)
    {
      if id in tables.users {
        tables := tables.(users := tables.users[id := tables.users[id].(hashedPassword := h)]);
      }
    }

    // ---- Statements inside a transaction ----

    method DeleteAdminUserRoles(user: nat, fails: bool) returns (err: TxError)
      modifies this`working
      ensures err == if fails then Connection else Nil
      ensures working == if fails then old(working) else WithRoles(old(working), user, [])
    {
      if fails {
        return Connection;
      }
      working := working.(grants := set g | g in working.grants && g.0 != user);
      assert working.grants == WithRoles(old(working), user, []).grants;
      return Nil;
    }

    method CreateAdminUserRole(user: nat, role: int, fails: bool) returns (err: TxError)
      modifies this`working
      ensures err == if fails then Connection
                     else if (user, role) in old(working).grants then DuplicateKey
                     else if user !in old(working).users || role !in old(working).roles then ForeignKey
                     else Nil
      ensures working == if err == Nil then old(working).(grants := old(working).grants + {(user, role)})
        else old(working)
    {
      if fails {
        return Connection;
      }
      if (user, role) in working.grants {
        return DuplicateKey;
      }
      if user !in working.users || role !in working.roles {
        return ForeignKey;
      }
      working := working.(grants := working.grants + {(user, role)});
      return Nil;
    }

    method CreateAdminUser(username: string, h: Hashed, fails: bool) returns (id: nat, err: TxError)
      modifies this`working
      ensures id == old(working).nextUser
      ensures err == if fails then Connection
                     else if FindByUsername(old(working), username).Some? then DuplicateKey
                     else Nil
      ensures fails ==> working == old(working)
      ensures err == DuplicateKey ==> working == old(working).(nextUser := id + 1)
      ensures err == Nil ==> working == SetUser(old(working).(nextUser := id + 1), id, AdminUser(username, h, None))
    {
      id := working.nextUser;
      if fails {
        return id, Connection;
      }
      var taken := FindByUsername(working, username);
      working := working.(nextUser := id + 1);
      if taken.Some? {
        return id, DuplicateKey;
      }
      working := working.(users := working.users[id := AdminUser(username, h, None)]);
      return id, Nil;
    }

    method Rollback()
      modifies this`tables
      ensures tables == old(tables).(nextUser := working.nextUser)
    {
      tables := tables.(nextUser := working.nextUser);
    }

    /** The loop both role transactions run: insert the ids in order, stop at the
        first error. */
    method InsertRoles(user: nat, ids: seq<int>, lost: Option<nat>) returns (err: TxError)
      requires forall g :: g in working.grants ==> g.0 != user
      modifies this`working
      ensures err == LoopError(old(working), user, ids, lost)
      ensures err == Nil ==>
        InsertError(old(working), user, ids) == Nil && working == WithRoles(old(working), user, ids)
      ensures working.nextUser == old(working).nextUser
    {
      ghost var before := working;
      assert working == WithRoles(before, user, []) by {
        assert working.grants == WithRoles(before, user, []).grants;
      }
      assert ids[..0] == [];
      for i := 0 to |ids|
        invariant working == WithRoles(before, user, ids[..i])
        invariant InsertError(before, user, ids[..i]) == Nil
        invariant lost.Some? ==> i <= lost.value
      {
        assert ids[..i + 1][..i] == ids[..i] && ids[..i + 1][i] == ids[i];
        err := CreateAdminUserRole(user, ids[i], lost == Some(i));
        if err != Nil {
          if lost != Some(i) {
            assert InsertError(before, user, ids[..i + 1]) == err;
            ErrorStays(before, user, ids, i + 1);
            if lost.Some? && lost.value < |ids| {
              assert ids[..lost.value][..i + 1] == ids[..i + 1];
              ErrorStays(before, user, ids[..lost.value], i + 1);
            }
          }
          return;
        }
        assert working.grants == WithRoles(before, user, ids[..i + 1]).grants;
      }
      assert ids[..|ids|] == ids;
      err := Nil;
    }

    // ---- The transactions ----

    /** Whole-set replacement.  `lost` is the statement, counted from the DELETE,
        whose connection fails; |ids| + 1 is the COMMIT. */
    method UpdateAdminUserRolesTx(user: nat, ids: seq<int>, lost: Option<nat>) returns (err: TxError)
      modifies this
      ensures lost.None? ==> (tables, err) == ReplaceRoles(old(tables), user, ids)
      ensures err == TxErrorOf(old(tables), user, ids, lost)
      ensures err == Nil ==> tables == WithRoles(old(tables), user, ids)
      ensures err != Nil ==> tables == old(tables)
    {
      working := tables;
      err := DeleteAdminUserRoles(user, lost == Some(0));
      if err == Nil {
        ghost var cleared := working;
        err := InsertRoles(user, ids, if lost.Some? && lost.value > 0 then Some(lost.value - 1) else None);
        SameErrors(old(tables), cleared, user, ids);
        if lost.Some? && 0 < lost.value <= |ids| {
          SameErrors(old(tables), cleared, user, ids[..lost.value - 1]);
        }
        assert WithRoles(cleared, user, ids).grants == WithRoles(old(tables), user, ids).grants;
      }
      if err != Nil {
        Rollback();
        return;
      }
      if lost == Some(|ids| + 1) {
        return Connection;
      }
      tables := working;
    }

    /** Account and roles together.  Statement 0 is the user INSERT, |ids| + 1 the COMMIT. */
    method CreateAdminUserTx(username: string, h: Hashed, ids: seq<int>, lost: Option<nat>)
      returns (id: nat, err: TxError)
      requires Consistent(tables)
      modifies this
      ensures lost.None? ==> (tables, id, err) == CreateAdmin(old(tables), username, h, ids)
      ensures err == if lost == Some(0) then Connection
                     else if FindByUsername(old(tables), username).Some? then DuplicateKey
                     else TxErrorOf(Inserted(old(tables), username, h), id, ids, lost)
      ensures err != Nil ==> tables == old(tables).(nextUser := tables.nextUser)
      ensures lost == Some(0) ==> tables == old(tables)
    {
      working := tables;
      id, err := CreateAdminUser(username, h, lost == Some(0));
      if err == Nil {
        assert forall g :: g in working.grants ==> g.0 != id;
        err := InsertRoles(id, ids, if lost.Some? && lost.value > 0 then Some(lost.value - 1) else None);
      }
      if err != Nil {
        Rollback();
        return;
      }
      if lost == Some(|ids| + 1) {
        Rollback();
        return id, Connection;
      }
      tables := working;
    }
  }
}
