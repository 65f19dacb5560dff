// Back-office accounts, roles and permissions: the rows, the constraints on them
// and what the statements do.
module AdminTables {
  import opened Base

  /** A bcrypt hash, reduced to what CheckPassword can tell about it. */
  datatype Hashed = Hashed(password: string)

  datatype AdminUser = AdminUser(username: string, hashedPassword: Hashed, deletedAt: Option<int>)

  datatype Permission = Permission(id: int, code: string)

  /** admin_users with its sequence, role ids, admin_user_roles, role_permissions,
      and the permissions listed in code order. */
  datatype Tables = Tables(users: map<nat, AdminUser>, nextUser: nat, roles: set<int>, grants: set<(nat, int)>,
                           rolePermissions: set<(int, int)>, permissions: seq<Permission>)

  datatype TxError = Nil | DuplicateKey | ForeignKey | Connection

  // ---- admin_user.sql ----

  predicate Live(t: Tables, id: nat) {
    id in t.users && t.users[id].deletedAt.None?
  }

  /** SELECT ... WHERE username = $1 AND deleted_at IS NULL LIMIT 1, over ids below n. */
  function FindBelow(t: Tables, username: string, n: nat): (r: Option<nat>)
    ensures r.Some? ==> r.value < n && Live(t, r.value) && t.users[r.value].username == username
    ensures r.None? ==> forall id: nat :: id < n && Live(t, id) ==> t.users[id].username != username
  {
    if n == 0 then None
    else if Live(t, n - 1) && t.users[n - 1].username == username then Some(n - 1)
    else FindBelow(t, username, n - 1)
  }

  function FindByUsername(t: Tables, username: string): Option<nat> {
    FindBelow(t, username, t.nextUser)
  }

  function SetUser(t: Tables, id: nat, user: AdminUser): Tables {
    t.(users := t.users[id := user])
  }

  /** Rows affected: 1 if a live row got its timestamp, else 0. */
  function SoftDelete(t: Tables, id: nat, now: int): (Tables, nat) {
    if Live(t, id) then (SetUser(t, id, t.users[id].(deletedAt := Some(now))), 1) else (t, 0)
  }

  function Restore(t: Tables, id: nat): (Tables, nat, TxError) {
    if id !in t.users || t.users[id].deletedAt.None? then (t, 0, Nil)
    else if FindByUsername(t, t.users[id].username).Some? then (t, 0, DuplicateKey)
    else (SetUser(t, id, t.users[id].(deletedAt := None)), 1, Nil)
  }

  function UpdatePassword(t: Tables, id: nat, h: Hashed): Tables {
    if id in t.users then SetUser(t, id, t.users[id].(hashedPassword := h)) else t
  }

  ghost predicate Consistent(t: Tables) {
    && (forall id :: id in t.users ==> id < t.nextUser)
    && (forall i, j ::
      i in t.users && j in t.users && i != j && t.users[i].deletedAt.None? && t.users[j].deletedAt.None? ==>
         t.users[i].username != t.users[j].username)
    && (forall g :: g in t.grants ==> g.0 in t.users && g.1 in t.roles)
  }

  // ---- Whole-set role assignment ----

  /** What inserting (user, ids[0]), (user, ids[1]), ... for a user without roles
      runs into first.  The primary key is checked before the foreign keys. */
  function InsertError(t: Tables, user: nat, ids: seq<int>): (err: TxError)
    ensures err != Connection
  {
    if ids == [] then Nil
    else
      var last := |ids| - 1;
      var earlier := InsertError(t, user, ids[..last]);
      if earlier != Nil then earlier
      else if ids[last] in ids[..last] then DuplicateKey
      else if user !in t.users || ids[last] !in t.roles then ForeignKey
      else Nil
  }

  function RolesOf(t: Tables, user: nat): set<int> {
    set g | g in t.grants && g.0 == user :: g.1
  }

  function WithRoles(t: Tables, user: nat, ids: seq<int>): Tables {
    t.(grants := (set g | g in t.grants && g.0 != user) + (set r | r in ids :: (user, r)))
  }

  /** UpdateAdminUserRolesTx. */
  function ReplaceRoles(t: Tables, user: nat, ids: seq<int>): (Tables, TxError) {
    var err := InsertError(t, user, ids);
    if err == Nil then (WithRoles(t, user, ids), Nil) else (t, err)
  }

  /** CreateAdminUserTx: the new row's id is drawn even when the insert fails. */
  function CreateAdmin(t: Tables, username: string, h: Hashed, ids: seq<int>): (Tables, nat, TxError) {
    var drawn := t.(nextUser := t.nextUser + 1);
    if FindByUsername(t, username).Some? then (drawn, t.nextUser, DuplicateKey)
    else
      var inserted := SetUser(drawn, t.nextUser, AdminUser(username, h, None));
      var err := InsertError(inserted, t.nextUser, ids);
      if err == Nil then (WithRoles(inserted, t.nextUser, ids), t.nextUser, Nil) else (drawn, t.nextUser, err)
  }

  predicate Distinct(ids: seq<int>) {
    forall i, j :: 0 <= i < j < |ids| ==> ids[i] != ids[j]
  }

  /** Index i cannot be inserted after the ones before it. */
  predicate Offends(t: Tables, user: nat, ids: seq<int>, i: nat)
    requires i < |ids|
  {
    ids[i] in ids[..i] || user !in t.users || ids[i] !in t.roles
  }

  ghost predicate FirstOffence(t: Tables, user: nat, ids: seq<int>, i: nat)
    requires i < |ids|
  {
    Offends(t, user, ids, i) && forall k: nat :: k < i ==> !Offends(t, user, ids, k)
  }

  lemma OffenceOfInit(t: Tables, user: nat, ids: seq<int>, init: seq<int>)
    requires ids != [] && init == ids[..|ids| - 1]
    ensures forall k: nat :: k < |init| ==> Offends(t, user, init, k) == Offends(t, user, ids, k)
  {
    forall k: nat | k < |init| ensures Offends(t, user, init, k) == Offends(t, user, ids, k) {
      assert init[..k] == ids[..k];
    }
  }

  lemma {:induction false} NoOffenceNoError(t: Tables, user: nat, ids: seq<int>)
    requires forall i: nat :: i < |ids| ==> !Offends(t, user, ids, i)
    ensures InsertError(t, user, ids) == Nil
  {
    if ids == [] {
    } else {
      OffenceOfInit(t, user, ids, ids[..|ids| - 1]);
      NoOffenceNoError(t, user, ids[..|ids| - 1]);
      assert !Offends(t, user, ids, |ids| - 1);
    }
  }

  /** The first offending index decides between duplicate key and foreign key. */
  lemma {:induction false} FirstOffenceDecides(t: Tables, user: nat, ids: seq<int>, i: nat)
    requires i < |ids| && FirstOffence(t, user, ids, i)
    ensures InsertError(t, user, ids) == if ids[i] in ids[..i] then DuplicateKey else ForeignKey
  {
    var last := |ids| - 1;
    var init := ids[..last];
    OffenceOfInit(t, user, ids, init);
    if i < last {
      assert init[..i] == ids[..i];
      FirstOffenceDecides(t, user, init, i);
    } else {
      NoOffenceNoError(t, user, init);
    }
  }

  lemma {:induction false} NoErrorNoOffence(t: Tables, user: nat, ids: seq<int>)
    requires InsertError(t, user, ids) == Nil
    ensures Distinct(ids) && (forall i :: 0 <= i < |ids| ==> ids[i] in t.roles) && (ids != [] ==> user in t.users)
  {
    if ids == [] {
    } else {
      var init := ids[..|ids| - 1];
      NoErrorNoOffence(t, user, init);
      assert forall k :: 0 <= k < |init| ==> init[k] == ids[k];
      assert forall k :: 0 <= k < |init| ==> ids[k] in init;
    }
  }

  /** The inserts all succeed exactly for distinct, existing roles of an existing user. */
  lemma {:induction false} InsertableIff(t: Tables, user: nat, ids: seq<int>)
    ensures InsertError(t, user, ids) == Nil <==>
      Distinct(ids) && (forall i :: 0 <= i < |ids| ==> ids[i] in t.roles) && (ids != [] ==> user in t.users)
  {
    if InsertError(t, user, ids) == Nil {
      NoErrorNoOffence(t, user, ids);
    } else if Distinct(ids) && (forall i :: 0 <= i < |ids| ==> ids[i] in t.roles) && (ids != [] ==> user in t.users) {
      assert forall i, k :: 0 <= k < i < |ids| ==> ids[..i][k] == ids[k];
      assert forall i: nat :: i < |ids| ==> !Offends(t, user, ids, i);
      NoOffenceNoError(t, user, ids);
    }
  }

  /** Only which users and roles exist matters to the inserts. */
  lemma {:induction false} SameErrors(a: Tables, b: Tables, user: nat, ids: seq<int>)
    requires a.users.Keys == b.users.Keys && a.roles == b.roles
    ensures InsertError(a, user, ids) == InsertError(b, user, ids)
  {
    if ids == [] {
    } else {
      SameErrors(a, b, user, ids[..|ids| - 1]);
    }
  }

  /** Role replacement: all or nothing, and nobody else's roles move. */
  lemma ReplaceRolesEffect(t: Tables, user: nat, ids: seq<int>)
    requires user in t.users
    ensures ReplaceRoles(t, user, ids).1 == Nil <==> Distinct(ids) && forall i :: 0 <= i < |ids| ==> ids[i] in t.roles
    ensures ReplaceRoles(t, user, ids).1 == Nil ==> RolesOf(ReplaceRoles(t, user, ids).0, user) == set r | r in ids
    ensures ReplaceRoles(t, user, ids).1 != Nil ==> ReplaceRoles(t, user, ids).0 == t
    ensures forall other: nat :: other != user ==> RolesOf(ReplaceRoles(t, user, ids).0, other) == RolesOf(t, other)
    ensures Consistent(t) ==> Consistent(ReplaceRoles(t, user, ids).0)
  {
    InsertableIff(t, user, ids);
    var t' := ReplaceRoles(t, user, ids).0;
    if ReplaceRoles(t, user, ids).1 == Nil {
      forall r ensures r in RolesOf(t', user) <==> r in ids {
        if r in ids { assert (user, r) in t'.grants; }
      }
      forall other: nat | other != user ensures RolesOf(t', other) == RolesOf(t, other) {
        forall r ensures r in RolesOf(t', other) <==> r in RolesOf(t, other) {
          assert (other, r) in t'.grants <==> (other, r) in t.grants;
        }
      }
    }
  }

  predicate NameFree(t: Tables, username: string) {
    forall u :: u in t.users && t.users[u].deletedAt.None? ==> t.users[u].username != username
  }

  /** Account creation: the username must be free among live rows and the roles
      insertable; then exactly one row and exactly those roles appear. */
  lemma CreateAdminEffect(t: Tables, username: string, h: Hashed, ids: seq<int>)
    requires Consistent(t)
    ensures var (t', id, err) := CreateAdmin(t, username, h, ids);
      && Consistent(t')
      && (err == Nil <==> NameFree(t, username) && Distinct(ids) && forall i :: 0 <= i < |ids| ==> ids[i] in t.roles)
      && (err == Nil ==> id !in t.users && t'.users == t.users[id := AdminUser(username, h, None)])
      && (err == Nil ==> RolesOf(t', id) == set r | r in ids)
      && (err != Nil ==> t' == t.(nextUser := t.nextUser + 1))
      && forall other: nat :: other in t.users ==> RolesOf(t', other) == RolesOf(t, other)
  {
    var drawn := t.(nextUser := t.nextUser + 1);
    assert forall other: nat :: RolesOf(drawn, other) == RolesOf(t, other);
    if FindByUsername(t, username).None? {
      var inserted := SetUser(drawn, t.nextUser, AdminUser(username, h, None));
      assert forall other: nat :: RolesOf(inserted, other) == RolesOf(t, other);
      InsertableIff(inserted, t.nextUser, ids);
      ReplaceRolesEffect(inserted, t.nextUser, ids);
      assert Consistent(inserted);
    }
  }

  predicate Insertable(t: Tables, ids: seq<int>, n: int)
    requires 0 <= n <= |ids|
  {
    forall k :: 0 <= k < n ==> ids[k] in t.roles && ids[k] !in ids[..k]
  }

  /** A repeated id comes before any id that does not exist. */
  ghost predicate RepeatsFirst(t: Tables, ids: seq<int>) {
    exists i :: 0 <= i < |ids| && ids[i] in ids[..i] && Insertable(t, ids, i)
  }

  lemma {:induction false} SomeFirstOffence(t: Tables, user: nat, ids: seq<int>, n: nat) returns (i: nat)
    requires n < |ids| && Offends(t, user, ids, n)
    ensures i <= n && FirstOffence(t, user, ids, i)
    decreases n
  {
    i := n;
    if k: nat :| k < n && Offends(t, user, ids, k) {
      i := SomeFirstOffence(t, user, ids, k);
    }
  }

  lemma DuplicateIff(t: Tables, user: nat, ids: seq<int>)
    requires user in t.users
    ensures InsertError(t, user, ids) == DuplicateKey <==> RepeatsFirst(t, ids)
  {
    if InsertError(t, user, ids) != Nil {
      if forall i: nat :: i < |ids| ==> !Offends(t, user, ids, i) {
        NoOffenceNoError(t, user, ids);
      }
      var n: nat :| n < |ids| && Offends(t, user, ids, n);
      var i := SomeFirstOffence(t, user, ids, n);
      FirstOffenceDecides(t, user, ids, i);
      forall k | 0 <= k < i ensures ids[k] in t.roles && ids[k] !in ids[..k] {
        assert !Offends(t, user, ids, k);
      }
      assert Insertable(t, ids, i);
    }
    if i :| 0 <= i < |ids| && ids[i] in ids[..i] && Insertable(t, ids, i) {
      assert FirstOffence(t, user, ids, i);
      FirstOffenceDecides(t, user, ids, i);
    }
  }

  /** Creation is answered as a duplicate, which the handler reports as "user exists",
      exactly when the name is taken or a role id is repeated before any unknown one. */
  lemma CreateAdminDuplicateIff(t: Tables, username: string, h: Hashed, ids: seq<int>)
    requires Consistent(t)
    ensures CreateAdmin(t, username, h, ids).2 == DuplicateKey <==> !NameFree(t, username) || RepeatsFirst(t, ids)
  {
    var inserted := SetUser(t.(nextUser := t.nextUser + 1), t.nextUser, AdminUser(username, h, None));
    DuplicateIff(inserted, t.nextUser, ids);
    assert RepeatsFirst(inserted, ids) <==> RepeatsFirst(t, ids);
  }

  // ---- Permissions ----

  const WILDCARD := "*"

  predicate Granted(t: Tables, user: nat, permission: int) {
    exists r :: r in t.roles && (user, r) in t.grants && (r, permission) in t.rolePermissions
  }

  function CodesAmong(t: Tables, user: nat, ps: seq<Permission>): seq<string> {
    if ps == [] then []
    else CodesAmong(t, user, ps[..|ps| - 1]) +
         if Granted(t, user, ps[|ps| - 1].id) then [ps[|ps| - 1].code] else []
  }

  /** SELECT DISTINCT p.code ... three-table join for one account, in code order. */
  function PermissionCodes(t: Tables, user: nat): seq<string> {
    CodesAmong(t, user, t.permissions)
  }

  lemma {:induction false} CodesAreTheJoin(t: Tables, user: nat, ps: seq<Permission>, code: string)
    ensures code in CodesAmong(t, user, ps) <==>
      exists i :: 0 <= i < |ps| && ps[i].code == code && Granted(t, user, ps[i].id)
  {
    if ps == [] {
    } else {
      var init := ps[..|ps| - 1];
      CodesAreTheJoin(t, user, init, code);
      assert forall i :: 0 <= i < |init| ==> init[i] == ps[i];
    }
  }

  /** Listed in `ps` at an earlier place. */
  predicate Precedes(ps: seq<Permission>, a: string, b: string) {
    exists p, q :: 0 <= p < q < |ps| && ps[p].code == a && ps[q].code == b
  }

  lemma PrecedesStill(ps: seq<Permission>, init: seq<Permission>, a: string, b: string)
    requires |init| <= |ps| && init == ps[..|init|] && Precedes(init, a, b)
    ensures Precedes(ps, a, b)
  {
    var p, q :| 0 <= p < q < |init| && init[p].code == a && init[q].code == b;
    assert ps[p].code == a && ps[q].code == b;
  }

  ghost predicate InOrder(ps: seq<Permission>, codes: seq<string>) {
    forall i, j :: 0 <= i < j < |codes| ==> Precedes(ps, codes[i], codes[j])
  }

  /** ORDER BY: codes come in the order of the listing, so none twice if it has none twice. */
  lemma {:induction false} CodesInOrder(t: Tables, user: nat, ps: seq<Permission>)
    ensures InOrder(ps, CodesAmong(t, user, ps))
  {
    if ps == [] {
    } else {
      var init, last := ps[..|ps| - 1], ps[|ps| - 1];
      var before, codes := CodesAmong(t, user, init), CodesAmong(t, user, ps);
      CodesInOrder(t, user, init);
      forall i, j | 0 <= i < j < |codes| ensures Precedes(ps, codes[i], codes[j]) {
        assert codes[i] == before[i] && before[i] in before;
        if j < |before| {
          assert Precedes(init, before[i], before[j]) && codes[j] == before[j];
          PrecedesStill(ps, init, codes[i], codes[j]);
        } else {
          CodesAreTheJoin(t, user, init, codes[i]);
          var p :| 0 <= p < |init| && init[p].code == codes[i];
          assert ps[p].code == codes[i] && last.code == codes[j];
        }
      }
    }
  }

  /** May a session holding these codes do what needs `code`? */
  predicate Allows(permissions: seq<string>, code: string) {
    WILDCARD in permissions || code in permissions
  }

  method HasPermission(permissions: seq<string>, code: string) returns (has: bool)
    ensures has == Allows(permissions, code)
  {
    for i := 0 to |permissions|
      invariant forall k :: 0 <= k < i ==> permissions[k] != WILDCARD && permissions[k] != code
    {
      if permissions[i] == WILDCARD || permissions[i] == code {
        return true;
      }
    }
    return false;
  }
}
