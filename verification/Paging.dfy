// The paged listings: int32 offsets, LIMIT/OFFSET, and the loops that build the
// answers.
module Paging {
  import opened Base
  import opened Accounts

  const TWO31: int := 0x8000_0000
  const TWO32: int := 0x1_0000_0000

  /** An int32 result of Go arithmetic. */
  function Wrap32(x: int): int {
    (x + TWO31) % TWO32 - TWO31
  }

  /** (req.PageNum - 1) * req.PageSize, in int32. */
  function PageOffset(pageNum: int, pageSize: int): int {
    Wrap32((pageNum - 1) * pageSize)
  }

  /** LIMIT limit OFFSET offset; a negative offset is an error. */
  function Window<T>(rows: seq<T>, limit: nat, offset: int): Option<seq<T>> {
    if offset < 0 then None
    else Some(rows[Min(offset, |rows|)..Min(offset + limit, |rows|)])
  }

  function ServedPage<T>(rows: seq<T>, pageNum: int, pageSize: nat): Option<seq<T>> {
    Window(rows, pageSize, PageOffset(pageNum, pageSize))
  }

  /** The page a reader expects, in unbounded arithmetic. */
  function TruePage<T>(rows: seq<T>, pageNum: nat, pageSize: nat): seq<T>
    requires pageNum >= 1
  {
    var offset := (pageNum - 1) * pageSize;
    rows[Min(offset, |rows|)..Min(offset + pageSize, |rows|)]
  }

  /** Math.max(1, Math.ceil(total / pageSize)). */
  function TotalPages(total: nat, pageSize: nat): nat
    requires pageSize > 0
  {
    if total == 0 then 1 else (total - 1) / pageSize + 1
  }

  lemma WrapFits(x: int)
    requires x >= 0
    ensures Wrap32(x) == x <==> x < TWO31
    ensures -TWO31 <= Wrap32(x) < TWO31
  {
  }

  lemma OffsetBound(total: nat, pageSize: nat, pageNum: nat)
    requires pageSize > 0 && 1 <= pageNum <= TotalPages(total, pageSize)
    ensures 0 <= (pageNum - 1) * pageSize <= total
    ensures total > 0 ==> (pageNum - 1) * pageSize < total
    ensures pageNum == TotalPages(total, pageSize) ==> total <= pageNum * pageSize
  {
    if total > 0 {
      var q := (total - 1) / pageSize;
      assert q * pageSize <= total - 1 < (q + 1) * pageSize;
      assert (pageNum - 1) * pageSize <= q * pageSize by { MulMonotone(pageSize, pageNum - 1, q); }
    }
  }

  function FirstPages<T>(rows: seq<T>, n: nat, pageSize: nat): seq<T> {
    if n == 0 then [] else FirstPages(rows, n - 1, pageSize) + TruePage(rows, n, pageSize)
  }

  lemma PrefixGrows<T>(rows: seq<T>, x: nat, limit: nat)
    ensures rows[..Min(x, |rows|)] + rows[Min(x, |rows|)..Min(x + limit, |rows|)] == rows[..Min(x + limit, |rows|)]
  {
  }

  lemma OffsetsStep(n: nat, pageSize: nat)
    requires n > 0
    ensures 0 <= (n - 1) * pageSize && n * pageSize == (n - 1) * pageSize + pageSize
  {
  }

  lemma OneMorePage<T>(rows: seq<T>, n: nat, pageSize: nat, x: nat)
    requires n > 0 && x == (n - 1) * pageSize
    ensures rows[..Min(x, |rows|)] + TruePage(rows, n, pageSize) == rows[..Min(x + pageSize, |rows|)]
  {
    PrefixGrows(rows, x, pageSize);
  }

  lemma {:induction false} FirstPagesArePrefix<T>(rows: seq<T>, n: nat, pageSize: nat)
    ensures FirstPages(rows, n, pageSize) == rows[..Min(n * pageSize, |rows|)]
  {
    if n == 0 {
    } else {
      FirstPagesArePrefix(rows, n - 1, pageSize);
      OffsetsStep(n, pageSize);
      OneMorePage(rows, n, pageSize, (n - 1) * pageSize);
    }
  }

  lemma OfferedPage<T>(rows: seq<T>, pageSize: nat, p: nat)
    requires 5 <= pageSize <= 50 && |rows| < 2_147_483_648 && 1 <= p <= TotalPages(|rows|, pageSize)
    ensures ServedPage(rows, p, pageSize) == Some(TruePage(rows, p, pageSize))
    ensures rows != [] ==> TruePage(rows, p, pageSize) != []
  {
    OffsetBound(|rows|, pageSize, p);
    WrapFits((p - 1) * pageSize);
  }

  /** On an unchanging listing the pages offered by the pager, one after the other, are
      the listing, none of their offsets wraps, and none is empty unless the listing is. */
  lemma PagesPartition<T>(rows: seq<T>, pageSize: nat)
    requires 5 <= pageSize <= 50 && |rows| < 2_147_483_648
    ensures FirstPages(rows, TotalPages(|rows|, pageSize), pageSize) == rows
    ensures TotalPages(|rows|, pageSize) >= 1 && (rows == [] ==> TotalPages(|rows|, pageSize) == 1)
    ensures forall p: nat :: 1 <= p <= TotalPages(|rows|, pageSize) ==>
      && ServedPage(rows, p, pageSize) == Some(TruePage(rows, p, pageSize))
      && (rows != [] ==> TruePage(rows, p, pageSize) != [])
  {
    var n := TotalPages(|rows|, pageSize);
    FirstPagesArePrefix(rows, n, pageSize);
    OffsetBound(|rows|, pageSize, n);
    forall p: nat | 1 <= p <= n
      ensures ServedPage(rows, p, pageSize) == Some(TruePage(rows, p, pageSize))
      ensures rows != [] ==> TruePage(rows, p, pageSize) != []
    {
      OfferedPage(rows, pageSize, p);
    }
  }

  lemma WindowTrulyIff<T>(rows: seq<T>, limit: nat, x: nat)
    requires limit > 0 && |rows| < TWO31
    ensures Window(rows, limit, Wrap32(x)) == Some(rows[Min(x, |rows|)..Min(x + limit, |rows|)]) <==>
      x < TWO31 || Wrap32(x) >= |rows|
  {
    WrapFits(x);
    var offset := Wrap32(x);
    if x >= TWO31 {
      assert rows[Min(x, |rows|)..Min(x + limit, |rows|)] == [];
      if 0 <= offset < |rows| {
        assert |Window(rows, limit, offset).value| > 0;
      }
    }
  }

  /** Beyond the pager any page number is accepted; it is answered with the page it
      names exactly when the product fits int32 or happens to wrap to an offset past
      the end.  Otherwise the request fails or shows somebody else's page. */
  lemma ServedTrulyIff<T>(rows: seq<T>, pageNum: nat, pageSize: nat)
    requires 5 <= pageSize <= 50 && 1 <= pageNum && |rows| < 2_147_483_648
    ensures var wrapped := ((pageNum - 1) * pageSize) % 4_294_967_296;
      ServedPage(rows, pageNum, pageSize) == Some(TruePage(rows, pageNum, pageSize)) <==>
        (pageNum - 1) * pageSize < 2_147_483_648 || |rows| <= wrapped < 2_147_483_648
  {
    var x: int := (pageNum - 1) * pageSize;
    WindowTrulyIff(rows, pageSize, x);
  }

  /** For one: page 536870913 at eight per page is page 1. */
  lemma WrappedToFirstPage<T>(rows: seq<T>)
    ensures ServedPage(rows, 536870913, 8) == Some(TruePage(rows, 1, 8))
  {
    assert PageOffset(536870913, 8) == 0;
  }

  // ---- The ordered, filtered listing ----

  predicate Listed(users: map<nat, User>, includeDeleted: bool, id: nat) {
    id in users && (includeDeleted || users[id].deletedAt.None?)
  }

  /** SELECT id ... WHERE ($1 OR deleted_at IS NULL) AND id < n ORDER BY id. */
  function ListedIds(users: map<nat, User>, includeDeleted: bool, n: nat): seq<nat> {
    if n == 0 then []
    else ListedIds(users, includeDeleted, n - 1) + if Listed(users, includeDeleted, n - 1) then [n - 1] else []
  }

  predicate Increasing(ids: seq<nat>) {
    forall i, j :: 0 <= i < j < |ids| ==> ids[i] < ids[j]
  }

  function Matching(users: map<nat, User>, includeDeleted: bool, n: nat): set<nat> {
    set id: nat | id in users && id < n && Listed(users, includeDeleted, id)
  }

  /** The listing holds each matching row once, in id order... */
  lemma {:induction false} ListingIsFilter(users: map<nat, User>, includeDeleted: bool, n: nat)
    ensures forall id: nat :: id in ListedIds(users, includeDeleted, n) <==>
      id < n && id in users && (includeDeleted || users[id].deletedAt == None)
    ensures Increasing(ListedIds(users, includeDeleted, n))
  {
    if n == 0 {
    } else {
      ListingIsFilter(users, includeDeleted, n - 1);
      var before, ids := ListedIds(users, includeDeleted, n - 1), ListedIds(users, includeDeleted, n);
      assert forall i :: 0 <= i < |before| ==> before[i] in before;
      if Listed(users, includeDeleted, n - 1) {
        assert ids == before + [n - 1];
        assert forall i :: 0 <= i < |before| ==> before[i] < n - 1;
      } else {
        assert ids == before;
        assert Increasing(ids);
      }
    }
  }

  /** ...and its length is the count shown beside it. */
  lemma {:induction false} ListingLength(users: map<nat, User>, includeDeleted: bool, n: nat)
    ensures |ListedIds(users, includeDeleted, n)| == |Matching(users, includeDeleted, n)|
  {
    if n == 0 {
      assert Matching(users, includeDeleted, 0) == {};
    } else {
      ListingLength(users, includeDeleted, n - 1);
      var before := Matching(users, includeDeleted, n - 1);
      if Listed(users, includeDeleted, n - 1) {
        assert Matching(users, includeDeleted, n) == before + {n - 1};
      } else {
        assert Matching(users, includeDeleted, n) == before;
      }
    }
  }

  /** Walking the pager over the live users shows every live user exactly once. */
  lemma WalkShowsAll(db: Db, pageSize: nat)
    requires Consistent(db) && 5 <= pageSize <= 50 && CountUsers(db) < 2_147_483_648
    ensures var ids := ListedIds(db.users, false, db.nextUser);
      && |ids| == CountUsers(db)
      && FirstPages(ids, TotalPages(CountUsers(db), pageSize), pageSize) == ids
      && forall id: nat :: id in ids <==> LiveIn(db.users, id)
  {
    var ids := ListedIds(db.users, false, db.nextUser);
    ListingIsFilter(db.users, false, db.nextUser);
    ListingLength(db.users, false, db.nextUser);
    assert LiveUsers(db) == Matching(db.users, false, db.nextUser);
    PagesPartition(ids, pageSize);
  }

  // ---- listAdminUsers: attaching roles ----

  datatype RoleRow = RoleRow(adminUserId: nat, roleId: int, name: string)
  datatype RoleBrief = RoleBrief(id: int, name: string)

  /** The role rows of one account, in order. */
  function RolesFor(rows: seq<RoleRow>, user: nat): seq<RoleBrief> {
    if rows == [] then []
    else
      var last := rows[|rows| - 1];
      RolesFor(rows[..|rows| - 1], user) + if last.adminUserId == user then [RoleBrief(last.roleId, last.name)] else []
  }

  /** In order: listing more rows only adds to the end. */
  lemma {:induction false} RolesForAppends(a: seq<RoleRow>, b: seq<RoleRow>, user: nat)
    ensures RolesFor(a + b, user) == RolesFor(a, user) + RolesFor(b, user)
  {
    if b == [] {
      assert a + b == a;
    } else {
      var last := |b| - 1;
      RolesForAppends(a, b[..last], user);
      assert (a + b)[..|a + b| - 1] == a + b[..last];
    }
  }

  type Groups = map<nat, seq<RoleBrief>>

  function GroupOf(g: Groups, user: nat): seq<RoleBrief> {
    if user in g then g[user] else []
  }

  method GroupRoles(userRoles: seq<RoleRow>) returns (rolesByUser: Groups)
    ensures forall u: nat :: GroupOf(rolesByUser, u) == RolesFor(userRoles, u)
  {
    rolesByUser := map[];
    for i := 0 to |userRoles|
      invariant forall u: nat :: GroupOf(rolesByUser, u) == RolesFor(userRoles[..i], u)
    {
      var ur := userRoles[i];
      assert userRoles[..i + 1][..i] == userRoles[..i] && userRoles[..i + 1][i] == ur;
      ghost var before := rolesByUser;
      rolesByUser :=
        rolesByUser[ur.adminUserId := GroupOf(rolesByUser, ur.adminUserId) + [RoleBrief(ur.roleId, ur.name)]];
      forall u: nat ensures GroupOf(rolesByUser, u) == RolesFor(userRoles[..i + 1], u) {
        assert GroupOf(before, u) == RolesFor(userRoles[..i], u);
      }
    }
    assert userRoles[..|userRoles|] == userRoles;
  }

  /** Gives each listed account its own role rows, in order; none means an empty list. */
  method AttachRoles(users: seq<nat>, userRoles: seq<RoleRow>) returns (list: seq<(nat, seq<RoleBrief>)>)
    ensures |list| == |users|
    ensures forall i :: 0 <= i < |users| ==> list[i] == (users[i], RolesFor(userRoles, users[i]))
  {
    var rolesByUser := GroupRoles(userRoles);
    list := [];
    for i := 0 to |users|
      invariant |list| == i
      invariant forall j :: 0 <= j < i ==> list[j] == (users[j], RolesFor(userRoles, users[j]))
    {
      list := list + [(users[i], GroupOf(rolesByUser, users[i]))];
    }
  }

  /** A role row appears under an account exactly when it is that account's. */
  lemma {:induction false} RolesForIs(rows: seq<RoleRow>, user: nat, b: RoleBrief)
    ensures b in RolesFor(rows, user) <==> RoleRow(user, b.id, b.name) in rows
  {
    if rows == [] {
    } else {
      var init := rows[..|rows| - 1];
      RolesForIs(init, user, b);
      assert rows == init + [rows[|rows| - 1]];
    }
  }
}
