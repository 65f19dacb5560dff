// The Redis cache: keys with values and optional deadlines under one clock.
module Cache {
  import opened Base

  /** AuthUser, as stored under its session key. */
  datatype AuthUser = AuthUser(userId: nat, username: string, permissions: seq<string>)

  datatype Key = Session(token: string) | AdminSession(userId: nat) | LoginFail(username: string)

  datatype Value = Payload(user: AuthUser) | Token(token: string) | Count(n: int)

  datatype Item = Item(value: Value, deadline: Option<int>)

  type Entries = map<Key, Item>

  // ---- Key texts ----

  function Digit(d: nat): char
    requires d < 10
  {
    "0123456789"[d]
  }

  /** strconv.FormatInt(n, 10). */
  function Decimal(n: nat): (s: string)
    ensures |s| > 0
  {
    if n < 10 then [Digit(n)] else Decimal(n / 10) + [Digit(n % 10)]
  }

  function KeyText(k: Key): string {
    match k
    case Session(token) => "session:" + token
    case AdminSession(id) => "admin_session:" + Decimal(id)
    case LoginFail(username) => "login_fail:" + username
  }

  predicate AllDigits(s: string) {
    forall i :: 0 <= i < |s| ==> '0' <= s[i] <= '9'
  }

  /** The number a string of decimal digits denotes. */
  function NumberIn(s: string): nat
    requires AllDigits(s)
  {
    if s == "" then 0 else NumberIn(s[..|s| - 1]) * 10 + (s[|s| - 1] as int - '0' as int)
  }

  lemma {:induction false} DecimalReads(n: nat)
    ensures AllDigits(Decimal(n)) && NumberIn(Decimal(n)) == n
  {
    if n < 10 {
      assert Decimal(n)[..0] == "";
    } else {
      DecimalReads(n / 10);
      assert Decimal(n)[..|Decimal(n)| - 1] == Decimal(n / 10);
    }
  }

  /** Different keys never share a Redis key, so the typed keys lose nothing. */
  lemma KeyTextInjective(a: Key, b: Key)
    requires KeyText(a) == KeyText(b)
    ensures a == b
  {
    assert KeyText(a)[0] == KeyText(b)[0];
    match a
    case Session(token) =>
      assert KeyText(a)[8..] == token && KeyText(b)[8..] == b.token;
    case AdminSession(id) =>
      assert KeyText(a)[14..] == Decimal(id) && KeyText(b)[14..] == Decimal(b.userId);
      DecimalReads(id);
      DecimalReads(b.userId);
    case LoginFail(username) =>
      assert KeyText(a)[11..] == username && KeyText(b)[11..] == b.username;
  }

  // ---- What the commands do ----

  predicate Live(c: Entries, now: int, k: Key) {
    k in c && (c[k].deadline.Some? ==> now < c[k].deadline.value)
  }

  /** SET with an expiration; a ttl of zero means none. */
  function SetTo(c: Entries, now: int, k: Key, v: Value, ttl: int): Entries {
    c[k := Item(v, if ttl > 0 then Some(now + ttl) else None)]
  }

  /** EXPIRE: nothing on a missing key, deletion for a ttl that is not positive. */
  function ExpireIn(c: Entries, now: int, k: Key, ttl: int): Entries {
    if !Live(c, now, k) then c
    else if ttl <= 0 then c - {k}
    else c[k := c[k].(deadline := Some(now + ttl))]
  }

  /** INCR: a missing key counts from zero and gets no deadline, a live one keeps
      its deadline, a value that is no integer is an error. */
  function IncrOf(c: Entries, now: int, k: Key): (Entries, Option<int>) {
    if !Live(c, now, k) then (c[k := Item(Count(1), None)], Some(1))
    else if c[k].value.Count? then (c[k := c[k].(value := Count(c[k].value.n + 1))], Some(c[k].value.n + 1))
    else (c, None)
  }

  datatype Got = Found(value: Value) | NotFound | Unreachable

  function GetOf(c: Entries, now: int, k: Key): Got {
    if Live(c, now, k) then Found(c[k].value) else NotFound
  }

  /** What may happen to a call: it succeeds, it is lost on the way, or it takes
      effect and is still reported as failed. */
  datatype Fault = Fine | Lost | Late

  /** Incr as a whole: the count, or None for an error.  Only an INCR that is answered,
      with 1, is followed by the EXPIRE that gives the count a deadline. */
  function IncrThenExpire(c: Entries, now: int, k: Key, ttl: int, incr: Fault, expire: Fault): (Entries, Option<int>) {
    if incr == Lost then (c, None)
    else
      var (c', n) := IncrOf(c, now, k);
      if incr == Late then (c', None)
      else if n != Some(1) then (c', n)
      else (if expire == Lost then c' else ExpireIn(c', now, k, ttl), if expire == Fine then n else None)
  }

  // ---- What a later GET finds ----

  /** After SET the value, until the ttl is up, or for ever for a ttl of zero. */
  lemma SetThenGet(c: Entries, now: int, k: Key, v: Value, ttl: nat, later: int)
    requires now <= later
    ensures GetOf(SetTo(c, now, k, v, ttl), later, k) == if ttl > 0 && later >= now + ttl then NotFound else Found(v)
    ensures forall j :: j != k ==> GetOf(SetTo(c, now, k, v, ttl), later, j) == GetOf(c, later, j)
  {
  }

  /** After EXPIRE what was there, until the new ttl is up; what had expired stays so. */
  lemma ExpireThenGet(c: Entries, now: int, k: Key, ttl: int, later: int)
    requires now <= later
    ensures GetOf(ExpireIn(c, now, k, ttl), later, k) == if later < now + ttl then GetOf(c, now, k) else NotFound
    ensures forall j :: j != k ==> GetOf(ExpireIn(c, now, k, ttl), later, j) == GetOf(c, later, j)
  {
  }

  /** After INCR one more, for as long as the key would have lived; from nothing, one,
      for ever. */
  lemma IncrThenGet(c: Entries, now: int, k: Key, later: int)
    requires now <= later
    ensures var (c', n) := IncrOf(c, now, k);
      match GetOf(c, now, k)
      case Found(Count(m)) =>
        n == Some(m + 1) && GetOf(c', later, k) == if Live(c, later, k) then Found(Count(m + 1)) else NotFound
      case Found(_) => n == None && GetOf(c', later, k) == GetOf(c, later, k)
      case _ => n == Some(1) && GetOf(c', later, k) == Found(Count(1))
    ensures forall j :: j != k ==> GetOf(IncrOf(c, now, k).0, later, j) == GetOf(c, later, j)
  {
  }

  class RedisCache {
    var entries: Entries
    var now: int

    constructor (time: int)
      ensures entries == map[] && now == time
    {
      entries, now := map[], time;
    }

    method Get(k: Key, fault: Fault) returns (r: Got)
      ensures r == if fault == Fine then GetOf(entries, now, k) else Unreachable
    {
      if fault != Fine {
        return Unreachable;
      }
      if k in entries && (entries[k].deadline.None? || now < entries[k].deadline.value) {
        return Found(entries[k].value);
      }
      return NotFound;
    }

    method Set(k: Key, v: Value, ttl: int, fault: Fault) returns (ok: bool)
      modifies this`entries
      ensures ok <==> fault == Fine
      ensures entries == if fault == Lost then old(entries) else SetTo(old(entries), now, k, v, ttl)
    {
      if fault != Lost {
        entries := entries[k := Item(v, if ttl > 0 then Some(now + ttl) else None)];
      }
      return fault == Fine;
    }

    /** DEL takes several keys at once, atomically. */
    method Del(ks: seq<Key>, fault: Fault) returns (ok: bool)
      modifies this`entries
      ensures ok <==> fault == Fine
      ensures entries == if fault == Lost then old(entries) else old(entries) - (set k | k in ks)
    {
      if fault != Lost {
        entries := map k | k in entries && k !in ks :: entries[k];
      }
      return fault == Fine;
    }

    method Expire(k: Key, ttl: int, fault: Fault) returns (ok: bool)
      modifies this`entries
      ensures ok <==> fault == Fine
      ensures entries == if fault == Lost then old(entries) else ExpireIn(old(entries), now, k, ttl)
    {
      if fault != Lost && k in entries && (entries[k].deadline.None? || now < entries[k].deadline.value) {
        if ttl <= 0 {
          entries := entries - {k};
        } else {
          entries := entries[k := entries[k].(deadline := Some(now + ttl))];
        }
      }
      return fault == Fine;
    }

    /** Two commands: INCR, and EXPIRE when the count came back as 1. */
    method Incr(k: Key, ttl: int, incr: Fault, expire: Fault) returns (n: Option<int>)
      modifies this`entries
      ensures (entries, n) == IncrThenExpire(old(entries), now, k, ttl, incr, expire)
    {
      if incr == Lost {
        return None;
      }
      if k !in entries || (entries[k].deadline.Some? && now >= entries[k].deadline.value) {
        entries, n := entries[k := Item(Count(1), None)], Some(1);
      } else if entries[k].value.Count? {
        n := Some(entries[k].value.n + 1);
        entries := entries[k := entries[k].(value := Count(n.value))];
      } else {
        n := None;
      }
      if incr == Late {
        return None;
      }
      if n == Some(1) {
        var ok := Expire(k, ttl, expire);
        if !ok {
          return None;
        }
      }
    }
  }
}
