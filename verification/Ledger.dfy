// The wallet tables and what one AdjustWalletTx does to them when nothing else
// runs.  A wallet's balance is a bigint; its history is the rows of
// wallet_entries that carry its id, read in id order.
module Ledger {
  import opened Base

  datatype Entry = Entry(walletId: int, amount: int, note: string, operatorId: int, operatorUsername: string)

  /** wallets.balance by wallet id, wallet_entries by id, the entry id sequence,
      and the admin_users ids an entry may reference as its operator. */
  datatype Tables = Tables(balances: map<int, int>, entries: map<nat, Entry>, nextId: nat, operators: set<int>)

  /** AdjustWalletTxParams. */
  datatype Call = Call(walletId: Int64, amount: Int64, note: string, operatorId: Int64, operatorUsername: string)

  /** Where the connection, if at all, lets this call down. */
  datatype Fault = NoFault | AtBegin | AtUpdate | AtLookup | AtInsert | AtCommit | AtRollback

  datatype Reason = Infrastructure | OutOfRange | ForeignKey

  /** What the caller of AdjustWalletTx gets: the result pair, ErrInsufficientBalance,
      sql.ErrNoRows, or any other error. */
  datatype Outcome = Success(balance: int, entryId: nat, entry: Entry) | Insufficient | NoWallet
    | Failed(reason: Reason)

  function EntryOf(c: Call): Entry {
    Entry(c.walletId, c.amount, c.note, c.operatorId, c.operatorUsername)
  }

  /** The error the closure hands to execTx: a failed rollback hides it. */
  function AfterRollback(f: Fault, o: Outcome): Outcome {
    if f == AtRollback then Failed(Infrastructure) else o
  }

  /** The rows a commit makes visible. */
  function Posted(t: Tables, c: Call, balance: int, id: nat): Tables {
    t.(balances := t.balances[c.walletId := balance], entries := t.entries[id := EntryOf(c)])
  }

  /** AdjustWalletTx with the database to itself. */
  function Adjust(t: Tables, c: Call, f: Fault): (Tables, Outcome) {
    if f == AtBegin || f == AtUpdate then
      (t, Failed(Infrastructure))
    else if c.walletId !in t.balances then
      (t, AfterRollback(f, NoWallet))
    else
      var balance := t.balances[c.walletId] + c.amount;
      if balance > MAX_INT64 then
        (t, AfterRollback(f, Failed(OutOfRange)))
      else if balance < 0 then
        (t, AfterRollback(f, if f == AtLookup then NoWallet else Insufficient))
      else if f == AtInsert then
        (t, Failed(Infrastructure))
      else if c.operatorId !in t.operators then
        (t.(nextId := t.nextId + 1), AfterRollback(f, Failed(ForeignKey)))
      else if f == AtCommit then
        (t.(nextId := t.nextId + 1), Failed(Infrastructure))
      else
        (Posted(t.(nextId := t.nextId + 1), c, balance, t.nextId), Success(balance, t.nextId, EntryOf(c)))
  }

  /** SELECT * FROM wallet_entries WHERE wallet_id = w AND id < n ORDER BY id. */
  function Listing(entries: map<nat, Entry>, w: int, n: nat): (l: seq<Entry>)
    ensures forall k :: 0 <= k < |l| ==> l[k].walletId == w
  {
    if n == 0 then []
    else Listing(entries, w, n - 1) +
         if n - 1 in entries && entries[n - 1].walletId == w then [entries[n - 1]] else []
  }

  function History(t: Tables, w: int): seq<Entry> {
    Listing(t.entries, w, t.nextId)
  }

  function Amounts(l: seq<Entry>): (a: seq<int>)
    ensures |a| == |l|
    ensures forall k :: 0 <= k < |l| ==> a[k] == l[k].amount
  {
    seq(|l|, k requires 0 <= k < |l| => l[k].amount)
  }

  function Total(l: seq<Entry>): int {
    Sum(Amounts(l))
  }

  lemma TotalSnoc(l: seq<Entry>, e: Entry)
    ensures Total(l + [e]) == Total(l) + e.amount
  {
    assert Amounts(l + [e]) == Amounts(l) + [e.amount];
    SumSnoc(Amounts(l), e.amount);
  }

  /** Every prefix of the history is a balance the column could hold. */
  ghost predicate NeverNegative(l: seq<Entry>) {
    forall k :: 0 <= k <= |l| ==> 0 <= Total(l[..k]) <= MAX_INT64
  }

  lemma NeverNegativeSnoc(l: seq<Entry>, e: Entry)
    requires NeverNegative(l) && 0 <= Total(l) + e.amount <= MAX_INT64
    ensures NeverNegative(l + [e])
  {
    forall k | 0 <= k <= |l| + 1
      ensures 0 <= Total((l + [e])[..k]) <= MAX_INT64
    {
      if k <= |l| {
        assert (l + [e])[..k] == l[..k];
      } else {
        assert (l + [e])[..k] == l + [e];
        TotalSnoc(l, e);
      }
    }
  }

  /** Ids come from the sequence and entries only name wallets that exist. */
  ghost predicate WellFormed(t: Tables) {
    && (forall id :: id in t.entries ==> id < t.nextId)
    && (forall id :: id in t.entries ==> t.entries[id].walletId in t.balances)
  }

  /** The ledger explains the balance. */
  ghost predicate Conserved(t: Tables) {
    forall w :: w in t.balances ==>
      t.balances[w] == Total(History(t, w)) && NeverNegative(History(t, w))
  }

  /** An id above every entry of its wallet is the last line of that wallet's
      listing, and leaves every other wallet's listing alone. */
  lemma {:induction false} ListingPut(entries: map<nat, Entry>, id: nat, e: Entry, w: int, n: nat)
    requires id !in entries
    requires e.walletId == w ==> forall k :: k in entries && entries[k].walletId == w ==> k < id
    ensures Listing(entries[id := e], w, n) ==
            Listing(entries, w, n) + if e.walletId == w && id < n then [e] else []
  {
    if n == 0 {
    } else {
      ListingPut(entries, id, e, w, n - 1);
    }
  }

  /** No rows of w at or above n: reading further finds nothing new. */
  lemma {:induction false} ListingStops(entries: map<nat, Entry>, w: int, n: nat, m: nat)
    requires n <= m
    requires forall k :: k in entries && entries[k].walletId == w ==> k < n
    ensures Listing(entries, w, m) == Listing(entries, w, n)
  {
    if n == m {
    } else {
      ListingStops(entries, w, n, m - 1);
    }
  }

  /** Drawing ids without using them changes no history. */
  lemma SkipId(t: Tables)
    requires WellFormed(t)
    ensures WellFormed(t.(nextId := t.nextId + 1))
    ensures forall w :: History(t.(nextId := t.nextId + 1), w) == History(t, w)
  {
    forall w ensures History(t.(nextId := t.nextId + 1), w) == History(t, w) {
      ListingStops(t.entries, w, t.nextId, t.nextId + 1);
    }
  }

  /** A commit appends exactly its own entry to exactly its own wallet. */
  lemma PostedHistory(t: Tables, c: Call, balance: int, id: nat)
    requires WellFormed(t) && id < t.nextId && id !in t.entries && c.walletId in t.balances
    requires forall k :: k in t.entries && t.entries[k].walletId == c.walletId ==> k < id
    ensures WellFormed(Posted(t, c, balance, id))
    ensures forall w :: History(Posted(t, c, balance, id), w) ==
                        History(t, w) + if w == c.walletId then [EntryOf(c)] else []
  {
    forall w
      ensures History(Posted(t, c, balance, id), w) == History(t, w) + if w == c.walletId then [EntryOf(c)] else []
    {
      ListingPut(t.entries, id, EntryOf(c), w, t.nextId);
    }
  }

  /** Posting the amount together with the new balance keeps the books straight. */
  lemma PostedConserved(t: Tables, c: Call, balance: int, id: nat)
    requires WellFormed(t) && Conserved(t) && id < t.nextId && id !in t.entries && c.walletId in t.balances
    requires forall k :: k in t.entries && t.entries[k].walletId == c.walletId ==> k < id
    requires balance == t.balances[c.walletId] + c.amount && 0 <= balance <= MAX_INT64
    ensures Conserved(Posted(t, c, balance, id))
  {
    var p := Posted(t, c, balance, id);
    PostedHistory(t, c, balance, id);
    forall w | w in p.balances
      ensures p.balances[w] == Total(History(p, w)) && NeverNegative(History(p, w))
    {
      if w == c.walletId {
        TotalSnoc(History(t, w), EntryOf(c));
        NeverNegativeSnoc(History(t, w), EntryOf(c));
      } else {
        assert History(p, w) == History(t, w);
      }
    }
  }

  lemma AdjustSucceedsIff(t: Tables, c: Call, f: Fault)
    ensures Adjust(t, c, f).1.Success? <==>
      && (f == NoFault || f == AtLookup || f == AtRollback)
      && c.walletId in t.balances
      && 0 <= t.balances[c.walletId] + c.amount <= MAX_INT64
      && c.operatorId in t.operators
  {
  }

  /** The UPDATE finds no row it may change: no such wallet, or one that cannot pay. */
  predicate Refuses(t: Tables, c: Call) {
    c.walletId in t.balances ==> t.balances[c.walletId] + c.amount < 0
  }

  /** It finds one, and the new balance fits the column. */
  predicate Pays(t: Tables, c: Call) {
    c.walletId in t.balances && 0 <= t.balances[c.walletId] + c.amount <= 9_223_372_036_854_775_807
  }

  /** What each answer means, on the rows, for every fault: the UPDATE saw `seen` and
      GetWallet, if it ran, saw `looked`.  A lost GetWallet leaves sql.ErrNoRows
      standing, a lost ROLLBACK hides every other error. */
  ghost predicate AnsweredBy(seen: Tables, looked: Tables, c: Call, f: Fault, o: Outcome) {
    && (o == NoWallet <==>
         && f !in {AtBegin, AtUpdate, AtRollback} && Refuses(seen, c)
         && (f == AtLookup || c.walletId !in looked.balances))
    && (o == Insufficient <==>
         f !in {AtBegin, AtUpdate, AtLookup, AtRollback} && Refuses(seen, c) && c.walletId in looked.balances)
    && (o == Failed(OutOfRange) <==>
         && f !in {AtBegin, AtUpdate, AtRollback}
         && c.walletId in seen.balances && seen.balances[c.walletId] + c.amount > 9_223_372_036_854_775_807)
    && (o == Failed(ForeignKey) <==>
         f !in {AtBegin, AtUpdate, AtInsert, AtRollback} && Pays(seen, c) && c.operatorId !in seen.operators)
    && (o.Success? <==>
         f in {NoFault, AtLookup, AtRollback} && Pays(seen, c) && c.operatorId in seen.operators)
    && (f == NoFault ==> o != Failed(Infrastructure))
  }

  /** The answer of the call alone. */
  lemma AdjustAnswers(t: Tables, c: Call, f: Fault)
    ensures AnsweredBy(t, t, c, f, Adjust(t, c, f).1)
  {
  }

  lemma SkipConserved(t: Tables)
    requires WellFormed(t) && Conserved(t)
    ensures Conserved(t.(nextId := t.nextId + 1))
  {
    SkipId(t);
    var drawn := t.(nextId := t.nextId + 1);
    forall w | w in drawn.balances
      ensures drawn.balances[w] == Total(History(drawn, w)) && NeverNegative(History(drawn, w)) {
      assert History(drawn, w) == History(t, w);
    }
  }

  lemma AdjustPosts(t: Tables, c: Call, f: Fault)
    requires WellFormed(t) && Adjust(t, c, f).1.Success?
    ensures var (t', o) := Adjust(t, c, f);
      && WellFormed(t') && t'.operators == t.operators
      && o.entry == EntryOf(c) && o.balance == t.balances[c.walletId] + c.amount && o.entryId !in t.entries
      && t'.balances == t.balances[c.walletId := o.balance]
      && forall w :: History(t', w) == History(t, w) + if w == c.walletId then [EntryOf(c)] else []
  {
    SkipId(t);
    PostedHistory(t.(nextId := t.nextId + 1), c, t.balances[c.walletId] + c.amount, t.nextId);
  }

  /** Drawing the next id and posting under it keeps the books straight. */
  lemma NextPostConserved(t: Tables, c: Call, balance: int)
    requires WellFormed(t) && Conserved(t) && c.walletId in t.balances
    requires balance == t.balances[c.walletId] + c.amount && 0 <= balance <= MAX_INT64
    ensures Conserved(Posted(t.(nextId := t.nextId + 1), c, balance, t.nextId))
  {
    SkipConserved(t);
    PostedConserved(t.(nextId := t.nextId + 1), c, balance, t.nextId);
  }

  lemma AdjustKeepsConserved(t: Tables, c: Call, f: Fault)
    requires WellFormed(t) && Conserved(t)
    ensures Conserved(Adjust(t, c, f).0)
  {
    var (t', o) := Adjust(t, c, f);
    if o.Success? {
      NextPostConserved(t, c, t.balances[c.walletId] + c.amount);
      assert t' == Posted(t.(nextId := t.nextId + 1), c, t.balances[c.walletId] + c.amount, t.nextId);
    } else if t' != t {
      SkipConserved(t);
    }
  }

  lemma AdjustRefuses(t: Tables, c: Call, f: Fault)
    requires WellFormed(t) && !Adjust(t, c, f).1.Success?
    ensures var t' := Adjust(t, c, f).0;
      && WellFormed(t') && t'.operators == t.operators
      && t'.balances == t.balances && forall w :: History(t', w) == History(t, w)
  {
    SkipId(t);
    assert Adjust(t, c, f).0 == t || Adjust(t, c, f).0 == t.(nextId := t.nextId + 1);
  }

  /** AdjustWalletTx alone: it posts exactly when the wallet exists, the new balance
      fits, the operator exists and no call it makes fails; then balance and history move
      together by the one entry, and in every other case both stay as they were. */
  lemma AdjustEffect(t: Tables, c: Call, f: Fault)
    requires WellFormed(t)
    ensures var (t', o) := Adjust(t, c, f);
      && WellFormed(t') && t'.operators == t.operators
      && (o.Success? <==> && (f == NoFault || f == AtLookup || f == AtRollback)
                          && c.walletId in t.balances
                          && 0 <= t.balances[c.walletId] + c.amount <= MAX_INT64
                          && c.operatorId in t.operators)
      && (o.Success? ==> && o.entry == EntryOf(c) && o.balance == t.balances[c.walletId] + c.amount
                         && o.entryId !in t.entries
                         && t'.balances == t.balances[c.walletId := o.balance]
                         && forall w :: History(t', w) == History(t, w) + if w == c.walletId then [EntryOf(c)] else [])
      && (!o.Success? ==> t'.balances == t.balances && forall w :: History(t', w) == History(t, w))
    ensures Conserved(t) ==> Conserved(Adjust(t, c, f).0)
  {
    AdjustSucceedsIff(t, c, f);
    if Adjust(t, c, f).1.Success? {
      AdjustPosts(t, c, f);
    } else {
      AdjustRefuses(t, c, f);
    }
    if Conserved(t) {
      AdjustKeepsConserved(t, c, f);
    }
  }
}
