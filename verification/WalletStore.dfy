// AdjustWalletTx as the store runs it: one transaction, statement by statement,
// rolled back on the first error.
module WalletStore {
  import opened Base
  import opened Ledger

  datatype Error = Nil | ErrNoRows | ErrInsufficientBalance | Other(reason: Reason)

  datatype TxResult = TxResult(balance: int, entryId: nat, entry: Entry)

  function OutcomeOf(result: TxResult, err: Error): Outcome {
    match err
    case Nil => Success(result.balance, result.entryId, result.entry)
    case ErrNoRows => NoWallet
    case ErrInsufficientBalance => Insufficient
    case Other(reason) => Failed(reason)
  }

  class SQLStore {
    var committed: Tables
    var working: Tables    // the open transaction's view

    constructor (tables: Tables)
      ensures committed == tables
    {
      committed, working := tables, tables;
    }

    method BeginTx(fails: bool) returns (err: Error)
      modifies this`working
      ensures err == if fails then Other(Infrastructure) else Nil
      ensures working == if fails then old(working) else committed
    {
      if fails {
        return Other(Infrastructure);
      }
      working := committed;
      return Nil;
    }

    /** Rows become visible together or not at all; drawn ids are never given back. */
    method Commit(fails: bool) returns (err: Error)
      modifies this`committed
      ensures err == if fails then Other(Infrastructure) else Nil
      ensures committed == if fails then old(committed).(nextId := working.nextId) else working
    {
      if fails {
        committed := committed.(nextId := working.nextId);
        return Other(Infrastructure);
      }
      committed := working;
      return Nil;
    }

    method Rollback(fails: bool) returns (err: Error)
      modifies this`committed
      ensures err == if fails then Other(Infrastructure) else Nil
      ensures committed == old(committed).(nextId := working.nextId)
    {
      committed := committed.(nextId := working.nextId);
      return if fails then Other(Infrastructure) else Nil;
    }

    /** UPDATE wallets SET balance = balance + $1 WHERE id = $2 AND balance + $1 >= 0 RETURNING ... */
    method AdjustWalletBalance(amount: Int64, id: Int64, fails: bool) returns (balance: int, err: Error)
      modifies this`working
      ensures fails <==> err == Other(Infrastructure)
      ensures err == Nil <==>
        !fails && id in old(working).balances && 0 <= old(working).balances[id] + amount <= MAX_INT64
      ensures err == ErrNoRows <==> !fails && (id in old(working).balances ==> old(working).balances[id] + amount < 0)
      ensures err == Other(OutOfRange) <==>
        !fails && id in old(working).balances && old(working).balances[id] + amount > MAX_INT64
      ensures err == Nil ==> balance == old(working).balances[id] + amount
      ensures working == if err == Nil then old(working).(balances := old(working).balances[id := balance])
        else old(working)
    {
      balance := 0;
      if fails {
        return balance, Other(Infrastructure);
      }
      if id !in working.balances {
        return balance, ErrNoRows;
      }
      if working.balances[id] + amount > MAX_INT64 {
        return balance, Other(OutOfRange);
      }
      if working.balances[id] + amount < 0 {
        return balance, ErrNoRows;
      }
      balance := working.balances[id] + amount;
      working := working.(balances := working.balances[id := balance]);
      err := Nil;
    }

    method GetWallet(id: Int64, fails: bool) returns (balance: int, err: Error)
      ensures err == Nil <==> !fails && id in working.balances
      ensures err == ErrNoRows <==> !fails && id !in working.balances
      ensures err == Nil ==> balance == working.balances[id]
    {
      if fails {
        return 0, Other(Infrastructure);
      }
      if id !in working.balances {
        return 0, ErrNoRows;
      }
      return working.balances[id], Nil;
    }

    /** INSERT INTO wallet_entries: the id is drawn before the operator is checked. */
    method CreateWalletEntry(arg: Call, fails: bool) returns (id: nat, entry: Entry, err: Error)
      modifies this`working
      ensures fails ==> err == Other(Infrastructure) && working == old(working)
      ensures !fails ==> id == old(working).nextId && entry == EntryOf(arg)
      ensures !fails ==> err == if arg.operatorId in old(working).operators then Nil else Other(ForeignKey)
      ensures !fails ==> working == old(working).(
        nextId := old(working).nextId + 1,
        entries := if err == Nil then old(working).entries[id := entry] else old(working).entries)
    {
      id, entry := working.nextId, EntryOf(arg);
      if fails {
        return id, entry, Other(Infrastructure);
      }
      working := working.(nextId := id + 1);
      if arg.operatorId !in working.operators {
        return id, entry, Other(ForeignKey);
      }
      working := working.(entries := working.entries[id := entry]);
      err := Nil;
    }

    /** The transaction does to the committed tables what Adjust says, and answers
        as Adjust says, wherever the connection fails.  When it does not fail, each
        error has its cause in the rows. */
    method AdjustWalletTx(arg: Call, fault: Fault) returns (result: TxResult, err: Error)
      modifies this
      ensures (committed, OutcomeOf(result, err)) == Adjust(old(committed), arg, fault)
      ensures fault == NoFault ==>
        && (err == ErrNoRows <==> arg.walletId !in old(committed).balances)
        && (err == ErrInsufficientBalance <==>
             arg.walletId in old(committed).balances && old(committed).balances[arg.walletId] + arg.amount < 0)
        && err != Other(Infrastructure)
    {
      result := TxResult(0, 0, EntryOf(arg));
      err := BeginTx(fault == AtBegin);
      if err != Nil {
        return;
      }
      var balance;
      balance, err := AdjustWalletBalance(arg.amount, arg.walletId, fault == AtUpdate);
      if err == Nil {
        result := result.(balance := balance);
        var id, entry;
        id, entry, err := CreateWalletEntry(arg, fault == AtInsert);
        result := result.(entryId := id, entry := entry);
      } else if err == ErrNoRows {
        var _, getErr := GetWallet(arg.walletId, fault == AtLookup);
        if getErr == Nil {
          err := ErrInsufficientBalance;
        }
      }
      if err != Nil {
        var rbErr := Rollback(fault == AtRollback);
        if rbErr != Nil {
          err := rbErr;
        }
      } else {
        err := Commit(fault == AtCommit);
      }
    }
  }
}
