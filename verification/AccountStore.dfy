// CreateUserTx, soft deletion and restoration as the store runs them.
module AccountStore {
  import opened Base
  import opened Accounts

  datatype Error = Nil | UniqueKey | Connection

  class Store {
    var committed: Db
    var working: Db    // the open transaction's view

    constructor (db: Db)
      ensures committed == db
    {
      committed, working := db, db;
    }

    /** INSERT INTO users: the id is drawn before the unique indexes are checked. */
    method CreateUser(username: string, email: string, hash: string, fails: bool) returns (id: nat, err: Error)
      modifies this`working
      ensures id == old(working).nextUser
      ensures err == if fails then Connection else if Clash(old(working).users, username, email) then UniqueKey else Nil
      ensures fails ==> working == old(working)
      ensures err == UniqueKey ==> working == old(working).(nextUser := id + 1)
      ensures err == Nil ==> working == old(working).(nextUser := id + 1,
        users := old(working).users[id := User(username, email, hash, None)])
    {
      id := working.nextUser;
      if fails {
        return id, Connection;
      }
      var taken := Clash(working.users, username, email);
      working := working.(nextUser := id + 1);
      if taken {
        return id, UniqueKey;
      }
      working := working.(users := working.users[id := User(username, email, hash, None)]);
      return id, Nil;
    }

    /** INSERT INTO wallets: one per user, balance defaulting to 0. */
    method CreateWallet(user: nat, fails: bool) returns (id: nat, err: Error)
      modifies this`working
      ensures id == old(working).nextWallet
      ensures err == if fails then Connection else if HasWallet(old(working), user) then UniqueKey else Nil
      ensures fails ==> working == old(working)
      ensures err == Nil ==> working == old(working).(nextWallet := id + 1, owner := old(working).owner[id := user],
        ledger := old(working).ledger.(balances := old(working).ledger.balances[id := 0]))
      ensures err == UniqueKey ==> working == old(working).(nextWallet := id + 1)
    {
      id := working.nextWallet;
      if fails {
        return id, Connection;
      }
      working := working.(nextWallet := id + 1);
      if exists w | w in working.owner :: working.owner[w] == user {
        return id, UniqueKey;
      }
      working := working.(owner := working.owner[id := user],
        ledger := working.ledger.(balances := working.ledger.balances[id := 0]));
      return id, Nil;
    }

    method Rollback()
      modifies this`committed
      ensures committed == old(committed).(nextUser := working.nextUser, nextWallet := working.nextWallet)
    {
      committed := committed.(nextUser := working.nextUser, nextWallet := working.nextWallet);
    }

    /** User and wallet appear together or not at all, wherever the connection fails. */
    method CreateUserTx(username: string, email: string, hash: string, fault: CreateFault)
      returns (user: nat, wallet: nat, err: Error)
      requires OneToOne(committed)
      modifies this
      ensures var (db, reply) := Apply(old(committed), Create(username, email, hash, fault));
        && committed == db
        && reply == match err
                    case Nil => Created(user, wallet)
                    case UniqueKey => UniqueViolation
                    case Connection => Down
    {
      working := committed;
      wallet := 0;
      user, err := CreateUser(username, email, hash, fault == BeforeUser);
      if err == Nil {
        assert forall w :: w in working.owner ==> working.owner[w] in old(committed).users && working.owner[w] != user;
        wallet, err := CreateWallet(user, fault == AfterUser);
      }
      if err != Nil {
        Rollback();
        return;
      }
      if fault == AtCommitOfUser {
        Rollback();
        return user, wallet, Connection;
      }
      committed := working;
    }

    method SoftDeleteUser(id: nat, now: int) returns (rows: nat)
      modifies this`committed
      ensures (committed, Rows(rows)) == Apply(old(committed), SoftDelete(id, now))
      ensures rows == if id in old(committed).users && old(committed).users[id].deletedAt == None then 1 else 0
    {
      if id in committed.users && committed.users[id].deletedAt.None? {
        committed := committed.(users := committed.users[id := committed.users[id].(deletedAt := Some(now))]);
        return 1;
      }
      return 0;
    }

    method RestoreUser(id: nat) returns (rows: nat, err: Error)
      modifies this`committed
      ensures (committed, if err == Nil then Rows(rows) else UniqueViolation) == Apply(old(committed), Restore(id))
      ensures rows == 0 && err == Nil <==> id !in old(committed).users || old(committed).users[id].deletedAt == None
      ensures err != Nil ==> err == UniqueKey && rows == 0
    {
      if id !in committed.users || committed.users[id].deletedAt.None? {
        return 0, Nil;
      }
      if Clash(committed.users, committed.users[id].username, committed.users[id].email) {
        return 0, UniqueKey;
      }
      committed := committed.(users := committed.users[id := committed.users[id].(deletedAt := None)]);
      return 1, Nil;
    }
  }
}
