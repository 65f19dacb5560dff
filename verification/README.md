# Verification of the wallet ledger and the admin sessions

A Dafny 4.11 model of the parts of the back end that carry hard guarantees, and
proofs of those guarantees.  `dafny verify dfyconfig.toml` checks all of it.

## What is modelled

**The wallet ledger.**  `Ledger` says what one AdjustWalletTx does alone, including
where the connection may fail.  `WalletStore` is the transaction as the store runs it,
statement by statement, proved against that.  `WalletMachine` lets any number of such
calls run at READ COMMITTED (section 13.2.1 of the PostgreSQL documentation): the
conditional UPDATE sees the latest committed row, returns no row without waiting when
its predicate is false, takes the row lock when it is true, and waits when the lock is
taken; ids come from a sequence that never goes back; a call's fault is fixed when it
begins, so every place where a connection can be lost is some run.  On top of it:
conservation, serializability with real-time order, what each answer means, the exact
outcome of contention, and progress.

**Admin sessions.**  `Cache` is Redis: a class over keys with deadlines and a clock.
A call succeeds, is lost, or takes effect and is reported as failed.  `Sessions` says
what each request does at one instant, given what happens to its calls; `Server` is the
handlers, call by call, proved against it.  `SessionAgreement` finds, request by
request, exactly which faults break the promise between the two session keys and the
account table; `Answers` says what each answer means, on the rows and keys, both ways;
`SessionRuns`, `Writers`, `SessionHistory` and `Lockout` follow whole
runs.  `Protocol` interleaves requests call by call; `Protocol.SoloLogin` and
`Protocol.SoloCall` tie the two levels together.  `ProtocolSafety` says what survives
every interleaving and every fault, `ProtocolLogin` and `ProtocolAttempts` what becomes
of the login lock, `ProtocolExposure` which calls leave a session its index does not
cover and for how long, `ProtocolOrder` when interleaving does no harm,
`ProtocolAdmins` who is left to administer, `ProtocolPasswords` who is logged in after a
password change, and `ProtocolRaces` how interleaving does harm.

**Constrained tables.**  `Accounts` and `AccountStore` (front-office users and their
wallets), `AdminTables`, `AdminRuns` and `AdminStore` (back-office accounts, roles,
permissions): soft delete under partial unique indexes, the one-to-one user/wallet
relation, whole-set role replacement.  `Paging` is the int32 offset arithmetic, the
listings and the loops that build them.

Integers are bounded where the program's are and it matters: wallet ids and amounts
are int64, balances leave bigint by an error, page offsets wrap at int32.

## Where code and documentation differ

The model follows the code.

- NOTES.md:105-107 promises that somebody always holds admin_user:write.  Exactly two
  kinds of request lose it: a deletion of the only holder, and a replacement of the only
  holder's roles by roles none of which carries it (`Writers.AlwaysAWriterIff` for
  requests served one at a time, `ProtocolAdmins.AlwaysAWriterIff` for every
  interleaving).  The second needs neither fault nor overlap
  (`Writers.RolesMayBeCleared`).
- api/admin_user.go:244-245 promises that an account is left because nobody can delete
  themselves.  It is lost exactly when a request deletes the last account
  (`SessionRuns.AlwaysStaffedIff` for requests served one at a time,
  `ProtocolAdmins.AlwaysStaffedIff` for every interleaving).  The sender's own account is
  then deleted already.  That is enough, because the check of the session comes before
  the statement and the account is not looked at again: a request let in before its
  sender was deleted goes through even when the sender's session is gone by then, with
  no call failing (`ProtocolRaces.CrossfireLeavesNobody`).  Served one at a time, the
  sender must still have a live session; examples of how are a lost kick
  (`Writers.MissedKickLeavesNobody`), an index that expired before its session, and an
  index that names a later session of the same account
  (`Writers.UnnamedSessionLeavesNobody` with `Writers.LostRenewalLapses`,
  `Writers.LostLookupDoubles`).  `ProtocolAdmins.OrderlyStaffed` is a condition on
  overlaps, faults and expiry under which an account is always left.
- NOTES.md:43-45 promises one session per account, NOTES.md:50-52 that a deleted account
  is offline at once.  Requests served one at a time keep both exactly when they are
  harmless (`SessionRuns.AgreementIff`).  Overlapping requests may break both with no
  call failing: two logins, a login and a deletion, a logout and a later login, or one
  renewal that is slow (`ProtocolRaces`).  A session is out of its index's reach exactly
  when some call exposed it and nothing has ended that since
  (`ProtocolExposure.ExposedIff`; the calls in question are those of
  `ProtocolExposure.StepExposesIff` and `ProtocolExposure.StepHealsIff`), and
  `ProtocolOrder.OrderlyAgrees` is a condition under which none is, once nothing is
  under way.
- api/auth.go:213-215 drops the session after a password change to force a new login.  A
  login that checked the old password just before can still complete after it
  (`ProtocolRaces.OldPasswordOutlives`); `ProtocolPasswords.ChangeShutsOut` says when
  none can.
- NOTES.md:33 promises a lock after five failures for fifteen minutes.  Overlapping
  attempts reach `4 + K` (`ProtocolLogin.AttemptsBounded`, and exactly so by
  `ProtocolAttempts.AttemptsBoundReached`).  The lock is permanent exactly when the INCR
  that started the count was reported as failed, or its EXPIRE was lost, and nothing has
  expired or cleared the count since (`ProtocolLogin.ForgottenIff`,
  `ProtocolLogin.RestingLock`).
- api/middleware.go:95-96 says a failed renewal does not affect the request and that the
  index keeps step with the session.  If only one of the two EXPIREs takes effect they
  part ways (`SessionAgreement.SlideAgrees`, `SessionAgreement.CallAgrees`).
- The comment at db/sqlc/tx_adjust_wallet.go:27-29 splits "no row" into missing wallet
  and missing funds.  A wallet created between UPDATE and GetWallet is reported as
  lacking funds, even for a deposit; those deposits are the only answers that no
  sequential execution gives (`WalletSerializability.SerializableIff`).  A GetWallet that
  fails for any reason is reported as a missing wallet.
- createAdminUser answers "user exists" for any unique violation, a repeated role id
  included (`AdminTables.CreateAdminDuplicateIff`); updateAdminUserRoles answers a repeated role id with an internal error.

## Model

| member | source | states |
|---|---|---|
| Ledger.AdjustEffect | db/sqlc/tx_adjust_wallet.go:30-60 | One AdjustWalletTx alone succeeds if and only if none of the calls it makes fails, the wallet exists, the new balance lies in [0, 2^63-1] and the operator exists; then balance and history move together by exactly this entry, otherwise neither moves |
| Ledger.AdjustAnswers | db/sqlc/tx_adjust_wallet.go:36-47 | Alone, and for every fault, each answer has its exact cause: ErrNoRows a missing wallet (or a refusal whose lookup was lost), ErrInsufficientBalance a wallet that cannot pay, out of range a balance above 9223372036854775807, foreign key a missing operator |
| Ledger.PostedConserved | db/sqlc/tx_adjust_wallet.go:36-56 | Posting amount and new balance together keeps "balance = sum of entries, no prefix below zero" for every wallet |
| Ledger.PostedHistory | db/sqlc/wallet_entry.sql.go:24-59 | A commit appends its own entry to its own wallet's id-ordered history and touches no other history, even when ids of other wallets lie above it |
| WalletMachine.StepKeepsInv | db/sqlc/tx_adjust_wallet.go:33-57 | Every statement of every open transaction keeps the intermediate invariant: one row-lock holder per wallet, the holder's balance is the committed one plus its amount, undelivered entry ids are unique and above all entries of their wallet |
| WalletMachine.AdvanceEffect | db/sqlc/tx_adjust_wallet.go:36-56 | Of all statements only COMMIT moves a balance or a history, by its own amount and its own entry |
| WalletMachine.AdvanceKeepsHoldersAgree | db/sqlc/wallet.sql.go:13-18 | What the conditional UPDATE computed stays true until the holder ends, because nobody else commits to a locked row |
| WalletMachine.AdvanceKeepsIds | db/sqlc/wallet_entry.sql.go:24-30 | Entry ids drawn while the row lock is held are larger than every committed id of that wallet |
| WalletMachine.Conservation | db/migration/000002_add_wallets.up.sql:3-4 | In every reachable state of every interleaving each balance is the sum of the wallet's committed entries and stays in [0, 2^63-1] |
| WalletMachine.StepTouchesOne | db/sqlc/wallet.sql.go:14-17 | A statement leaves every wallet it does not name exactly as it was |
| WalletSerializability.DecidingStepIsWholeCall | db/sqlc/tx_adjust_wallet.go:33-57 | The one step that decides a transaction (UPDATE for refusals, INSERT or COMMIT otherwise) changes the committed tables and answers as the whole call would if run alone at that moment |
| WalletSerializability.Serializable | db/sqlc/store.go:39-55 | Over every run the tables are, up to entry ids, those of one sequential execution in the order of the deciding steps, and every finished call appears in it exactly once with the same answer, except calls that take nothing and were told that funds are insufficient |
| WalletSerializability.SerializableIff | db/sqlc/tx_adjust_wallet.go:30-60 | A run is equivalent to some sequential execution of exactly its own calls and wallet creations, tables and finished answers alike, if and only if no finished call with amount >= 0 was told that funds are insufficient |
| WalletSerializability.MisledIff | db/sqlc/tx_adjust_wallet.go:40-47 | Such a call exists exactly when a wallet was created between the UPDATE and the GetWallet of a call on it that takes nothing and whose GetWallet and rollback do not fail |
| WalletSerializability.ExistingWalletsServed | db/sqlc/tx_create_user.go:16-32 | When every adjusted wallet exists before the run starts, the run is equivalent to a sequential execution of all its calls |
| WalletSerializability.RealTime | db/sqlc/store.go:39-55 | The sequential order puts a call that had returned before another began in front of it |
| WalletOutcomes.LedgerReplay | db/sqlc/tx_adjust_wallet.go:36-56 | In every reachable state the balance each successful caller was told equals the sum of the wallet's entries up to and including its own, that entry records its wallet, amount, note and operator, and no two callers share an entry |
| WalletOutcomes.HistoryOnlyGrows | db/sqlc/wallet_entry.sql.go:24-30 | Id order is commit order: along a run a wallet's history only ever gets longer at its end and committed entries never change |
| WalletOutcomes.EntriesAreReceipts | db/sqlc/tx_adjust_wallet.go:49-56 | Every entry that appears during a run belongs to a transaction that reported success with that id |
| WalletOutcomes.InsufficientMeans | db/sqlc/tx_adjust_wallet.go:40-47 | ErrInsufficientBalance means the UPDATE met either a wallet that could not pay (so the amount was a debit) or no wallet at all, created before GetWallet looked |
| WalletOutcomes.NoRowsMeans | db/sqlc/tx_adjust_wallet.go:40-47 | sql.ErrNoRows, unless GetWallet itself failed, means the wallet was absent at every moment up to the lookup |
| WalletOutcomes.AnswerIff | db/sqlc/tx_adjust_wallet.go:36-60 | Over every interleaving and fault, what a finished call's UPDATE and GetWallet saw decides its answer, both ways: with no failing call it is ErrNoRows if and only if the UPDATE found no row and the wallet was absent at the GetWallet, ErrInsufficientBalance if and only if it was there by then, and otherwise success, out of range or foreign key by the rows the UPDATE saw |
| WalletOutcomes.DepositReportedInsufficient | db/sqlc/tx_create_user.go:16-32 | A deposit is reported as insufficient when its wallet is created between UPDATE and GetWallet, and no sequential execution answers so |
| WalletContention.StepKeepsContended | db/sqlc/tx_adjust_wallet.go:36-47 | While equal debits race, the balance is the initial one minus d per success, the ledger has one line per success, and a refusal means less than d was left for good |
| WalletContention.ContentionOutcome | db/sqlc/tx_adjust_wallet_test.go:34-109 | n debits of d against balance B end with exactly min(n, B div d) successes, all others refused as insufficient, final balance B - d*min(n, B div d) and that many new entries, whatever the interleaving |
| WalletProgress.NoDeadlock | db/sqlc/tx_adjust_wallet.go:33-57 | While any call is unanswered some statement can run |
| WalletProgress.WaitsIff | db/sqlc/wallet.sql.go:13-18 | Only an UPDATE of a row it could change waits, and only while another transaction holds that row; a call that will be refused is refused at once |
| WalletProgress.BatchIsBounded | db/sqlc/store.go:39-55 | With no new calls, every schedule is at most as long as the statements it started with |
| WalletProgress.StuckMeansDone | db/sqlc/store.go:39-55 | A schedule that cannot continue has answered every call |
| WalletProgress.AloneIsAdjust | db/sqlc/tx_adjust_wallet.go:30-60 | The statements of a transaction that meets nobody add up to the sequential specification of the call |
| WalletStore.SQLStore.AdjustWalletBalance | db/sqlc/wallet.sql.go:13-37 | The conditional UPDATE returns the new balance, no row, or out of range, each exactly under its condition, and writes only on success |
| WalletStore.SQLStore.CreateWalletEntry | db/sqlc/wallet_entry.sql.go:24-59 | The entry INSERT draws an id even when the operator's foreign key then fails |
| WalletStore.SQLStore.Commit | db/sqlc/store.go:54-54 | The open transaction's rows become visible together or not at all; drawn ids are not given back |
| WalletStore.SQLStore.Rollback | db/sqlc/store.go:47-52 | A rollback leaves the committed rows and only keeps the drawn ids |
| WalletStore.SQLStore.AdjustWalletTx | db/sqlc/tx_adjust_wallet.go:30-60 | Statement by statement inside execTx, the method leaves the tables and returns the error that the specification Adjust says, for every place the connection may fail; when it does not fail, sql.ErrNoRows means the wallet is missing and ErrInsufficientBalance that it cannot pay, and conversely |
| Accounts.RunKeepsConsistent | db/migration/000007_add_soft_delete.up.sql:9-10 | In every reachable state live usernames and emails are unique, users and wallets correspond one to one, and the books balance |
| Accounts.LookupHasOneAnswer | db/sqlc/user.sql.go:74-92 | A live lookup by username has at most one answer in every reachable state |
| Accounts.RegistrationEffect | db/sqlc/tx_create_user.go:16-32 | Registration succeeds if and only if nothing failed and no live row uses the username or the email; then exactly one user and its one empty wallet are new, otherwise no row changes, and no other wallet's history ever does |
| Accounts.RegistrationAnswers | api/user.go:82-90 | A unique violation is answered if and only if the user INSERT is reached and a live row has the username or the email |
| Accounts.DeletionAnswers | api/user.go:208-216 | A deletion affects one row if and only if the user is live, and writes nothing but its mark |
| Accounts.RestoreAnswers | api/user.go:240-253 | A restore is a unique violation if and only if the row is deleted and a live row took its username or email, no row if and only if it is missing or live, and otherwise clears the mark and nothing else |
| Accounts.UnrelatedIsBlind | db/sqlc/user.sql.go:152-164 | Operations that do not name a user or want its keys do and answer the same whether or not it is deleted |
| Accounts.DeleteThenRestore | api/user.go:201-258 | Delete, any sequence of unrelated operations, restore: every table, wallets and entries included, is as if the user had never been deleted |
| Accounts.CountsAgree | db/sqlc/wallet.sql.go:39-51 | The count of listed wallets equals the count of users not deleted |
| Accounts.TotalsMeet | db/sqlc/wallet.sql.go:176-189 | Summing balances of the wallets of users not deleted equals summing the entries whose wallet's owner has a row that is not deleted |
| Accounts.DashboardTotals | db/sqlc/wallet.sql.go:176-189 | In every reachable state the dashboard's counts agree and its total, when it fits bigint, is the sum of the entries |
| Accounts.DeletionLowersTotals | db/sqlc/wallet.sql.go:176-189 | Deleting a user lowers the wallet total by exactly its balance and both counts by one |
| AccountStore.Store.CreateUser | db/sqlc/user.sql.go:24-52 | The user INSERT draws an id before the unique indexes are checked and writes only when both keys are free |
| AccountStore.Store.CreateWallet | db/sqlc/wallet.sql.go:53-71 | The wallet INSERT fails for a user that already has a wallet and otherwise starts it at 0 |
| AccountStore.Store.CreateUserTx | db/sqlc/tx_create_user.go:16-32 | User and wallet appear together or not at all, wherever the connection fails |
| AccountStore.Store.SoftDeleteUser | db/sqlc/user.sql.go:152-164 | One row affected for a live user, none otherwise |
| AccountStore.Store.RestoreUser | db/sqlc/user.sql.go:138-150 | One row, no row or a unique violation, as the specification says |
| AdminTables.FindBelow | db/sqlc/admin_user.sql.go:70-74 | The lookup by username finds a live row of that name whenever there is one and nothing else |
| AdminTables.FirstOffenceDecides | db/sqlc/tx_admin_user.go:55-63 | The first role id that cannot be inserted decides whether the loop stops with a duplicate-key or a foreign-key error |
| AdminTables.InsertableIff | db/migration/000006_add_rbac.up.sql:21-25 | The insert loop succeeds if and only if the ids are pairwise distinct roles that exist, of an account that exists |
| AdminTables.ReplaceRolesEffect | db/sqlc/tx_admin_user.go:49-66 | Role replacement commits if and only if the ids are distinct and exist; then the account has exactly those roles, otherwise the tables are unchanged, and nobody else's roles ever move |
| AdminTables.CreateAdminEffect | db/sqlc/tx_admin_user.go:16-40 | Account creation succeeds if and only if the name is free among live accounts and the roles are insertable; then exactly one row and exactly those roles appear |
| AdminTables.CreateAdminDuplicateIff | api/admin_user.go:161-165 | Creation hits a unique violation, which the handler reports as "user exists", if and only if the name is taken or a role id is repeated before any unknown one |
| AdminTables.CodesAreTheJoin | db/sqlc/permission.sql.go:12-19 | A code is listed for an account if and only if some role it holds carries a permission with that code |
| AdminTables.CodesInOrder | db/sqlc/permission.sql.go:12-19 | The codes come in the order of the permission listing, so without repetition |
| AdminTables.HasPermission | api/middleware.go:50-57 | The loop answers true if and only if the wildcard or the code is in the list |
| AdminRuns.RunKeepsConsistent | db/migration/000007_add_soft_delete.up.sql:12-13 | Over every sequence of account administration live usernames stay unique, roles name existing rows and no row disappears |
| AdminRuns.LookupIsTheAccount | db/sqlc/admin_user.sql.go:70-87 | The lookup by username answers with an id if and only if that is the live account of that name |
| AdminRuns.DeleteIff | db/sqlc/admin_user.sql.go:146-158 | A deletion affects one row if and only if the account is live, and writes nothing but its mark |
| AdminRuns.RestoreIff | db/sqlc/admin_user.sql.go:132-144 | A restore affects a row if and only if the account is deleted and its name is free, is a unique violation if and only if it is deleted and its name taken, and affects none if and only if it is missing or live; it clears the mark and nothing else |
| AdminRuns.DeleteThenRestore | api/admin_user.go:256-321 | Delete, any unrelated administration, restore: every table, password and roles included, is as if the account had never been deleted |
| AdminStore.Store.CreateAdminUserRole | db/sqlc/admin_user_role.sql.go:12-29 | One role INSERT: duplicate before foreign key, and the row only on success |
| AdminStore.TxErrorIff | db/sqlc/store.go:39-55 | A role transaction reports a lost statement if and only if nothing before it is an obstacle, and success if and only if every role can be inserted and no statement is lost |
| AdminStore.Store.InsertRoles | db/sqlc/tx_admin_user.go:55-63 | The loop stops at the first error and reports it, a lost connection included; without one the transaction holds exactly the requested roles |
| AdminStore.Store.UpdateAdminUserRolesTx | db/sqlc/tx_admin_user.go:49-66 | Delete-all and the loop commit the specified replacement or leave the tables untouched, with the exact error, whichever statement loses its connection |
| AdminStore.Store.CreateAdminUserTx | db/sqlc/tx_admin_user.go:16-40 | Account and roles appear together or not at all, with the exact error, whichever statement loses its connection; only the id sequence may move on failure |
| AdminStore.Store.SoftDeleteAdminUser | db/sqlc/admin_user.sql.go:146-158 | One row if and only if the account is live |
| AdminStore.Store.RestoreAdminUser | db/sqlc/admin_user.sql.go:132-144 | No row if and only if the account is missing or live, else one row or a unique violation, as the specification says |
| Cache.KeyTextInjective | api/middleware.go:59-65 | Distinct session, index and counter keys never share a Redis key text |
| Cache.DecimalReads | api/middleware.go:63-65 | Reading the decimal text of an id back gives the id |
| Cache.SetThenGet | cache/cache.go:52-54 | After SET a GET finds the value until the ttl is up, for ever if it is zero, and every other key as before |
| Cache.ExpireThenGet | cache/cache.go:60-64 | After EXPIRE a GET finds what was there until the new ttl is up, and nothing that had expired |
| Cache.IncrThenGet | cache/cache.go:66-77 | After INCR a GET finds one more for as long as the key would have lived, or one, for ever, where there was nothing |
| Cache.RedisCache.Get | cache/cache.go:44-50 | A key answers until its deadline and not after |
| Cache.RedisCache.Set | cache/cache.go:52-54 | SET replaces value and deadline; a ttl of zero means no deadline |
| Cache.RedisCache.Del | cache/cache.go:56-58 | DEL removes exactly the named keys, all at once |
| Cache.RedisCache.Expire | cache/cache.go:60-64 | EXPIRE moves the deadline of a live key and does nothing to a missing one |
| Cache.RedisCache.Incr | cache/cache.go:66-77 | INCR, then EXPIRE only when the INCR was answered with 1; lost EXPIREs and INCRs reported as failed leave a count without a deadline |
| Server.Handlers.Login | api/auth.go:51-140 | The handler, call by call, leaves the world and answers as the specification LoginStep says, whichever calls are lost or reported as failed after taking effect |
| Server.Handlers.StartSession | api/auth.go:111-139 | Evict, write session, write index, take the session back if the index failed: as the specification OpenSession says |
| Server.Handlers.GetLoginFailCount | api/auth.go:243-252 | A missing counter counts as zero, an unreadable one as an error |
| Server.Handlers.RecordLoginFail | api/auth.go:254-258 | One failure recorded, with the window's deadline set only by the first |
| Server.Handlers.Logout | api/auth.go:151-159 | Both keys go in one DEL, or neither goes; the request fails unless the DEL is answered |
| Server.Handlers.ChangePassword | api/auth.go:178-222 | Checks, writes and drops the session in the specified order, whatever happens to its calls |
| Server.Handlers.KickAdminSession | api/auth.go:263-274 | Removes the indexed session and the index of the named account, best effort |
| Server.Handlers.AuthMiddleware | api/middleware.go:71-107 | Admits a request if and only if the token names a live session, and then has slid both deadlines |
| Server.Handlers.PermMiddleware | api/middleware.go:119-127 | Lets a request pass if and only if the session's snapshot holds the code of its route (admin_user:write for account administration) or the wildcard, and always for one's own session and password |
| Server.Handlers.DeleteAdminUser | api/admin_user.go:256-283 | No self-delete, soft delete, then kick: as specified, whatever happens to its calls; 404 if and only if the account is not live |
| Server.Handlers.RestoreAdminUser | api/admin_user.go:297-321 | 404 if and only if the account is missing or live, 409 only for a deleted one, as specified |
| Server.Handlers.UpdateAdminUserRoles | api/admin_user.go:199-238 | Account looked up among the live, then the whole-set replacement with its error mapping |
| Server.Handlers.CreateAdminUser | api/admin_user.go:139-177 | Account creation with its error mapping |
| Server.Handlers.Handle | api/server.go:78-101 | An authenticated route as a whole does what the specification CallStep says, whatever happens to its calls |
| Answers.LoginAnswers | api/auth.go:58-140 | For every set of failing calls: refused unexamined if and only if five failures are counted, wrong credentials if and only if they open no live row, a session if and only if they do and none of the five calls that matter fails |
| Answers.CallAnswers | api/server.go:80-101 | A request is unauthorized if and only if its token names no live session, and forbidden if and only if the session's snapshot holds neither what its route asks for nor the wildcard |
| Answers.DeleteAnswers | api/admin_user.go:263-283 | Each answer of a deletion has its exact cause in the rows and the fate of its statement, and the tables change by the one mark exactly when it took effect |
| Answers.DeleteKicks | api/auth.go:263-274 | A kick that gets through removes the indexed session and the index |
| Answers.RestoreAnswers | api/admin_user.go:305-316 | Conflict if and only if the account is deleted and a live one has its name, not found if and only if it is missing or live, otherwise restored; and the exact effect on the tables |
| Answers.SetRolesAnswers | api/admin_user.go:212-238 | Each answer of a role replacement has its exact cause in the rows and the fate of its two statements, and the grants become exactly the requested ones of that account or stay |
| Answers.CreateAnswers | api/admin_user.go:146-176 | Each answer of an account creation has its exact cause, and exactly the new row with exactly its roles appears or no row does |
| Answers.ChangeAnswers | api/auth.go:185-222 | Each answer of a password change has its exact cause, and exactly the sender's password changes, when the statement took effect |
| Answers.LogoutAnswers | api/auth.go:151-159 | A logout is answered Ok if and only if its DEL is answered, and both keys are gone if it took effect |
| SessionAgreement.OneSessionPerUser | api/auth.go:111-137 | Under agreement an account has at most one live session |
| SessionAgreement.OpenSessionAgrees | api/auth.go:111-137 | Opening a session keeps cache and tables in agreement if and only if it strands none: the exact faults of its five calls, lost or late, are given |
| SessionAgreement.SlideAgrees | api/middleware.go:95-102 | Sliding keeps the agreement if and only if both EXPIREs take effect, neither does, or the session already had the new deadline |
| SessionAgreement.DropAgrees | api/auth.go:151-159 | Dropping both keys leaves the account offline and everybody else in agreement |
| SessionAgreement.DeleteAgrees | api/admin_user.go:268-279 | Deleting keeps the agreement if and only if it did not leave a live session unkicked |
| SessionAgreement.NewPasswordAgrees | api/auth.go:185-222 | A password change keeps the agreement whatever fails |
| SessionAgreement.LoginAgrees | api/auth.go:51-140 | A login keeps the agreement if and only if, when it opens a session, it strands none |
| SessionAgreement.CallAgrees | api/middleware.go:71-107 | An authenticated request keeps the agreement if and only if it misses no kick and does not move just one of its sender's deadlines while the session lives on |
| SessionAgreement.TickAgrees | api/middleware.go:97-102 | Passing time keeps the agreement: session and index expire at the same instant |
| SessionRuns.ServeAgrees | api/auth.go:111-137 | Every request, with any faults, keeps the agreement if and only if it is harmless |
| SessionRuns.AgreementHolds | api/auth.go:111-137 | Over every run of harmless requests each live session is indexed with the same deadline, its account's only one, and its account is not deleted |
| SessionRuns.AgreementIff | api/auth.go:111-137 | Over every run the agreement holds throughout if and only if every request was harmless |
| SessionRuns.AlwaysSound | api/middleware.go:59-65 | Whatever fails, over every run keys hold their own kind of value, an index entry never names another account's session and the tables obey their constraints |
| SessionRuns.NoFaultsHarmless | api/auth.go:128-137 | A request none of whose calls fails is harmless |
| SessionRuns.FreshIsUnused | api/auth.go:99-99 | A token nobody has logged in with is mentioned by no key |
| SessionRuns.ServeRemovesIff | api/admin_user.go:263-276 | A request removes an account if and only if it is a DELETE of it that is let through by another account's session and reaches the database |
| SessionRuns.StaffedIff | api/admin_user.go:263-276 | Somebody is left after a request if and only if it does not delete the only account not deleted |
| SessionRuns.AlwaysStaffedIff | api/admin_user.go:244-245 | Over every run of requests served one at a time, whatever fails, an account is left in every state if and only if no request deleted the last one |
| SessionRuns.AlwaysStaffed | api/admin_user.go:263-279 | In particular over every run of harmless requests |
| SessionRuns.PasswordTakesEffect | api/auth.go:185-222 | After a successful change, served at one instant, exactly the new password opens the account, every other account opens as before, and the account is offline if the DEL took effect |
| Writers.ReplacementKeepsWriterIff | api/admin_user.go:222-225 | Replacing roles leaves somebody with admin_user:write if and only if one of the requested roles carries it or the wildcard, or somebody else has it |
| Writers.DeletionKeepsWriterIff | api/admin_user.go:268-279 | Deleting leaves somebody with admin_user:write if and only if somebody else has it |
| Writers.RolesMayBeCleared | api/admin_user.go:183-185 | The sole holder can clear its own roles in one permitted, failure-free request, after which nobody holds the permission |
| Writers.MissedKickLeavesNobody | api/auth.go:271-273 | With a kick that is lost, two admins can delete each other and leave no account |
| Writers.UnnamedSessionLeavesNobody | api/auth.go:263-270 | The same with no failing call at all, once the second admin's index has expired or names another session |
| Writers.LostLookupDoubles | api/auth.go:113-118 | A login that could not read the index leaves the old session alive and the index naming only the new one |
| Writers.LostRenewalLapses | api/middleware.go:97-102 | One lost renewal of the index makes a session outlive it |
| Writers.HasWriterIff | NOTES.md:105-107 | After any request somebody has admin_user:write if and only if it did not delete the only holder, nor commit a replacement of the only holder's roles by roles none of which carries it |
| Writers.AlwaysAWriterIff | NOTES.md:105-107 | Over every run of requests served one at a time, with role replacements, stale snapshots and any faults, somebody always has it if and only if no request was one of those |
| Writers.AlwaysAWriter | NOTES.md:105-107 | In particular over every run of harmless requests without role replacement, and then every session's snapshot is its account's current role join |
| Writers.SeedStarts | db/migration/000006_add_rbac.up.sql:27-51 | The migrated database is a state from which the run theorems apply: the seeded account logs in and holds the permission |
| Writers.SeedViewerReads | db/migration/000006_add_rbac.up.sql:44-46 | The migrated role viewer carries exactly user:read, wallet:read and operation_log:read |
| SessionHistory.AcceptedIff | api/middleware.go:71-107 | Over every failure-free run a token is accepted if and only if the history of requests and answers grants it and less than the token duration has passed since its last use, and forbidden if and only if the snapshot taken at its login holds neither the code of the route nor the wildcard |
| SessionHistory.ForbiddenIff | api/server.go:80-101 | Over every failure-free run an accepted request is forbidden if and only if no role its account held at the login that drew its token carried the route's code (admin_user:write for account administration) or "*"; one's own session and password are never forbidden |
| SessionHistory.HistoryHolds | api/auth.go:111-137 | Over every failure-free run the cache holds exactly the sessions, owners and deadlines that a fold over requests and answers predicts |
| SessionHistory.GrantOrigin | api/auth.go:99-109 | Every grant goes back to one login with the right password whose payload was the account's identity and role join at that moment |
| SessionHistory.SnapshotIsTheJoin | db/sqlc/permission.sql.go:12-19 | A code is in the snapshot if and only if some role held at login carried a permission with it |
| Lockout.CounterIsWindow | api/auth.go:243-258 | Over every failure-free run the counter equals the failures of the current window, never exceeds 5, and its deadline is the first failure plus 900 seconds |
| Lockout.LockedIff | api/auth.go:19-24 | An attempt is refused unexamined if and only if five failures stand in a window opened less than 900 seconds ago |
| Lockout.LoginAnsweredIff | api/auth.go:58-86 | Over every failure-free run a login is refused if and only if five failures stand in an open window, and otherwise gets a session if its credentials open a live row and is told they are wrong if not |
| Lockout.WindowMeans | cache/cache.go:66-77 | A window opened at a failure, its count is the number of failures since, and no success lies between |
| Protocol.SoloLogin | api/auth.go:51-140 | A login whose calls nobody interrupts is the login of the serial model, whatever happens to its calls |
| Protocol.SoloCall | api/middleware.go:71-107 | The same for every authenticated request |
| Protocol.CallsRunOut | api/auth.go:51-140 | Every call, successful or not, brings its request nearer its end |
| ProtocolSafety.StepKeepsOwned | api/auth.go:113-130 | Every call, whatever fails or reports failure late, keeps sessions, index entries and in-flight requests with the account their token was drawn for |
| ProtocolSafety.NoCrossAccount | api/auth.go:263-274 | At every point of every interleaving an index entry's live session is its own account's, and a call about one account neither removes, extends nor creates a session or index entry of another |
| ProtocolLogin.AttemptsBounded | api/auth.go:59-83 | If at most K logins for a name are past the gate and unrecorded at once, counter plus in-flight never exceeds 4 + K |
| ProtocolAttempts.AttemptsBoundReached | api/auth.go:59-83 | For every K a failure-free run with at most K overlapping attempts brings the counter to 4 + K |
| ProtocolLogin.UnexpiringIff | cache/cache.go:66-77 | Over every run, whatever fails, a counter has no deadline if and only if no EXPIRE and no DEL has taken effect on it since the INCR that started it |
| ProtocolLogin.ForgottenIff | cache/cache.go:66-77 | With no EXPIRE still to come, that is so if and only if the INCR that started it was reported as failed or its EXPIRE was lost, and since then no other EXPIRE and no DEL took effect on it |
| ProtocolLogin.LockedUntil | api/auth.go:58-67 | A lock found with nobody past the gate lasts exactly until the counter's deadline, for ever if it has none, over every continuation |
| ProtocolLogin.RestingLock | api/auth.go:19-24 | An account found locked with the system at rest is still locked after fifteen minutes if and only if its counter was forgotten in that sense |
| ProtocolLogin.NoUnexpiringAtRest | cache/cache.go:66-77 | In failure-free runs a counter without a deadline has its EXPIRE still to come, so a system at rest holds no permanent lock |
| ProtocolLogin.FiveFailuresLock | cache/cache.go:66-77 | After five failures at one instant every later attempt is refused for exactly fifteen minutes if the first INCR was answered and its EXPIRE took effect, and otherwise for ever |
| ProtocolExposure.StepExposesIff | api/auth.go:113-137 | In every state of any run a step leaves a session that its index no longer covers if and only if it is an effective call of the listed kinds: writing it before its index, indexing another, dropping the index for another, renewing it ahead of its index, deleting the account |
| ProtocolExposure.StepHealsIff | api/middleware.go:95-102 | In every state of any run a step ends that if and only if the session expires or the step is an effective call of the listed kinds: dropping the session, writing it anew under an index that covers it or for another account, indexing it, renewing the index that names it, bringing its account back |
| ProtocolExposure.ExposedIff | api/auth.go:113-137 | Over every interleaved run, whatever fails, a live session is not covered by its index if and only if some effective call exposed it and no step since has ended that |
| ProtocolExposure.DeletedOnlineIff | api/admin_user.go:278-279 | A deleted account's live sessions are exactly those exposed and not ended since |
| ProtocolExposure.SecondSessionExposed | api/auth.go:111-137 | Of two live sessions of one account at least one is such |
| ProtocolOrder.StepKeeps | api/auth.go:111-137 | Every step of an orderly run keeps what each phase of the one request rewriting an account's keys relies on |
| ProtocolOrder.OrderlyAgrees | api/auth.go:111-137 | If the requests that rewrite one account's keys, or delete it, follow each other, no fault or expiry striking where it cannot be borne, then whenever none is under way the account has at most one live session, indexed by an entry that outlives it, and is not deleted, however all else overlaps |
| ProtocolOrder.FailureFreeAgrees | api/auth.go:111-137 | With no call failing it is enough that the requests rewriting the account's keys follow each other and that its index does not expire between the two renewals of a request |
| ProtocolOrder.DeletedIsOffline | api/admin_user.go:278-279 | Under the same condition a deleted account is offline as soon as its deletion is through |
| ProtocolAdmins.StaffedIff | api/admin_user.go:263-276 | A step of any interleaving leaves an account if and only if it is not the effective statement of a deletion of the only account not deleted |
| ProtocolAdmins.AlwaysStaffedIff | api/admin_user.go:244-245 | Over every interleaved run, whatever fails, an account is left in every state if and only if no statement deleted the last one |
| ProtocolAdmins.OrderlyStaffed | api/admin_user.go:244-245 | If every account's requests are orderly and nobody is kicked while a deletion they sent is let in and has not run its statement, an account is left in every state |
| ProtocolAdmins.HasWriterIff | NOTES.md:105-107 | After any step of any interleaving somebody has admin_user:write if and only if it did not delete the only holder, nor commit a replacement of the only holder's roles by roles none of which carries it |
| ProtocolAdmins.AlwaysAWriterIff | NOTES.md:105-107 | Over every interleaved run, whatever fails, somebody always has it if and only if no statement was one of those |
| ProtocolAdmins.AlwaysConsistent | db/migration/000007_add_soft_delete.up.sql:12-13 | At every step of every interleaving live usernames are unique and roles name existing rows |
| ProtocolPasswords.EverythingChecked | api/auth.go:85-130 | Whatever fails, if an account is offline and no login of it is between its check and its session, every later session and every later login past its check goes back to a check made since |
| ProtocolPasswords.ChangeShutsOut | api/auth.go:185-222 | When the account's requests are orderly up to the DEL that ends a password change and that DEL takes effect, every session of the account is, until the password is next written, one opened since by a login that presented the new password |
| ProtocolRaces.TwoLoginsTwoSessions | api/auth.go:113-130 | Two overlapping logins of one account, with no call failing, leave two live sessions |
| ProtocolRaces.DeletedButLoggedIn | api/admin_user.go:268-279 | A deletion between a login's database checks and its cache writes, with no call failing, leaves a live session of a deleted account |
| ProtocolRaces.LogoutAfterRelogin | api/auth.go:151-159 | A logout whose DEL comes after a new login of the account leaves the new session without its index, with no call failing |
| ProtocolRaces.OldPasswordOutlives | api/auth.go:185-222 | A login that checked the old password before the change and writes its session after the DEL stays logged in, with no call failing |
| ProtocolRaces.CrossfireLeavesNobody | api/admin_user.go:244-245 | Two admins each let in to delete the other: the first deletion completes, kick included, and the second's statement then leaves no account, with no call failing and its sender offline by then |
| ProtocolRaces.SlowRenewal | api/middleware.go:95-102 | A single request whose session is renewed just before and whose index just after the deadline leaves the session without its index, with no call failing and no overlap |
| Paging.PagesPartition | web/src/components/Pagination.vue:11-11 | On an unchanging listing below 2^31 rows the offered pages concatenate to the listing, none of their int32 offsets wraps, and none is empty unless the listing is |
| Paging.ServedTrulyIff | api/user.go:155-159 | For any page number the page served is the page named if and only if the offset is below 2^31 or its remainder by 2^32 is an int32 past the end |
| Paging.WrappedToFirstPage | api/wallet.go:187-191 | Page 536870913 at eight rows per page is page 1 |
| Paging.ListingIsFilter | db/sqlc/user.sql.go:94-100 | The listing holds each matching id once, in increasing order |
| Paging.ListingLength | db/sqlc/user.sql.go:12-15 | Its length is the count shown beside it |
| Paging.WalkShowsAll | api/user.go:148-184 | Walking the pager shows every live user exactly once |
| Paging.GroupRoles | api/admin_user.go:98-101 | The loop gives each account its own role rows, in order |
| Paging.AttachRoles | api/admin_user.go:103-113 | Each listed account appears once with its own roles, an empty list when it has none |
| Paging.RolesForIs | db/sqlc/admin_user_role.sql.go:41-46 | A role is shown under an account if and only if a role row says so |
| Paging.RolesForAppends | db/sqlc/admin_user_role.sql.go:41-46 | The roles of an account keep the order of the rows |

## Left out

- SessionHistory.AcceptedIff: stated for runs in which no call fails; what single faults break is in SessionAgreement.
- Lockout.LockedIff: stated for runs in which no call fails; overlap and faults are in ProtocolLogin.
- AccountStore.Store.CreateUserTx: assumes the one-to-one relation that Accounts.RunKeepsConsistent proves of every reachable state.
- AdminStore.Store.CreateAdminUserTx: assumes the consistency that AdminRuns.RunKeepsConsistent proves of every reachable state.
- ProtocolOrder.OrderlyAgrees: a sufficient condition; the exact statement over runs is ProtocolExposure.ExposedIff.
- ProtocolOrder.DeletedIsOffline: a sufficient condition; the exact statement over runs is ProtocolExposure.DeletedOnlineIff.
- ProtocolAdmins.OrderlyStaffed: a sufficient condition; the exact statement over runs is ProtocolAdmins.AlwaysStaffedIff.
- ProtocolPasswords.ChangeShutsOut: says nothing about a change whose DEL is lost, which the handler tolerates; the sender's session then lives on.
- Two role replacements of one account at the same time: under READ COMMITTED they can end in a union; replacement and account creation are one step of `Protocol`.
- A connection lost during the COMMIT of a wallet adjustment or user creation whose outcome is unknown: COMMIT either takes effect or fails.
- Password hashing and checking: a hash is represented by the password it accepts, and hashing a new password does not fail.
- Random tokens: a parameter of each login, distinct over a run.
- JSON of the session payload and the text of cached values: values are typed, and a value of the wrong kind is answered as the unmarshalling error is.
- The 64-bit overflow of Redis INCR: the counter is unbounded here.
- Row timestamps, user and wallet fields beyond those named, and the response bodies built from them.
- adjustWallet's request binding (amount 0 is rejected) and status codes: settled by reading one branch.
- The collation that orders permission codes: the snapshot's order is the order in which the table lists them.
- Front-office password changes, the dashboard's permission-dependent parts, listRoles and the operation log.
- Routing, binding, CORS, request ids, audit log and its masking, recovery, time-outs, Swagger, configuration, shutdown and the health checks.
- Scheduled jobs and the cleanup of old operation logs.
- The Vue front end except the page count.
