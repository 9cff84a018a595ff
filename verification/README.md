# Banking back end, phase 8: a verified model

The phase-8 back end takes HTTP requests in an API producer, publishes them to RabbitMQ, processes them
in consumers against Postgres and answers through Redis keys that the producer polls. This project models
that system and proves what holds in every run of it, with any number of producers and consumers,
interleaved database statements, crashes, redeliveries, late replies and failing Redis calls. Where the code
does not keep a promise, a run that breaks it is given, and the exact condition under which it is kept.

Check everything with `dafny verify dfyconfig.toml` (Dafny 4.11).

## How it is organised

| file | what it holds |
|---|---|
| `Text.dfy`, `Collections.dfy`, `Runs.dfy` | string operations; sums over maps, sequences without repetition, cycles, permutations; runs of any machine and what they keep |
| `Bank.dfy`, `TransferRules.dfy` | the tables, the ledger, and `TransferAlone`: the transfer rules as a sequential program; what those rules say, column by column |
| `Transfers.dfy` | concurrent transfers, one row lock at a time, and the invariant of that machine |
| `Serialisability.dfy`, `OverflowBound.dfy` | commit order: the tables, and which answers; ledger; conservation; the exact 32-bit bound |
| `Windows.dfy`, `Places.dfy`, `Orders.dfy`, `WindowOrder.dfy`, `OrderWitness.dfy` | each request's window, from its receiver statement to its end; the users that entries leave in any order; which orders within the windows explain the answers; a run that no order explains |
| `Deadlock.dfy`, `TransferWitnesses.dfy` | who waits for whom, the shape of deadlocks, that everybody ends; runs that break stronger claims |
| `Rpc.dfy`, `Polling.dfy` | request and reply over the queue and Redis; the timed wait loop |
| `Backend.dfy`, `Guarantees.dfy`, `Replies.dfy`, `ErrorReplies.dfy`, `Silence.dfy`, `BackendWitnesses.dfy` | the product of `Transfers` and `Rpc` with sessions and push notices; what 200, 400 and 404 mean; what handlers reply and push; what 500 means; what 502 and 504 mean; what answers do not say |
| `Consumer.dfy` | the transfer consumer as a class, proved against `TransferAlone` |
| `LoginCache.dfy`, `LoginRules.dfy`, `LoginAgreement.dfy` | logins through the cache, step by step; what a login answers, caches and opens, and whose sessions there are; what interleaved logins decide, next to the table |
| `Registration.dfy`, `RegistrationRules.dfy` | concurrent registrations with failures and redeliveries; whose data they store, and that the handler as written is one of their runs |
| `AdminStats.dfy`, `Paging.dfy`, `Presence.dfy`, `Backfill.dfy` | admin counters, page walk, presence key, account-number migration |

A machine is a `State`, a `Step`, a guard `Enabled` and an effect `Apply`; a state is `Reachable` when some
list of steps leads to it from the empty system (`Runs`). A theorem about every run is a lemma about every reachable
state. The concurrent machine writes balances from the copies a handler read under its locks; the
sequential rules work on the committed tables; that the two agree is what is proved.

## Assumptions

- Amounts are integers (phase4-application-v2/services/transfer-service/main.py:58). Uuids are fresh.
- A commit is atomic. One that raises without having taken effect is a rollback; one that took effect and whose
  acknowledgement was lost is `Backend.RaisesLate`. `SELECT ... FOR UPDATE` fixes the matching rows when the statement
  starts, locks them one at a time, returns the latest committed row and is re-entrant for its own transaction.
- Users are created by registering only and are never deleted; only balances change. `username` is not unique.
  No user is ever given an id below that of the oldest one.
- Redis keys vanish at their expiry or earlier. Only `Polling` and `Rpc.ReadMissesIff` are about reply keys that do not
  vanish early. A Redis write that raises may or may not have taken effect.
- A message whose channel is lost is delivered again, even while its first handler still runs. In `Registration`
  a message may be delivered any number of times.
- A presence refresh is never early and at most a given lag late; Redis is up for presence.

## Where the code and the documents differ

- The handlers' comments say the logic is the same as in version 2. A missing or expired session, which version 2
  answers with 401, is an exception inside `process_message` here and is answered with 500
  (`Consumer.TransferService.ProcessMessage`).
- An answer 500 hides a committed transfer exactly if something raised once the commit had taken effect: the commit
  itself, by losing its acknowledgement, a row read again (`expire_on_commit` keeps its default in
  common/db.py:26, so phase8-application-v3/services/transfer-service/main.py:78-96 reads the users anew), the push, or the
  store of the 200 (`ErrorReplies`). A 502 or 504 says nothing about the transfer, a redelivered message can be carried
  out twice, and a 400 can follow an earlier delivery that did commit (`BackendWitnesses`).
- A transfer by user name does not see a second bearer of the name who registers after its receiver statement has
  begun, so commit order explains all answers exactly when that does not happen (`Serialisability`). All
  registrations and committed transfers are serialisable nevertheless. With the refusals, some order that
  places each request between its receiver statement and its end explains all answers, exactly if
  no refusal for want of funds has credits on their way that would have paid and can no longer be placed after
  it (`WindowOrder`). There is a history that no order at all explains (`OrderWitness`).
- A registration whose handler fails after its commit leaves a user who is never told: no delivery for that phone is
  ever answered 200, and those that still check or insert get 409 (`Registration`).
- A login served from the cache by user name is answered differently from the table exactly when the name had
  several bearers as it looked; any other login that no failure ends is answered as by the table at that time,
  whatever runs between its steps (`LoginAgreement`).
- The admin page walk returns what it has when a request fails. It misses somebody exactly when a request fails or
  registrations fall between the last request's count and its rows so that rows remain beyond its page (`Paging`).

## Model

| member | source | states |
|---|---|---|
| TransferRules.PaidIff | phase8-application-v3/services/transfer-service/main.py:54-80 | a request made alone is answered 200 if and only if it is well-formed, exactly one user bears the account number given (or, without one, the name), that is not the sender, the sender has the amount and the receiver's column has room; and then these two balances move by it, with one row and two notes, and nothing else |
| TransferRules.MalformedAnswersIff | phase8-application-v3/services/transfer-service/main.py:43-51 | each 400 given before the database is opened, with its exact condition, and the tables as they were |
| TransferRules.EarlyAnswersIff | phase8-application-v3/services/transfer-service/main.py:54-64 | the two 404s and the exception for several receivers, each with its exact condition, and the tables as they were |
| TransferRules.LateAnswersIff | phase8-application-v3/services/transfer-service/main.py:65-72 | with one receiver: paying oneself, want of funds and want of room, each with its exact condition; the tables change if and only if the answer is 200 |
| Transfers.StepKeepsLocks | phase8-application-v3/services/transfer-service/main.py:54-61 | each database statement keeps the lock discipline: a held copy equals the committed row, no row is held twice, and a handler holds what its progress says |
| Transfers.DecideIsEntry | phase8-application-v3/services/transfer-service/main.py:65-77 | the writes made from the handler's own copies are the settlement of that transfer on the committed tables |
| Transfers.ReachableInv | phase8-application-v3/services/transfer-service/main.py:52-101 | locks, ledger and log are in order in every interleaving with aborts and crashes |
| Bank.SettleKeepsBooks | phase8-application-v3/services/transfer-service/main.py:71-76 | a funded settlement keeps every balance explained by the ledger, non-negative, notes matching rows, and the total |
| Bank.InsertKeepsBooks | phase8-application-v3/common/models.py:8-13 | inserting a user with fresh unique columns keeps the same and adds the opening balance |
| Serialisability.CommitOrderExplainsTables | phase8-application-v3/services/transfer-service/main.py:52-77 | the tables are those of the committed effects one at a time in commit order, and each entry is as if its request had run alone there if and only if its receiver then had one bearer |
| Serialisability.CommitOrderIsSerialIff | phase8-application-v3/services/transfer-service/main.py:31-96 | the bare requests made alone one at a time in commit order get the answers they got, refusals included, if and only if no receiver had a second bearer at its decision; and then they rebuild the tables |
| Windows.StepKeepsHistory | phase8-application-v3/services/transfer-service/main.py:54-77 | every step keeps each request's window: the rows that its receiver statement selected when it began, a sender nobody else touches until the request ends, and a decision on the balances of the end |
| Windows.RefusalMeans | phase8-application-v3/services/transfer-service/main.py:55-70 | in every run, why a transaction was refused: who bore the number or name when its receiver statement began, and what its sender had when it ended |
| WindowOrder.SerialisableIff | phase8-application-v3/services/transfer-service/main.py:31-96 | some order in which every request comes between its receiver statement and its end explains all answers, refusals included, if and only if no refusal for want of funds could have been paid with the transfers to its sender that were then on their way by a name which already had a second bearer |
| WindowOrder.OrderIsSerialIff | phase8-application-v3/services/transfer-service/main.py:58-70 | any such order explains all answers if and only if in it no decided request comes when its receiver's name has several bearers, and no refusal for want of funds comes after later commits that would have paid; and then it rebuilds the tables |
| WindowOrder.Serialisable | phase8-application-v3/services/transfer-service/main.py:52-96 | by number or by name, in every run: all registrations and committed transfers, made alone one at a time in one order, get the same answers and leave the same rows |
| WindowOrder.OrdersRebuild | phase8-application-v3/services/transfer-service/main.py:58-77 | replayed in any such order, the entries leave the same users and the same rows up to their order |
| WindowOrder.CommitOrderIsOne | phase8-application-v3/services/transfer-service/main.py:71-77 | commit order is one of these orders |
| WindowOrder.UnambiguousIsSerialisable | phase8-application-v3/services/transfer-service/main.py:58-61 | so a run in which no receiver's name gets a second bearer before the decision, in particular one by account numbers, has an order that explains all answers |
| WindowOrder.AnswerAtPlace | phase8-application-v3/services/transfer-service/main.py:62-70 | entry by entry: the answer at its place in such an order is the answer alone if and only if it is neither of these |
| Orders.BalanceInCut | phase8-application-v3/services/transfer-service/main.py:54-57 | wherever a request is placed within its window, its sender has what it decided on and the later commits to it that were placed before |
| OrderWitness.NoOrderExplains | phase8-application-v3/services/transfer-service/main.py:60-70 | a run of two transfers and three registrations whose answers no order of the five requests gives |
| Serialisability.AccountNumbersAreUnambiguous | phase8-application-v3/services/transfer-service/main.py:58-59 | for requests by account number no run is ambiguous, so the previous result holds unconditionally |
| Serialisability.HeldRowsAreCurrent | phase8-application-v3/services/transfer-service/main.py:54-61 | while a handler holds a row its copy is the committed one and nobody else holds it |
| Serialisability.LedgerHolds | phase8-application-v3/services/transfer-service/main.py:43-77 | in every reachable state balances follow from the ledger, rows are proper, notes match, and money equals 100000 per user |
| Serialisability.CommittedRow | phase8-application-v3/services/transfer-service/main.py:73-96 | in every run a committed entry's row moved the amount asked for to another user, who bears the account number asked for or else the name; its reply names both, the receiver's number and the amount |
| Serialisability.NotesRead | phase8-application-v3/services/transfer-service/main.py:75-76 | in every run the notes of each transfer say to whom and from whom, by name, and how much |
| Serialisability.NoCreditOverflowed | phase8-application-v3/common/models.py:13 | while 100000 times the users fits an Integer, every balance does and no decided credit ever failed for range |
| Serialisability.NoCreditOverflows | phase8-application-v3/services/transfer-service/main.py:68-72 | nor can the next decision of any handler |
| OverflowBound.BoundIsExact | phase8-application-v3/services/transfer-service/main.py:71-72 | for every larger number of users some run makes a payable transfer fail for range |
| Serialisability.TransfersTableIsCommitted | phase8-application-v3/services/transfer-service/main.py:73-77 | the transfers table is the committed rows in commit order, at most one per handler |
| Deadlock.MovesUnlessWaiting | phase8-application-v3/services/transfer-service/main.py:54-61 | a live handler can move if and only if no other handler holds the row it wants |
| Deadlock.StuckHasRing | phase8-application-v3/services/transfer-service/main.py:54-61 | if handlers are live and none can move, some wait for each other in a ring |
| Deadlock.RingBlocks | phase8-application-v3/services/transfer-service/main.py:54-61 | nobody in a ring can move |
| Deadlock.DeadlockShape | phase8-application-v3/services/transfer-service/main.py:54-61 | with single receivers the ring has each one's receiver equal to the next one's sender |
| Deadlock.AccountScansAreSingle | phase8-application-v3/common/models.py:10 | requests by account number have single receivers |
| Deadlock.HoldingBothNeverWaits | phase8-application-v3/services/transfer-service/main.py:62-77 | a handler that holds both rows can always decide |
| Deadlock.HandlersEnd | phase8-application-v3/services/transfer-service/main.py:97-101 | under any schedule, registrations and new deliveries included, the handlers take at most as many steps as those live had left and those begun bring, for the final number of users |
| Deadlock.AllCanEnd | phase8-application-v3/services/transfer-service/main.py:97-101 | from any state everybody can end with only deadlock victims aborted |
| TransferWitnesses.DeadlockHappens | phase8-application-v3/services/transfer-service/main.py:54-61 | opposite transfers between two users can deadlock |
| TransferWitnesses.SecondBearerGoesUnseen | phase8-application-v3/services/transfer-service/main.py:60-61 | a transfer by name commits although the same request run alone at its commit raises |
| Rpc.OwnReplyOnly | phase8-application-v3/common/rabbitmq_utils.py:55-91 | a producer returns only what a delivery of its own message computed and stored, or a 500 that one stored |
| Rpc.NewKeyIsEmpty | phase8-application-v3/common/rabbitmq_utils.py:55-57 | a new request finds nothing under its key |
| Rpc.AnsweredForGood | phase8-application-v3/common/rabbitmq_utils.py:79-91 | a request that was answered, with a reply, 502 or 504, stays so in the rest of the run: no later reply is read |
| Rpc.ReturnedReplyIsGone | phase8-application-v3/common/rabbitmq_utils.py:82-84 | when a reply is returned its key is deleted and no other |
| Rpc.RaisedStoreMayStand | phase8-application-v3/services/transfer-service/main.py:123-137 | a store that raises may have stored its reply; then a 500 is to be stored, or if that was one the message is rejected |
| Rpc.ErrorTellsWhatRaised | phase8-application-v3/services/transfer-service/main.py:124-137 | the 500 that a delivery stores carries the text of what raised in it |
| Rpc.ReadMissesIff | phase8-application-v3/common/rabbitmq_utils.py:79-91 | while the key does not expire a read misses if and only if no reply has been stored, so a 504 means there was none at its last read |
| Rpc.AckImpliesStored | phase8-application-v3/services/transfer-service/main.py:105-137 | an acknowledged delivery has stored a reply for its message |
| Rpc.EveryMessageAccountedFor | phase8-application-v3/services/transfer-service/main.py:104-146 | a message is queued, out with one attached delivery, or settled by an acknowledgement after a stored reply or by a rejection; never two of these |
| Rpc.DeliveriesCounted | phase8-application-v3/services/transfer-service/main.py:104-137 | a message has been delivered as often as deliveries of it were lost with their channel or process, and once more unless it is in the queue |
| Polling.Wait | phase8-application-v3/common/rabbitmq_utils.py:79-91 | at most RESPONSE_TIMEOUT*10 reads; the first read that finds the key gives the answer; a timeout only if none does |
| Polling.KeyIsThere | phase8-application-v3/common/rabbitmq_utils.py:94-105 | the key is there exactly when some write is past and not expired |
| Polling.KeyHoldsLatest | phase8-application-v3/common/rabbitmq_utils.py:103-104 | and it then holds the reply written last |
| Polling.FirstReadFindsReply | phase8-application-v3/common/rabbitmq_utils.py:79-89 | with short enough gaps the first read from the first write on finds a reply, and none before |
| Polling.NoReplyLostIff | phase8-application-v3/common/rabbitmq_utils.py:19-20 | no reply stored before the last read is lost if and only if no gap between reads outlasts the TTL |
| Backend.PartsAreReachable | phase8-application-v3/services/transfer-service/main.py:104-137 | every run of the whole is a run of the transfers and of the message protocol, so all results on those hold of it |
| Backend.ReachableInv | phase8-application-v3/services/transfer-service/main.py:31-137 | in every run of the whole, transactions, log entries, pending pushes and computed replies belong to the deliveries they say |
| Guarantees.OkMeansCarriedOut | phase8-application-v3/services/transfer-service/main.py:71-96 | 200 means a delivery of that very message committed that very transfer for the session's user, to whoever bears the number or name asked for, computed that reply, and pushed the receiver its notice |
| Guarantees.RefusalMeansNothingDone | phase8-application-v3/services/transfer-service/main.py:43-70 | 400 or 404 means the delivery that stored it committed nothing and holds nothing; and it is the refusal of a malformed request, or the one its transaction was logged with |
| ErrorReplies.ErrorHidesCommitIff | phase8-application-v3/services/transfer-service/main.py:77-96 | a delivery that stored a 500 has committed if and only if its handler raised after the commit had taken effect (acknowledgement lost, a row not read again, the push), or had succeeded and the store of its 200 raised |
| ErrorReplies.ErrorAnswer | phase8-application-v3/services/transfer-service/main.py:124-137 | an answer 500 was stored by a delivery of that message, of which the same holds |
| Guarantees.RowsNeverExceedDeliveries | phase8-application-v3/services/transfer-service/main.py:104-137 | a message is carried out at most once per delivery |
| Guarantees.RowsNeverExceedLosses | phase8-application-v3/services/transfer-service/main.py:104-137 | and so at most once more than its deliveries were lost with their channel or process |
| Guarantees.SingleDeliveryTellsAll | phase8-application-v3/services/transfer-service/main.py:104-137 | if none was lost so, or with one delivery, 200 means exactly one row, 400 and 404 none |
| Guarantees.BooksSurviveRedelivery | phase8-application-v3/services/transfer-service/main.py:104-137 | in every run of the whole, redeliveries included, the ledger holds and the tables are those of the commits in order |
| Guarantees.SenderOwnsSession | phase8-application-v3/common/redis_utils.py:82-94 | each committed sender is the one user whose verified login opened the presented session, which was younger than SESSION_TTL at the check |
| Guarantees.LiveSessionIsServed | phase8-application-v3/services/transfer-service/main.py:37-50 | a request with a session less than a day old is served for the session's user, or refused as malformed |
| Guarantees.LoginOpensSession | phase8-application-v3/services/auth-service/main.py:111-115 | what the login service checks, cache or no cache, is what opening a session asks for |
| Guarantees.PushAfterCommit | phase8-application-v3/services/transfer-service/main.py:76-78 | a pushed text is a row of the notifications table for that user, who is the receiver of a committed transfer, and says how much came from whom |
| Replies.SuccessMeansPushed | phase8-application-v3/services/transfer-service/main.py:78-96 | wherever a handler returned 200 for a transfer, its receiver was pushed that notice |
| Replies.RefusalIsItsOwn | phase8-application-v3/services/transfer-service/main.py:43-70 | what a handler refused is what the checks before the database, or its transaction, refused it with |
| Silence.SilenceMeans | phase8-application-v3/producer/main.py:102-118 | 504 if and only if the producer gave up waiting, after 600 reads; 502 if and only if its channel or Redis broke; every other status was read from the reply key |
| BackendWitnesses.ErrorAfterCommit | phase8-application-v3/services/transfer-service/main.py:77-96 | runs that answer 500 for a committed transfer, with its notice sent and not |
| BackendWitnesses.CarriedOutTwice | phase8-application-v3/services/transfer-service/main.py:105-124 | a run in which one message is committed twice and answered 200 |
| BackendWitnesses.RefusedAfterCommit | phase8-application-v3/services/transfer-service/main.py:68-70 | a run that answers 400 although an earlier delivery committed |
| BackendWitnesses.SilenceSaysNothing | phase8-application-v3/producer/main.py:105-113 | for 502 and for 504 a run in which the transfer was carried out and one in which it was not |
| Consumer.TransferService.HandleTransfer | phase8-application-v3/services/transfer-service/main.py:31-101 | tables and reply of the sequential rules; if reading the rows again or the push fails after the commit it raises with the transfer standing, the notice sent or not |
| Consumer.AftermathMeans | phase8-application-v3/services/transfer-service/main.py:77-96 | which failures after the commit are raised, and whether the notice was sent |
| Consumer.TransferService.ProcessMessage | phase8-application-v3/services/transfer-service/main.py:104-137 | a health check touches nothing and is answered healthy; anything else does to the tables what the session's user asked for alone, and a stored 200 means one more row of that user and amount; without a session nothing happens and the reply is a 500; an acknowledgement means the handler's reply or a 500 is stored, whatever failing stores have written |
| LoginCache.AuthService.HandleLogin | phase8-application-v3/services/auth-service/main.py:82-117 | decision, cache and sessions after the call, in terms of the state before and of which Redis calls fail; whoever is let in has a session of their own for a day, and no other session changes |
| LoginRules.ServesMiss | phase8-application-v3/services/auth-service/main.py:97-117 | without an entry the one user with that phone or name is let in if and only if the password verifies, and cached under phone and name for 300 s |
| LoginRules.ServesHit | phase8-application-v3/common/redis_utils.py:49-63 | a live entry under that phone or name decides, and cache and table stay |
| LoginRules.ServesNobody | phase8-application-v3/services/auth-service/main.py:104-108 | without an entry nobody is told 401 and several raise, and nothing changes |
| LoginRules.ServesFailure | phase8-application-v3/services/auth-service/main.py:96-117 | a failing Redis call makes it a 500; what was written before it stays, and what it may have written itself |
| LoginRules.ServesBadInput | phase8-application-v3/services/auth-service/main.py:89-94 | missing input and a phone that is not digits are told first, exactly then |
| LoginRules.SessionsAreVerified | phase8-application-v3/common/redis_utils.py:82-85 | in every run a session belongs to a user whose password verified in some login by that user's phone or name, and lasts a day at most |
| LoginRules.LetInMeansSession | phase8-application-v3/services/auth-service/main.py:115-117 | the last step of a login that lets somebody in opens a session for that user for a day |
| LoginRules.SameSession | phase8-application-v3/common/redis_utils.py:82-94 | the session the transfer back end goes by is the one the login wrote: same user, alive just as long |
| LoginCache.ServeDecides | phase8-application-v3/services/auth-service/main.py:82-117 | without failures the decision is that of cache or table; failures can only turn it into a 500 |
| LoginCache.ServeIsARun | phase8-application-v3/services/auth-service/main.py:96-117 | the login as written, with any of its calls failing, is a run of the steps that may interleave |
| LoginCache.StepKeepsInv | phase8-application-v3/common/redis_utils.py:66-79 | every cached row is that of an existing user up to the balance, and was the committed one when it was cached |
| LoginAgreement.LoginAgreesIff | phase8-application-v3/services/auth-service/main.py:96-117 | however others run between its steps, a login that no failure ends is answered as by the table when it looked, for the same user, unless the cache answered for a name that already had several bearers; and then as by the table at no time since it began |
| LoginAgreement.SharedNameLetIn | phase8-application-v3/common/redis_utils.py:49-63 | a run with such a login, let in by the cache under a name of two |
| LoginCache.PhoneLoginAgrees | phase8-application-v3/services/auth-service/main.py:96-117 | with nothing between its steps, in any reachable state, a phone login decides as the table then would |
| LoginCache.NameLoginAgreesIff | phase8-application-v3/common/redis_utils.py:49-63 | likewise a name login, if and only if there is no live entry or the name has one bearer |
| LoginCache.HitIsRecent | phase8-application-v3/common/redis_utils.py:66-79 | the balance shown with a hit was the committed one when its row was read, and the entry was written at most USER_CACHE_TTL ago |
| LoginCache.CachedNameShared | phase8-application-v3/common/redis_utils.py:49-63 | a run after which cache and table decide differently: a cached name with two bearers |
| LoginCache.OpenedIsVerified | phase8-application-v3/services/auth-service/main.py:111-115 | whoever gets a session bears the phone or name given, and the password verifies against the hash in the table |
| LoginCache.MissIsNotCached | phase8-application-v3/services/auth-service/main.py:104-108 | an unknown user leaves no trace in the cache and has no entry |
| Registration.RegistrationsAddUp | phase8-application-v3/services/auth-service/main.py:56-77 | unique columns and 100000 per user under any interleaving, failure and redelivery; as many users as answers 200 if and only if no delivery is or ended between its commit and its answer |
| Registration.OneRowPerPhone | phase8-application-v3/services/auth-service/main.py:57-77 | of all deliveries for one phone at most one ever inserts, so at most one is answered 200 |
| Registration.LostAnswerIsFinal | phase8-application-v3/services/auth-service/main.py:71-77 | once a delivery failed after its commit, no other for that phone is ever answered 200; those still to check or insert get 409 |
| Registration.UserWithoutAnswer | phase8-application-v3/services/auth-service/main.py:71-74 | a run with a user and no 200: the redelivered registration is told 409 |
| Registration.WinnerHasRow | phase8-application-v3/services/auth-service/main.py:69-74 | a 200 reports the row that delivery inserted: its phone, number, name and hash in their columns, and the opening balance |
| RegistrationRules.RowIsTheCallers | phase8-application-v3/services/auth-service/main.py:50-74 | in every run each inserted row is what the message said: its phone, all digits, and its name, without spaces around, the hash of that delivery, the last number it drew |
| RegistrationRules.TurnedDownMeans | phase8-application-v3/services/auth-service/main.py:53-59 | 400 if and only if the phone is not digits; 409 before the insert only if somebody has the phone |
| RegistrationRules.RegisterIsARun | phase8-application-v3/services/auth-service/main.py:48-79 | the handler as written, with nothing between its statements, is a run of the concurrent machine |
| Registration.GivingUpMeansAllTaken | phase8-application-v3/services/auth-service/main.py:60-67 | 503 only when all 20 numbers drawn were taken |
| Registration.FirstInsertWins | phase8-application-v3/services/auth-service/main.py:70-77 | an insert goes through if and only if no other delivery has inserted its phone or its number before; otherwise 409 and nothing changes |
| Registration.LaterInsertsLose | phase8-application-v3/services/auth-service/main.py:75-77 | once one delivery has inserted a phone, every other that comes to insert it gets 409 |
| Registration.ConflictMeansRival | phase8-application-v3/services/auth-service/main.py:75-77 | whoever the constraints turned down lost to a delivery that did insert that phone or number |
| Registration.Registrar.HandleRegister | phase8-application-v3/services/auth-service/main.py:48-79 | run alone: the reply and the table by phone check and first free number |
| AdminStats.CountersStayOrdered | phase8-application-v3/services/account-service/main.py:80-85 | the five counters keep their order whatever commits between them, the amount is what all users together have sent, and the outer two are exact if and only if nothing relevant did |
| Paging.FetchUsers | scripts/random_transfers.py:116-133 | on a fixed table and without failures the walk gives the table; while users are added nobody counted at the start is missed if and only if no request fails and the last one's rows end with its page; the walk ends |
| Paging.PagesCover | phase8-application-v3/services/account-service/main.py:103-104 | the stopping test holds exactly when the pages so far reach the total |
| Paging.PageHolds | phase8-application-v3/services/account-service/main.py:102-104 | a page says how many users were counted and how many pages they fill, and holds just the rows of its place in the list |
| Paging.PlacesOnlyRise | phase8-application-v3/services/account-service/main.py:103 | adding users never moves anybody to an earlier place |
| Paging.TornRequestMisses | phase8-application-v3/services/account-service/main.py:102-103 | a registration between count and rows can hide a user |
| Presence.OnlineMeansRecentSocket | phase8-application-v3/services/notification-service/main.py:124-130 | a live key means a socket of the user refreshed it less than 60 s ago |
| Presence.RefreshesEveryPeriod | phase8-application-v3/services/notification-service/main.py:124-128 | a socket refreshes the key every 20 s: never sooner, and while it is open later by the lag at most |
| Presence.OfflineIffDeleted | phase8-application-v3/services/notification-service/main.py:142-152 | with a greeted socket open and refreshes less than 40 s late, offline if and only if the last change of the key was a closing socket's delete |
| Presence.OfflineOnlyAfterClosing | phase8-application-v3/services/notification-service/main.py:142-152 | a missing key with a socket open means its first refresh is still due, or another socket closed at most 20 s and the lag ago |
| Presence.ClosingHidesOther | phase8-application-v3/services/notification-service/main.py:149-152 | a user with an open socket can be shown offline |
| Backfill.Run | phase4-application-v2/helm-migration-job.yaml:46-66 | ends with everybody numbered, old numbers untouched, new ones 12 digits and unique; or a hundred draws in a row were taken; a table without gaps is left as it is, so a second run changes nothing |
| Backfill.DrawFree | phase4-application-v2/helm-migration-job.yaml:54-62 | a free 12-digit number within a hundred draws, or all hundred are taken |
| Backfill.PaddedDiffers | phase4-application-v2/helm-migration-job.yaml:56 | different draws give different account numbers: no digit is lost |
| Text.StripCuts | phase8-application-v3/services/transfer-service/main.py:41-42 | the spaces at both ends are cut off, all of them, and nothing else |

## Left out

- bcrypt, uuid and random generation: an abstract verifier, fresh ids and arbitrary draws stand for them.
- HTTP, gateway, CORS, Sentinel URLs, metrics, tracing, logging and masking: plumbing.
- Non-integer amounts, column lengths and Unicode digits or spaces: amounts are integers, digits are 0-9.
- `path_to_queue` and the dispatch chains of the account and notification services: which queue and handler a path leads to; messages here carry their action.
- The balance, lookup and admin detail queries and the search term: single reads.
- The account, auth and notification `process_message` bodies: the same shape as the transfer one, which is modelled.
- `transfer` in scripts/random_transfers.py: each client retry is a new request, for which `Guarantees` holds.
- LoginCache.AuthService.HandleLogin: has no interleaving; that is the machine of the same module, of which it is a run (`LoginCache.ServeIsARun`).
- Paging.FetchUsers: users are their ids; the search term, and a page or size below 1, are not modelled.
- WindowOrder.SerialisableIff: while 100000 times the users fits an Integer; beyond that a credit placed earlier could fail for range. Orders that break the windows are not considered.
- WindowOrder.Serialisable: under the same bound.
- Consumer.TransferService.HandleTransfer: database calls before the commit do not fail; in `Backend` they do (`Rollback`).
- Presence.OnlineMeansRecentSocket: one user's sockets; the delete and the cancelled refresh of a closing socket do not race.
- Registration.Registrar.HandleRegister: has no interleaving and no failures; those are in the machine of the same module, of which it is a run (`RegistrationRules.RegisterIsARun`).
- Registration.RegistrationsAddUp: how a reply travels and when exactly a message is delivered again is `Rpc`, where it is modelled for transfers.
- Exactly-once transfer and freedom from deadlock: the code does not provide them; redelivery and victim aborts are modelled instead.
- `backend/`, the version-1 services, the chatbot, the frontends, load tests and manifests.
