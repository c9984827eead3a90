# Verification model of CChat_server

CChat_server is a chat back end: several ChatServers share one Redis and one MySQL database. This
project models the parts of it whose correctness depends on order and concurrency, and proves what
they guarantee:

- **Login, kick and teardown** under a leased Redis lock (`LeaseLock`, `LoginProtocol`,
  `LoginInvariant`, `LoginTheorems`, `LoginCourse`, `LoginAssumptions`, `ChatServer`, `Deployment`).
  The protocol is a state machine whose steps are single Redis commands and single map operations,
  interleaved freely over any number of servers, sessions, logins and teardowns, with a clock. Safety
  is proved over all runs that meet four assumptions on the environment (logins get the lock, kick
  calls arrive, Redis commands take effect, sections end within the lease); for each assumption a run
  that breaks only that one shows what is lost. `LoginCourse` says what one undisturbed login or
  teardown does in any run, `ChatServer` has the methods in place, and `Deployment` proves that they do
  to all the servers together what the state machine does.
- **The framed byte stream of a session** (`Bytes`, `Frame`, `SessionIo`, `Link`): frame encoder, bounded send
  queue with one write in flight, two-stage reader, and the end-to-end theorem for every
  interleaving of sends, completions and TCP segments. `Monitor` is the queue between the reader
  and the logic thread, with its condition variable.
- **Friends, private chats and registration in MySQL** (`ChatDb`, `ChatTxn`, `ChatTxnProof`,
  `ChatTxnReports`, `FriendDao`, `Registration`, `Paging`): once as transactions interleaved statement by statement with row locks,
  unique keys and rollback, once as the retry loops in place under scripts of failing statements.
- **The connection pools** (`RedisPool`, `MySqlPool`): borrowers and the health checker, step by step.
- **The URL codec and query parser** (`UrlCodec`, `QueryString`).

The classes of `ChatServer`, `SessionIo` and the pools are proved against their state machines. In the
pools the methods are proved to stay within every relation of states and numbers of passes that the steps
of the machine respect, the least of which is reachability, with other threads at work wherever the mutex
is free. The acquire loops run against every behaviour of the other clients and every length of sleeps,
and the classes of `ChatServer` keep a trace of what they do, in its order. `FriendDao` has the retry loops, with other clients at work between the attempts, proved
against the table effects of `ChatDb` that the machine of `ChatTxn` commits; `Registration.MysqlDao` and
`Monitor.MsgQueue` are single calls run alone.

## Where the code does not do what one would expect

Each of these is proved, with the exact condition under which the code does meet the property.

- Logging in again on the connection that is already recorded disconnects that connection
  (`LoginCourse.ReloginKicksItself`).
- `CheckConnection` of the MySQL pool can destroy a healthy connection without counting it: a
  connection that the pass has just put back is taken a second time when others were borrowed
  meanwhile, is then too young to be checked, and is dropped (`MySqlPool.HealthyConnectionCanBeLost`,
  `MySqlPool.StepLosesIff`, `MySqlPool.LossIsPossibleIff`).
- The Redis pool reconnects only after a successful ping; once every context has failed it stays empty
  for good (`RedisPool.OneBadPassIsFinal`, `RedisPool.HealsIff`).
- Two registrations of one name that overlap are both committed (`Registration.OverlapDuplicatesName`,
  `Registration.NamesDistinctIff`, `Registration.StaysSafeIff`).
- A private chat that exists before an application is accepted makes every AddFriend of the pair fail
  (`ChatTxnProof.ChatBlocksFriendship`, `FriendDao.FaultFreeAddFriendIff`).
- A lock time-out after step 6 of AddFriend leaves reports of rolled-back messages in `chat_datas`
  (`ChatTxnReports.ReportsExactIff`, over all interleavings; `FriendDao.TimeoutAtCommitLeavesStaleReports`,
  `FriendDao.ResentApplicationLeavesStaleReport`, `FriendDao.ReportsAlwaysExactIff`).
- The last page of LoadChatMsg has the cursor 0, from which everything would come again
  (`Paging.LastPageStartsOver`); a client must go on from its last message (`Paging.PagesResume`).
- The thread pager loses a row when a private chat and a group share a thread id
  (`Paging.ThreadPagerLosesNothingIff`); with page size 0 it never moves.
- The stop-time drain of the message queue never ends when a registered message is queued
  (`Monitor.DrainEndsIff`), and the stop notification can be lost (`Monitor.StopCanBeMissedIff`).
- UrlDecode aborts exactly on a `%` that two letters or digits do not follow (`UrlCodec.AbortsIff`).

Where code and documentation differ the model follows the code: the repository's README.md says that
message delivery takes the user's lock too and that leases are set with PX, but delivery takes no
lock (ChatServer/src/logic_system.cc:790-824) and the lease is set with EX in seconds
(Common/src/dist_lock.cc:40-42); the columns `descs` and `bakname` of friend_apply, which the code
reads and writes, are missing in _sql/table.sql.

## Model

| member | source | states |
|---|---|---|
| `LeaseLock.HolderKeepsLease` | Common/src/dist_lock.cc:29-52 | a granted lease is what Redis stores until its deadline, whatever other clients attempt or release, unless its own identifier is released |
| `LeaseLock.MutualExclusion` | Common/src/dist_lock.cc:29-76 | over all runs: a second grant of a key comes only after the first deadline or after a release that carries the first identifier |
| `LeaseLock.OwnerIsRecent` | Common/src/dist_lock.cc:29-76 | after a grant the stored owner is that identifier or one of a later attempt, so an older client is never the owner again |
| `LeaseLock.StaleReleaseChangesNothing` | Common/src/dist_lock.cc:54-76 | with unique identifiers, a release with the empty identifier or with one that lost the lock to a later grant leaves the store as it is |
| `LeaseLock.WokenStaysWithin` | Common/src/dist_lock.cc:29-52 | what a client and the others do up to its n-th attempt are steps of the lock machine: no closed set of configurations is left |
| `LeaseLock.GetsIff` | Common/src/dist_lock.cc:36-51 | some attempt in time finds the lock free if and only if the first attempt that is not refused is in time |
| `LeaseLock.RedisServer.AcquireLock` | Common/src/dist_lock.cc:29-52 | the retry loop against every behaviour of other clients during its sleeps: each attempt before the last was made in time and met a held lock; the last met a free one and takes it for a fresh lease, or the time was over; so the empty identifier comes exactly if no attempt in time would find the lock free |
| `LeaseLock.RedisServer.ReleaseLock` | Common/src/dist_lock.cc:54-76 | the script is the release step of the lock machine: success exactly when the unexpired lease carries the identifier, and only then the key is deleted |
| `LoginInvariant.StepKeepsInv` | ChatServer/src/logic_system.cc:462-511 | every single command of a login or teardown, every session event, give-up, harmless failure and clock tick keeps the protocol invariant |
| `LoginInvariant.ReliableRunsKeepInv` | ChatServer/src/logic_system.cc:462-511 | the invariant holds in every state of every reliable run |
| `LoginInvariant.OneSectionPerUid` | ChatServer/src/logic_system.cc:467-472 | two activations inside their critical section for one uid are the same activation |
| `LoginInvariant.QuietWhenFree` | ChatServer/src/logic_system.cc:463-511 | the invariant with a free lock: record, index and bound sessions of the uid agree |
| `LoginInvariant.SectionStep` | ChatServer/src/logic_system.cc:474-510 | a command inside a section that keeps to its own uid, and sets up what its next command or the release needs, preserves what every other section and every free uid rely on |
| `LoginTheorems.AtMostOneSession` | ChatServer/src/logic_system.cc:463-511 | in every reachable state with the lock of a uid free, at most one session in the union of all _sessions is bound to the uid, and usession_ and uip_ name it and its server |
| `LoginTheorems.RoutingRefinesOneMap` | ChatServer/src/logic_system.cc:790-824 | with the lock free, the lookup uip_ then GetSession finds exactly the session of one abstract map from users to sessions; both keys are present or both absent, and they agree |
| `LoginTheorems.TeardownDeletesOnlyItsOwn` | ChatServer/src/csession.cc:213-245 | a key of a record disappears only by a teardown whose own session it names: `usession_` named it then, and so did the abstract map, whatever `_user_id` the teardown reads |
| `LoginTheorems.OtherRecordSurvives` | ChatServer/src/csession.cc:213-245 | a `usession_` that names another session is what it was after every command of a teardown, and its partner `uip_` too |
| `LoginTheorems.SectionsExclude` | Common/src/dist_lock.cc:29-76 | the leased lock admits one login or teardown per uid at a time |
| `LoginCourse.LoginAlone` | ChatServer/src/logic_system.cc:462-511 | every run that goes on with the commands of one login and nothing else, from a free lock: after 9 commands the login is finished, and as soon as it is, the state is that after one whole login: the session that the records led to is kicked, the new one bound, recorded and indexed, the lock free, nothing else changed |
| `LoginCourse.KickAlone` | ChatServer/src/logic_system.cc:477-494 | within at most three commands from the GET of uip_ a login reaches SetUserId with nothing changed but the map from which the recorded session is erased |
| `LoginCourse.ReloginKicksItself` | ChatServer/src/logic_system.cc:477-510 | in every such run: when the login is finished its own session is still served if and only if it was served before and was not the recorded one |
| `LoginCourse.TeardownAlone` | ChatServer/src/csession.cc:213-245 | every run that goes on with the commands of one teardown, from a free lock: after 6 commands it is finished, and as soon as it is, the session is gone, both keys are gone exactly if they named it, the lock is free, nothing else changed |
| `LoginCourse.TeardownsAreOne` | ChatServer/src/csession.cc:213-245 | for every interleaving of the commands and lock time-outs of any number of teardowns of one session, while time passes: once all are finished the view is that after one teardown, which has won the lock if any of them has |
| `LoginCourse.RunsKeepPlaces` | ChatServer/src/user_mgr.cc:33-37 | in every run, reliable or not, each index entry of a server leads to a session of that server, so that a kick finds its target where it looks |
| `LoginAssumptions.EmptyIdentifierBreaksUniqueness` | ChatServer/src/logic_system.cc:467-472 | a login that was refused the lock for its whole acquire time goes on: a run with two bound sessions that breaks only this assumption, every give-up having been refused throughout |
| `LoginAssumptions.LostKickBreaksUniqueness` | ChatServer/src/logic_system.cc:492 | the result of the kick call is ignored: a run with two bound sessions when only a kick is lost |
| `LoginAssumptions.LostSetTearsTheRecord` | ChatServer/src/logic_system.cc:502-507 | a lost SET of usession_ leaves uip_ without its partner |
| `LoginAssumptions.ExpiredLeaseDeletesNewerLogin` | ChatServer/src/csession.cc:213-245 | a teardown that outlives its lease deletes the record of a newer login |
| `Deployment.Deployment.Login` | ChatServer/src/logic_system.cc:462-511 | the method in place does to the sessions and indices of all servers and to Redis what the state machine does in one whole login, with or without the lock, which it gets exactly if an attempt in time finds it free |
| `Deployment.Deployment.Teardown` | ChatServer/src/csession.cc:213-245 | the method in place does to the whole deployment what the state machine does in one whole teardown |
| `Deployment.Deployment.Accept` | ChatServer/src/cserver.cc:93-106 | inserting a session into the own map adds it to the sessions served anywhere and changes nothing else, as the event Insert of the state machine does |
| `Deployment.Deployment.IsServed` | ChatServer/src/cserver.cc:42-50 | for a session of this server the look into the own map answers whether any server serves it |
| `ChatServer.LogicSystem.LoginHandler` | ChatServer/src/logic_system.cc:462-511 | the critical section in place: the victim is told and erased on its server, the new session is bound, recorded and indexed, in the order that the trace says and between acquiring and releasing; the lock is won exactly if an attempt in time finds it free, and without it the section runs all the same |
| `ChatServer.LogicSystem.KickRecorded` | ChatServer/src/logic_system.cc:477-494 | the session found through uip_ and the index, here or on a peer, gets an offline notice and leaves its server; without one nothing changes |
| `ChatServer.LogicSystem.SwitchTo` | ChatServer/src/logic_system.cc:477-510 | all that happens between acquiring and releasing, and its order: lookup, kick, user id, uip_, usession_, index |
| `ChatServer.RedisMgr.AcquireLock` | Common/src/redis_mgr.cc:580-592 | with any lengths of sleeps: every attempt before the last is in time and refused; an identifier, drawn afresh, is returned at the first attempt that finds the lock free, the empty one exactly if none does before the time is over, and then nothing is changed; a free lock is taken at once |
| `ChatServer.FreeInTimeIff` | Common/src/dist_lock.cc:36-51 | some attempt in time finds the lock free if and only if the first attempt that is not refused is in time |
| `ChatServer.RedisMgr.ReleaseLock` | Common/src/redis_mgr.cc:594-606 | only the owner frees the lock |
| `ChatServer.ChatService.NotifyKickUser` | ChatServer/src/grpc_chat_service_impl.cc:201-221 | the remote kick: notice to the indexed session and removal from this server only |
| `ChatServer.CSession.DealExceptionSession` | ChatServer/src/csession.cc:213-245 | the session always leaves _sessions; the two keys go exactly if the lock was won and usession_ named this session; the lock is won exactly if an attempt in time finds it free, and given back; the trace: the record is read and deleted under the lock, the session erased before the release |
| `ChatServer.CServer.HandleAccept` | ChatServer/src/cserver.cc:93-106 | insert keeps an entry that is already there |
| `ChatServer.CServer.Expire` | ChatServer/src/cserver.cc:52-91 | the timer loop closes exactly the sessions whose last heartbeat is more than 20 seconds old and counts exactly the others |
| `ChatServer.TearDownExpired` | ChatServer/src/cserver.cc:76-91 | tearing the expired sessions down one after the other removes them all; both keys of a user go whose `usession_` names an expired session of that user, unless the user's lock was held; no other record changes |
| `Frame.NetworkRoundTrip` | ChatServer/src/msg_node.cc:17-25 | network byte order is undone for every 16-bit value, also negative ones |
| `Frame.EncodeIsBigEndian` | ChatServer/src/msg_node.cc:17-25 | the bytes of a frame by position: id and length with the more significant byte first, then the body |
| `Frame.HeaderIsBigEndian` | ChatServer/src/csession.cc:112-130 | a reader takes the first byte of id and of length for the more significant one, announces that id and length, and stops at a length above 2048 |
| `Frame.MsgNode.Send` | ChatServer/src/msg_node.cc:17-25 | the buffer filled at fixed offsets holds exactly the frame: id, length and body |
| `Frame.MsgNode.Receive` | ChatServer/src/msg_node.cc:13-15 | an empty receive buffer of the announced length |
| `Frame.MsgNode.Clear` | ChatServer/src/msg_node.h:60-64 | every byte is zero and _cur_len is 0 |
| `Frame.SegmentationIsIrrelevant` | ChatServer/src/csession.cc:79-185 | reading after every TCP segment ends in the same state as reading the joined bytes |
| `Frame.OneFrame` | ChatServer/src/csession.cc:79-185 | one frame is posted whole and the reader is at the next header, or an oversized length stops it |
| `Frame.DecodeInvertsEncode` | ChatServer/src/csession.cc:79-185 | from the frames of any message sequence the reader posts exactly the messages before the first oversized one, and all of them when there is none |
| `Frame.PrefixPostsPrefix` | ChatServer/src/csession.cc:79-185 | what is posted from a prefix of a stream is a prefix of what is posted from the stream |
| `SessionIo.SendKeepsInv` | ChatServer/src/csession.cc:44-66 | Send keeps the queue machine: while no write has failed one write is outstanding exactly if the queue is not empty and it carries the front; at most MAX_SENDQUE+1 nodes; a message is dropped exactly at that bound |
| `SessionIo.WrittenKeepsInv` | ChatServer/src/csession.cc:187-200 | a completed write keeps the machine; accepted messages are written in order, none twice |
| `SessionIo.WriteErrorKeepsInv` | ChatServer/src/csession.cc:201-206 | after a failed write nothing is outstanding any more |
| `SessionIo.SendQueue.Send` | ChatServer/src/csession.cc:44-66 | the queue of node buffers follows the machine: every node carries the frame of its message |
| `SessionIo.SendQueue.HandleWrite` | ChatServer/src/csession.cc:187-211 | pop and next write, or stop after an error, as the machine says |
| `SessionIo.SessionReader.OnHeadRead` | ChatServer/src/csession.cc:79-136 | the header handler in place: short of a valid session or length it stops, otherwise it allocates the body node and reads the body |
| `SessionIo.SessionReader.OnBodyRead` | ChatServer/src/csession.cc:138-185 | the body handler in place: the message is posted and the next header is read |
| `SessionIo.SessionReader.ReadExactly` | ChatServer/src/csession.cc:79-90 | exactly the first n received bytes are consumed, in order, into the zeroed buffer |
| `SessionIo.SessionReader.OnSegment` | ChatServer/src/csession.cc:79-185 | all reads that a segment completes, together, are the decoder run on the received bytes, up to the read at which CheckValid no longer finds the session |
| `SessionIo.DroppedPostsPrefix` | ChatServer/src/csession.cc:112-170 | a session that the server drops after n reads has posted a prefix of what it would have posted, all of it if no read was left, and stops otherwise |
| `Link.RunsKeepInv` | ChatServer/src/csession.cc:44-211 | sender, wire and reader stay related in every interleaving of sends, partial writes, completions, errors and segments |
| `Link.PostedIsPrefixOfAccepted` | ChatServer/src/csession.cc:44-211 | end to end: what the reader posts is a prefix of what Send accepted |
| `Link.NothingIsLost` | ChatServer/src/csession.cc:44-211 | when the queue is written out and all is read, a reader that was not stopped has posted everything |
| `Link.FailedStaysSilent` | ChatServer/src/csession.cc:187-211 | after a failed write no write is started and no byte is sent again |
| `Monitor.StepKeepsInv` | ChatServer/src/logic_system.cc:40-103 | every step of a producer, the worker, a notification or the stop keeps the monitor invariant |
| `Monitor.NoLostWakeup` | ChatServer/src/logic_system.cc:40-60 | although only the 0-to-1 transition notifies: whenever the worker sleeps over a non-empty queue a notification is due |
| `Monitor.HandledOnceInOrder` | ChatServer/src/logic_system.cc:40-103 | until the stop-time drain the callbacks made are those of the registered messages taken up, each once and in posting order |
| `Monitor.RegisteredAre` | ChatServer/src/logic_system.cc:82-99 | the messages that get a callback are those of a registered id, all of them, in their order |
| `Monitor.DrainEndsIff` | ChatServer/src/logic_system.cc:61-80 | from a worker that drains, some continuation of the run ends the drain if and only if no queued message has a registered id |
| `Monitor.StopEndsHandling` | ChatServer/src/logic_system.cc:72-99 | once the stop flag is set the worker finishes the message in hand and takes up no other before it drains the queue |
| `Monitor.StopCanBeMissedIff` | ChatServer/src/logic_system.cc:32-38 | for every run: after the destructor sets _b_stop the worker can end up asleep with no notification due if and only if it was between its test of the predicate and its blocking, where it holds the mutex that the destructor does not take |
| `Monitor.MsgQueue.PostMsgToQue` | ChatServer/src/logic_system.cc:40-48 | appends, and notifies exactly when the queue was empty, as the state machine does |
| `Monitor.MsgQueue.DelMsg` | ChatServer/src/logic_system.cc:82-99 | the queue is emptied and the registered messages are handled in order |
| `UrlCodec.DecodeInvertsEncode` | Common/src/common.cc:26-65 | decoding undoes encoding for every byte sequence |
| `UrlCodec.EncodingIsInjective` | Common/src/common.cc:26-45 | different byte sequences have different encodings |
| `UrlCodec.EncodedIsClean` | Common/src/common.cc:26-45 | encoded text has unreserved characters, plus and percent signs only |
| `UrlCodec.EncodedByteIs` | Common/src/common.cc:26-45 | letters, digits and -_.~ stay, a space becomes +, every other byte % and the two upper-case digits of its value |
| `UrlCodec.EncodedConcat` | Common/src/common.cc:26-45 | bytes are encoded one by one |
| `UrlCodec.PlainThenRest` | Common/src/common.cc:47-65 | a text without % stands for itself with spaces for its plus signs, whatever follows |
| `UrlCodec.EscapeThenRest` | Common/src/common.cc:47-65 | the two characters of an escape are the digits, in either case, of 16 times the first value plus the second, wrapped around to a byte |
| `UrlCodec.AbortsIff` | Common/src/common.cc:47-65 | the assertion in the decoder fails exactly when some percent sign is not followed by two letters or digits |
| `UrlCodec.ToHex` | Common/src/common.cc:5-10 | the upper-case digit of the value, which FromHex turns back |
| `UrlCodec.FromHex` | Common/src/common.cc:12-24 | the value of which the character is the digit, in either case; every letter or digit is accepted, with values up to 35; below 16 exactly for a hexadecimal digit |
| `UrlCodec.UrlEncode` | Common/src/common.cc:26-45 | the loop computes the specified encoding |
| `UrlCodec.UrlDecode` | Common/src/common.cc:47-65 | the index loop computes the specified decoding, or aborts |
| `QueryString.PreParseGetParam` | GateServer/src/httpconnection.cc:99-130 | the loop over the shrinking query string computes path and parameters by splitting at separators and binding in order |
| `QueryString.SplitOfJoin` | GateServer/src/httpconnection.cc:109-129 | splitting joined encoded pairs gives the pairs back |
| `QueryString.QueryRoundTrip` | GateServer/src/httpconnection.cc:99-130 | for all byte-string pairs: parsing the encoded query gives the map in which the last binding of each key wins |
| `QueryString.QueryMeans` | GateServer/src/httpconnection.cc:99-130 | for every target: without ? it is the path; otherwise parsing fails if and only if some piece between & signs is badly escaped, and else a key has the value that the last piece binding it gives |
| `QueryString.BindingIs` | GateServer/src/httpconnection.cc:117-125 | a piece without = binds nothing; one with = binds what stands before the first one, decoded, to what stands after it, decoded, or fails |
| `QueryString.SplitInvertsJoin` | GateServer/src/httpconnection.cc:109-129 | cutting at & undoes joining with & |
| `ChatDb.FriendsMadeKeepsSound` | Common/src/mysql_dao.cc:578-730 | the rows of a committed AddFriend keep friend symmetric, accepted applications befriended, one normalised chat per pair and one thread per chat |
| `ChatDb.FriendsMadeNames` | Common/src/mysql_dao.cc:617-642 | the accepting side's row carries the name given now, the applicant's the one of the application; rows that exist keep theirs |
| `ChatDb.FriendsMadeRows` | Common/src/mysql_dao.cc:578-681 | status 1 and nothing else in the application; one private thread and one chat row of the two users, smaller id first |
| `ChatDb.FriendsMadeMessages` | Common/src/mysql_dao.cc:682-728 | the applicant's text is a message to the accepting side and the other way round; empty texts are none |
| `ChatDb.ChatMadeKeepsSound` | Common/src/mysql_dao.cc:914-1011 | so do the rows of a committed CreatePrivateChat |
| `ChatDb.ApplyRowIs` | Common/src/mysql_dao.cc:485-518 | an application sent again carries text and name as sent last and keeps its status; a new one waits |
| `ChatDb.ApplyRowKeepsSound` | Common/src/mysql_dao.cc:485-518 | so does an application that is sent or sent again |
| `ChatTxnProof.AddFriendCommitsAtomically` | Common/src/mysql_dao.cc:578-730 | what an AddFriend transaction has written by its COMMIT, laid over the tables of that moment, is one atomic AddFriend |
| `ChatTxnProof.CreateChatCommitsAtomically` | Common/src/mysql_dao.cc:914-1011 | the same for CreatePrivateChat |
| `ChatTxnProof.StepKeepsInv` | Common/src/mysql_dao.cc:485-1027 | every statement, error, retry and commit of any transaction, and every AddFriendApply, keeps the invariant of tables and open transactions |
| `ChatTxnProof.ErrorRetriesIff` | Common/src/mysql_dao.cc:734-750 | an error rolls back; another attempt follows exactly if fewer than three were made and the error is 1205, or for CreatePrivateChat after its thread 1062 |
| `ChatTxnProof.RunsKeepInv` | Common/src/mysql_dao.cc:485-1027 | the invariant holds in every state of every interleaving |
| `ChatTxnProof.EveryStateIsSound` | Common/src/mysql_dao.cc:485-1027 | in every reachable database friend is symmetric, status 1 has both friend rows, a pair has at most one private chat with user1 not above user2, and private threads and chats come in pairs |
| `ChatTxnProof.AddFriendCommitsOnceIffItSucceeds` | Common/src/mysql_dao.cc:556-754 | in every run an AddFriend has succeeded if and only if exactly one event of the run is its COMMIT; one that failed, gave up or is under way has none, and none of its events has changed a table; at most three attempts |
| `ChatTxnProof.CreateChatCommitsAtMostOnce` | Common/src/mysql_dao.cc:914-1027 | in every run a call has at most one COMMIT, none unless it succeeds, and a call that has not succeeded has changed no table |
| `ChatTxnProof.AddFriendIsAtomic` | Common/src/mysql_dao.cc:556-754 | a committing AddFriend makes all its changes in one step on the tables of that moment, for an application still waiting there |
| `ChatTxnProof.OneThreadPerPair` | Common/src/mysql_dao.cc:914-1027 | all successful calls for a pair, in either order of the users, return one thread, which is the chat of the pair |
| `ChatTxnProof.BothOrdersOneThread` | Common/src/mysql_dao.cc:914-1027 | successful CreatePrivateChat(a, b) and CreatePrivateChat(b, a) return the same thread |
| `ChatTxnProof.NothingIsTakenBack` | Common/src/mysql_dao.cc:485-518 | no step takes an accepted application, a friend row or a private chat back |
| `ChatTxnProof.ChatBlocksFriendship` | Common/src/mysql_dao.cc:669-681 | once a pair has a private chat no AddFriend of the pair gets past its private_chat statement |
| `ChatTxnReports.RunsKeepReports` | Common/src/mysql_dao.cc:683-750 | over every run: chat_datas of an AddFriend is the reports of its rolled-back attempts followed by those of the current one, and the former are empty exactly if no attempt was rolled back after reporting |
| `ChatTxnReports.ReportsExactIff` | Common/src/mysql_dao.cc:683-750 | in every interleaving, also when the application changes between two attempts: the reports of a successful AddFriend are those of its committed messages if and only if none of its attempts was rolled back after reporting one |
| `ChatTxnReports.CurrentAreTheRows` | Common/src/mysql_dao.cc:682-728 | in every later state the reports of the committed attempt are rows of chat_message, one for each message, in id order |
| `FriendDao.MysqlDao.AddFriendAttempt` | Common/src/mysql_dao.cc:578-734 | one attempt with a failing statement anywhere: the outcome, untouched tables unless committed, and what is appended to chat_datas |
| `FriendDao.MysqlDao.AddFriendTry` | Common/src/mysql_dao.cc:578-750 | one attempt within the loop, on the tables that it finds: its reports stay in chat_datas when it is rolled back, and after a commit chat_datas is exact if and only if it was empty on entry and nothing rolled back had been reported |
| `FriendDao.MysqlDao.Befriend` | Common/src/mysql_dao.cc:578-642 | steps 1 to 3: refused unless an application waits, otherwise both friend rows and the accepted application, or the error of the failing statement |
| `FriendDao.MysqlDao.OpenChat` | Common/src/mysql_dao.cc:644-681 | steps 4 and 5: the new thread and the normalised row, or 1062 when the pair has a chat |
| `FriendDao.MysqlDao.InsertMessage` | Common/src/mysql_dao.cc:682-715 | an empty text inserts nothing; a text is inserted and reported once its id is known |
| `FriendDao.MysqlDao.Greet` | Common/src/mysql_dao.cc:716-728 | step 6: both messages in order, and what has been reported when one of them fails |
| `FriendDao.MysqlDao.AddFriend` | Common/src/mysql_dao.cc:556-754 | each attempt finds the tables as others have left them meanwhile; true if and only if one of at most three attempts commits after lock time-outs only; then all its rows are there at once, otherwise no attempt has changed the tables. chat_datas always gains the stale reports, on success also the committed ones, and is then exact if and only if it was empty on entry and no attempt was rolled back after reporting |
| `FriendDao.FaultFreeAddFriendIff` | Common/src/mysql_dao.cc:556-754 | without failures AddFriend succeeds exactly when its first attempt finds a waiting application and no chat of the pair |
| `FriendDao.NoSuccess` | Common/src/mysql_dao.cc:734-750 | an error other than a lock time-out, a refusal, a missing connection or three time-outs exclude success |
| `FriendDao.ThirdAttemptCommits` | Common/src/mysql_dao.cc:734-750 | AddFriend survives two lock time-outs at whatever statements |
| `FriendDao.OtherErrorEnds` | Common/src/mysql_dao.cc:744-748 | any other error ends it |
| `FriendDao.RefusalEnds` | Common/src/mysql_dao.cc:578-598 | so does an attempt that finds no waiting application, or a chat of the two |
| `FriendDao.ReportsAreTheRows` | Common/src/mysql_dao.cc:682-728 | the reports of the committed attempt are exactly the new chat_message rows, in id order |
| `FriendDao.NoIdNoReport` | Common/src/mysql_dao.cc:700-715 | a message is reported only once its id has been read |
| `FriendDao.ReportsAlwaysExactIff` | Common/src/mysql_dao.cc:683-732 | before the call, as long as the applicant does not write again: under every script of failures and whatever others commit between the attempts, a success leaves chat_datas exact, if and only if it is empty and neither side has a message |
| `FriendDao.ResentApplicationLeavesStaleReport` | Common/src/mysql_dao.cc:734-750 | when the applicant writes again after a first lock time-out, a second one at COMMIT leaves a stale report in a successful call, also where neither side had a message before |
| `FriendDao.TimeoutAtCommitLeavesStaleReports` | Common/src/mysql_dao.cc:683-750 | a lock time-out at the first COMMIT leaves a report of a rolled-back message in a successful call |
| `FriendDao.WorkingCopyIsFriendsMade` | Common/src/mysql_dao.cc:578-728 | the working copy after all statements is the atomic effect |
| `FriendDao.ChatDao.Attempt` | Common/src/mysql_dao.cc:926-1023 | one pass, its outcome exactly: found, created, another pass or the end, by the failing statement, its error, the pair's chat and a rival between the two INSERTs; the chat rows gained, and whether a transaction stays open |
| `FriendDao.ChatDao.FindChat` | Common/src/mysql_dao.cc:933-945 | found exactly when the pair has a chat |
| `FriendDao.ChatDao.CreatePrivateChat` | Common/src/mysql_dao.cc:914-1027 | success if and only if one of at most three passes gets a connection and finds or creates the chat and every one before ended in an error of its retry set; the thread returned is the pair's chat; at most that chat and its thread are added and no orphan thread; exactly when a transaction is left open |
| `FriendDao.RetriesIff` | Common/src/mysql_dao.cc:992-1021 | the retry set by number: 1205 at the first three statements, 1062 at the last two, 1205 of the SELECT alone when the pair has a chat, and the lost race |
| `FriendDao.ThirdPassCreates` | Common/src/mysql_dao.cc:992-1021 | a call with two such errors still creates the chat |
| `FriendDao.FaultFreeCreateSucceeds` | Common/src/mysql_dao.cc:914-1027 | when nothing fails the call succeeds, whoever else creates the chat and when |
| `Paging.LoadChatMsg` | Common/src/mysql_dao.cc:1029-1080 | the next page_size matching rows; load_more exactly if there are more; next_cursor is the id of the last row then, and 0 on a last page |
| `Paging.PagesCoverExactlyOnce` | Common/src/mysql_dao.cc:1029-1080 | the pages of a walk, also over a table to which larger ids are appended between pages, are in ascending order and once each exactly the matching rows above the start |
| `Paging.PagesResume` | Common/src/mysql_dao.cc:1029-1080 | a client that later goes on from the last message it has gets exactly the matching rows that it has not got |
| `Paging.LastPageStartsOver` | Common/src/mysql_dao.cc:1038-1066 | one that goes on from the next_cursor of a last page gets that page again |
| `Paging.WalkTerminates` | Common/src/mysql_dao.cc:1029-1080 | on an unchanging table the walk ends within as many pages as there are matching rows, plus one |
| `Paging.GetUserThreads` | Common/src/mysql_dao.cc:833-912 | the next pageSize rows of the ordered union of the private and the group rows above lastId; load_more exactly if there are more; nextLastId is the id of the last row of the page, and lastId for an empty one |
| `Paging.ThreadPagesCoverIff` | Common/src/mysql_dao.cc:833-912 | every walk, over listings that may grow between pages, with every page size, delivers exactly what its last listing holds above the start, if and only if no thread id occurs twice there |
| `Paging.ThreadsCoverExactlyOnce` | Common/src/mysql_dao.cc:833-912 | while larger ids are appended to the private and the group table between pages: a walk that ends has delivered, ascending and once each, precisely the rows above the start that the tables hold at its last page |
| `Paging.ThreadWalkCursor` | Common/src/mysql_dao.cc:889-901 | the cursor that a walk ends with is the id of the last row that it delivered |
| `Paging.ThreadsResume` | Common/src/mysql_dao.cc:833-912 | without a repeated id, a walk resumed later from the cursor of a completed one delivers exactly the rows above the start that the first did not |
| `Paging.ThreadWalkTerminates` | Common/src/mysql_dao.cc:889-897 | on an unchanging listing the walk ends within as many pages as there are rows, plus one |
| `Paging.ThreadPagerLosesNothingIff` | Common/src/mysql_dao.cc:847-858 | in terms of the tables: every start is served without loss if and only if no private chat of the user has the thread id of a group of the user |
| `Paging.PageSizeZeroNeverMoves` | Common/src/mysql_dao.cc:889-897 | with page size 0 there is always more and the cursor stays |
| `Registration.UidsAreConsecutive` | Common/src/mysql_dao.cc:242-281 | in every interleaving of registrations uids and emails are distinct, and the k-th commit adds exactly the row with uid start+k, the value its own transaction wrote to user_id |
| `Registration.ResultTellsCommit` | Common/src/mysql_dao.cc:211-296 | a positive result is the uid of the committed row of the caller; 0 and -1 mean that nothing was committed |
| `Registration.KnownIsRefused` | Common/src/mysql_dao.cc:211-240 | a known email ends a registration with 0 at its first SELECT, a known name at its second, and no table changes |
| `Registration.InsertFailsOnlyForEmail` | Common/src/mysql_dao.cc:265-277 | when the counter starts at or above every uid, the INSERT meets a duplicate key only through the email |
| `Registration.NamesDistinctIff` | Common/src/mysql_dao.cc:229-240 | names stay distinct exactly in the runs in which no two committed registrations of one name overlapped |
| `Registration.StaysSafeIff` | Common/src/mysql_dao.cc:229-281 | the guard, step by step: from a state in which the open registrations cannot repeat a name, a step leads to one in which they can if and only if it is such a look |
| `Registration.SerialRunsKeepNames` | Common/src/mysql_dao.cc:229-281 | names stay distinct in every run in which no registration looks for its name while another one of that name is between its look and its end |
| `Registration.OverlapDuplicatesName` | Common/src/mysql_dao.cc:229-281 | from every table with a free name, two registrations of it that both look before either commits are both committed |
| `Registration.MysqlDao.RegUserTransaction` | Common/src/mysql_dao.cc:211-296 | one uninterrupted call under a failing statement: the new row and counter, or unchanged tables, with the exact result |
| `RedisPool.PoolIsConserved` | Common/src/redis_mgr.cc:56-184 | in every interleaving contexts queued, lent and held plus _fail_count are as many as at the start, a reconnect push and its decrement counting as one, and no context is in two places |
| `RedisPool.CountsHoldsAfter` | Common/src/redis_mgr.cc:56-122 | what the methods below are proved against: every such relation has every reachable state with the number of passes begun |
| `RedisPool.ReachedCounts` | Common/src/redis_mgr.cc:56-122 | and reachability with its number of passes is such a relation, hence the least |
| `RedisPool.HealsIff` | Common/src/redis_mgr.cc:56-122 | a debt can still be repaid if and only if one context is left in the queue, with a borrower or with the checker |
| `RedisPool.OneBadPassIsFinal` | Common/src/redis_mgr.cc:56-122 | from every start, one pass in which all pings fail leads to a pool that no later course of events refills |
| `RedisPool.DeadStaysDead` | Common/src/redis_mgr.cc:69-100 | without a context left neither the queue nor _fail_count ever changes |
| `RedisPool.RedisConnPool.constructor` | Common/src/redis_mgr.cc:13-54 | only contexts that connect and authenticate enter the pool, which then has as many |
| `RedisPool.RedisConnPool.GetConnection` | Common/src/redis_mgr.cc:159-173 | the front of the queue is lent |
| `RedisPool.RedisConnPool.ReturnConnection` | Common/src/redis_mgr.cc:175-184 | the context goes to the back of the queue |
| `RedisPool.RedisConnPool.Repay` | Common/src/redis_mgr.cc:108-119 | the reconnect loop is a run of the machine |
| `RedisPool.RedisConnPool.CheckThread` | Common/src/redis_mgr.cc:56-122 | one whole pass of the machine, with borrowers at work whenever the mutex is free and with the catch block that counts a failure and goes on to reconnect |
| `RedisPool.RedisConnPool.CheckRound` | Common/src/redis_mgr.cc:40-50 | thirty counts and one whole pass, with borrowers at work throughout, keep the pool conserved and every context in one place |
| `MySqlPool.PoolIsConserved` | Common/src/mysql_dao.cc:50-153 | connections queued, lent, held, owed and lost are as many as at the start, and none is in two places |
| `MySqlPool.NotStaleIffCheckedInThisPass` | Common/src/mysql_dao.cc:62-83 | the timing argument: passes start at least 60 seconds apart, so the checker finds a connection younger than 5 seconds exactly if it has checked it in this pass |
| `MySqlPool.StepLosesIff` | Common/src/mysql_dao.cc:80-100 | a connection is destroyed uncounted exactly when the checker takes one a second time in a pass |
| `MySqlPool.HealthyConnectionCanBeLost` | Common/src/mysql_dao.cc:65-100 | from every pool of two or more, borrowing the others during a pass loses a connection although no query fails |
| `MySqlPool.LossIsPossibleIff` | Common/src/mysql_dao.cc:65-100 | before any event: some legal course of events destroys a connection uncounted if and only if the pool has two or more |
| `MySqlPool.QuietRunsLoseNothing` | Common/src/mysql_dao.cc:50-153 | nothing is lost in runs in which no connection is borrowed while a pass goes over the queue |
| `MySqlPool.QuietRunsConserve` | Common/src/mysql_dao.cc:33-153 | in such runs queued, lent, held and _fail_count are all the connections of the start |
| `MySqlPool.DebtCanAlwaysBeRepaid` | Common/src/mysql_dao.cc:97-104 | from every reachable state, also with no connection left, the debt can be repaid |
| `MySqlPool.MySqlPool.CheckConnection` | Common/src/mysql_dao.cc:50-104 | one whole pass of the machine, which ends with no debt if the database accepts connections |
| `MySqlPool.MySqlPool.CheckRound` | Common/src/mysql_dao.cc:33-43 | sixty sleeps and one whole pass of the machine |
| `MySqlPool.MySqlPool.GetConnection` | Common/src/mysql_dao.cc:127-143 | the front of the queue is lent |
| `MySqlPool.MySqlPool.ReturnConnection` | Common/src/mysql_dao.cc:145-153 | the connection goes to the back of the queue |
| `MySqlPool.MySqlPool.constructor` | Common/src/mysql_dao.cc:14-48 | one connection per start time, none lent or owed, and the checker runs; if connecting raises, the connections made before it and no checker |
| `MySqlPool.MySqlPool.Examination` | Common/src/mysql_dao.cc:78-100 | the loop body for one connection is a step of the machine, the dropping branch included |
| `MySqlPool.MySqlPool.Repay` | Common/src/mysql_dao.cc:97-104 | the reconnect loop is a run of the machine and repays everything if every connection is accepted |

## Left out

- LoginCourse.TeardownsAreOne: meanwhile no lease runs out inside a section and every command takes effect; logins between the teardowns are the subject of LoginTheorems
- LoginTheorems.AtMostOneSession: assumes that logins get the lock within the retry time, kick calls arrive and have finished when the call returns, Redis commands take effect and sections end within the lease; that a login comes only from a session that has been in `_sessions` is no assumption: CheckValid lets no other message through (ChatServer/src/csession.cc:164)
- LoginTheorems.RoutingRefinesOneMap: speaks of moments at which the lock is free; while a login or teardown is inside its section the two lookups may see a part of its writes
- LeaseLock.RedisServer.AcquireLock: replies of Redis are assumed to arrive, and all clients and Redis share one clock
- ChatServer.RedisMgr.ReleaseLock: a failing EVAL is in LoginProtocol (CommandFails), not in the classes
- LoginAssumptions.EmptyIdentifierBreaksUniqueness: the machine lets acquireLock give up as soon as its time is over, also when the lock was freed in the last instant; the run shown gives up only where every attempt was refused
- Deployment.Deployment.Login: the server that uip_ names is this one or one that can be reached; a lost kick is in LoginProtocol (KickLost)
- Frame.OneFrame: a negative length field makes the source allocate a buffer of negative size; the model stops the reader there
- ChatServer.CServer.Expire: the heartbeat stamp of a session is set when it is created; in the source it is uninitialised until the first message
- Monitor.HandledOnceInOrder: an exception thrown by a callback ends the worker in the source and is not modelled
- ChatTxnProof.StepKeepsInv: a statement that must wait for a row lock is simply not possible yet; deadlocks and time-outs appear as raised errors; each call starts on a connection without an open transaction (the carry-over of setAutoCommit(false) is not modelled) and its ROLLBACK succeeds
- ChatTxnProof.OneThreadPerPair: SELECT LAST_INSERT_ID is taken as total here, because the outer catch of CreatePrivateChat does not roll back; FriendDao.ChatDao records that case in `dirty`
- FriendDao.ChatDao.CreatePrivateChat: the other sessions of this model create the chat of the same pair only, before a pass or within it (the rest is ChatTxn); rows of a connection that went back with an open transaction are not followed further
- FriendDao.MysqlDao.AddFriend: other clients run between the attempts here, and statement by statement beside them in ChatTxn; the branches for an update count below zero cannot be reached and are not modelled; the message rows carry no time stamps
- Paging.ThreadPagesCoverIff: MySQL may order rows with equal thread ids differently from page to page; the model keeps one order
- Paging.ThreadsCoverExactlyOnce: a user who joins an older group between two pages has a row inserted below the cursor, which no cursor finds
- Paging.GetUserThreads: the two halves of the UNION are given as the user's rows; the conditions on user1_id, user2_id and user_id that select them are not modelled
- Paging.LoadChatMsg: page_size below 1 reads the last element of an empty vector in the source
- Registration.NamesDistinctIff: a SELECT reads what is committed when it executes; the snapshot of REPEATABLE READ is not modelled; user_id has at most one row
- Registration.UidsAreConsecutive: the counter is unbounded; the 32-bit overflow of user_id appears as a raised error
- MySqlPool.NotStaleIffCheckedInThisPass: the wall clock does not go back, and the pool is not closed
- RedisPool.PoolIsConserved: until Close; contexts freed after Close are not counted
- The AuthFriendApply of the DAO, which no handler calls and which sets status 1 without friend rows
- JSON, profile fields, passwords, the search handlers, caches, and the login counters
- StatusServer, VerifyServer, e-mail, the HTTP handlers, gRPC and its connection pools (weaker copies of the two pools above), sockets and threads themselves
- The stored procedure of _sql/table.sql, which the C++ registration does not call
- Truncation of 64-bit ids to int in the pagers; ids are unbounded here
