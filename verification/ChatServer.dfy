/** The objects of one deployment: Redis, and per ChatServer a CServer, a UserMgr, the rpc service and
    the logic system. Each method is the source's method run without interruption; what many of them
    do when interleaved is the subject of LoginProtocol. */
module ChatServer {
  import opened LeaseLock
  import opened LoginProtocol
  import opened Wrappers

  // ----- the attempts of acquireLock while no other client runs -----

  /** When the n-th attempt is made if those before are refused; the k-th sleep takes naps(k) milliseconds
      and one more. */
  function AttemptTime(now: nat, naps: nat -> nat, k: nat, n: nat): nat {
    if n == 0 then now else AttemptTime(now, naps, k, n - 1) + 1 + naps(k + n - 1)
  }

  /** The attempts before the n-th are made in time, and the lock is held at each of them. */
  ghost predicate RefusedUntil(locks: map<Uid, Lease>, uid: Uid, now: nat, naps: nat -> nat, k: nat, n: nat) {
    forall i: nat :: i < n ==>
      AttemptTime(now, naps, k, i) < now + ACQUIRE_TIME_OUT && Held(locks, uid, AttemptTime(now, naps, k, i))
  }

  ghost predicate FindsFree(locks: map<Uid, Lease>, uid: Uid, now: nat, naps: nat -> nat, k: nat) {
    exists n: nat :: RefusedUntil(locks, uid, now, naps, k, n)
      && AttemptTime(now, naps, k, n) < now + ACQUIRE_TIME_OUT && !Held(locks, uid, AttemptTime(now, naps, k, n))
  }

  lemma StillRefused(locks: map<Uid, Lease>, uid: Uid, now: nat, naps: nat -> nat, k: nat, n: nat)
    requires RefusedUntil(locks, uid, now, naps, k, n)
    requires AttemptTime(now, naps, k, n) < now + ACQUIRE_TIME_OUT && Held(locks, uid, AttemptTime(now, naps, k, n))
    ensures RefusedUntil(locks, uid, now, naps, k, n + 1)
  {
  }

  /** The first attempt that is not refused decides. */
  lemma FreeInTimeIff(locks: map<Uid, Lease>, uid: Uid, now: nat, naps: nat -> nat, k: nat, n: nat)
    requires RefusedUntil(locks, uid, now, naps, k, n)
    requires AttemptTime(now, naps, k, n) >= now + ACQUIRE_TIME_OUT || !Held(locks, uid, AttemptTime(now, naps, k, n))
    ensures FindsFree(locks, uid, now, naps, k) <==> AttemptTime(now, naps, k, n) < now + ACQUIRE_TIME_OUT
  {
    if AttemptTime(now, naps, k, n) >= now + ACQUIRE_TIME_OUT {
      forall m: nat | RefusedUntil(locks, uid, now, naps, k, m) && m < n ensures Held(locks, uid, AttemptTime(now, naps, k, m)) {
      }
    }
  }

  /** What a login or a teardown does: the commands to Redis and the changes of maps and sessions. */
  datatype Action =
    | LockTried(uid: Uid)
    | UipRead(uid: Uid)
    | UsessionRead(uid: Uid)
    | SessionErased(sid: Sid)
    | SessionBound(sid: Sid, uid: Uid)
    | UipSet(uid: Uid, srv: Srv)
    | UsessionSet(uid: Uid, sid: Sid)
    | Indexed(uid: Uid, sid: Sid)
    | UsessionDeleted(uid: Uid)
    | UipDeleted(uid: Uid)
    | LockReleased(uid: Uid, identifier: Ident)

  /** The kick, if there is a victim, and the new records, in the order of the state machine. */
  function SwitchActions(uid: Uid, srv: Srv, sid: Sid, victim: Found<Sid>): seq<Action> {
    [UipRead(uid)] + (if victim.Present? then [SessionErased(victim.value)] else [])
    + [SessionBound(sid, uid), UipSet(uid, srv), UsessionSet(uid, sid), Indexed(uid, sid)]
  }

  /** Everything happens between acquiring and releasing. */
  function LoginActions(uid: Uid, srv: Srv, sid: Sid, victim: Found<Sid>, identifier: Ident): seq<Action> {
    [LockTried(uid)] + SwitchActions(uid, srv, sid, victim) + [LockReleased(uid, identifier)]
  }

  lemma Regroup(before: seq<Action>, first: Action, middle: seq<Action>, last: Action)
    ensures before + [first] + middle + [last] == before + ([first] + middle + [last])
  {
  }

  /** The recorded session is read, and the record deleted if it names this one. */
  function DropActions(uid: Uid, sid: Sid, recorded: Found<Sid>): seq<Action> {
    if recorded == Present(sid) then [UsessionRead(uid), UsessionDeleted(uid), UipDeleted(uid)] else [UsessionRead(uid)]
  }

  /** Without the lock the record is not even read; the session is erased before the lock is given back. */
  function TeardownActions(uid: Uid, sid: Sid, recorded: Found<Sid>, identifier: Ident): seq<Action> {
    [LockTried(uid)] + (if identifier == Empty then [] else DropActions(uid, sid, recorded))
    + [SessionErased(sid)] + [LockReleased(uid, identifier)]
  }

  /** The keys of Redis that the login protocol uses. */
  class RedisMgr {
    var uip: map<Uid, Srv>
    var usession: map<Uid, Sid>
    var locks: map<Uid, Lease>
    var now: nat
    const naps: nat -> nat  // how much longer than a millisecond each sleep takes
    var slept: nat
    var drawn: nat  // UUIDs that generateUUID has drawn
    ghost var trace: seq<Action>  // what has been done so far

    constructor (naps: nat -> nat)
      ensures uip == map[] && usession == map[] && locks == map[] && now == 0 && trace == []
      ensures this.naps == naps && slept == 0 && drawn == 0
    {
      uip, usession, locks, now, trace := map[], map[], map[], 0, [];
      this.naps, slept, drawn := naps, 0, 0;
    }

    /** Every stored lock value is a UUID. */
    ghost predicate Valid()
      reads this
    {
      forall u :: u in locks ==> locks[u].owner != Empty
    }

    /** Some attempt in time finds the lock free. */
    ghost predicate GetsLock(uid: Uid)
      reads this
    {
      FindsFree(locks, uid, now, naps, slept)
    }

    /** The loop of acquireLock when no other client runs meanwhile; a held lock can still expire. The last of
        the `tries` attempts is the first that finds it free, unless the time is over before. */
    method TryLock(uid: Uid, identifier: Ident) returns (got: bool, ghost tries: nat)
      modifies this`locks, this`now, this`slept
      ensures got <==> old(GetsLock(uid))
      ensures RefusedUntil(old(locks), uid, old(now), naps, old(slept), tries)
      ensures now == AttemptTime(old(now), naps, old(slept), tries) && slept == old(slept) + tries
      ensures got ==>
                && now < old(now) + ACQUIRE_TIME_OUT && !Held(old(locks), uid, now)
                && locks == old(locks)[uid := Lease(identifier, now + LOCK_TIME_OUT)]
      ensures !got ==> now >= old(now) + ACQUIRE_TIME_OUT && locks == old(locks)
    {
      var endTime := now + ACQUIRE_TIME_OUT;
      tries := 0;
      while now < endTime
        invariant locks == old(locks) && now == AttemptTime(old(now), naps, old(slept), tries) && slept == old(slept) + tries
        invariant RefusedUntil(locks, uid, old(now), naps, old(slept), tries)
        decreases endTime - now
      {
        if !Held(locks, uid, now) {
          FreeInTimeIff(locks, uid, old(now), naps, old(slept), tries);
          locks := locks[uid := Lease(identifier, now + LOCK_TIME_OUT)];
          return true, tries;
        }
        StillRefused(locks, uid, old(now), naps, old(slept), tries);
        now, slept, tries := now + 1 + naps(slept), slept + 1, tries + 1;
      }
      FreeInTimeIff(locks, uid, old(now), naps, old(slept), tries);
      return false, tries;
    }

    /** acquireLock of dist_lock.cc: the identifier of a fresh lease, or the empty one when the time is over. */
    method AcquireLock(uid: Uid) returns (identifier: Ident, ghost tries: nat)
      modifies this`locks, this`now, this`slept, this`drawn, this`trace
      ensures drawn == old(drawn) + 1 && trace == old(trace) + [LockTried(uid)]
      ensures identifier == if old(GetsLock(uid)) then Uuid(old(drawn)) else Empty
      ensures RefusedUntil(old(locks), uid, old(now), naps, old(slept), tries)
      ensures now == AttemptTime(old(now), naps, old(slept), tries) && slept == old(slept) + tries
      ensures identifier != Empty ==>
                && now < old(now) + ACQUIRE_TIME_OUT && !Held(old(locks), uid, now)
                && locks == old(locks)[uid := Lease(identifier, now + LOCK_TIME_OUT)]
      ensures identifier == Empty ==> now >= old(now) + ACQUIRE_TIME_OUT && locks == old(locks)
      ensures !old(Held(locks, uid, now)) ==> identifier != Empty && now == old(now)
    {
      var uuid := Uuid(drawn);
      drawn, trace := drawn + 1, trace + [LockTried(uid)];
      var got;
      got, tries := TryLock(uid, uuid);
      assert tries > 0 ==> Held(old(locks), uid, AttemptTime(old(now), naps, old(slept), 0));
      identifier := if got then uuid else Empty;
    }

    method GetUip(uid: Uid) returns (ip: Found<Srv>)
      modifies this`trace
      ensures ip == Get(uip, uid) && trace == old(trace) + [UipRead(uid)]
    {
      trace := trace + [UipRead(uid)];
      ip := if uid in uip then Present(uip[uid]) else Absent;
    }

    method GetUsession(uid: Uid) returns (sid: Found<Sid>)
      modifies this`trace
      ensures sid == Get(usession, uid) && trace == old(trace) + [UsessionRead(uid)]
    {
      trace := trace + [UsessionRead(uid)];
      sid := if uid in usession then Present(usession[uid]) else Absent;
    }

    method SetUip(uid: Uid, srv: Srv)
      modifies this`uip, this`trace
      ensures uip == old(uip)[uid := srv] && trace == old(trace) + [UipSet(uid, srv)]
    {
      uip, trace := uip[uid := srv], trace + [UipSet(uid, srv)];
    }

    method SetUsession(uid: Uid, sid: Sid)
      modifies this`usession, this`trace
      ensures usession == old(usession)[uid := sid] && trace == old(trace) + [UsessionSet(uid, sid)]
    {
      usession, trace := usession[uid := sid], trace + [UsessionSet(uid, sid)];
    }

    method DelUsession(uid: Uid)
      modifies this`usession, this`trace
      ensures usession == old(usession) - {uid} && trace == old(trace) + [UsessionDeleted(uid)]
    {
      usession, trace := usession - {uid}, trace + [UsessionDeleted(uid)];
    }

    method DelUip(uid: Uid)
      modifies this`uip, this`trace
      ensures uip == old(uip) - {uid} && trace == old(trace) + [UipDeleted(uid)]
    {
      uip, trace := uip - {uid}, trace + [UipDeleted(uid)];
    }

    method ReleaseLock(uid: Uid, identifier: Ident)
      modifies this`locks, this`trace
      ensures locks == DelIfOwner(old(locks), uid, identifier, now)
      ensures trace == old(trace) + [LockReleased(uid, identifier)]
    {
      trace := trace + [LockReleased(uid, identifier)];
      if Held(locks, uid, now) && locks[uid].owner == identifier {
        locks := locks - {uid};
      }
    }
  }

  class CServer {
    var sessions: map<Sid, CSession>

    constructor ()
      ensures sessions == map[]
    {
      sessions := map[];
    }

    /** std::map::insert keeps an entry that is already there. */
    method HandleAccept(session: CSession)
      modifies this
      ensures session.sessionId !in old(sessions) ==> sessions == old(sessions)[session.sessionId := session]
      ensures session.sessionId in old(sessions) ==> sessions == old(sessions)
    {
      if session.sessionId !in sessions {
        sessions := sessions[session.sessionId := session];
      }
    }

    method ClearSession(sid: Sid, ghost redis: RedisMgr)
      modifies this, redis`trace
      ensures sessions == old(sessions) - {sid} && redis.trace == old(redis.trace) + [SessionErased(sid)]
    {
      sessions, redis.trace := sessions - {sid}, redis.trace + [SessionErased(sid)];
    }

    method CheckValid(sid: Sid) returns (valid: bool)
      ensures valid <==> sid in sessions
    {
      valid := sid in sessions;
    }

    ghost function Alive(now: int, except: set<Sid>): set<Sid>
      reads this, sessions.Values
    {
      set sid | sid in sessions && sid !in except && !sessions[sid].IsHeartbeatExpired(now)
    }

    /** The first half of on_timer: count the sessions that are alive, close the others. */
    method Expire(now: int) returns (sessionCount: nat, expired: set<CSession>)
      modifies sessions.Values`closed
      ensures expired == set sid | sid in sessions && now - sessions[sid].lastHeartbeat > HEARTBEAT_TIMEOUT :: sessions[sid]
      ensures sessionCount == |set sid | sid in sessions && now - sessions[sid].lastHeartbeat <= HEARTBEAT_TIMEOUT|
      ensures forall s :: s in sessions.Values ==> s.closed == (old(s.closed) || s in expired)
    {
      var todo := sessions.Keys;
      sessionCount, expired := 0, {};
      while todo != {}
        invariant todo <= sessions.Keys
        invariant expired == set sid | sid in sessions && sid !in todo && sessions[sid].IsHeartbeatExpired(now) :: sessions[sid]
        invariant sessionCount == |Alive(now, todo)|
        invariant forall s :: s in sessions.Values ==> s.closed == (old(s.closed) || s in expired)
        decreases todo
      {
        var sid :| sid in todo;
        ghost var seen := Alive(now, todo);
        todo := todo - {sid};
        if sessions[sid].IsHeartbeatExpired(now) {
          sessions[sid].Close();
          expired := expired + {sessions[sid]};
          assert Alive(now, todo) == seen;
        } else {
          sessionCount := sessionCount + 1;
          assert Alive(now, todo) == seen + {sid};
        }
      }
      assert Alive(now, {}) == set sid | sid in sessions && now - sessions[sid].lastHeartbeat <= HEARTBEAT_TIMEOUT;
    }
  }

  /** Some session of the set has user id u and is the one that usession_ names. */
  ghost predicate RecordedFor(sessions: set<CSession>, usession: map<Uid, Sid>, u: Uid)
    reads sessions`userId
  {
    exists s :: s in sessions && s.userId == u && Get(usession, u) == Present(s.sessionId)
  }

  /** The second half of on_timer: tear the expired sessions down. A record goes only if one of them is
      the session that it names, and does go unless its lock was held; all others survive. */
  method TearDownExpired(server: CServer, expired: set<CSession>, redis: RedisMgr)
    requires redis.Valid() && forall s :: s in expired ==> s.server == server
    modifies redis, server
    ensures redis.Valid() && old(redis.now) <= redis.now
    ensures server.sessions == old(server.sessions) - (set s | s in expired :: s.sessionId)
    ensures forall u :: RecordedFor(expired, old(redis.usession), u) && !Held(old(redis.locks), u, old(redis.now)) ==>
              u !in redis.usession && u !in redis.uip
    ensures forall u :: Get(redis.usession, u) != Get(old(redis.usession), u) || Get(redis.uip, u) != Get(old(redis.uip), u) ==>
              u !in redis.usession && u !in redis.uip && RecordedFor(expired, old(redis.usession), u)
    ensures forall u :: Held(redis.locks, u, redis.now) ==> Held(old(redis.locks), u, old(redis.now))
  {
    var todo := expired;
    while todo != {}
      invariant todo <= expired && redis.Valid() && old(redis.now) <= redis.now
      invariant server.sessions == old(server.sessions) - Ids(expired - todo)
      invariant forall u :: u in redis.locks ==> Get(redis.locks, u) == Get(old(redis.locks), u)
      invariant forall u :: RecordedFor(expired - todo, old(redis.usession), u) && !Held(old(redis.locks), u, old(redis.now)) ==>
                  u !in redis.usession && u !in redis.uip
      invariant forall u :: Get(redis.usession, u) != Get(old(redis.usession), u) || Get(redis.uip, u) != Get(old(redis.uip), u) ==>
                  u !in redis.usession && u !in redis.uip && RecordedFor(expired, old(redis.usession), u)
      decreases todo
    {
      var s :| s in todo;
      ghost var done := expired - todo;
      ghost var _ := s.DealExceptionSession(redis);
      todo := todo - {s};
      assert expired - todo == done + {s};
      OneIdMore(done, s);
      OneRecordMore(done, s, old(redis.usession));
    }
    assert expired - todo == expired;
  }

  lemma OneRecordMore(done: set<CSession>, s: CSession, usession: map<Uid, Sid>)
    ensures forall u :: RecordedFor(done + {s}, usession, u)
                        <==> RecordedFor(done, usession, u) || (s.userId == u && Get(usession, u) == Present(s.sessionId))
  {
  }

  ghost function Ids(sessions: set<CSession>): set<Sid> { set s | s in sessions :: s.sessionId }

  lemma OneIdMore(done: set<CSession>, s: CSession)
    ensures Ids(done + {s}) == Ids(done) + {s.sessionId}
  {
  }

  // HEARTBEAT_TIMEOUT, in seconds
  const HEARTBEAT_TIMEOUT: int := 20

  class CSession {
    const sessionId: Sid
    const server: CServer
    var userId: Uid
    var closed: bool
    var lastHeartbeat: int
    var offlineNotices: seq<Uid>

    constructor (sessionId: Sid, server: CServer, garbage: Uid, heartbeat: int)
      ensures this.sessionId == sessionId && this.server == server && userId == garbage
      ensures !closed && lastHeartbeat == heartbeat && offlineNotices == []
    {
      this.sessionId, this.server, userId := sessionId, server, garbage;
      closed, lastHeartbeat, offlineNotices := false, heartbeat, [];
    }

    method Close()
      modifies this`closed
      ensures closed
    {
      closed := true;
    }

    method SetUserId(uid: Uid, ghost redis: RedisMgr)
      modifies this`userId, redis`trace
      ensures userId == uid && redis.trace == old(redis.trace) + [SessionBound(sessionId, uid)]
    {
      userId, redis.trace := uid, redis.trace + [SessionBound(sessionId, uid)];
    }

    predicate IsHeartbeatExpired(now: int)
      reads this`lastHeartbeat
    {
      now - lastHeartbeat > HEARTBEAT_TIMEOUT
    }

    method NotifyOffline(uid: Uid)
      modifies this`offlineNotices
      ensures offlineNotices == old(offlineNotices) + [uid]
    {
      offlineNotices := offlineNotices + [uid];
    }

    /** The two keys go if usession_ names this session. */
    method DropRecord(redis: RedisMgr, uid: Uid)
      modifies redis`usession, redis`uip, redis`trace
      ensures var mine := Get(old(redis.usession), uid) == Present(sessionId);
              && redis.usession == (if mine then old(redis.usession) - {uid} else old(redis.usession))
              && redis.uip == (if mine then old(redis.uip) - {uid} else old(redis.uip))
      ensures redis.trace == old(redis.trace) + DropActions(uid, sessionId, Get(old(redis.usession), uid))
    {
      var recorded := redis.GetUsession(uid);
      if recorded == Present(sessionId) {
        redis.DelUsession(uid);
        redis.DelUip(uid);
      }
    }

    /** DealExceptionSession: without the lock, and with a record that is missing or names another
        session, only this session's entry in _sessions goes. */
    method DealExceptionSession(redis: RedisMgr) returns (ghost won: bool)
      requires redis.Valid()
      modifies redis, server
      ensures redis.Valid() && old(redis.now) <= redis.now
      ensures server.sessions == old(server.sessions) - {sessionId}
      ensures won <==> old(redis.GetsLock(userId))
      ensures !old(Held(redis.locks, userId, redis.now)) ==> won
      ensures !won ==> old(redis.now) + ACQUIRE_TIME_OUT <= redis.now
      ensures var mine := won && Get(old(redis.usession), userId) == Present(sessionId);
              && redis.usession == (if mine then old(redis.usession) - {userId} else old(redis.usession))
              && redis.uip == (if mine then old(redis.uip) - {userId} else old(redis.uip))
      ensures redis.locks == if won then old(redis.locks) - {userId} else old(redis.locks)
      ensures redis.trace
              == old(redis.trace) + TeardownActions(userId, sessionId, Get(old(redis.usession), userId),
                                                    if won then Uuid(old(redis.drawn)) else Empty)
    {
      var uid := userId;
      var identifier, _ := redis.AcquireLock(uid);
      won := identifier != Empty;
      ghost var dropped: seq<Action> := [];
      if identifier != Empty {
        DropRecord(redis, uid);
        dropped := DropActions(uid, sessionId, Get(old(redis.usession), uid));
      }
      server.ClearSession(sessionId, redis);
      redis.ReleaseLock(uid, identifier);
      Regroup(old(redis.trace), LockTried(uid), dropped + [SessionErased(sessionId)], LockReleased(uid, identifier));
    }
  }

  class UserMgr {
    var uidToSession: map<Uid, CSession>

    constructor ()
      ensures uidToSession == map[]
    {
      uidToSession := map[];
    }

    method GetSession(uid: Uid) returns (session: CSession?)
      ensures session == if uid in uidToSession then uidToSession[uid] else null
    {
      session := if uid in uidToSession then uidToSession[uid] else null;
    }

    method SetUserSession(uid: Uid, session: CSession, ghost redis: RedisMgr)
      modifies this, redis`trace
      ensures uidToSession == old(uidToSession)[uid := session]
      ensures redis.trace == old(redis.trace) + [Indexed(uid, session.sessionId)]
    {
      uidToSession, redis.trace := uidToSession[uid := session], redis.trace + [Indexed(uid, session.sessionId)];
    }
  }

  /** ChatServiceImpl: the remote half of a login's critical section. */
  class ChatService {
    const userMgr: UserMgr
    const server: CServer

    constructor (userMgr: UserMgr, server: CServer)
      ensures this.userMgr == userMgr && this.server == server
    {
      this.userMgr, this.server := userMgr, server;
    }

    method NotifyKickUser(uid: Uid, ghost redis: RedisMgr)
      modifies redis`trace
      modifies server, (if uid in userMgr.uidToSession then {userMgr.uidToSession[uid]} else {})`offlineNotices
      ensures uid in userMgr.uidToSession ==>
                var victim := userMgr.uidToSession[uid];
                && server.sessions == old(server.sessions) - {victim.sessionId}
                && victim.offlineNotices == old(victim.offlineNotices) + [uid]
      ensures uid !in userMgr.uidToSession ==> server.sessions == old(server.sessions)
      ensures redis.trace == old(redis.trace)
                + if uid in userMgr.uidToSession then [SessionErased(userMgr.uidToSession[uid].sessionId)] else []
    {
      var session := userMgr.GetSession(uid);
      if session == null {
        return;
      }
      session.NotifyOffline(uid);
      server.ClearSession(session.sessionId, redis);
    }
  }

  class LogicSystem {
    const selfName: Srv
    const redis: RedisMgr
    const local: ChatService               // this process's own UserMgr and CServer
    const peers: map<Srv, ChatService>     // the rpc pools of the other servers

    constructor (selfName: Srv, redis: RedisMgr, local: ChatService, peers: map<Srv, ChatService>)
      ensures this.selfName == selfName && this.redis == redis && this.local == local && this.peers == peers
    {
      this.selfName, this.redis, this.local, this.peers := selfName, redis, local, peers;
    }

    /** The service that serves the recorded login of uid: this process itself, or a peer whose rpc
        pool exists; null when there is no record or its server cannot be reached. */
    function Recorded(uid: Uid): ChatService?
      reads redis`uip
    {
      if uid !in redis.uip then null
      else if redis.uip[uid] == selfName then local
      else if redis.uip[uid] in peers then peers[redis.uip[uid]]
      else null
    }

    /** The session that GetSession(uid) finds there. */
    function Victim(uid: Uid): CSession?
      reads redis`uip, if Recorded(uid) != null then {Recorded(uid).userMgr} else {}
    {
      if Recorded(uid) != null && uid in Recorded(uid).userMgr.uidToSession
      then Recorded(uid).userMgr.uidToSession[uid] else null
    }

    function VictimId(victim: CSession?): Found<Sid> {
      if victim == null then Absent else Present(victim.sessionId)
    }

    /** The first half of the section: the recorded session is told to go and leaves its server's map. */
    method KickRecorded(uid: Uid)
      modifies redis`trace
      modifies if Recorded(uid) != null then {Recorded(uid).server} else {}
      modifies (if Victim(uid) != null then {Victim(uid)} else {})`offlineNotices
      ensures Victim(uid) != null ==>
                && Recorded(uid).server.sessions == old(Recorded(uid).server.sessions) - {Victim(uid).sessionId}
                && Victim(uid).offlineNotices == old(Victim(uid).offlineNotices) + [uid]
      ensures Recorded(uid) != null && Victim(uid) == null ==>
                Recorded(uid).server.sessions == old(Recorded(uid).server.sessions)
      ensures redis.trace == old(redis.trace) + [UipRead(uid)]
                             + if Victim(uid) != null then [SessionErased(Victim(uid).sessionId)] else []
    {
      var found := redis.GetUip(uid);
      if found.Present? {
        var ip := found.value;
        if ip == selfName {
          var oldSession := local.userMgr.GetSession(uid);
          if oldSession != null {
            oldSession.NotifyOffline(uid);
            local.server.ClearSession(oldSession.sessionId, redis);
          }
        } else if ip in peers {
          peers[ip].NotifyKickUser(uid, redis);
        }
      }
    }

    /** The second half: the new session is bound, recorded and indexed, in this order. */
    method RecordLogin(session: CSession, uid: Uid)
      modifies redis`uip, redis`usession, redis`trace, local.userMgr, session`userId
      ensures redis.trace
              == old(redis.trace) + [SessionBound(session.sessionId, uid), UipSet(uid, selfName),
                                     UsessionSet(uid, session.sessionId), Indexed(uid, session.sessionId)]
      ensures session.userId == uid
      ensures redis.uip == old(redis.uip)[uid := selfName]
      ensures redis.usession == old(redis.usession)[uid := session.sessionId]
      ensures local.userMgr.uidToSession == old(local.userMgr.uidToSession)[uid := session]
    {
      session.SetUserId(uid, redis);
      redis.SetUip(uid, selfName);
      redis.SetUsession(uid, session.sessionId);
      local.userMgr.SetUserSession(uid, session, redis);
    }

    /** What LoginHandler does between acquiring and releasing the lock. */
    method SwitchTo(session: CSession, uid: Uid)
      modifies redis`uip, redis`usession, redis`trace, local.userMgr, session`userId
      modifies if Recorded(uid) != null then {Recorded(uid).server} else {}
      modifies (if Victim(uid) != null then {Victim(uid)} else {})`offlineNotices
      ensures redis.trace == old(redis.trace) + SwitchActions(uid, selfName, session.sessionId, VictimId(old(Victim(uid))))
      ensures redis.uip == old(redis.uip)[uid := selfName]
      ensures redis.usession == old(redis.usession)[uid := session.sessionId]
      ensures local.userMgr.uidToSession == old(local.userMgr.uidToSession)[uid := session]
      ensures session.userId == uid
      ensures var svc, victim := old(Recorded(uid)), old(Victim(uid));
              victim != null ==>
                && svc.server.sessions == old(svc.server.sessions) - {victim.sessionId}
                && victim.offlineNotices == old(victim.offlineNotices) + [uid]
      ensures var svc := old(Recorded(uid));
              svc != null && old(Victim(uid)) == null ==> svc.server.sessions == old(svc.server.sessions)
    {
      KickRecorded(uid);
      RecordLogin(session, uid);
    }

    /** The critical section of LoginHandler. It runs to its end also when acquireLock timed out: the
        identifier is never checked, and the release then changes nothing. */
    method LoginHandler(session: CSession, uid: Uid) returns (ghost won: bool)
      requires redis.Valid()
      modifies redis, local.userMgr, session`userId
      modifies if Recorded(uid) != null then {Recorded(uid).server} else {}
      modifies (if Victim(uid) != null then {Victim(uid)} else {})`offlineNotices
      ensures redis.Valid() && old(redis.now) <= redis.now
      ensures won <==> old(redis.GetsLock(uid))
      ensures !old(Held(redis.locks, uid, redis.now)) ==> won
      ensures !won ==> old(redis.now) + ACQUIRE_TIME_OUT <= redis.now
      ensures redis.locks == if won then old(redis.locks) - {uid} else old(redis.locks)
      ensures redis.trace
              == old(redis.trace) + LoginActions(uid, selfName, session.sessionId, VictimId(old(Victim(uid))),
                                                 if won then Uuid(old(redis.drawn)) else Empty)
      ensures redis.uip == old(redis.uip)[uid := selfName]
      ensures redis.usession == old(redis.usession)[uid := session.sessionId]
      ensures local.userMgr.uidToSession == old(local.userMgr.uidToSession)[uid := session]
      ensures session.userId == uid
      ensures var svc, victim := old(Recorded(uid)), old(Victim(uid));
              victim != null ==>
                && svc.server.sessions == old(svc.server.sessions) - {victim.sessionId}
                && victim.offlineNotices == old(victim.offlineNotices) + [uid]
      ensures var svc := old(Recorded(uid));
              svc != null && old(Victim(uid)) == null ==> svc.server.sessions == old(svc.server.sessions)
    {
      ghost var victim := VictimId(Victim(uid));
      var identifier, _ := redis.AcquireLock(uid);
      won := identifier != Empty;
      SwitchTo(session, uid);
      redis.ReleaseLock(uid, identifier);
      Regroup(old(redis.trace), LockTried(uid), SwitchActions(uid, selfName, session.sessionId, victim), LockReleased(uid, identifier));
    }
  }
}
