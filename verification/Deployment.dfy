/** The methods of ChatServer do to a whole deployment, Redis and all the servers that share it, what the
    state machine of LoginProtocol does in an undisturbed login or teardown. */
module Deployment {
  import opened ChatServer
  import opened LeaseLock
  import opened LoginProtocol
  import opened Wrappers

  // ----- the view of a family of maps -----

  function Union(served: map<Srv, map<Sid, CSession>>): set<Sid> {
    set v, sid | v in served && sid in served[v] :: sid
  }

  function Flat(indices: map<Srv, map<Uid, CSession>>): map<(Srv, Uid), Sid> {
    map v, u | v in indices && u in indices[v] :: (v, u) := indices[v][u].sessionId
  }

  /** Every server serves sessions of its own only. */
  ghost predicate AtHome(served: map<Srv, map<Sid, CSession>>, home: map<Sid, Srv>) {
    forall v, sid :: v in served && sid in served[v] ==> Get(home, sid) == Present(v)
  }

  lemma UnionWithout(served: map<Srv, map<Sid, CSession>>, home: map<Sid, Srv>, v: Srv, sid: Sid)
    requires AtHome(served, home) && v in served && Get(home, sid) == Present(v)
    ensures Union(served[v := served[v] - {sid}]) == Union(served) - {sid}
  {
    var after := served[v := served[v] - {sid}];
    forall x | x in Union(served) - {sid} ensures x in Union(after) {
      var w :| w in served && x in served[w];
      assert x in after[w];
    }
    forall x | x in Union(after) ensures x in Union(served) - {sid} {
      var w :| w in after && x in after[w];
      assert x in served[w];
    }
  }

  lemma FlatWith(indices: map<Srv, map<Uid, CSession>>, v: Srv, u: Uid, session: CSession, index: map<Uid, CSession>)
    requires v in indices && index == indices[v][u := session]
    ensures Flat(indices[v := index]) == Flat(indices)[(v, u) := session.sessionId]
  {
    var after, flat, was := indices[v := index], Flat(indices[v := index]), Flat(indices);
    forall k | k in flat ensures k in was[(v, u) := session.sessionId] && flat[k] == was[(v, u) := session.sessionId][k] {
      assert k.0 in after && k.1 in after[k.0];
      assert k.0 != v ==> k.1 in indices[k.0];
    }
    forall k | k in was[(v, u) := session.sessionId] ensures k in flat {
      assert k.0 in after && k.1 in after[k.0];
    }
  }

  /** The sessions and the index of every server, and the keys of Redis. */
  datatype Maps = Maps(served: map<Srv, map<Sid, CSession>>, indices: map<Srv, map<Uid, CSession>>,
                       uip: map<Uid, Srv>, usession: map<Uid, Sid>, locks: map<Uid, Lease>)

  function Overall(m: Maps): View { View(Union(m.served), Flat(m.indices), m.uip, m.usession, m.locks) }

  /** Sessions are served and indexed where they are at home; uip_ names servers. */
  ghost predicate MapsOk(m: Maps, home: map<Sid, Srv>) {
    && m.served.Keys == m.indices.Keys && AtHome(m.served, home)
    && (forall v, u :: v in m.indices && u in m.indices[v] ==> Get(home, m.indices[v][u].sessionId) == Present(v))
    && (forall u :: u in m.uip ==> m.uip[u] in m.served)
  }

  /** The session that the two-level lookup finds. */
  function Target(m: Maps, uid: Uid): Found<Sid> {
    if uid in m.uip && m.uip[uid] in m.indices && uid in m.indices[m.uip[uid]]
    then Present(m.indices[m.uip[uid]][uid].sessionId) else Absent
  }

  lemma TargetIsRouted(m: Maps, home: map<Sid, Srv>, uid: Uid)
    requires MapsOk(m, home)
    ensures Target(m, uid) == Routed(Overall(m), uid)
  {
    if uid in m.uip {
      assert uid in m.indices[m.uip[uid]] <==> (m.uip[uid], uid) in Flat(m.indices);
    }
  }

  /** Server v's sessions once the one that the lookup finds is kicked; its index once uid is entered on w. */
  function ServedAt(m: Maps, uid: Uid, v: Srv): map<Sid, CSession>
    requires v in m.served
  {
    if Get(m.uip, uid) == Present(v) && Target(m, uid).Present? then m.served[v] - {Target(m, uid).value} else m.served[v]
  }

  function IndexAt(m: Maps, w: Srv, session: CSession, uid: Uid, v: Srv): map<Uid, CSession>
    requires v in m.indices
  {
    if v == w then m.indices[v][uid := session] else m.indices[v]
  }

  function LoggedInMaps(m: Maps, w: Srv, session: CSession, uid: Uid, won: bool): Maps {
    Maps(map v | v in m.served :: ServedAt(m, uid, v), map v | v in m.indices :: IndexAt(m, w, session, uid, v),
         m.uip[uid := w], m.usession[uid := session.sessionId], if won then m.locks - {uid} else m.locks)
  }

  lemma KickedIsWithout(m: Maps, home: map<Sid, Srv>, uid: Uid)
    requires MapsOk(m, home)
    ensures var found := Routed(Overall(m), uid);
            Union(map v | v in m.served :: ServedAt(m, uid, v))
            == if found.Present? then Union(m.served) - {found.value} else Union(m.served)
  {
    TargetIsRouted(m, home, uid);
    var after := map v | v in m.served :: ServedAt(m, uid, v);
    if Target(m, uid).Present? {
      var w, sid := m.uip[uid], Target(m, uid).value;
      UnionWithout(m.served, home, w, sid);
      assert after == m.served[w := m.served[w] - {sid}];
    } else {
      assert after == m.served;
    }
  }

  lemma IndexedIsWith(m: Maps, w: Srv, session: CSession, uid: Uid)
    requires w in m.indices
    ensures Flat(map v | v in m.indices :: IndexAt(m, w, session, uid, v)) == Flat(m.indices)[(w, uid) := session.sessionId]
  {
    var index := m.indices[w][uid := session];
    FlatWith(m.indices, w, uid, session, index);
    assert (map v | v in m.indices :: IndexAt(m, w, session, uid, v)) == m.indices[w := index];
  }

  lemma LoginKeepsMapsOk(m: Maps, home: map<Sid, Srv>, w: Srv, session: CSession, uid: Uid, won: bool)
    requires MapsOk(m, home) && w in m.indices && Get(home, session.sessionId) == Present(w)
    ensures MapsOk(LoggedInMaps(m, w, session, uid, won), home)
  {
  }

  lemma LoginOnMaps(m: Maps, home: map<Sid, Srv>, w: Srv, session: CSession, uid: Uid, won: bool)
    requires MapsOk(m, home) && w in m.indices
    ensures Overall(LoggedInMaps(m, w, session, uid, won)) == AfterLogin(Overall(m), w, session.sessionId, uid, won)
  {
    KickedIsWithout(m, home, uid);
    IndexedIsWith(m, w, session, uid);
  }

  function TornDownMaps(m: Maps, v: Srv, sid: Sid, uid: Uid, won: bool): Maps
    requires v in m.served
  {
    var mine := won && Get(m.usession, uid) == Present(sid);
    Maps(m.served[v := m.served[v] - {sid}], m.indices,
         if mine then m.uip - {uid} else m.uip, if mine then m.usession - {uid} else m.usession,
         if won then m.locks - {uid} else m.locks)
  }

  lemma TeardownOnMaps(m: Maps, home: map<Sid, Srv>, v: Srv, sid: Sid, uid: Uid, won: bool)
    requires MapsOk(m, home) && v in m.served && Get(home, sid) == Present(v)
    ensures MapsOk(TornDownMaps(m, v, sid, uid, won), home)
    ensures Overall(TornDownMaps(m, v, sid, uid, won)) == AfterTeardown(Overall(m), sid, uid, won)
  {
    UnionWithout(m.served, home, v, sid);
  }

  lemma UnionWith(served: map<Srv, map<Sid, CSession>>, v: Srv, sid: Sid, more: map<Sid, CSession>)
    requires v in served && more.Keys == served[v].Keys + {sid}
    ensures Union(served[v := more]) == Union(served) + {sid}
  {
    var after := served[v := more];
    forall x | x in Union(served) + {sid} ensures x in Union(after) {
      if x == sid {
        assert x in after[v];
      } else {
        var w :| w in served && x in served[w];
        assert x in after[w];
      }
    }
    forall x | x in Union(after) ensures x in Union(served) + {sid} {
      var w :| w in after && x in after[w];
      assert x != sid ==> x in served[w];
    }
  }

  /** Server v serves the session it has just accepted, unless it already serves one of that id. */
  function AcceptedAt(sessions: map<Sid, CSession>, session: CSession): map<Sid, CSession> {
    if session.sessionId in sessions then sessions else sessions[session.sessionId := session]
  }

  function AcceptedMaps(m: Maps, v: Srv, session: CSession): Maps
    requires v in m.served
  {
    m.(served := m.served[v := AcceptedAt(m.served[v], session)])
  }

  lemma AcceptOnMaps(m: Maps, home: map<Sid, Srv>, v: Srv, session: CSession)
    requires MapsOk(m, home) && v in m.served && Get(home, session.sessionId) == Present(v)
    ensures MapsOk(AcceptedMaps(m, v, session), home)
    ensures Overall(AcceptedMaps(m, v, session)) == Overall(m).(live := Overall(m).live + {session.sessionId})
  {
    UnionWith(m.served, v, session.sessionId, AcceptedAt(m.served[v], session));
  }

  // ----- in place -----

  /** Redis, the server `own` that runs a method, and one other server `peer`, whichever it may be: the
      methods reach no third one. Its maps, like those of all further servers, are entries of Maps. */
  class Deployment {
    const redis: RedisMgr
    const ownName: Srv
    const own: ChatService
    const peerName: Srv
    const peer: ChatService
    ghost const home: map<Sid, Srv>  // where each session was accepted

    constructor (redis: RedisMgr, ownName: Srv, own: ChatService, peerName: Srv, peer: ChatService, ghost home: map<Sid, Srv>)
      ensures this.redis == redis && this.ownName == ownName && this.own == own
      ensures this.peerName == peerName && this.peer == peer && this.home == home
    {
      this.redis, this.ownName, this.own := redis, ownName, own;
      this.peerName, this.peer, this.home := peerName, peer, home;
    }

    /** The two servers share no map. */
    ghost predicate Apart() {
      ownName != peerName && own.server != peer.server && own.userMgr != peer.userMgr
    }

    /** m is what the objects hold now. */
    ghost predicate Shows(m: Maps)
      reads redis, own.server, own.userMgr, peer.server, peer.userMgr
    {
      && ownName in m.served && m.served[ownName] == own.server.sessions
      && peerName in m.served && m.served[peerName] == peer.server.sessions
      && ownName in m.indices && m.indices[ownName] == own.userMgr.uidToSession
      && peerName in m.indices && m.indices[peerName] == peer.userMgr.uidToSession
      && m.uip == redis.uip && m.usession == redis.usession && m.locks == redis.locks
    }

    ghost predicate Valid(m: Maps)
      reads redis, own.server, own.userMgr, peer.server, peer.userMgr
    {
      redis.Valid() && Apart() && Shows(m) && MapsOk(m, home)
    }

    /** HandleAccept puts a session of this server among the served ones, as the event Insert does. */
    method Accept(session: CSession, ghost m: Maps) returns (ghost m': Maps)
      requires Valid(m) && Get(home, session.sessionId) == Present(ownName)
      modifies own.server
      ensures Valid(m') && Overall(m') == Overall(m).(live := Overall(m).live + {session.sessionId})
    {
      own.server.HandleAccept(session);
      m' := AcceptedMaps(m, ownName, session);
      AcceptOnMaps(m, home, ownName, session);
    }

    /** CheckValid of this server answers for the whole deployment. */
    method IsServed(sid: Sid, ghost m: Maps) returns (valid: bool)
      requires Valid(m) && Get(home, sid) == Present(ownName)
      ensures valid <==> sid in Overall(m).live
    {
      valid := own.server.CheckValid(sid);
      assert sid in Union(m.served) <==> sid in m.served[ownName];
    }

    /** DealExceptionSession of a session of this server is a whole teardown. */
    method Teardown(session: CSession, ghost m: Maps) returns (ghost won: bool, ghost m': Maps)
      requires Valid(m) && session.server == own.server && Get(home, session.sessionId) == Present(ownName)
      modifies redis, own.server
      ensures Valid(m') && Overall(m') == AfterTeardown(Overall(m), session.sessionId, session.userId, won)
      ensures won <==> old(redis.GetsLock(session.userId))
    {
      won := session.DealExceptionSession(redis);
      m' := TornDownMaps(m, ownName, session.sessionId, session.userId, won);
      TeardownOnMaps(m, home, ownName, session.sessionId, session.userId, won);
    }

    /** The session that the two-level lookup finds, in place. */
    ghost function Looked(uid: Uid): CSession?
      reads redis`uip, own.userMgr, peer.userMgr
    {
      if uid !in redis.uip then null
      else if redis.uip[uid] == ownName then (if uid in own.userMgr.uidToSession then own.userMgr.uidToSession[uid] else null)
      else if redis.uip[uid] == peerName then (if uid in peer.userMgr.uidToSession then peer.userMgr.uidToSession[uid] else null)
      else null
    }

    lemma LookedIsTarget(m: Maps, uid: Uid)
      requires Apart() && Shows(m) && Get(redis.uip, uid) in {Absent, Present(ownName), Present(peerName)}
      ensures Target(m, uid) == if Looked(uid) == null then Absent else Present(Looked(uid).sessionId)
    {
    }

    /** LoginHandler: what it leaves in the maps. */
    method Handle(session: CSession, uid: Uid, ghost found: Found<Sid>) returns (ghost won: bool)
      requires redis.Valid() && Apart() && Get(redis.uip, uid) in {Absent, Present(ownName), Present(peerName)}
      requires found == if Looked(uid) == null then Absent else Present(Looked(uid).sessionId)
      modifies redis, own.userMgr, own.server, peer.server, session`userId
      modifies (if Looked(uid) != null then {Looked(uid)} else {})`offlineNotices
      ensures redis.Valid()
      ensures own.server.sessions
              == if old(Get(redis.uip, uid)) == Present(ownName) && found.Present?
                 then old(own.server.sessions) - {found.value} else old(own.server.sessions)
      ensures peer.server.sessions
              == if old(Get(redis.uip, uid)) == Present(peerName) && found.Present?
                 then old(peer.server.sessions) - {found.value} else old(peer.server.sessions)
      ensures own.userMgr.uidToSession == old(own.userMgr.uidToSession)[uid := session]
      ensures redis.uip == old(redis.uip)[uid := ownName] && redis.usession == old(redis.usession)[uid := session.sessionId]
      ensures redis.locks == if won then old(redis.locks) - {uid} else old(redis.locks)
      ensures won <==> old(redis.GetsLock(uid))
    {
      var logic := new LogicSystem(ownName, redis, own, map[peerName := peer]);
      assert logic.Victim(uid) == Looked(uid);
      won := logic.LoginHandler(session, uid);
    }

    /** LoginHandler for a session of this server is a whole login. */
    method Login(session: CSession, uid: Uid, ghost m: Maps) returns (ghost won: bool, ghost m': Maps)
      requires Valid(m) && Get(home, session.sessionId) == Present(ownName)
      requires Get(redis.uip, uid) in {Absent, Present(ownName), Present(peerName)}
      modifies redis, own.userMgr, own.server, peer.server, session`userId
      modifies (if Looked(uid) != null then {Looked(uid)} else {})`offlineNotices
      ensures Valid(m') && Overall(m') == AfterLogin(Overall(m), ownName, session.sessionId, uid, won)
      ensures won <==> old(redis.GetsLock(uid))
    {
      LookedIsTarget(m, uid);
      won := Handle(session, uid, Target(m, uid));
      m' := LoggedInMaps(m, ownName, session, uid, won);
      assert Shows(m');
      LoginKeepsMapsOk(m, home, ownName, session, uid, won);
      LoginOnMaps(m, home, ownName, session, uid, won);
    }
  }
}
