/** The login / kick / teardown protocol of the ChatServers as a state machine.

    One step is one Redis command, one mutex-protected map operation or one assignment to a session,
    taken by any running login (LogicSystem::LoginHandler) or teardown
    (CSession::DealExceptionSession) on any server. Any number of both may run at once.
 */
module LoginProtocol {
  import opened LeaseLock
  import opened Wrappers

  type Uid = int
  type Sid = nat  // a session's UUID
  type Srv = nat  // a ChatServer's name
  type Tid = nat  // one activation of LoginHandler or DealExceptionSession

  // in milliseconds
  const LOCK_TIME_OUT: nat := 10000
  const ACQUIRE_TIME_OUT: nat := 5000

  // What the activation does next.
  datatype LoginPc =
    | LAcquire
    | GetIp
    | Lookup(target: Srv)            // GetSession(uid), here or in NotifyKickUser on `target`
    | Clear(target: Srv, victim: Sid)  // ClearSession(victim) on `target`
    | SetUser
    | SetIp
    | SetSession
    | SetIndex
    | LRelease
    | LDone

  datatype TeardownPc = TAcquire | TGet | TDelSession | TDelIp | TClear | TRelease | TDone

  /** Until it has the lock an activation tries to get it `until` its acquire time is over; then `until`
      is the end of its lease. */
  datatype Task =
    | Login(srv: Srv, sid: Sid, uid: Uid, pc: LoginPc, id: Ident, until: nat)
    | Teardown(sid: Sid, uid: Uid, tpc: TeardownPc, id: Ident, until: nat)

  /** `live` is the union of all servers' _sessions; the part of it on server v are the sessions
      whose home is v. `inserted`, `loggedIn` and `current` are history: the sessions HandleAccept
      has put into _sessions, those whose SetUserId has run, and the abstract map from users to
      sessions: a login enters its session there in one indivisible action, at its last write, and a
      teardown removes its own session there, and no other, at its last delete. */
  datatype State = State(
    now: nat,
    home: map<Sid, Srv>,
    inserted: set<Sid>,
    live: set<Sid>,
    userId: map<Sid, Uid>,
    loggedIn: set<Sid>,
    index: map<(Srv, Uid), Sid>,  // every server's _uid_to_session
    uip: map<Uid, Srv>,           // uip_<uid>
    usession: map<Uid, Sid>,      // usession_<uid>
    locks: map<Uid, Lease>,       // lock:lock_<uid>
    tasks: map<Tid, Task>,
    current: map<Uid, Sid>)

  const INIT := State(0, map[], {}, {}, map[], {}, map[], map[], map[], map[], map[], map[])

  datatype Event =
    | Accept(sid: Sid, srv: Srv, garbage: Uid)  // a new session starts reading; _user_id is uninitialised
    | Insert(sid: Sid)                          // HandleAccept puts it into _sessions
    | DropBadFrame(sid: Sid)                    // ClearSession after a short read or an oversized length
    | BeginLogin(tid: Tid, sid: Sid, uid: Uid)  // a queued login, let through by CheckValid, passed the token check
    | BeginTeardown(tid: Tid, sid: Sid)         // read error, write error or heartbeat
    | Advance(tid: Tid)                         // the activation's next command succeeds
    | GiveUp(tid: Tid)                          // acquireLock returns the empty identifier
    | KickLost(tid: Tid)                        // the NotifyKickUser call does not reach its server
    | CommandFails(tid: Tid)                    // the Redis command has no effect
    | Tick(d: nat)

  predicate Enabled(st: State, e: Event) {
    match e
    case Accept(sid, _, _) => sid !in st.home
    case Insert(sid) => sid in st.home && sid !in st.inserted
    case DropBadFrame(sid) => sid in st.home
    case BeginLogin(tid, sid, _) => tid !in st.tasks && sid in st.home && sid in st.inserted
    case BeginTeardown(tid, sid) => tid !in st.tasks && sid in st.userId
    case Advance(tid) => tid in st.tasks && CanAdvance(st, st.tasks[tid])
    case GiveUp(tid) => tid in st.tasks && AtAcquire(st.tasks[tid]) && st.now >= st.tasks[tid].until
    case KickLost(tid) =>
      tid in st.tasks && st.tasks[tid].Login? && st.tasks[tid].pc.Lookup?
      && st.tasks[tid].pc.target != st.tasks[tid].srv
    case CommandFails(tid) => tid in st.tasks && AtRedisCommand(st.tasks[tid])
    case Tick(_) => true
  }

  predicate AtAcquire(t: Task) {
    match t
    case Login(_, _, _, pc, _, _) => pc.LAcquire?
    case Teardown(_, _, tpc, _, _) => tpc.TAcquire?
  }

  predicate AtRelease(t: Task) {
    match t
    case Login(_, _, _, pc, _, _) => pc.LRelease?
    case Teardown(_, _, tpc, _, _) => tpc.TRelease?
  }

  predicate Finished(t: Task) {
    match t
    case Login(_, _, _, pc, _, _) => pc.LDone?
    case Teardown(_, _, tpc, _, _) => tpc.TDone?
  }

  /** SET NX succeeds only on a free lock; every other command can run at any time. */
  predicate CanAdvance(st: State, t: Task) {
    !Finished(t) && (AtAcquire(t) ==> !Held(st.locks, t.uid, st.now))
  }

  predicate AtRedisCommand(t: Task) {
    match t
    case Login(_, _, _, pc, _, _) => pc.GetIp? || pc.SetIp? || pc.SetSession? || pc.LRelease?
    case Teardown(_, _, tpc, _, _) => tpc.TGet? || tpc.TDelSession? || tpc.TDelIp? || tpc.TRelease?
  }

  // What the next command of activation t writes, one shared variable at a time.

  /** CServer::ClearSession, called on server v for session sid, erases from v's own map only. */
  function ClearSession(st: State, v: Srv, sid: Sid): set<Sid> {
    if Get(st.home, sid) == Present(v) then st.live - {sid} else st.live
  }

  function LiveAfter(st: State, t: Task): set<Sid> {
    match t
    case Login(_, _, _, pc, _, _) => if pc.Clear? then ClearSession(st, pc.target, pc.victim) else st.live
    case Teardown(sid, _, tpc, _, _) =>
      if tpc.TClear? && sid in st.home then ClearSession(st, st.home[sid], sid) else st.live
  }

  function UserIdAfter(st: State, t: Task): map<Sid, Uid> {
    if t.Login? && t.pc.SetUser? then st.userId[t.sid := t.uid] else st.userId
  }

  function LoggedInAfter(st: State, t: Task): set<Sid> {
    if t.Login? && t.pc.SetUser? then st.loggedIn + {t.sid} else st.loggedIn
  }

  function IndexAfter(st: State, t: Task): map<(Srv, Uid), Sid> {
    if t.Login? && t.pc.SetIndex? then st.index[(t.srv, t.uid) := t.sid] else st.index
  }

  function UipAfter(st: State, t: Task): map<Uid, Srv> {
    if t.Login? && t.pc.SetIp? then st.uip[t.uid := t.srv]
    else if t.Teardown? && t.tpc.TDelIp? then st.uip - {t.uid}
    else st.uip
  }

  function UsessionAfter(st: State, t: Task): map<Uid, Sid> {
    if t.Login? && t.pc.SetSession? then st.usession[t.uid := t.sid]
    else if t.Teardown? && t.tpc.TDelSession? then st.usession - {t.uid}
    else st.usession
  }

  function LocksAfter(st: State, tid: Tid, t: Task): map<Uid, Lease> {
    if AtAcquire(t) then SetNxEx(st.locks, t.uid, Uuid(tid), st.now, LOCK_TIME_OUT)
    else if AtRelease(t) then DelIfOwner(st.locks, t.uid, t.id, st.now)
    else st.locks
  }

  function CurrentAfter(st: State, t: Task): map<Uid, Sid> {
    if t.Login? && t.pc.SetIndex? then st.current[t.uid := t.sid]
    else if t.Teardown? && t.tpc.TDelIp? && Get(st.current, t.uid) == Present(t.sid) then st.current - {t.uid}
    else st.current
  }

  /** Where a login goes on. */
  function LoginNext(st: State, t: Task): LoginPc
    requires t.Login?
  {
    match t.pc
    case LAcquire => GetIp
    case GetIp => if t.uid in st.uip then Lookup(st.uip[t.uid]) else SetUser
    case Lookup(w) => if (w, t.uid) in st.index then Clear(w, st.index[(w, t.uid)]) else SetUser
    case Clear(_, _) => SetUser
    case SetUser => SetIp
    case SetIp => SetSession
    case SetSession => SetIndex
    case SetIndex => LRelease
    case LRelease => LDone
    case LDone => LDone
  }

  function TeardownNext(st: State, t: Task): TeardownPc
    requires t.Teardown?
  {
    match t.tpc
    case TAcquire => TGet
    case TGet => if Get(st.usession, t.uid) == Present(t.sid) then TDelSession else TClear
    case TDelSession => TDelIp
    case TDelIp => TClear
    case TClear => TRelease
    case TRelease => TDone
    case TDone => TDone
  }

  /** Winning the lock also fixes the identifier and the end of the lease. */
  function NextTask(st: State, tid: Tid, t: Task): Task {
    var id := if AtAcquire(t) then Uuid(tid) else t.id;
    var until := if AtAcquire(t) then st.now + LOCK_TIME_OUT else t.until;
    match t
    case Login(srv, sid, uid, _, _, _) => Login(srv, sid, uid, LoginNext(st, t), id, until)
    case Teardown(sid, uid, _, _, _) => Teardown(sid, uid, TeardownNext(st, t), id, until)
  }

  function Command(st: State, tid: Tid, t: Task): State {
    State(st.now, st.home, st.inserted, LiveAfter(st, t), UserIdAfter(st, t), LoggedInAfter(st, t),
          IndexAfter(st, t), UipAfter(st, t), UsessionAfter(st, t), LocksAfter(st, tid, t),
          st.tasks[tid := NextTask(st, tid, t)], CurrentAfter(st, t))
  }

  /** The command at the program counter has no effect; a failed GET reads as a missing key. */
  function SkipCommand(t: Task): Task
    requires AtRedisCommand(t)
  {
    match t
    case Login(_, _, _, pc, _, _) =>
      t.(pc := match pc case GetIp => SetUser case SetIp => SetSession case SetSession => SetIndex case _ => LDone)
    case Teardown(_, _, tpc, _, _) =>
      t.(tpc := match tpc case TGet => TClear case TDelSession => TDelIp case TDelIp => TClear case _ => TDone)
  }

  function Step(st: State, e: Event): State
    requires Enabled(st, e)
  {
    match e
    case Accept(sid, srv, garbage) => st.(home := st.home[sid := srv], userId := st.userId[sid := garbage])
    case Insert(sid) => st.(inserted := st.inserted + {sid}, live := st.live + {sid})
    case DropBadFrame(sid) => st.(live := ClearSession(st, st.home[sid], sid))
    case BeginLogin(tid, sid, uid) =>
      st.(tasks := st.tasks[tid := Login(st.home[sid], sid, uid, LAcquire, Empty, st.now + ACQUIRE_TIME_OUT)])
    case BeginTeardown(tid, sid) =>
      st.(tasks := st.tasks[tid := Teardown(sid, st.userId[sid], TAcquire, Empty, st.now + ACQUIRE_TIME_OUT)])
    case Advance(tid) => Command(st, tid, st.tasks[tid])
    case GiveUp(tid) =>
      var t := st.tasks[tid];
      st.(tasks := st.tasks[tid := if t.Login? then t.(pc := GetIp) else t.(tpc := TClear)])
    case KickLost(tid) => st.(tasks := st.tasks[tid := st.tasks[tid].(pc := SetUser)])
    case CommandFails(tid) =>
      st.(tasks := st.tasks[tid := SkipCommand(st.tasks[tid])])
    case Tick(d) => st.(now := st.now + d)
  }

  // ----- what the protocol relies on -----

  /** The activation is between its SET NX and its release, holding an identifier. */
  predicate InSection(t: Task) {
    t.id != Empty && !AtAcquire(t) && !Finished(t)
  }

  /** Assumptions on the environment: logins get the lock within the retry time, kick calls arrive,
      Redis executes the commands (a failing release is harmless, and so is a failing GET of a
      teardown), and a section ends before its lease does. */
  ghost predicate Reliable(st: State, e: Event)
    requires Enabled(st, e)
  {
    match e
    case GiveUp(tid) => st.tasks[tid].Teardown?
    case KickLost(_) => false
    case CommandFails(tid) =>
      AtRelease(st.tasks[tid]) || (st.tasks[tid].Teardown? && st.tasks[tid].tpc.TGet?)
    case Tick(d) =>
      forall tid :: tid in st.tasks && InSection(st.tasks[tid]) ==> st.now + d < st.tasks[tid].until
    case _ => true
  }

  // ----- runs -----

  datatype Run = Start | Then(prev: Run, e: Event)

  function At(run: Run): State {
    match run
    case Start => INIT
    case Then(prev, e) => if Enabled(At(prev), e) then Step(At(prev), e) else At(prev)
  }

  /** Every event was possible when it happened. */
  predicate Possible(run: Run) {
    match run
    case Start => true
    case Then(prev, e) => Possible(prev) && Enabled(At(prev), e)
  }

  ghost predicate ReliableRun(run: Run) {
    match run
    case Start => true
    case Then(prev, e) => ReliableRun(prev) && Enabled(At(prev), e) && Reliable(At(prev), e)
  }

  // ----- the vocabulary of the properties -----

  /** A session that some server still serves and that carries uid u since a login. */
  predicate BoundTo(st: State, sid: Sid, u: Uid) {
    sid in st.live && sid in st.loggedIn && Get(st.userId, sid) == Present(u)
  }

  ghost predicate OnlyBound(st: State, u: Uid, keep: set<Sid>) {
    forall sid :: BoundTo(st, sid, u) ==> sid in keep
  }

  predicate LockFree(st: State, u: Uid) {
    !Held(st.locks, u, st.now)
  }

  /** What clients and the other servers can see. */
  datatype View = View(live: set<Sid>, index: map<(Srv, Uid), Sid>, uip: map<Uid, Srv>, usession: map<Uid, Sid>,
                       locks: map<Uid, Lease>)

  function Seen(st: State): View { View(st.live, st.index, st.uip, st.usession, st.locks) }

  /** The two-level lookup of message delivery: the server from uip_, then its GetSession. */
  function Routed(v: View, u: Uid): Found<Sid> {
    if u in v.uip then Get(v.index, (v.uip[u], u)) else Absent
  }

  function Route(st: State, u: Uid): Found<Sid> { Routed(Seen(st), u) }

  /** A whole login: the session that the lookup finds is kicked, the new one is recorded and indexed.
      `won` says whether the login got the lock; it runs either way. */
  function AfterLogin(v: View, srv: Srv, sid: Sid, uid: Uid, won: bool): View {
    View(if Routed(v, uid).Present? then v.live - {Routed(v, uid).value} else v.live,
         v.index[(srv, uid) := sid], v.uip[uid := srv], v.usession[uid := sid],
         if won then v.locks - {uid} else v.locks)
  }

  /** A whole teardown: the session goes; the two keys go if the lock was won and they name it. */
  function AfterTeardown(v: View, sid: Sid, uid: Uid, won: bool): View {
    var mine := won && Get(v.usession, uid) == Present(sid);
    View(v.live - {sid}, v.index,
         if mine then v.uip - {uid} else v.uip, if mine then v.usession - {uid} else v.usession,
         if won then v.locks - {uid} else v.locks)
  }
}
