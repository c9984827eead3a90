/** One login or teardown that runs without interruption, from a free lock to its end, and any number of
    teardowns of one session interleaved with each other. */
module LoginCourse {
  import opened LeaseLock
  import opened LoginProtocol
  import opened Wrappers

  // ----- n steps of one activation -----

  /** A command that cannot run is passed over. */
  function Ahead(st: State, tid: Tid, n: nat): State {
    if n == 0 then st
    else
      var prev := Ahead(st, tid, n - 1);
      if Enabled(prev, Advance(tid)) then Step(prev, Advance(tid)) else prev
  }

  /** The run goes on with n commands of activation tid and nothing else. */
  function Alone(run: Run, tid: Tid, n: nat): Run {
    if n == 0 then run else Then(Alone(run, tid, n - 1), Advance(tid))
  }

  lemma {:induction false} AloneIsAhead(run: Run, tid: Tid, n: nat)
    ensures At(Alone(run, tid, n)) == Ahead(At(run), tid, n)
  {
    if n > 0 {
      AloneIsAhead(run, tid, n - 1);
    }
  }

  predicate CanGo(st: State, tid: Tid, n: nat) {
    n == 0 || (CanGo(st, tid, n - 1) && Enabled(Ahead(st, tid, n - 1), Advance(tid)))
  }

  /** n commands, all of which can run, lead from st to st'. */
  predicate Goes(st: State, tid: Tid, n: nat, st': State) {
    CanGo(st, tid, n) && Ahead(st, tid, n) == st'
  }

  /** R(n, st): st is reached after n commands. It is kept by every command of tid that can run. */
  ghost predicate Counts(R: (nat, State) -> bool, tid: Tid) {
    forall n: nat, st {:trigger R(n, st), Command(st, tid, st.tasks[tid])} ::
      R(n, st) && tid in st.tasks && CanAdvance(st, st.tasks[tid]) ==> R(n + 1, Command(st, tid, st.tasks[tid]))
  }

  lemma GoesCounts(st: State, tid: Tid)
    ensures Counts((n: nat, st') => Goes(st, tid, n, st'), tid)
    ensures Goes(st, tid, 0, st)
  {
    forall n: nat, st' | Goes(st, tid, n, st') && tid in st'.tasks && CanAdvance(st', st'.tasks[tid])
      ensures Goes(st, tid, n + 1, Command(st', tid, st'.tasks[tid]))
    {
    }
  }

  predicate Completed(st: State, tid: Tid) { tid in st.tasks && Finished(st.tasks[tid]) }

  lemma {:induction false} CompletedStays(st: State, tid: Tid, n: nat, m: nat)
    requires n <= m && Completed(Ahead(st, tid, n), tid)
    ensures Ahead(st, tid, m) == Ahead(st, tid, n)
    decreases m
  {
    if n < m {
      CompletedStays(st, tid, n, m - 1);
    }
  }

  // ----- the stages of a login -----

  /** About to take a free lock. */
  predicate CanStart(st: State, tid: Tid) {
    tid in st.tasks && AtAcquire(st.tasks[tid]) && LockFree(st, st.tasks[tid].uid)
  }

  predicate AtLogin(st: State, tid: Tid, pc: LoginPc) {
    tid in st.tasks && st.tasks[tid].Login? && st.tasks[tid].pc == pc
  }

  predicate AtTeardown(st: State, tid: Tid, tpc: TeardownPc) {
    tid in st.tasks && st.tasks[tid].Teardown? && st.tasks[tid].tpc == tpc
  }

  function Started(t: Task, tid: Tid, until: nat): Task {
    if t.Login? then Login(t.srv, t.sid, t.uid, GetIp, Uuid(tid), until)
    else Teardown(t.sid, t.uid, TGet, Uuid(tid), until)
  }

  /** Winning the lock. */
  function Won(st: State, tid: Tid): State
    requires tid in st.tasks
  {
    var t, until := st.tasks[tid], st.now + LOCK_TIME_OUT;
    State(st.now, st.home, st.inserted, st.live, st.userId, st.loggedIn, st.index, st.uip, st.usession,
          st.locks[t.uid := Lease(Uuid(tid), until)], st.tasks[tid := Started(t, tid, until)], st.current)
  }

  lemma WinAlone(R: (nat, State) -> bool, n: nat, st: State, tid: Tid)
    requires Counts(R, tid) && R(n, st) && CanStart(st, tid)
    ensures R(n + 1, Won(st, tid))
  {
    assert Command(st, tid, st.tasks[tid]) == Won(st, tid);
  }

  function LiveAfterKick(st: State, u: Uid): set<Sid> {
    if Route(st, u).Present? then ClearSession(st, st.uip[u], Route(st, u).value) else st.live
  }

  function KickedOut(st: State, tid: Tid): State
    requires AtLogin(st, tid, GetIp)
  {
    var t := st.tasks[tid];
    State(st.now, st.home, st.inserted, LiveAfterKick(st, t.uid), st.userId, st.loggedIn, st.index, st.uip,
          st.usession, st.locks, st.tasks[tid := t.(pc := SetUser)], st.current)
  }

  /** What a login that looks its user up on server w makes of the state: the session found is gone. */
  function ClearedAt(st: State, tid: Tid, w: Srv): State
    requires tid in st.tasks && st.tasks[tid].Login?
  {
    var t := st.tasks[tid];
    var found := Get(st.index, (w, t.uid));
    State(st.now, st.home, st.inserted, if found.Present? then ClearSession(st, w, found.value) else st.live,
          st.userId, st.loggedIn, st.index, st.uip, st.usession, st.locks, st.tasks[tid := t.(pc := SetUser)],
          st.current)
  }

  lemma ClearAlone(R: (nat, State) -> bool, n: nat, st: State, tid: Tid, w: Srv) returns (k: nat)
    requires Counts(R, tid) && R(n, st) && AtLogin(st, tid, Lookup(w))
    ensures k <= 2 && R(n + k, ClearedAt(st, tid, w))
  {
    var t := st.tasks[tid];
    var st1 := Command(st, tid, t);
    k := 1;
    if (w, t.uid) in st.index {
      assert st1 == st.(tasks := st.tasks[tid := t.(pc := Clear(w, st.index[(w, t.uid)]))]);
      assert Command(st1, tid, st1.tasks[tid]) == ClearedAt(st, tid, w);
      k := 1 + 1;
    } else {
      assert st1 == ClearedAt(st, tid, w);
    }
    assert R(n + k, ClearedAt(st, tid, w));
  }

  /** From its first GET to SetUserId an undisturbed login only kicks. */
  lemma KickAlone(R: (nat, State) -> bool, n: nat, st: State, tid: Tid) returns (k: nat)
    requires Counts(R, tid) && R(n, st) && AtLogin(st, tid, GetIp)
    ensures k <= 3 && R(n + k, KickedOut(st, tid))
  {
    var t := st.tasks[tid];
    var st1 := Command(st, tid, t);
    k := 1;
    if t.uid in st.uip {
      assert st1 == st.(tasks := st.tasks[tid := t.(pc := Lookup(st.uip[t.uid]))]);
      var more := ClearAlone(R, n + 1, st1, tid, st.uip[t.uid]);
      assert ClearedAt(st1, tid, st.uip[t.uid]) == KickedOut(st, tid);
      k := 1 + more;
      assert n + k == n + 1 + more;
    } else {
      assert st1 == KickedOut(st, tid);
    }
  }

  function Bound(st: State, tid: Tid): State
    requires AtLogin(st, tid, SetUser)
  {
    var t := st.tasks[tid];
    State(st.now, st.home, st.inserted, st.live, st.userId[t.sid := t.uid], st.loggedIn + {t.sid}, st.index,
          st.uip[t.uid := t.srv], st.usession, st.locks, st.tasks[tid := t.(pc := SetSession)], st.current)
  }

  /** SetUserId and the SET of uip_. */
  lemma BindAlone(R: (nat, State) -> bool, n: nat, st: State, tid: Tid)
    requires Counts(R, tid) && R(n, st) && AtLogin(st, tid, SetUser)
    ensures R(n + 1 + 1, Bound(st, tid))
  {
    var t := st.tasks[tid];
    var st1 := Command(st, tid, t);
    assert st1 == st.(userId := st.userId[t.sid := t.uid], loggedIn := st.loggedIn + {t.sid},
                      tasks := st.tasks[tid := t.(pc := SetIp)]);
    assert Command(st1, tid, st1.tasks[tid]) == Bound(st, tid);
  }

  function Recorded(st: State, tid: Tid): State
    requires AtLogin(st, tid, SetSession)
  {
    var t := st.tasks[tid];
    State(st.now, st.home, st.inserted, st.live, st.userId, st.loggedIn, st.index[(t.srv, t.uid) := t.sid],
          st.uip, st.usession[t.uid := t.sid], st.locks, st.tasks[tid := t.(pc := LRelease)],
          st.current[t.uid := t.sid])
  }

  /** The SET of usession_ and the index. */
  lemma RecordAlone(R: (nat, State) -> bool, n: nat, st: State, tid: Tid)
    requires Counts(R, tid) && R(n, st) && AtLogin(st, tid, SetSession)
    ensures R(n + 1 + 1, Recorded(st, tid))
  {
    var t := st.tasks[tid];
    var st1 := Command(st, tid, t);
    assert st1 == st.(usession := st.usession[t.uid := t.sid], tasks := st.tasks[tid := t.(pc := SetIndex)]);
    assert Command(st1, tid, st1.tasks[tid]) == Recorded(st, tid);
  }

  function Done(t: Task): Task {
    if t.Login? then Login(t.srv, t.sid, t.uid, LDone, t.id, t.until) else Teardown(t.sid, t.uid, TDone, t.id, t.until)
  }

  function Released(st: State, tid: Tid): State
    requires tid in st.tasks
  {
    var t := st.tasks[tid];
    State(st.now, st.home, st.inserted, st.live, st.userId, st.loggedIn, st.index, st.uip, st.usession,
          DelIfOwner(st.locks, t.uid, t.id, st.now), st.tasks[tid := Done(t)], st.current)
  }

  lemma ReleaseAlone(R: (nat, State) -> bool, n: nat, st: State, tid: Tid)
    requires Counts(R, tid) && R(n, st) && (AtLogin(st, tid, LRelease) || AtTeardown(st, tid, TRelease))
    ensures R(n + 1, Released(st, tid))
  {
    assert Command(st, tid, st.tasks[tid]) == Released(st, tid);
  }

  /** What an undisturbed login makes of the state from SetUserId on. */
  function Finishing(st: State, tid: Tid): State
    requires AtLogin(st, tid, SetUser)
  {
    Released(Recorded(Bound(st, tid), tid), tid)
  }

  lemma FinishingIs(st: State, tid: Tid, t: Task)
    requires AtLogin(st, tid, SetUser) && st.tasks[tid] == t
    ensures Finishing(st, tid)
            == State(st.now, st.home, st.inserted, st.live, st.userId[t.sid := t.uid], st.loggedIn + {t.sid},
                     st.index[(t.srv, t.uid) := t.sid], st.uip[t.uid := t.srv], st.usession[t.uid := t.sid],
                     DelIfOwner(st.locks, t.uid, t.id, st.now), st.tasks[tid := Done(t)], st.current[t.uid := t.sid])
  {
  }

  lemma FinishAlone(R: (nat, State) -> bool, n: nat, st: State, tid: Tid)
    requires Counts(R, tid) && R(n, st) && AtLogin(st, tid, SetUser)
    ensures R(n + 5, Finishing(st, tid))
  {
    var st2 := Bound(st, tid);
    var st4 := Recorded(st2, tid);
    BindAlone(R, n, st, tid);
    RecordAlone(R, n + 1 + 1, st2, tid);
    ReleaseAlone(R, n + 4, st4, tid);
  }

  // ----- whose session is where, in every run -----

  /** Sessions stay on the server that accepted them, and index entries and logins respect it. */
  ghost predicate Placed(st: State) {
    && st.userId.Keys == st.home.Keys
    && (forall k :: k in st.index ==> Get(st.home, st.index[k]) == Present(k.0))
    && (forall tid :: tid in st.tasks ==> TaskPlaced(st, st.tasks[tid]))
  }

  ghost predicate TaskPlaced(st: State, t: Task) {
    t.sid in st.home && (t.Login? ==> st.home[t.sid] == t.srv)
  }

  lemma StepKeepsPlaces(st: State, e: Event)
    requires Placed(st) && Enabled(st, e)
    ensures Placed(Step(st, e))
  {
    var st' := Step(st, e);
    forall tid | tid in st'.tasks ensures TaskPlaced(st', st'.tasks[tid]) {
      assert tid in st.tasks ==> TaskPlaced(st, st.tasks[tid]);
    }
  }

  lemma {:induction false} RunsKeepPlaces(run: Run)
    ensures Placed(At(run))
  {
    match run
    case Start =>
    case Then(prev, e) =>
      RunsKeepPlaces(prev);
      if Enabled(At(prev), e) {
        StepKeepsPlaces(At(prev), e);
      }
  }

  // ----- a whole login -----

  // the commands of a login and of a teardown, at most
  const LOGIN_COMMANDS: nat := 9
  const TEARDOWN_COMMANDS: nat := 6

  function LoggedIn(st: State, tid: Tid): State
    requires tid in st.tasks && st.tasks[tid].Login?
  {
    Finishing(KickedOut(Won(st, tid), tid), tid)
  }

  lemma LoginGoes(R: (nat, State) -> bool, n: nat, st: State, tid: Tid) returns (k: nat)
    requires Counts(R, tid) && R(n, st) && CanStart(st, tid) && st.tasks[tid].Login?
    ensures k <= LOGIN_COMMANDS && R(n + k, LoggedIn(st, tid))
  {
    WinAlone(R, n, st, tid);
    var kick := KickAlone(R, n + 1, Won(st, tid), tid);
    FinishAlone(R, n + 1 + kick, KickedOut(Won(st, tid), tid), tid);
    k := 1 + kick + 5;
    assert n + 1 + kick + 5 == n + k;
  }

  /** No time passes, no session comes or goes home, no other activation moves. */
  ghost predicate OnlyMoves(st: State, st': State, tid: Tid) {
    && st'.now == st.now && st'.home == st.home && st'.inserted == st.inserted
    && tid in st'.tasks && st'.tasks == st.tasks[tid := st'.tasks[tid]]
  }

  /** The view is that after the whole login, and its session is bound; nothing else changes. */
  ghost predicate LoginEffect(st: State, st': State, tid: Tid)
    requires tid in st.tasks && st.tasks[tid].Login?
  {
    var t := st.tasks[tid];
    && Seen(st') == AfterLogin(Seen(st), t.srv, t.sid, t.uid, true) && st'.current == st.current[t.uid := t.sid]
    && st'.userId == st.userId[t.sid := t.uid] && st'.loggedIn == st.loggedIn + {t.sid}
    && OnlyMoves(st, st', tid)
  }

  /** ClearSession reaches the session found, because the index leads to the server that has it. */
  lemma KickIsExact(st: State, u: Uid)
    requires Placed(st)
    ensures LiveAfterKick(st, u) == if Route(st, u).Present? then st.live - {Route(st, u).value} else st.live
  {
  }

  lemma LockRoundTrip(locks: map<Uid, Lease>, u: Uid, lease: Lease, now: nat)
    requires now < lease.expiry
    ensures DelIfOwner(locks[u := lease], u, lease.owner, now) == locks - {u}
  {
  }

  lemma LoggedInMoves(st: State, tid: Tid)
    requires CanStart(st, tid) && st.tasks[tid].Login?
    ensures OnlyMoves(st, LoggedIn(st, tid), tid) && Completed(LoggedIn(st, tid), tid)
  {
  }

  lemma LoggedInBinds(st: State, tid: Tid, t: Task)
    requires CanStart(st, tid) && st.tasks[tid] == t && t.Login?
    ensures LoggedIn(st, tid).userId == st.userId[t.sid := t.uid]
    ensures LoggedIn(st, tid).loggedIn == st.loggedIn + {t.sid}
    ensures LoggedIn(st, tid).current == st.current[t.uid := t.sid]
  {
  }

  lemma LoggedInSeen(st: State, tid: Tid, t: Task, lease: Lease)
    requires CanStart(st, tid) && st.tasks[tid] == t && t.Login?
    requires lease == Lease(Uuid(tid), st.now + LOCK_TIME_OUT)
    ensures Seen(LoggedIn(st, tid))
            == View(LiveAfterKick(st, t.uid), st.index[(t.srv, t.uid) := t.sid], st.uip[t.uid := t.srv],
                    st.usession[t.uid := t.sid], DelIfOwner(st.locks[t.uid := lease], t.uid, lease.owner, st.now))
  {
  }

  lemma LoggedInEffect(st: State, tid: Tid)
    requires Placed(st) && CanStart(st, tid) && st.tasks[tid].Login?
    ensures LoginEffect(st, LoggedIn(st, tid), tid) && Completed(LoggedIn(st, tid), tid)
  {
    var t, lease := st.tasks[tid], Lease(Uuid(tid), st.now + LOCK_TIME_OUT);
    KickIsExact(st, t.uid);
    LockRoundTrip(st.locks, t.uid, lease, st.now);
    LoggedInMoves(st, tid);
    LoggedInBinds(st, tid, t);
    LoggedInSeen(st, tid, t, lease);
  }

  lemma LoginEnds(st: State, tid: Tid) returns (k: nat)
    requires Placed(st) && CanStart(st, tid) && st.tasks[tid].Login?
    ensures k <= LOGIN_COMMANDS && Completed(Ahead(st, tid, k), tid) && LoginEffect(st, Ahead(st, tid, k), tid)
  {
    k := LoginReaches(st, tid);
    LoggedInEffect(st, tid);
  }

  lemma LoginReaches(st: State, tid: Tid) returns (k: nat)
    requires CanStart(st, tid) && st.tasks[tid].Login?
    ensures k <= LOGIN_COMMANDS && Goes(st, tid, k, LoggedIn(st, tid))
  {
    GoesCounts(st, tid);
    k := LoginGoes((n: nat, st') => Goes(st, tid, n, st'), 0, st, tid);
    assert Goes(st, tid, 0 + k, LoggedIn(st, tid));
  }

  /** After 9 commands with nothing in between a login that finds the lock free is finished, and as
      soon as it is, its effect is the whole login. */
  lemma LoginAlone(run: Run, tid: Tid, n: nat)
    requires CanStart(At(run), tid) && At(run).tasks[tid].Login?
    ensures Completed(At(Alone(run, tid, LOGIN_COMMANDS)), tid)
    ensures Completed(At(Alone(run, tid, n)), tid) ==> LoginEffect(At(run), At(Alone(run, tid, n)), tid)
  {
    RunsKeepPlaces(run);
    var k := LoginEnds(At(run), tid);
    SameEnd(run, tid, k, LOGIN_COMMANDS);
    if Completed(At(Alone(run, tid, n)), tid) {
      SameEnd(run, tid, k, n);
    }
  }

  /** Two points at which the activation is finished are the same state. */
  lemma SameEnd(run: Run, tid: Tid, k: nat, n: nat)
    requires Completed(Ahead(At(run), tid, k), tid)
    requires k <= n || Completed(At(Alone(run, tid, n)), tid)
    ensures At(Alone(run, tid, n)) == Ahead(At(run), tid, k)
  {
    AloneIsAhead(run, tid, n);
    if k <= n {
      CompletedStays(At(run), tid, k, n);
    } else {
      CompletedStays(At(run), tid, n, k);
    }
  }

  /** A session that logs in is afterwards served exactly when it was served before and is not the one
      the records led to: logging in again on the same connection disconnects it. */
  lemma ReloginKicksItself(run: Run, tid: Tid, n: nat)
    requires CanStart(At(run), tid) && At(run).tasks[tid].Login? && Completed(At(Alone(run, tid, n)), tid)
    ensures var st, st', sid := At(run), At(Alone(run, tid, n)), At(run).tasks[tid].sid;
            sid in st'.live <==> sid in st.live && Route(st, st.tasks[tid].uid) != Present(sid)
  {
    LoginAlone(run, tid, n);
  }

  // ----- a whole teardown -----

  predicate NamesIt(st: State, t: Task) { Get(st.usession, t.uid) == Present(t.sid) }

  /** The lock is won and the recorded session compared with the teardown's own. */
  function Checked(st: State, tid: Tid): State
    requires tid in st.tasks && st.tasks[tid].Teardown?
  {
    var t, until := st.tasks[tid], st.now + LOCK_TIME_OUT;
    State(st.now, st.home, st.inserted, st.live, st.userId, st.loggedIn, st.index, st.uip, st.usession,
          st.locks[t.uid := Lease(Uuid(tid), until)],
          st.tasks[tid := Teardown(t.sid, t.uid, if NamesIt(st, t) then TDelSession else TClear, Uuid(tid), until)],
          st.current)
  }

  lemma CheckAlone(R: (nat, State) -> bool, n: nat, st: State, tid: Tid)
    requires Counts(R, tid) && R(n, st) && CanStart(st, tid) && st.tasks[tid].Teardown?
    ensures R(n + 1 + 1, Checked(st, tid))
  {
    WinAlone(R, n, st, tid);
    var won := Won(st, tid);
    assert Command(won, tid, won.tasks[tid]) == Checked(st, tid);
  }

  /** The two deletes. */
  function Deleted(st: State, tid: Tid): State
    requires AtTeardown(st, tid, TDelSession)
  {
    var t := st.tasks[tid];
    State(st.now, st.home, st.inserted, st.live, st.userId, st.loggedIn, st.index, st.uip - {t.uid},
          st.usession - {t.uid}, st.locks, st.tasks[tid := t.(tpc := TClear)],
          if Get(st.current, t.uid) == Present(t.sid) then st.current - {t.uid} else st.current)
  }

  lemma DeleteAlone(R: (nat, State) -> bool, n: nat, st: State, tid: Tid)
    requires Counts(R, tid) && R(n, st) && AtTeardown(st, tid, TDelSession)
    ensures R(n + 1 + 1, Deleted(st, tid))
  {
    var t := st.tasks[tid];
    var st1 := Command(st, tid, t);
    assert st1 == st.(usession := st.usession - {t.uid}, tasks := st.tasks[tid := t.(tpc := TDelIp)]);
    assert Command(st1, tid, st1.tasks[tid]) == Deleted(st, tid);
  }

  /** ClearSession on the own server, then the release. */
  function Cleared(st: State, tid: Tid): State
    requires AtTeardown(st, tid, TClear)
  {
    var t := st.tasks[tid];
    State(st.now, st.home, st.inserted, st.live - {t.sid}, st.userId, st.loggedIn, st.index, st.uip,
          st.usession, DelIfOwner(st.locks, t.uid, t.id, st.now), st.tasks[tid := Done(t)], st.current)
  }

  lemma EndAlone(R: (nat, State) -> bool, n: nat, st: State, tid: Tid)
    requires Counts(R, tid) && R(n, st) && AtTeardown(st, tid, TClear) && st.tasks[tid].sid in st.home
    ensures R(n + 1 + 1, Cleared(st, tid))
  {
    var t := st.tasks[tid];
    var st1 := Command(st, tid, t);
    assert st1 == st.(live := st.live - {t.sid}, tasks := st.tasks[tid := t.(tpc := TRelease)]);
    assert Command(st1, tid, st1.tasks[tid]) == Cleared(st, tid);
  }

  function DeletedIfNamed(st: State, tid: Tid): (st': State)
    requires tid in st.tasks && st.tasks[tid].Teardown?
    ensures AtTeardown(st', tid, TClear) && st'.tasks[tid].sid == st.tasks[tid].sid
  {
    if NamesIt(st, st.tasks[tid]) then Deleted(Checked(st, tid), tid) else Checked(st, tid)
  }

  function TornDown(st: State, tid: Tid): State
    requires tid in st.tasks && st.tasks[tid].Teardown?
  {
    Cleared(DeletedIfNamed(st, tid), tid)
  }

  lemma TeardownGoes(R: (nat, State) -> bool, n: nat, st: State, tid: Tid) returns (k: nat)
    requires Counts(R, tid) && R(n, st) && CanStart(st, tid) && st.tasks[tid].Teardown? && st.tasks[tid].sid in st.home
    ensures k <= TEARDOWN_COMMANDS && R(n + k, TornDown(st, tid))
  {
    CheckAlone(R, n, st, tid);
    var st1 := Checked(st, tid);
    if NamesIt(st, st.tasks[tid]) {
      DeleteAlone(R, n + 1 + 1, st1, tid);
      EndAlone(R, n + 4, Deleted(st1, tid), tid);
      k := 6;
    } else {
      EndAlone(R, n + 1 + 1, st1, tid);
      k := 4;
    }
  }

  /** Nothing but the view and the own task changes. */
  ghost predicate OnlySeen(st: State, st': State, tid: Tid) {
    OnlyMoves(st, st', tid) && st'.userId == st.userId && st'.loggedIn == st.loggedIn
  }

  /** The view is that after the whole teardown; nothing else changes. */
  ghost predicate TeardownEffect(st: State, st': State, tid: Tid)
    requires tid in st.tasks
  {
    var t := st.tasks[tid];
    Seen(st') == AfterTeardown(Seen(st), t.sid, t.uid, true) && OnlySeen(st, st', tid)
  }

  lemma OnlySeenOn(st: State, st1: State, st2: State, tid: Tid)
    requires OnlySeen(st, st1, tid) && OnlySeen(st1, st2, tid)
    ensures OnlySeen(st, st2, tid)
  {
  }

  lemma ReachesClear(st: State, tid: Tid, t: Task, lease: Lease)
    requires CanStart(st, tid) && st.tasks[tid] == t && t.Teardown?
    requires lease == Lease(Uuid(tid), st.now + LOCK_TIME_OUT)
    ensures OnlySeen(st, DeletedIfNamed(st, tid), tid)
    ensures Seen(DeletedIfNamed(st, tid))
            == View(st.live, st.index, if NamesIt(st, t) then st.uip - {t.uid} else st.uip,
                    if NamesIt(st, t) then st.usession - {t.uid} else st.usession, st.locks[t.uid := lease])
    ensures DeletedIfNamed(st, tid).tasks[tid] == Teardown(t.sid, t.uid, TClear, lease.owner, lease.expiry)
  {
    var st1 := Checked(st, tid);
    assert OnlySeen(st, st1, tid);
    if NamesIt(st, t) {
      assert OnlySeen(st1, Deleted(st1, tid), tid);
      OnlySeenOn(st, st1, Deleted(st1, tid), tid);
    }
  }

  lemma ClearEnds(st: State, tid: Tid, t: Task)
    requires AtTeardown(st, tid, TClear) && st.tasks[tid] == t
    ensures OnlySeen(st, Cleared(st, tid), tid) && Completed(Cleared(st, tid), tid)
    ensures Seen(Cleared(st, tid))
            == View(st.live - {t.sid}, st.index, st.uip, st.usession, DelIfOwner(st.locks, t.uid, t.id, st.now))
  {
  }

  lemma TornDownEffect(st: State, tid: Tid)
    requires CanStart(st, tid) && st.tasks[tid].Teardown?
    ensures TeardownEffect(st, TornDown(st, tid), tid) && Completed(TornDown(st, tid), tid)
  {
    var t, lease := st.tasks[tid], Lease(Uuid(tid), st.now + LOCK_TIME_OUT);
    var mid := DeletedIfNamed(st, tid);
    LockRoundTrip(st.locks, t.uid, lease, st.now);
    ReachesClear(st, tid, t, lease);
    ClearEnds(mid, tid, mid.tasks[tid]);
    OnlySeenOn(st, mid, TornDown(st, tid), tid);
  }

  /** After 6 commands with nothing in between a teardown that finds the lock free is finished, and as
      soon as it is, its effect is the whole teardown. */
  lemma TeardownAlone(run: Run, tid: Tid, n: nat)
    requires CanStart(At(run), tid) && At(run).tasks[tid].Teardown?
    ensures Completed(At(Alone(run, tid, TEARDOWN_COMMANDS)), tid)
    ensures Completed(At(Alone(run, tid, n)), tid) ==> TeardownEffect(At(run), At(Alone(run, tid, n)), tid)
  {
    var st := At(run);
    GoesCounts(st, tid);
    RunsKeepPlaces(run);
    assert TaskPlaced(st, st.tasks[tid]);
    var k := TeardownGoes((n: nat, st') => Goes(st, tid, n, st'), 0, st, tid);
    assert Goes(st, tid, k, TornDown(st, tid));
    TornDownEffect(st, tid);
    SameEnd(run, tid, k, TEARDOWN_COMMANDS);
    if Completed(At(Alone(run, tid, n)), tid) {
      SameEnd(run, tid, k, n);
    }
  }

  // ----- any number of teardowns of one session, interleaved -----

  predicate OfGroup(e: Event, group: set<Tid>) {
    match e
    case Advance(tid) => tid in group
    case GiveUp(tid) => tid in group
    case Tick(_) => true
    case _ => false
  }

  /** next goes on from run with commands and time-outs of the group while time passes, and no lease
      runs out inside a section. */
  ghost predicate GroupRuns(run: Run, next: Run, group: set<Tid>) {
    next == run
    || (next.Then? && GroupRuns(run, next.prev, group) && OfGroup(next.e, group)
        && Enabled(At(next.prev), next.e) && Reliable(At(next.prev), next.e))
  }

  /** All are about to begin and have read the same user id, after a read and a write error, say. */
  ghost predicate Alike(st: State, group: set<Tid>, sid: Sid, uid: Uid) {
    forall tid :: tid in group ==> AtTeardown(st, tid, TAcquire) && st.tasks[tid].sid == sid && st.tasks[tid].uid == uid
  }

  /** Nobody stores the empty identifier, and an activation without the lock has no other. */
  ghost predicate Named(st: State) {
    && (forall u :: u in st.locks ==> st.locks[u].owner != Empty)
    && (forall tid :: tid in st.tasks && AtAcquire(st.tasks[tid]) ==> st.tasks[tid].id == Empty)
  }

  lemma StepKeepsNamed(st: State, e: Event)
    requires Named(st) && Enabled(st, e)
    ensures Named(Step(st, e))
  {
  }

  lemma {:induction false} RunsKeepNamed(run: Run)
    ensures Named(At(run))
  {
    match run
    case Start =>
    case Then(prev, e) =>
      RunsKeepNamed(prev);
      if Enabled(At(prev), e) {
        StepKeepsNamed(At(prev), e);
      }
  }

  /** The next command of a teardown, on the view and on the teardown itself. */
  function ViewAfter(v: View, now: nat, tid: Tid, t: Task): View
    requires t.Teardown?
  {
    View(if t.tpc.TClear? then v.live - {t.sid} else v.live, v.index,
         if t.tpc.TDelIp? then v.uip - {t.uid} else v.uip,
         if t.tpc.TDelSession? then v.usession - {t.uid} else v.usession,
         if t.tpc.TAcquire? then v.locks[t.uid := Lease(Uuid(tid), now + LOCK_TIME_OUT)]
         else if t.tpc.TRelease? then DelIfOwner(v.locks, t.uid, t.id, now) else v.locks)
  }

  function TaskAfter(v: View, now: nat, tid: Tid, t: Task): Task
    requires t.Teardown?
  {
    match t.tpc
    case TAcquire => Teardown(t.sid, t.uid, TGet, Uuid(tid), now + LOCK_TIME_OUT)
    case TGet => t.(tpc := if Get(v.usession, t.uid) == Present(t.sid) then TDelSession else TClear)
    case TDelSession => t.(tpc := TDelIp)
    case TDelIp => t.(tpc := TClear)
    case TClear => t.(tpc := TRelease)
    case _ => t.(tpc := TDone)
  }

  lemma AdvanceSeen(st: State, tid: Tid)
    requires tid in st.tasks && st.tasks[tid].Teardown? && CanAdvance(st, st.tasks[tid]) && st.tasks[tid].sid in st.home
    ensures var t, st' := st.tasks[tid], Step(st, Advance(tid));
            && Seen(st') == ViewAfter(Seen(st), st.now, tid, t) && st'.now == st.now
            && st'.tasks == st.tasks[tid := TaskAfter(Seen(st), st.now, tid, t)] && st'.home == st.home
  {
  }

  predicate HasCleared(t: Task) { t.Teardown? && (t.tpc.TRelease? || t.tpc.TDone?) }

  predicate HasWon(t: Task) { t.id != Empty }

  /** The teardown has found the record not to be its own, or has deleted it. */
  predicate Swept(t: Task) { HasWon(t) && t.Teardown? && (t.tpc.TClear? || HasCleared(t)) }

  /** What one of the group has done, by where it stands; `all` is the view after a whole teardown. */
  ghost predicate PartOk(was: View, all: View, v: View, now: nat, tid: Tid, t: Task) {
    && t.Teardown? && (HasWon(t) ==> t.id == Uuid(tid)) && (t.tpc.TAcquire? ==> !HasWon(t))
    && (t.tpc.TGet? || t.tpc.TDelSession? || t.tpc.TDelIp? ==> HasWon(t))
    && (InSection(t) ==> t.uid in v.locks && v.locks[t.uid] == Lease(t.id, t.until) && now < t.until)
    && (t.tpc.TDelSession? || t.tpc.TDelIp? ==> Get(was.usession, t.uid) == Present(t.sid))
    && (t.tpc.TDelIp? ==> v.usession == all.usession)
    && (Swept(t) ==> v.usession == all.usession && v.uip == all.uip)
    && (HasCleared(t) ==> v.live == all.live)
  }

  /** The keys of the view are as before or as after a whole teardown. */
  predicate Halfway(was: View, all: View, v: View, uid: Uid) {
    && v.index == was.index && (v.live == was.live || v.live == all.live)
    && (v.usession == was.usession || v.usession == all.usession) && (v.uip == was.uip || v.uip == all.uip)
    && v.locks - {uid} == was.locks - {uid}
  }

  predicate KeysKept(was: View, v: View) { v.usession == was.usession && v.uip == was.uip && v.locks == was.locks }

  /** A delete of uip_ is outstanding only while someone of the group is about to do it. */
  ghost predicate SweepOk(was: View, all: View, v: View, tasks: map<Tid, Task>, group: set<Tid>) {
    v.usession == was.usession || v.uip == all.uip || SomeAtIp(tasks, group)
  }

  ghost predicate LockOk(was: View, v: View, tasks: map<Tid, Task>, group: set<Tid>, uid: Uid) {
    && (forall u :: u in v.locks ==> v.locks[u].owner != Empty)
    && (!SomeWon(tasks, group) ==> KeysKept(was, v))
    && (SomeWon(tasks, group) && uid in v.locks ==> SomeInside(tasks, group))
  }

  ghost predicate GroupOk(was: View, all: View, v: View, now: nat, tasks: map<Tid, Task>, group: set<Tid>, sid: Sid, uid: Uid) {
    && (forall tid :: tid in group ==>
          tid in tasks && tasks[tid].sid == sid && tasks[tid].uid == uid && PartOk(was, all, v, now, tid, tasks[tid]))
    && Halfway(was, all, v, uid) && SweepOk(was, all, v, tasks, group) && LockOk(was, v, tasks, group, uid)
  }

  ghost predicate SomeWon(tasks: map<Tid, Task>, group: set<Tid>) {
    exists tid :: tid in group && tid in tasks && HasWon(tasks[tid])
  }

  ghost predicate SomeAtIp(tasks: map<Tid, Task>, group: set<Tid>) {
    exists tid :: tid in group && tid in tasks && tasks[tid].Teardown? && tasks[tid].tpc.TDelIp?
  }

  ghost predicate SomeInside(tasks: map<Tid, Task>, group: set<Tid>) {
    exists tid :: tid in group && tid in tasks && InSection(tasks[tid])
  }

  /** A teardown of the group can take its next command. */
  predicate CanMove(v: View, now: nat, t: Task) {
    t.Teardown? && !t.tpc.TDone? && (t.tpc.TAcquire? ==> !Held(v.locks, t.uid, now))
  }

  lemma OtherPart(was: View, all: View, v: View, now: nat, tid: Tid, t: Task, other: Tid, o: Task)
    requires PartOk(was, all, v, now, tid, t) && PartOk(was, all, v, now, other, o) && other != tid
    requires CanMove(v, now, t) && o.sid == t.sid && o.uid == t.uid
    requires Halfway(was, all, v, t.uid) && all == AfterTeardown(was, t.sid, t.uid, true)
    ensures PartOk(was, all, ViewAfter(v, now, tid, t), now, other, o)
  {
  }

  lemma OwnPart(was: View, all: View, v: View, now: nat, tid: Tid, t: Task)
    requires PartOk(was, all, v, now, tid, t) && CanMove(v, now, t)
    requires Halfway(was, all, v, t.uid) && all == AfterTeardown(was, t.sid, t.uid, true)
    requires t.tpc.TGet? ==> v.usession == was.usession || v.uip == all.uip
    ensures PartOk(was, all, ViewAfter(v, now, tid, t), now, tid, TaskAfter(v, now, tid, t))
  {
  }

  lemma OneLockMoves(v: View, now: nat, tid: Tid, t: Task)
    requires t.Teardown?
    ensures ViewAfter(v, now, tid, t).locks - {t.uid} == v.locks - {t.uid}
  {
  }

  lemma HalfwayOn(was: View, all: View, v: View, now: nat, tid: Tid, t: Task)
    requires PartOk(was, all, v, now, tid, t) && CanMove(v, now, t)
    requires Halfway(was, all, v, t.uid) && all == AfterTeardown(was, t.sid, t.uid, true)
    ensures Halfway(was, all, ViewAfter(v, now, tid, t), t.uid)
  {
    OneLockMoves(v, now, tid, t);
    if t.tpc.TClear? {
      assert v.live - {t.sid} == all.live;
    } else if t.tpc.TDelSession? {
      assert v.usession - {t.uid} == all.usession;
    } else if t.tpc.TDelIp? {
      assert v.uip - {t.uid} == all.uip;
    }
  }

  /** Only one of the group is inside the section. */
  lemma NoneElseInside(was: View, all: View, v: View, now: nat, tasks: map<Tid, Task>, group: set<Tid>, sid: Sid, uid: Uid, tid: Tid)
    requires GroupOk(was, all, v, now, tasks, group, sid, uid) && tid in group && InSection(tasks[tid])
    ensures SomeAtIp(tasks, group) ==> tasks[tid].tpc.TDelIp?
    ensures forall x :: x in group && x != tid ==> !InSection(tasks[x])
  {
    forall x | x in group && x != tid ensures !InSection(tasks[x]) {
      assert PartOk(was, all, v, now, x, tasks[x]) && PartOk(was, all, v, now, tid, tasks[tid]);
    }
  }

  lemma GroupAdvance(was: View, all: View, v: View, now: nat, tasks: map<Tid, Task>, group: set<Tid>, sid: Sid, uid: Uid, tid: Tid)
    requires GroupOk(was, all, v, now, tasks, group, sid, uid) && all == AfterTeardown(was, sid, uid, true)
    requires tid in group && CanMove(v, now, tasks[tid])
    ensures GroupOk(was, all, ViewAfter(v, now, tid, tasks[tid]), now,
                    tasks[tid := TaskAfter(v, now, tid, tasks[tid])], group, sid, uid)
  {
    var t := tasks[tid];
    var v', tasks' := ViewAfter(v, now, tid, t), tasks[tid := TaskAfter(v, now, tid, t)];
    if InSection(t) {
      NoneElseInside(was, all, v, now, tasks, group, sid, uid, tid);
    }
    OwnPart(was, all, v, now, tid, t);
    HalfwayOn(was, all, v, now, tid, t);
    forall x | x in group
      ensures x in tasks' && tasks'[x].sid == sid && tasks'[x].uid == uid && PartOk(was, all, v', now, x, tasks'[x])
    {
      if x != tid {
        OtherPart(was, all, v, now, tid, t, x, tasks[x]);
      }
    }
    SweepOn(was, all, v, now, tasks, group, sid, uid, tid);
    LockOn(was, all, v, now, tasks, group, sid, uid, tid);
  }

  lemma SweepOn(was: View, all: View, v: View, now: nat, tasks: map<Tid, Task>, group: set<Tid>, sid: Sid, uid: Uid, tid: Tid)
    requires GroupOk(was, all, v, now, tasks, group, sid, uid) && all == AfterTeardown(was, sid, uid, true)
    requires tid in group && CanMove(v, now, tasks[tid])
    ensures SweepOk(was, all, ViewAfter(v, now, tid, tasks[tid]), tasks[tid := TaskAfter(v, now, tid, tasks[tid])], group)
  {
    var t := tasks[tid];
    var tasks' := tasks[tid := TaskAfter(v, now, tid, t)];
    if t.tpc.TDelSession? {
      assert tasks'[tid].tpc.TDelIp?;
    } else if !t.tpc.TDelIp? && SomeAtIp(tasks, group) {
      var x :| x in group && x in tasks && tasks[x].Teardown? && tasks[x].tpc.TDelIp?;
      assert tasks'[x] == tasks[x];
    }
  }

  /** The lock is taken only while someone of the group is inside the section, once one has won it. */
  lemma InsideOn(was: View, all: View, v: View, now: nat, tasks: map<Tid, Task>, group: set<Tid>, sid: Sid, uid: Uid, tid: Tid)
    requires GroupOk(was, all, v, now, tasks, group, sid, uid) && tid in group && CanMove(v, now, tasks[tid])
    requires SomeWon(tasks, group) && uid in ViewAfter(v, now, tid, tasks[tid]).locks && !tasks[tid].tpc.TAcquire?
    ensures SomeInside(tasks[tid := TaskAfter(v, now, tid, tasks[tid])], group)
  {
    var x :| x in group && x in tasks && InSection(tasks[x]);
    var tasks' := tasks[tid := TaskAfter(v, now, tid, tasks[tid])];
    if x == tid {
      assert PartOk(was, all, v, now, tid, tasks[tid]);
    }
    assert InSection(tasks'[x]);
  }

  lemma LockOn(was: View, all: View, v: View, now: nat, tasks: map<Tid, Task>, group: set<Tid>, sid: Sid, uid: Uid, tid: Tid)
    requires GroupOk(was, all, v, now, tasks, group, sid, uid) && tid in group && CanMove(v, now, tasks[tid])
    ensures LockOk(was, ViewAfter(v, now, tid, tasks[tid]), tasks[tid := TaskAfter(v, now, tid, tasks[tid])], group, uid)
  {
    var t := tasks[tid];
    var tasks' := tasks[tid := TaskAfter(v, now, tid, t)];
    if t.tpc.TAcquire? {
      assert HasWon(tasks'[tid]) && InSection(tasks'[tid]);
    } else {
      assert HasWon(tasks'[tid]) == HasWon(t);
      assert forall x :: x in group && x != tid && x in tasks ==> tasks'[x] == tasks[x];
      if SomeWon(tasks, group) && uid in ViewAfter(v, now, tid, t).locks {
        InsideOn(was, all, v, now, tasks, group, sid, uid, tid);
      }
    }
  }

  lemma GroupGivesUp(was: View, all: View, v: View, now: nat, tasks: map<Tid, Task>, group: set<Tid>, sid: Sid, uid: Uid, tid: Tid)
    requires GroupOk(was, all, v, now, tasks, group, sid, uid) && tid in group && tasks[tid].tpc.TAcquire?
    ensures GroupOk(was, all, v, now, tasks[tid := tasks[tid].(tpc := TClear)], group, sid, uid)
  {
    var tasks' := tasks[tid := tasks[tid].(tpc := TClear)];
    assert PartOk(was, all, v, now, tid, tasks[tid]);
    assert forall x :: x in group && x != tid && x in tasks ==> tasks'[x] == tasks[x];
    assert !HasWon(tasks'[tid]) && !InSection(tasks[tid]);
  }

  lemma GroupWaits(was: View, all: View, v: View, now: nat, tasks: map<Tid, Task>, group: set<Tid>, sid: Sid, uid: Uid, later: nat)
    requires GroupOk(was, all, v, now, tasks, group, sid, uid)
    requires forall tid :: tid in group && tid in tasks && InSection(tasks[tid]) ==> later < tasks[tid].until
    ensures GroupOk(was, all, v, later, tasks, group, sid, uid)
  {
    forall tid | tid in group ensures PartOk(was, all, v, later, tid, tasks[tid]) {
      assert PartOk(was, all, v, now, tid, tasks[tid]);
    }
  }

  /** The invariant of the group in a state of a run that goes on from was. */
  ghost predicate GroupInv(was: State, st: State, group: set<Tid>, sid: Sid, uid: Uid) {
    sid in st.home
    && GroupOk(Seen(was), AfterTeardown(Seen(was), sid, uid, true), Seen(st), st.now, st.tasks, group, sid, uid)
  }

  lemma GroupStep(was: State, st: State, e: Event, group: set<Tid>, sid: Sid, uid: Uid)
    requires GroupInv(was, st, group, sid, uid) && OfGroup(e, group) && Enabled(st, e) && Reliable(st, e)
    ensures GroupInv(was, Step(st, e), group, sid, uid)
  {
    var all := AfterTeardown(Seen(was), sid, uid, true);
    match e
    case Advance(tid) =>
      assert PartOk(Seen(was), all, Seen(st), st.now, tid, st.tasks[tid]);
      AdvanceSeen(st, tid);
      GroupAdvance(Seen(was), all, Seen(st), st.now, st.tasks, group, sid, uid, tid);
    case GiveUp(tid) => GroupGivesUp(Seen(was), all, Seen(st), st.now, st.tasks, group, sid, uid, tid);
    case Tick(d) => GroupWaits(Seen(was), all, Seen(st), st.now, st.tasks, group, sid, uid, st.now + d);
  }

  lemma GroupBegins(st: State, group: set<Tid>, sid: Sid, uid: Uid)
    requires Alike(st, group, sid, uid) && Named(st) && sid in st.home
    ensures GroupInv(st, st, group, sid, uid)
  {
  }

  lemma {:induction false} GroupKeepsInv(run: Run, next: Run, group: set<Tid>, sid: Sid, uid: Uid)
    requires GroupRuns(run, next, group) && Alike(At(run), group, sid, uid) && sid in At(run).home
    ensures GroupInv(At(run), At(next), group, sid, uid)
  {
    if next == run {
      RunsKeepNamed(run);
      GroupBegins(At(run), group, sid, uid);
    } else {
      GroupKeepsInv(run, next.prev, group, sid, uid);
      GroupStep(At(run), At(next.prev), next.e, group, sid, uid);
    }
  }

  lemma GroupEnds(was: View, all: View, v: View, now: nat, tasks: map<Tid, Task>, group: set<Tid>, sid: Sid, uid: Uid)
    requires GroupOk(was, all, v, now, tasks, group, sid, uid) && all == AfterTeardown(was, sid, uid, true)
    requires group != {} && forall tid :: tid in group ==> HasCleared(tasks[tid]) && !InSection(tasks[tid])
    ensures v == AfterTeardown(was, sid, uid, SomeWon(tasks, group))
  {
    var one :| one in group;
    assert PartOk(was, all, v, now, one, tasks[one]);
    if SomeWon(tasks, group) {
      var won :| won in group && won in tasks && HasWon(tasks[won]);
      assert PartOk(was, all, v, now, won, tasks[won]);
      assert v.locks == v.locks - {uid};
    }
  }

  /** Repeated teardown equals one teardown: however the commands and time-outs of any number of
      teardowns of one session interleave, once all are finished the view is that after one whole
      teardown, which has won the lock if any of them has. */
  lemma TeardownsAreOne(run: Run, next: Run, group: set<Tid>, sid: Sid, uid: Uid)
    requires group != {} && Alike(At(run), group, sid, uid) && GroupRuns(run, next, group)
    requires forall tid :: tid in group ==> Completed(At(next), tid)
    ensures Seen(At(next)) == AfterTeardown(Seen(At(run)), sid, uid, SomeWon(At(next).tasks, group))
  {
    var was, st := At(run), At(next);
    var all := AfterTeardown(Seen(was), sid, uid, true);
    var one :| one in group;
    RunsKeepPlaces(run);
    assert TaskPlaced(was, was.tasks[one]);
    GroupKeepsInv(run, next, group, sid, uid);
    forall tid | tid in group ensures HasCleared(st.tasks[tid]) && !InSection(st.tasks[tid]) {
      assert PartOk(Seen(was), all, Seen(st), st.now, tid, st.tasks[tid]) && Completed(st, tid);
    }
    GroupEnds(Seen(was), all, Seen(st), st.now, st.tasks, group, sid, uid);
  }
}
