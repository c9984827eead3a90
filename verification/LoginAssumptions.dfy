/** Every assumption of the login protocol is needed: for each, a run that breaks only that one. */
module LoginAssumptions {
  import opened LeaseLock
  import opened LoginCourse
  import opened LoginProtocol
  import opened Wrappers

  datatype Assumption = LoginsGetTheLock | KicksArrive | CommandsWork | SectionsEndInLease

  function About(e: Event): Assumption {
    match e
    case GiveUp(_) => LoginsGetTheLock
    case KickLost(_) => KicksArrive
    case CommandFails(_) => CommandsWork
    case _ => SectionsEndInLease
  }

  /** A possible run in which only the given assumption may be broken. */
  ghost predicate ReliableBut(run: Run, a: Assumption) {
    match run
    case Start => true
    case Then(prev, e) =>
      ReliableBut(prev, a) && Enabled(At(prev), e) && (Reliable(At(prev), e) || About(e) == a)
  }

  /** The lock of activation tid's user has been held ever since the activation began. */
  ghost predicate RefusedSince(run: Run, tid: Tid) {
    match run
    case Start => false
    case Then(prev, e) =>
      && tid in At(run).tasks && Held(At(run).locks, At(run).tasks[tid].uid, At(run).now)
      && (((e.BeginLogin? || e.BeginTeardown?) && e.tid == tid) || RefusedSince(prev, tid))
  }

  /** acquireLock returns the empty identifier only where every attempt has been refused. */
  ghost predicate GivesUpInVain(run: Run) {
    match run
    case Start => true
    case Then(prev, e) => GivesUpInVain(prev) && (e.GiveUp? && Enabled(At(prev), e) ==> RefusedSince(prev, e.tid))
  }

  lemma Go(run: Run, e: Event, a: Assumption) returns (next: Run)
    requires ReliableBut(run, a) && Enabled(At(run), e)
    requires Reliable(At(run), e) || About(e) == a
    ensures next == Then(run, e) && ReliableBut(next, a) && At(next) == Step(At(run), e)
    ensures GivesUpInVain(run) && !e.GiveUp? ==> GivesUpInVain(next)
  {
    next := Then(run, e);
  }

  // ----- stretches of a run in which one activation goes on alone -----

  ghost predicate Arrives(run: Run, tid: Tid, a: Assumption, n: nat, st: State) {
    var next := Alone(run, tid, n);
    ReliableBut(next, a) && At(next) == st && (GivesUpInVain(run) ==> GivesUpInVain(next))
  }

  lemma ArrivesCounts(run: Run, tid: Tid, a: Assumption)
    requires ReliableBut(run, a)
    ensures Counts((n: nat, st) => Arrives(run, tid, a, n, st), tid) && Arrives(run, tid, a, 0, At(run))
  {
    forall n: nat, st | Arrives(run, tid, a, n, st) && tid in st.tasks && CanAdvance(st, st.tasks[tid])
      ensures Arrives(run, tid, a, n + 1, Command(st, tid, st.tasks[tid]))
    {
      assert Alone(run, tid, n + 1) == Then(Alone(run, tid, n), Advance(tid));
    }
  }

  lemma Win(run: Run, tid: Tid, a: Assumption) returns (next: Run)
    requires ReliableBut(run, a) && CanStart(At(run), tid)
    ensures ReliableBut(next, a) && At(next) == Won(At(run), tid) && (GivesUpInVain(run) ==> GivesUpInVain(next))
  {
    ArrivesCounts(run, tid, a);
    WinAlone((n: nat, st) => Arrives(run, tid, a, n, st), 0, At(run), tid);
    next := Alone(run, tid, 0 + 1);
  }

  lemma Kick(run: Run, tid: Tid, a: Assumption) returns (next: Run)
    requires ReliableBut(run, a) && AtLogin(At(run), tid, GetIp)
    ensures ReliableBut(next, a) && At(next) == KickedOut(At(run), tid) && (GivesUpInVain(run) ==> GivesUpInVain(next))
  {
    ArrivesCounts(run, tid, a);
    var k := KickAlone((n: nat, st) => Arrives(run, tid, a, n, st), 0, At(run), tid);
    next := Alone(run, tid, 0 + k);
  }

  lemma Bind(run: Run, tid: Tid, a: Assumption) returns (next: Run)
    requires ReliableBut(run, a) && AtLogin(At(run), tid, SetUser)
    ensures ReliableBut(next, a) && At(next) == Bound(At(run), tid)
  {
    ArrivesCounts(run, tid, a);
    BindAlone((n: nat, st) => Arrives(run, tid, a, n, st), 0, At(run), tid);
    next := Alone(run, tid, 0 + 1 + 1);
  }

  lemma Finish(run: Run, tid: Tid, a: Assumption) returns (next: Run)
    requires ReliableBut(run, a) && AtLogin(At(run), tid, SetUser)
    ensures ReliableBut(next, a) && At(next) == Finishing(At(run), tid) && (GivesUpInVain(run) ==> GivesUpInVain(next))
  {
    ArrivesCounts(run, tid, a);
    FinishAlone((n: nat, st) => Arrives(run, tid, a, n, st), 0, At(run), tid);
    next := Alone(run, tid, 0 + 5);
  }

  lemma {:induction false} GoesArrives(run: Run, tid: Tid, a: Assumption, n: nat)
    requires ReliableBut(run, a) && CanGo(At(run), tid, n)
    ensures ReliableBut(Alone(run, tid, n), a)
  {
    if n > 0 {
      GoesArrives(run, tid, a, n - 1);
      AloneIsAhead(run, tid, n - 1);
    }
  }

  lemma LogIn(run: Run, tid: Tid, a: Assumption) returns (next: Run)
    requires ReliableBut(run, a) && CanStart(At(run), tid) && At(run).tasks[tid].Login?
    ensures ReliableBut(next, a) && At(next) == LoggedIn(At(run), tid)
  {
    var k := LoginReaches(At(run), tid);
    GoesArrives(run, tid, a, k);
    AloneIsAhead(run, tid, k);
    next := Alone(run, tid, k);
  }

  lemma LogInEffect(run: Run, tid: Tid, a: Assumption) returns (next: Run)
    requires ReliableBut(run, a) && CanStart(At(run), tid) && At(run).tasks[tid].Login?
    ensures ReliableBut(next, a) && LoginEffect(At(run), At(next), tid) && Completed(At(next), tid)
  {
    next := LogIn(run, tid, a);
    RunsKeepPlaces(run);
    LoggedInEffect(At(run), tid);
  }

  lemma Check(run: Run, tid: Tid, a: Assumption) returns (next: Run)
    requires ReliableBut(run, a) && CanStart(At(run), tid) && At(run).tasks[tid].Teardown?
    ensures ReliableBut(next, a) && At(next) == Checked(At(run), tid)
  {
    ArrivesCounts(run, tid, a);
    CheckAlone((n: nat, st) => Arrives(run, tid, a, n, st), 0, At(run), tid);
    next := Alone(run, tid, 0 + 1 + 1);
  }

  lemma End(run: Run, tid: Tid, a: Assumption) returns (next: Run)
    requires ReliableBut(run, a) && AtTeardown(At(run), tid, TClear) && At(run).tasks[tid].sid in At(run).home
    ensures ReliableBut(next, a) && At(next) == Cleared(At(run), tid) && (GivesUpInVain(run) ==> GivesUpInVain(next))
  {
    ArrivesCounts(run, tid, a);
    EndAlone((n: nat, st) => Arrives(run, tid, a, n, st), 0, At(run), tid);
    next := Alone(run, tid, 0 + 1 + 1);
  }

  // ----- the runs -----

  const U: Uid := 7

  /** Sessions 0 and 1 are connected to servers 0 and `other`. */
  lemma TwoSessions(other: Srv, a: Assumption) returns (run: Run)
    ensures ReliableBut(run, a) && GivesUpInVain(run)
    ensures At(run) == State(0, map[0 := 0, 1 := other], {0, 1}, {0, 1}, map[0 := 0, 1 := 0], {}, map[], map[], map[],
                             map[], map[], map[])
  {
    var r1 := Go(Start, Accept(0, 0, 0), a);
    var r2 := Go(r1, Accept(1, other, 0), a);
    assert At(r2).home == map[0 := 0, 1 := other];
    var r3 := Go(r2, Insert(0), a);
    run := Go(r3, Insert(1), a);
    assert At(run).live == {0, 1};
  }

  /** ... and both ask to log in as U. */
  lemma TwoLoginsWaiting(other: Srv, a: Assumption) returns (run: Run)
    ensures ReliableBut(run, a)
    ensures At(run) == State(0, map[0 := 0, 1 := other], {0, 1}, {0, 1}, map[0 := 0, 1 := 0], {}, map[], map[], map[],
                             map[], map[0 := Login(0, 0, U, LAcquire, Empty, ACQUIRE_TIME_OUT),
                                        1 := Login(other, 1, U, LAcquire, Empty, ACQUIRE_TIME_OUT)], map[])
  {
    var r4 := TwoSessions(other, a);
    var r5 := Go(r4, BeginLogin(0, 0, U), a);
    run := Go(r5, BeginLogin(1, 1, U), a);
  }

  /** Session 0 is bound to U and recorded; the login of session 1 has not begun its section. */
  ghost predicate FirstDone(st: State, other: Srv) {
    && st.now == 0 && st.home == map[0 := 0, 1 := other]
    && Seen(st) == View({0, 1}, map[(0, U) := 0], map[U := 0], map[U := 0], map[])
    && st.userId == map[0 := U, 1 := 0] && st.loggedIn == {0} && st.current == map[U := 0] && Completed(st, 0)
    && st.tasks == map[0 := st.tasks[0], 1 := Login(other, 1, U, LAcquire, Empty, ACQUIRE_TIME_OUT)]
  }

  lemma FirstEffect(st: State, st': State, other: Srv)
    requires st == State(0, map[0 := 0, 1 := other], {0, 1}, {0, 1}, map[0 := 0, 1 := 0], {}, map[], map[], map[],
                         map[], map[0 := Login(0, 0, U, LAcquire, Empty, ACQUIRE_TIME_OUT),
                                    1 := Login(other, 1, U, LAcquire, Empty, ACQUIRE_TIME_OUT)], map[])
    requires LoginEffect(st, st', 0) && Completed(st', 0)
    ensures FirstDone(st', other)
  {
    assert st'.locks == map[] && st'.live == {0, 1};
  }

  /** ... and session 0 has completed its login. */
  lemma FirstLoginDone(other: Srv, a: Assumption) returns (run: Run)
    ensures ReliableBut(run, a) && FirstDone(At(run), other)
  {
    var r0 := TwoLoginsWaiting(other, a);
    run := LogInEffect(r0, 0, a);
    FirstEffect(At(r0), At(run), other);
  }

  /** Session 2, whose uninitialised _user_id happens to be U, breaks; its teardown holds the lock. */
  lemma TeardownHoldsTheLock(a: Assumption) returns (run: Run)
    ensures ReliableBut(run, a) && GivesUpInVain(run)
    ensures At(run) == State(0, map[0 := 0, 1 := 0, 2 := 0], {0, 1}, {0, 1}, map[0 := 0, 1 := 0, 2 := U], {},
                             map[], map[], map[], map[U := Lease(Uuid(2), LOCK_TIME_OUT)],
                             map[2 := Teardown(2, U, TGet, Uuid(2), LOCK_TIME_OUT)], map[])
  {
    var r0 := TwoSessions(0, a);
    var r1 := Go(r0, Accept(2, 0, U), a);
    var r2 := Go(r1, BeginTeardown(2, 2), a);
    run := Win(r2, 2, a);
    assert At(run).tasks == map[2 := Teardown(2, U, TGet, Uuid(2), LOCK_TIME_OUT)];
  }

  /** Two logins of U that begin then are refused until their acquire time is over. */
  lemma BothRefused(a: Assumption) returns (run: Run)
    ensures ReliableBut(run, a) && GivesUpInVain(run) && RefusedSince(run, 0) && RefusedSince(run, 1)
    ensures At(run) == State(ACQUIRE_TIME_OUT, map[0 := 0, 1 := 0, 2 := 0], {0, 1}, {0, 1}, map[0 := 0, 1 := 0, 2 := U], {},
                             map[], map[], map[], map[U := Lease(Uuid(2), LOCK_TIME_OUT)],
                             map[2 := Teardown(2, U, TGet, Uuid(2), LOCK_TIME_OUT),
                                 0 := Login(0, 0, U, LAcquire, Empty, ACQUIRE_TIME_OUT),
                                 1 := Login(0, 1, U, LAcquire, Empty, ACQUIRE_TIME_OUT)], map[])
  {
    var r0 := TeardownHoldsTheLock(a);
    var r1 := Go(r0, BeginLogin(0, 0, U), a);
    assert RefusedSince(r1, 0);
    var r2 := Go(r1, BeginLogin(1, 1, U), a);
    assert RefusedSince(r2, 0) && RefusedSince(r2, 1);
    run := Go(r2, Tick(ACQUIRE_TIME_OUT), a);
  }

  /** Both logins go on without the lock. */
  const UNLOCKED := State(ACQUIRE_TIME_OUT, map[0 := 0, 1 := 0, 2 := 0], {0, 1}, {0, 1}, map[0 := 0, 1 := 0, 2 := U], {},
                          map[], map[], map[], map[U := Lease(Uuid(2), LOCK_TIME_OUT)],
                          map[2 := Teardown(2, U, TGet, Uuid(2), LOCK_TIME_OUT),
                              0 := Login(0, 0, U, GetIp, Empty, ACQUIRE_TIME_OUT),
                              1 := Login(0, 1, U, GetIp, Empty, ACQUIRE_TIME_OUT)], map[])

  lemma BothGiveUp(a: Assumption) returns (run: Run)
    requires a == LoginsGetTheLock
    ensures ReliableBut(run, a) && GivesUpInVain(run)
    ensures At(run) == UNLOCKED
  {
    var r0 := BothRefused(a);
    var r1 := Go(r0, GiveUp(0), a);
    assert RefusedSince(r1, 1) && GivesUpInVain(r1);
    run := Go(r1, GiveUp(1), a);
    assert GivesUpInVain(run);
  }

  /** Both logins have found no record; then the first one has written its own. */
  const UNRECORDED := State(ACQUIRE_TIME_OUT, map[0 := 0, 1 := 0, 2 := 0], {0, 1}, {0, 1}, map[0 := 0, 1 := 0, 2 := U], {},
                            map[], map[], map[], map[U := Lease(Uuid(2), LOCK_TIME_OUT)],
                            map[2 := Teardown(2, U, TGet, Uuid(2), LOCK_TIME_OUT),
                                0 := Login(0, 0, U, SetUser, Empty, ACQUIRE_TIME_OUT),
                                1 := Login(0, 1, U, SetUser, Empty, ACQUIRE_TIME_OUT)], map[])

  const RECORDED_ONCE := State(ACQUIRE_TIME_OUT, map[0 := 0, 1 := 0, 2 := 0], {0, 1}, {0, 1}, map[0 := U, 1 := 0, 2 := U], {0},
                               map[(0, U) := 0], map[U := 0], map[U := 0], map[U := Lease(Uuid(2), LOCK_TIME_OUT)],
                               map[2 := Teardown(2, U, TGet, Uuid(2), LOCK_TIME_OUT),
                                   0 := Login(0, 0, U, LDone, Empty, ACQUIRE_TIME_OUT),
                                   1 := Login(0, 1, U, SetUser, Empty, ACQUIRE_TIME_OUT)], map[U := 0])

  lemma NoRecordFound()
    ensures AtLogin(UNLOCKED, 0, GetIp) && AtLogin(KickedOut(UNLOCKED, 0), 1, GetIp)
    ensures KickedOut(KickedOut(UNLOCKED, 0), 1) == UNRECORDED
  {
  }

  /** Without the lock both look for a record before either writes one. */
  lemma BothFindNoRecord(a: Assumption) returns (run: Run)
    requires a == LoginsGetTheLock
    ensures ReliableBut(run, a) && GivesUpInVain(run)
    ensures At(run) == UNRECORDED
  {
    var r0 := BothGiveUp(a);
    NoRecordFound();
    var r1 := Kick(r0, 0, a);
    run := Kick(r1, 1, a);
  }

  lemma OneRecorded()
    ensures AtLogin(UNRECORDED, 0, SetUser) && Finishing(UNRECORDED, 0) == RECORDED_ONCE
  {
    FinishingIs(UNRECORDED, 0, Login(0, 0, U, SetUser, Empty, ACQUIRE_TIME_OUT));
  }

  lemma OneRecords(a: Assumption) returns (run: Run)
    requires a == LoginsGetTheLock
    ensures ReliableBut(run, a) && GivesUpInVain(run) && At(run) == RECORDED_ONCE
  {
    var r0 := BothFindNoRecord(a);
    OneRecorded();
    run := Finish(r0, 0, a);
  }

  /** Both sessions are bound to U; only session 2's teardown is not finished. */
  ghost predicate BothBound(st: State) {
    && 2 in st.home && st.now == ACQUIRE_TIME_OUT
    && st.live == {0, 1} && BoundTo(st, 0, U) && BoundTo(st, 1, U)
    && Get(st.usession, U) == Present(1) && st.locks == map[U := Lease(Uuid(2), LOCK_TIME_OUT)]
    && st.tasks.Keys == {0, 1, 2} && Completed(st, 0) && Completed(st, 1)
    && st.tasks[2] == Teardown(2, U, TGet, Uuid(2), LOCK_TIME_OUT)
  }

  lemma BothRecord(a: Assumption) returns (run: Run)
    requires a == LoginsGetTheLock
    ensures ReliableBut(run, a) && GivesUpInVain(run) && BothBound(At(run))
  {
    var r0 := OneRecords(a);
    FinishingIs(At(r0), 1, Login(0, 1, U, SetUser, Empty, ACQUIRE_TIME_OUT));
    run := Finish(r0, 1, a);
  }

  /** LoginHandler goes on with an empty identifier: two logins that are both refused for the whole of
      their acquire time can leave two live sessions bound to one user. */
  lemma EmptyIdentifierBreaksUniqueness() returns (run: Run)
    ensures ReliableBut(run, LoginsGetTheLock) && GivesUpInVain(run) && LockFree(At(run), U)
    ensures forall tid :: tid in At(run).tasks ==> Completed(At(run), tid)
    ensures BoundTo(At(run), 0, U) && BoundTo(At(run), 1, U)
  {
    var r4 := BothRecord(LoginsGetTheLock);
    var r5 := Go(r4, Advance(2), LoginsGetTheLock);
    run := End(r5, 2, LoginsGetTheLock);
  }

  lemma LoseKick(run: Run, tid: Tid, a: Assumption) returns (next: Run)
    requires ReliableBut(run, a) && a == KicksArrive && AtLogin(At(run), tid, GetIp)
    requires var t := At(run).tasks[tid]; t.uid in At(run).uip && At(run).uip[t.uid] != t.srv
    ensures ReliableBut(next, a)
    ensures At(next) == At(run).(tasks := At(run).tasks[tid := At(run).tasks[tid].(pc := SetUser)])
  {
    var r1 := Go(run, Advance(tid), a);
    next := Go(r1, KickLost(tid), a);
  }

  /** Session 0 is still served when the second login binds its own. */
  lemma SecondLosesKick() returns (run: Run)
    ensures ReliableBut(run, KicksArrive) && At(run).live == {0, 1} && At(run).now == 0
    ensures At(run).userId == map[0 := U, 1 := 0] && At(run).loggedIn == {0}
    ensures At(run).locks == map[U := Lease(Uuid(1), LOCK_TIME_OUT)]
    ensures At(run).tasks.Keys == {0, 1} && Completed(At(run), 0)
    ensures At(run).tasks[1] == Login(1, 1, U, SetUser, Uuid(1), LOCK_TIME_OUT)
  {
    var r1 := FirstLoginDone(1, KicksArrive);
    var r2 := Win(r1, 1, KicksArrive);
    run := LoseKick(r2, 1, KicksArrive);
  }

  /** LoginHandler ignores the outcome of the kick call. */
  lemma LostKickBreaksUniqueness() returns (run: Run)
    ensures ReliableBut(run, KicksArrive) && LockFree(At(run), U)
    ensures forall tid :: tid in At(run).tasks ==> Completed(At(run), tid)
    ensures BoundTo(At(run), 0, U) && BoundTo(At(run), 1, U)
  {
    var r4 := SecondLosesKick();
    FinishingIs(At(r4), 1, At(r4).tasks[1]);
    run := Finish(r4, 1, KicksArrive);
  }

  lemma LoseSet(run: Run, tid: Tid, a: Assumption) returns (next: Run)
    requires ReliableBut(run, a) && a == CommandsWork && AtLogin(At(run), tid, SetSession)
    ensures ReliableBut(next, a) && Completed(At(next), tid)
    ensures At(next).uip == At(run).uip && At(next).usession == At(run).usession && At(next).now == At(run).now
    ensures var t := At(run).tasks[tid]; At(next).locks == DelIfOwner(At(run).locks, t.uid, t.id, At(run).now)
  {
    var r1 := Go(run, CommandFails(tid), a);
    var r2 := Go(r1, Advance(tid), a);
    next := Go(r2, Advance(tid), a);
  }

  /** A lost SET of usession_ leaves uip_ alone: the pair is torn. */
  lemma LostSetTearsTheRecord() returns (run: Run)
    ensures ReliableBut(run, CommandsWork) && LockFree(At(run), U)
    ensures Completed(At(run), 0) && U in At(run).uip && U !in At(run).usession
  {
    var a := CommandsWork;
    var r0 := TwoLoginsWaiting(0, a);
    var r1 := Win(r0, 0, a);
    var r2 := Kick(r1, 0, a);
    var r4 := Bind(r2, 0, a);
    run := LoseSet(r4, 0, a);
  }

  /** A teardown that outlives its lease deletes the record of the login that came in between. */
  lemma ExpiredLeaseDeletesNewerLogin() returns (before: Run, after: Run)
    ensures ReliableBut(after, SectionsEndInLease) && after == Then(before, Advance(2))
    ensures 2 in At(before).tasks && At(before).tasks[2].Teardown? && At(before).tasks[2].sid == 0
    ensures Get(At(before).usession, U) == Get(At(before).current, U) == Present(1)
    ensures U !in At(after).usession && LockFree(At(after), U)
  {
    var a := SectionsEndInLease;
    var r1 := FirstLoginDone(0, a);
    var r2 := Go(r1, BeginTeardown(2, 0), a);
    var r4 := Check(r2, 2, a);
    assert At(r4).tasks[2].tpc == TDelSession;
    var r5 := Go(r4, Tick(LOCK_TIME_OUT), a);
    before := LogInEffect(r5, 1, a);
    after := Go(before, Advance(2), a);
  }
}
