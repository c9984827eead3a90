/** The inductive invariant of the login protocol, one program counter at a time. */
module LoginInvariant {
  import opened LeaseLock
  import opened LoginProtocol
  import opened Wrappers

  // ----- sessions, index and task records refer to real sessions -----

  ghost predicate WellFormed(st: State) {
    && st.userId.Keys == st.home.Keys
    && st.loggedIn <= st.inserted <= st.home.Keys
    && st.live <= st.inserted
    && (forall k :: k in st.index ==> st.index[k] in st.home && st.home[st.index[k]] == k.0)
    && (forall tid :: tid in st.tasks ==> TaskWellFormed(st, tid, st.tasks[tid]))
  }

  ghost predicate TaskWellFormed(st: State, tid: Tid, t: Task) {
    && t.sid in st.home
    && (t.Login? ==> t.sid in st.inserted && st.home[t.sid] == t.srv)
    && (t.id == Empty || t.id == Uuid(tid))
    && (AtAcquire(t) ==> t.id == Empty)
    && (t.Login? && t.id == Empty ==> AtAcquire(t))
    && (t.Teardown? && t.id == Empty ==> AtAcquire(t) || t.tpc.TClear? || t.tpc.TRelease? || t.tpc.TDone?)
  }

  /** An activation inside its section owns the lock of its uid and its lease is running. */
  ghost predicate OwnsLock(st: State, t: Task) {
    t.uid in st.locks && st.locks[t.uid] == Lease(t.id, t.until) && st.now < t.until
  }

  ghost predicate SectionsOwnLocks(st: State) {
    forall tid :: tid in st.tasks && InSection(st.tasks[tid]) ==> OwnsLock(st, st.tasks[tid])
  }

  // ----- what holds of one uid -----

  /** The record of u is whole, agrees with `current`, and no other live session carries u. */
  ghost predicate Consistent(st: State, u: Uid) {
    && (u in st.uip <==> u in st.usession)
    && Get(st.usession, u) == Get(st.current, u)
    && (u in st.uip ==> Get(st.index, (st.uip[u], u)) == Present(st.usession[u]))
    && OnlyBound(st, u, if u in st.usession then {st.usession[u]} else {})
  }

  /** What holds of t.uid when activation t, inside its section, is about to act. */
  ghost predicate Holds(st: State, t: Task) {
    match t
    case Login(srv, sid, uid, pc, _, _) => (
      match pc
      case LAcquire => true
      case GetIp => Consistent(st, uid)
      case Lookup(w) => Consistent(st, uid) && Get(st.uip, uid) == Present(w)
      case Clear(w, victim) => OnlyBound(st, uid, {victim}) && Get(st.home, victim) == Present(w)
      case SetUser => OnlyBound(st, uid, {})
      case SetIp => OnlyBound(st, uid, {sid})
      case SetSession => OnlyBound(st, uid, {sid}) && Get(st.uip, uid) == Present(srv)
      case SetIndex =>
        OnlyBound(st, uid, {sid}) && Get(st.uip, uid) == Present(srv) && Get(st.usession, uid) == Present(sid)
      case LRelease => Consistent(st, uid)
      case LDone => true)
    case Teardown(sid, uid, tpc, _, _) => (
      match tpc
      case TAcquire => true
      case TGet => Consistent(st, uid)
      case TDelSession => Consistent(st, uid) && Get(st.usession, uid) == Present(sid)
      case TDelIp =>
        uid !in st.usession && Get(st.current, uid) == Present(sid) && OnlyBound(st, uid, {sid})
      case TClear =>
        Consistent(st, uid)
        || (uid !in st.usession && uid !in st.uip && uid !in st.current && OnlyBound(st, uid, {sid}))
      case TRelease => Consistent(st, uid)
      case TDone => true)
  }

  ghost predicate SectionsHold(st: State) {
    forall tid :: tid in st.tasks && InSection(st.tasks[tid]) ==> Holds(st, st.tasks[tid])
  }

  ghost predicate Quiet(st: State, u: Uid) {
    forall tid :: tid in st.tasks && InSection(st.tasks[tid]) ==> st.tasks[tid].uid != u
  }

  ghost predicate QuietConsistent(st: State) {
    forall u :: Quiet(st, u) ==> Consistent(st, u)
  }

  ghost predicate Inv(st: State) {
    WellFormed(st) && SectionsOwnLocks(st) && SectionsHold(st) && QuietConsistent(st)
  }

  // ----- framing: what a step does not disturb -----

  /** Nothing that Consistent(·, u) or Holds(·, t) with t.uid == u looks at got worse. */
  ghost predicate Undisturbed(st: State, st': State, u: Uid) {
    && Get(st'.uip, u) == Get(st.uip, u)
    && Get(st'.usession, u) == Get(st.usession, u)
    && Get(st'.current, u) == Get(st.current, u)
    && (forall v :: Get(st'.index, (v, u)) == Get(st.index, (v, u)))
    && (forall sid :: BoundTo(st', sid, u) ==> BoundTo(st, sid, u))
    && (forall sid :: sid in st.home ==> sid in st'.home && st'.home[sid] == st.home[sid])
  }

  lemma KeepsConsistent(st: State, st': State, u: Uid)
    requires Undisturbed(st, st', u) && Consistent(st, u)
    ensures Consistent(st', u)
  {
  }

  lemma KeepsHolds(st: State, st': State, t: Task)
    requires Undisturbed(st, st', t.uid) && Holds(st, t)
    ensures Holds(st', t)
  {
    if Consistent(st, t.uid) {
      KeepsConsistent(st, st', t.uid);
    }
  }

  /** Two activations inside sections of one uid are the same activation. */
  lemma OneSectionPerUid(st: State, a: Tid, b: Tid)
    requires WellFormed(st) && SectionsOwnLocks(st)
    requires a in st.tasks && b in st.tasks && InSection(st.tasks[a]) && InSection(st.tasks[b])
    requires st.tasks[a].uid == st.tasks[b].uid
    ensures a == b
  {
    assert OwnsLock(st, st.tasks[a]) && OwnsLock(st, st.tasks[b]);
    assert TaskWellFormed(st, a, st.tasks[a]) && TaskWellFormed(st, b, st.tasks[b]);
  }

  /** A step that runs no section leaves all per-uid facts in place. */
  lemma NoSectionStep(st: State, st': State)
    requires Inv(st)
    requires forall u :: Undisturbed(st, st', u)
    requires forall tid :: tid in st'.tasks && InSection(st'.tasks[tid]) ==>
                             tid in st.tasks && st.tasks[tid] == st'.tasks[tid]
    requires forall tid :: tid in st.tasks && InSection(st.tasks[tid]) ==>
                             tid in st'.tasks && st.tasks[tid] == st'.tasks[tid]
    ensures SectionsHold(st') && QuietConsistent(st')
  {
    forall tid | tid in st'.tasks && InSection(st'.tasks[tid]) ensures Holds(st', st'.tasks[tid]) {
      assert Holds(st, st.tasks[tid]);
      KeepsHolds(st, st', st'.tasks[tid]);
    }
    forall u | Quiet(st', u) ensures Consistent(st', u) {
      assert Quiet(st, u);
      KeepsConsistent(st, st', u);
    }
  }

  /** A step by activation `tid` in its section disturbs no other uid; on its own uid it must
      re-establish what its next program counter needs, or consistency when it leaves. */
  lemma SectionStep(st: State, st': State, tid: Tid)
    requires Inv(st) && tid in st.tasks && tid in st'.tasks
    requires st'.tasks == st.tasks[tid := st'.tasks[tid]] && st'.tasks[tid].uid == st.tasks[tid].uid
    requires InSection(st.tasks[tid]) || InSection(st'.tasks[tid])
    requires InSection(st.tasks[tid]) || Quiet(st, st.tasks[tid].uid)
    requires forall u :: u != st.tasks[tid].uid ==> Undisturbed(st, st', u)
    requires InSection(st'.tasks[tid]) ==> Holds(st', st'.tasks[tid])
    requires !InSection(st'.tasks[tid]) ==> Consistent(st', st.tasks[tid].uid)
    ensures SectionsHold(st') && QuietConsistent(st')
  {
    var me := st.tasks[tid].uid;
    forall t | t in st'.tasks && InSection(st'.tasks[t]) ensures Holds(st', st'.tasks[t]) {
      if t != tid {
        assert st.tasks[t] == st'.tasks[t] && Holds(st, st.tasks[t]);
        if st.tasks[t].uid == me && InSection(st.tasks[tid]) {
          OneSectionPerUid(st, t, tid);
        }
        KeepsHolds(st, st', st.tasks[t]);
      }
    }
    forall u | Quiet(st', u) ensures Consistent(st', u) {
      if u == me {
        assert !InSection(st'.tasks[tid]);
      } else {
        forall t | t in st.tasks && InSection(st.tasks[t]) ensures st.tasks[t].uid != u {
          assert t in st'.tasks;
        }
        KeepsConsistent(st, st', u);
      }
    }
  }

  // ----- every step keeps the invariant -----

  /** Accepting a session, inserting it and dropping one bind nobody. */
  lemma SessionStep(st: State, e: Event)
    requires Inv(st) && Enabled(st, e)
    requires e.Accept? || e.Insert? || e.DropBadFrame?
    ensures Inv(Step(st, e))
  {
    var st' := Step(st, e);
    SessionStepKeepsRecords(st, e);
    forall u ensures Undisturbed(st, st', u) {
      SessionStepBindsNobody(st, e, u);
    }
    NoSectionStep(st, st');
  }

  lemma SessionStepKeepsRecords(st: State, e: Event)
    requires Inv(st) && Enabled(st, e)
    requires e.Accept? || e.Insert? || e.DropBadFrame?
    ensures WellFormed(Step(st, e)) && SectionsOwnLocks(Step(st, e)) && Step(st, e).tasks == st.tasks
  {
    var st' := Step(st, e);
    forall tid | tid in st'.tasks ensures TaskWellFormed(st', tid, st'.tasks[tid]) {
      assert TaskWellFormed(st, tid, st.tasks[tid]);
    }
    forall tid | tid in st'.tasks && InSection(st'.tasks[tid]) ensures OwnsLock(st', st'.tasks[tid]) {
      assert OwnsLock(st, st.tasks[tid]);
    }
  }

  lemma SessionStepBindsNobody(st: State, e: Event, u: Uid)
    requires WellFormed(st) && Enabled(st, e)
    requires e.Accept? || e.Insert? || e.DropBadFrame?
    ensures Undisturbed(st, Step(st, e), u)
  {
    var st' := Step(st, e);
    forall sid | BoundTo(st', sid, u) ensures BoundTo(st, sid, u) {
    }
  }

  lemma BeginStep(st: State, e: Event)
    requires Inv(st) && Enabled(st, e)
    requires e.BeginLogin? || e.BeginTeardown?
    ensures Inv(Step(st, e))
  {
    var st' := Step(st, e);
    NoSectionStep(st, st');
    forall tid | tid in st'.tasks ensures TaskWellFormed(st', tid, st'.tasks[tid]) {
      assert tid == e.tid || TaskWellFormed(st, tid, st.tasks[tid]);
    }
  }

  lemma TickStep(st: State, e: Event)
    requires Inv(st) && e.Tick? && Reliable(st, e)
    ensures Inv(Step(st, e))
  {
    var st' := Step(st, e);
    NoSectionStep(st, st');
    assert forall tid :: tid in st'.tasks ==> TaskWellFormed(st, tid, st.tasks[tid]);
  }

  lemma AdvanceKeepsWellFormed(st: State, tid: Tid)
    requires WellFormed(st) && Enabled(st, Advance(tid))
    ensures WellFormed(Step(st, Advance(tid)))
  {
    var st', t := Step(st, Advance(tid)), st.tasks[tid];
    assert TaskWellFormed(st, tid, t);
    forall o | o in st'.tasks ensures TaskWellFormed(st', o, st'.tasks[o]) {
      assert TaskWellFormed(st, o, st.tasks[o]);
    }
  }

  /** An activation touches the records of its own uid only, and binds sessions to no other uid. */
  lemma AdvanceDisturbsOneUid(st: State, tid: Tid, u: Uid)
    requires WellFormed(st) && Enabled(st, Advance(tid)) && u != st.tasks[tid].uid
    ensures Undisturbed(st, Step(st, Advance(tid)), u)
  {
    assert TaskWellFormed(st, tid, st.tasks[tid]);
  }

  lemma AdvanceShape(st: State, tid: Tid)
    requires WellFormed(st) && Enabled(st, Advance(tid)) && !AtAcquire(st.tasks[tid])
    ensures var st', t := Step(st, Advance(tid)), st.tasks[tid];
            && tid in st'.tasks && st'.tasks == st.tasks[tid := st'.tasks[tid]] && st'.now == st.now
            && st'.tasks[tid].uid == t.uid && st'.tasks[tid].id == t.id && st'.tasks[tid].until == t.until
            && (InSection(st'.tasks[tid]) ==> st'.locks == st.locks)
            && (st'.locks == st.locks || (AtRelease(t) && st'.locks == st.locks - {t.uid}))
  {
    assert TaskWellFormed(st, tid, st.tasks[tid]);
  }

  /** The lock facts survive a step that changes only the acting activation's own lock entry. */
  lemma KeepsLocks(st: State, st': State, tid: Tid)
    requires Inv(st) && tid in st.tasks && InSection(st.tasks[tid]) && st'.now == st.now
    requires tid in st'.tasks && st'.tasks == st.tasks[tid := st'.tasks[tid]]
    requires InSection(st'.tasks[tid]) ==>
               st'.locks == st.locks && st'.tasks[tid].uid == st.tasks[tid].uid
               && st'.tasks[tid].id == st.tasks[tid].id && st'.tasks[tid].until == st.tasks[tid].until
    requires st'.locks == st.locks || st'.locks == st.locks - {st.tasks[tid].uid}
    ensures SectionsOwnLocks(st')
  {
    assert OwnsLock(st, st.tasks[tid]);
    forall o | o in st'.tasks && InSection(st'.tasks[o]) ensures OwnsLock(st', st'.tasks[o]) {
      if o != tid {
        assert OwnsLock(st, st.tasks[o]);
        if st.tasks[o].uid == st.tasks[tid].uid {
          OneSectionPerUid(st, o, tid);
        }
      }
    }
  }

  /** Taking the lock: the uid was quiet, so its record is consistent. */
  lemma WinLock(st: State, tid: Tid)
    requires Inv(st) && Enabled(st, Advance(tid)) && AtAcquire(st.tasks[tid])
    ensures Inv(Step(st, Advance(tid)))
  {
    var st', t := Step(st, Advance(tid)), st.tasks[tid];
    assert TaskWellFormed(st, tid, t);
    QuietWhenFree(st, t.uid);
    assert Undisturbed(st, st', t.uid);
    KeepsConsistent(st, st', t.uid);
    forall u | u != t.uid ensures Undisturbed(st, st', u) {
      AdvanceDisturbsOneUid(st, tid, u);
    }
    SectionStep(st, st', tid);
    WinKeepsLocks(st, tid);
    AdvanceKeepsWellFormed(st, tid);
  }

  lemma WinKeepsLocks(st: State, tid: Tid)
    requires Inv(st) && Enabled(st, Advance(tid)) && AtAcquire(st.tasks[tid])
    ensures SectionsOwnLocks(Step(st, Advance(tid)))
  {
    var st' := Step(st, Advance(tid));
    forall o | o in st'.tasks && InSection(st'.tasks[o]) ensures OwnsLock(st', st'.tasks[o]) {
      if o != tid {
        assert OwnsLock(st, st.tasks[o]);
      }
    }
  }

  /** A free lock means that no activation is inside a section of that uid. */
  lemma QuietWhenFree(st: State, u: Uid)
    requires Inv(st) && LockFree(st, u)
    ensures Quiet(st, u) && Consistent(st, u)
  {
    forall o | o in st.tasks && InSection(st.tasks[o]) ensures st.tasks[o].uid != u {
      assert OwnsLock(st, st.tasks[o]);
    }
  }

  /** What the next program counter needs holds once the command has run. */
  ghost predicate NextHolds(st: State, tid: Tid)
    requires Enabled(st, Advance(tid))
  {
    var st' := Step(st, Advance(tid));
    tid in st'.tasks
    && if InSection(st'.tasks[tid]) then Holds(st', st'.tasks[tid]) else Consistent(st', st.tasks[tid].uid)
  }

  lemma LoginCommand(st: State, tid: Tid)
    requires WellFormed(st) && Enabled(st, Advance(tid))
    requires st.tasks[tid].Login? && InSection(st.tasks[tid]) && Holds(st, st.tasks[tid])
    ensures NextHolds(st, tid)
  {
    var st', t := Step(st, Advance(tid)), st.tasks[tid];
    assert TaskWellFormed(st, tid, t);
    if t.pc.GetIp? || t.pc.Lookup? || t.pc.LRelease? {
      KeepsConsistent(st, st', t.uid);
    } else {
      assert forall sid :: BoundTo(st', sid, t.uid) ==> BoundTo(st, sid, t.uid) || sid == t.sid;
    }
  }

  lemma TeardownCommand(st: State, tid: Tid)
    requires WellFormed(st) && Enabled(st, Advance(tid))
    requires st.tasks[tid].Teardown? && InSection(st.tasks[tid]) && Holds(st, st.tasks[tid])
    ensures NextHolds(st, tid)
  {
    var st', t := Step(st, Advance(tid)), st.tasks[tid];
    assert TaskWellFormed(st, tid, t);
    assert forall sid :: BoundTo(st', sid, t.uid) ==> BoundTo(st, sid, t.uid);
    if !t.tpc.TDelSession? && !t.tpc.TDelIp? && Consistent(st, t.uid) {
      KeepsConsistent(st, st', t.uid);
    }
  }

  lemma SectionAdvance(st: State, tid: Tid)
    requires Inv(st) && Enabled(st, Advance(tid)) && InSection(st.tasks[tid])
    ensures Inv(Step(st, Advance(tid)))
  {
    var st', t := Step(st, Advance(tid)), st.tasks[tid];
    assert Holds(st, t);
    if t.Login? {
      LoginCommand(st, tid);
    } else {
      TeardownCommand(st, tid);
    }
    forall u | u != t.uid ensures Undisturbed(st, st', u) {
      AdvanceDisturbsOneUid(st, tid, u);
    }
    AdvanceShape(st, tid);
    SectionStep(st, st', tid);
    KeepsLocks(st, st', tid);
    AdvanceKeepsWellFormed(st, tid);
  }

  /** A teardown without the lock only clears its own session. */
  lemma UnlockedTeardown(st: State, tid: Tid)
    requires Inv(st) && Enabled(st, Advance(tid)) && !AtAcquire(st.tasks[tid]) && st.tasks[tid].id == Empty
    ensures Inv(Step(st, Advance(tid)))
  {
    var st', t := Step(st, Advance(tid)), st.tasks[tid];
    assert TaskWellFormed(st, tid, t);
    AdvanceShape(st, tid);
    forall o | o in st'.tasks && InSection(st'.tasks[o]) ensures OwnsLock(st', st'.tasks[o]) {
      assert OwnsLock(st, st.tasks[o]);
      assert TaskWellFormed(st, o, st.tasks[o]);
    }
    forall u ensures Undisturbed(st, st', u) {
      if u != t.uid {
        AdvanceDisturbsOneUid(st, tid, u);
      }
    }
    NoSectionStep(st, st');
    AdvanceKeepsWellFormed(st, tid);
  }

  lemma GiveUpStep(st: State, e: Event)
    requires Inv(st) && Enabled(st, e) && e.GiveUp? && Reliable(st, e)
    ensures Inv(Step(st, e))
  {
    var st' := Step(st, e);
    assert TaskWellFormed(st, e.tid, st.tasks[e.tid]);
    NoSectionStep(st, st');
    assert forall o :: o in st'.tasks && o != e.tid ==> TaskWellFormed(st, o, st.tasks[o]);
  }

  lemma FailureKeepsWellFormed(st: State, e: Event)
    requires WellFormed(st) && Enabled(st, e) && e.CommandFails? && Reliable(st, e)
    ensures WellFormed(Step(st, e))
  {
    var st' := Step(st, e);
    forall o | o in st'.tasks ensures TaskWellFormed(st', o, st'.tasks[o]) {
      assert TaskWellFormed(st, o, st.tasks[o]);
    }
  }

  lemma HarmlessFailure(st: State, e: Event)
    requires Inv(st) && Enabled(st, e) && e.CommandFails? && Reliable(st, e)
    ensures Inv(Step(st, e))
  {
    var st', t := Step(st, e), st.tasks[e.tid];
    assert TaskWellFormed(st, e.tid, t);
    FailureKeepsWellFormed(st, e);
    assert forall u :: Undisturbed(st, st', u);
    if t.id == Empty {
      NoSectionStep(st, st');
    } else {
      assert Holds(st, t);
      KeepsConsistent(st, st', t.uid);
      SectionStep(st, st', e.tid);
      KeepsLocks(st, st', e.tid);
    }
  }

  lemma StepKeepsInv(st: State, e: Event)
    requires Inv(st) && Enabled(st, e) && Reliable(st, e)
    ensures Inv(Step(st, e))
  {
    match e
    case Accept(_, _, _) => SessionStep(st, e);
    case Insert(_) => SessionStep(st, e);
    case DropBadFrame(_) => SessionStep(st, e);
    case BeginLogin(_, _, _) => BeginStep(st, e);
    case BeginTeardown(_, _) => BeginStep(st, e);
    case Advance(tid) =>
      var t := st.tasks[tid];
      assert TaskWellFormed(st, tid, t);
      if AtAcquire(t) {
        WinLock(st, tid);
      } else if t.id == Empty {
        UnlockedTeardown(st, tid);
      } else {
        SectionAdvance(st, tid);
      }
    case GiveUp(_) => GiveUpStep(st, e);
    case CommandFails(_) => HarmlessFailure(st, e);
    case Tick(_) => TickStep(st, e);
  }

  lemma {:induction false} ReliableRunsKeepInv(run: Run)
    requires ReliableRun(run)
    ensures Inv(At(run))
  {
    match run
    case Start =>
    case Then(prev, e) =>
      ReliableRunsKeepInv(prev);
      StepKeepsInv(At(prev), e);
  }
}
