/** What the login protocol guarantees in every reliable run. */
module LoginTheorems {
  import opened LeaseLock
  import opened LoginProtocol
  import opened LoginInvariant
  import opened Wrappers

  // ----- safety over all reliable runs -----

  /** Whenever a uid's lock is free, at most one session in the union of all servers' _sessions is
      bound to it, and it is the one usession_ and uip_ name. */
  lemma AtMostOneSession(run: Run, u: Uid, sid: Sid)
    requires ReliableRun(run) && LockFree(At(run), u) && BoundTo(At(run), sid, u)
    ensures Get(At(run).usession, u) == Present(sid)
    ensures Get(At(run).uip, u) == Get(At(run).home, sid)
    ensures forall other :: BoundTo(At(run), other, u) ==> other == sid
  {
    ReliableRunsKeepInv(run);
    QuietWhenFree(At(run), u);
  }

  /** Message delivery looks up uip_ and then the server's own index: whenever the uid's lock is
      free this finds exactly the session of the abstract map, or nothing when there is none. */
  lemma RoutingRefinesOneMap(run: Run, u: Uid)
    requires ReliableRun(run) && LockFree(At(run), u)
    ensures Route(At(run), u) == Get(At(run).current, u) == Get(At(run).usession, u)
    ensures u in At(run).uip <==> u in At(run).usession
    ensures u in At(run).uip ==> Get(At(run).home, At(run).usession[u]) == Present(At(run).uip[u])
  {
    ReliableRunsKeepInv(run);
    QuietWhenFree(At(run), u);
  }

  /** A record key disappears only because a teardown deletes it whose own session the pair names: the
      one that is current, and the one in usession_ as long as that key is there. */
  lemma TeardownDeletesOnlyItsOwn(run: Run, e: Event, u: Uid)
    requires ReliableRun(run) && Enabled(At(run), e) && Reliable(At(run), e)
    requires (u in At(run).usession && u !in Step(At(run), e).usession)
             || (u in At(run).uip && u !in Step(At(run), e).uip)
    ensures e.Advance? && At(run).tasks[e.tid].Teardown? && At(run).tasks[e.tid].uid == u
    ensures Get(At(run).current, u) == Present(At(run).tasks[e.tid].sid)
    ensures u in At(run).usession ==> At(run).usession[u] == At(run).tasks[e.tid].sid
  {
    ReliableRunsKeepInv(run);
    var st := At(run);
    assert e.Advance?;
    assert TaskWellFormed(st, e.tid, st.tasks[e.tid]) && Holds(st, st.tasks[e.tid]);
  }

  /** The event is one of teardown tid. */
  predicate OfTeardown(st: State, e: Event, tid: Tid) {
    && tid in st.tasks && st.tasks[tid].Teardown?
    && (e == Advance(tid) || e == GiveUp(tid) || e == CommandFails(tid))
  }

  /** A pair that names another session survives every step of a teardown, whatever user id it has read:
      also one that a newer login has only begun to write. */
  lemma OtherRecordSurvives(run: Run, e: Event, tid: Tid, u: Uid)
    requires ReliableRun(run) && Enabled(At(run), e) && Reliable(At(run), e) && OfTeardown(At(run), e, tid)
    requires u in At(run).usession && At(run).usession[u] != At(run).tasks[tid].sid
    ensures Get(Step(At(run), e).usession, u) == Get(At(run).usession, u)
    ensures Get(Step(At(run), e).uip, u) == Get(At(run).uip, u)
  {
    if u !in Step(At(run), e).usession || (u in At(run).uip && u !in Step(At(run), e).uip) {
      TeardownDeletesOnlyItsOwn(run, e, u);
    }
  }

  /** The leased lock gives each uid to one activation at a time. */
  lemma SectionsExclude(run: Run, a: Tid, b: Tid)
    requires ReliableRun(run) && a in At(run).tasks && b in At(run).tasks
    requires InSection(At(run).tasks[a]) && InSection(At(run).tasks[b])
    requires At(run).tasks[a].uid == At(run).tasks[b].uid
    ensures a == b && !LockFree(At(run), At(run).tasks[a].uid)
  {
    ReliableRunsKeepInv(run);
    OneSectionPerUid(At(run), a, b);
    assert OwnsLock(At(run), At(run).tasks[a]);
  }
}
