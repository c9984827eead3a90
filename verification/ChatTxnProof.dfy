/** What every interleaving of the friend and chat transactions keeps, and that each committed call
    acts as one indivisible change of the database. */
module ChatTxnProof {
  import opened ChatDb
  import opened ChatTxn
  import opened Wrappers

  // ----- the invariant of one open transaction -----

  /** Row k of friend: either committed already and left alone, or written here with value v. */
  predicate FriendRow(db: Db, w: Db, k: Pair, v: string) {
    if k in db.friend then k !in w.friend else k in w.friend && w.friend[k] == v
  }

  /** Rank of the statements after which a part of `w` is there. */
  function Rank(pc: Pc): nat {
    match pc
    case Update => 0
    case ReadApply => 1
    case Friend1 => 2
    case Friend2 => 3
    case Select => 0
    case NewThread => 4
    case NewChat => 5
    case Msg1 => 6
    case Msg2 => 7
    case Commit => 8
    case Finished(_) => 9
  }

  ghost predicate ApplyPart(db: Db, t: Txn)
    requires t.call.AddFriend?
  {
    var k := (t.call.to, t.call.from);
    if Rank(t.pc) == 0 then t.w.apply == map[]
    else && Waiting(db, t.call.from, t.call.to)
         && t.w.apply == map[k := Apply(1, db.apply[k].descs, db.apply[k].bakname)]
         && (Rank(t.pc) > 1 ==> t.ap == Apply(1, db.apply[k].descs, db.apply[k].bakname))
  }

  ghost predicate FriendPart(db: Db, t: Txn)
    requires t.call.AddFriend?
  {
    var k1, k2 := (t.call.from, t.call.to), (t.call.to, t.call.from);
    && t.w.friend.Keys <= (if Rank(t.pc) > 2 then {k1} else {}) + (if Rank(t.pc) > 3 then {k2} else {})
    && (Rank(t.pc) > 2 ==> FriendRow(db, t.w, k1, t.call.bakname))
    && (Rank(t.pc) > 3 && k1 != k2 ==> FriendRow(db, t.w, k2, t.ap.bakname))
  }

  ghost predicate ThreadPart(db: Db, nextThread: nat, t: Txn) {
    if Rank(t.pc) > 4
    then t.w.threads == map[t.thread := PrivateThread] && t.thread < nextThread && t.thread !in db.threads
    else t.w.threads == map[]
  }

  ghost predicate ChatPart(db: Db, t: Txn) {
    if Rank(t.pc) > 5
    then t.w.priv == map[t.thread := ChatPair(t.call)] && !PairTaken(db, ChatPair(t.call))
    else t.w.priv == map[]
  }

  ghost predicate MessagePart(db: Db, nextMsg: nat, t: Txn) {
    && (forall m :: m in t.w.messages ==> m < nextMsg && m !in db.messages)
    && t.w.messages == (
         if t.call.CreateChat? || Rank(t.pc) < 7 then map[]
         else if Rank(t.pc) == 7 then Greetings(t.call.from, t.call.to, t.ap.descs, "", t.thread, t.first, 0)
         else Greetings(t.call.from, t.call.to, t.ap.descs, t.call.desc, t.thread, t.first, t.second))
  }

  ghost predicate OpenOk(db: Db, nextThread: nat, nextMsg: nat, t: Txn) {
    && (t.call.AddFriend? ==> ApplyPart(db, t) && FriendPart(db, t))
    && (t.call.CreateChat? ==> t.w.apply == map[] && t.w.friend == map[])
    && ThreadPart(db, nextThread, t) && ChatPart(db, t) && MessagePart(db, nextMsg, t)
  }

  /** A finished call has no open rows; a successful one names the chat of its pair. */
  ghost predicate DoneOk(db: Db, t: Txn)
    requires t.pc.Finished?
  {
    t.w == NO_ROWS && (t.pc.result.Succeeded? ==>
                        t.pc.result.thread in db.priv && db.priv[t.pc.result.thread] == ChatPair(t.call))
  }

  /** A call is only ever at its own statements. */
  predicate RightCall(t: Txn) {
    t.pc.Finished? || t.pc in {NewThread, NewChat, Commit} || (t.call.CreateChat? <==> t.pc == Select)
  }

  ghost predicate TxnOk(st: State, t: Txn) {
    RightCall(t) && t.tries < MAX_RETRY && if t.pc.Finished? then DoneOk(st.db, t) else OpenOk(st.db, st.nextThread, st.nextMsg, t)
  }

  /** No two transactions have written the same row or key. */
  ghost predicate Apart(a: Db, b: Db) {
    && a.apply.Keys !! b.apply.Keys && a.friend.Keys !! b.friend.Keys && a.threads.Keys !! b.threads.Keys
    && a.priv.Values !! b.priv.Values && a.messages.Keys !! b.messages.Keys
  }

  ghost predicate AllOk(st: State) {
    forall i :: i in st.txns ==> TxnOk(st, st.txns[i])
  }

  ghost predicate AllApart(txns: map<Tid, Txn>) {
    forall i, j :: i in txns && j in txns && i != j ==> Apart(txns[i].w, txns[j].w)
  }

  ghost predicate Inv(st: State) {
    Sound(st.db) && CountersAhead(st.db, st.nextThread, st.nextMsg) && AllOk(st) && AllApart(st.txns)
  }

  // ----- commits are indivisible -----

  lemma TwoIgnores(f: map<Pair, string>, w: map<Pair, string>, k1: Pair, k2: Pair, v1: string, v2: string)
    requires w.Keys <= {k1, k2}
    requires if k1 in f then k1 !in w else k1 in w && w[k1] == v1
    requires k1 != k2 ==> if k2 in f then k2 !in w else k2 in w && w[k2] == v2
    ensures f + w == InsertIgnore(InsertIgnore(f, k1, v1), k2, v2)
  {
  }

  lemma OneRowMore<K, V>(m: map<K, V>, k: K, v: V)
    ensures m + map[k := v] == m[k := v]
  {
  }

  /** At its commit an AddFriend turns the committed database, whatever others did to it meanwhile,
      into FriendsMade of that database. */
  lemma {:induction false} AddFriendCommitsAtomically(st: State, t: Txn)
    requires TxnOk(st, t) && t.pc == Commit && t.call.AddFriend?
    ensures Waiting(st.db, t.call.from, t.call.to) && !PairTaken(st.db, ChatPair(t.call)) && t.thread !in st.db.threads
    ensures Overlay(st.db, t.w)
         == FriendsMade(st.db, t.call.from, t.call.to, t.call.bakname, t.call.desc, t.thread, t.first, t.second)
  {
    var c := t.call;
    assert ApplyPart(st.db, t) && FriendPart(st.db, t) && ThreadPart(st.db, st.nextThread, t) && ChatPart(st.db, t);
    TwoIgnores(st.db.friend, t.w.friend, (c.from, c.to), (c.to, c.from), c.bakname, t.ap.bakname);
    OneRowMore(st.db.apply, (c.to, c.from), t.ap);
    OneRowMore(st.db.threads, t.thread, PrivateThread);
    OneRowMore(st.db.priv, t.thread, ChatPair(c));
  }

  /** A committed CreatePrivateChat adds one private thread and its normalised chat row. */
  lemma CreateChatCommitsAtomically(st: State, t: Txn)
    requires TxnOk(st, t) && t.pc == Commit && t.call.CreateChat?
    ensures !PairTaken(st.db, ChatPair(t.call)) && t.thread !in st.db.threads
    ensures Overlay(st.db, t.w) == ChatMade(st.db, t.thread, ChatPair(t.call))
  {
    OneRowMore(st.db.threads, t.thread, PrivateThread);
    OneRowMore(st.db.priv, t.thread, ChatPair(t.call));
  }

  lemma CommitKeepsSound(st: State, t: Txn)
    requires Sound(st.db) && TxnOk(st, t) && t.pc == Commit
    ensures Sound(Overlay(st.db, t.w))
  {
    if t.call.AddFriend? {
      AddFriendCommitsAtomically(st, t);
      var c := t.call;
      FriendsMadeKeepsSound(st.db, c.from, c.to, c.bakname, c.desc, t.thread, t.first, t.second);
    } else {
      CreateChatCommitsAtomically(st, t);
      ChatMadeKeepsSound(st.db, t.thread, ChatPair(t.call));
    }
  }

  // ----- commits of others leave a transaction in order -----

  /** The rows of w are new, except for the applications it updates. */
  ghost predicate NewRows(db: Db, w: Db) {
    && w.friend.Keys !! db.friend.Keys && w.threads.Keys !! db.threads.Keys
    && w.priv.Keys !! db.priv.Keys && w.messages.Keys !! db.messages.Keys
  }

  lemma OpenRowsAreNew(st: State, t: Txn)
    requires Sound(st.db) && TxnOk(st, t)
    ensures NewRows(st.db, t.w)
  {
    if !t.pc.Finished? && t.call.AddFriend? {
      assert FriendPart(st.db, t);
    }
  }

  lemma OthersCommitKeepsFriends(db: Db, w: Db, t: Txn)
    requires t.call.AddFriend? && ApplyPart(db, t) && FriendPart(db, t) && Apart(w, t.w)
    ensures ApplyPart(Overlay(db, w), t) && FriendPart(Overlay(db, w), t)
  {
    if Rank(t.pc) > 0 {
      assert (t.call.to, t.call.from) in t.w.apply.Keys;
    }
    assert forall k :: k in t.w.friend ==> k in t.w.friend.Keys;
  }

  lemma OthersCommitKeepsChat(db: Db, w: Db, t: Txn)
    requires ChatPart(db, t) && Apart(w, t.w)
    ensures ChatPart(Overlay(db, w), t)
  {
    if Rank(t.pc) > 5 {
      assert t.w.priv[t.thread] == ChatPair(t.call);
      assert ChatPair(t.call) in t.w.priv.Values;
      forall r | r in (db.priv + w.priv) ensures (db.priv + w.priv)[r] != ChatPair(t.call) {
        assert r in w.priv ==> w.priv[r] in w.priv.Values;
      }
    }
  }

  lemma OthersCommitKeepsRows(db: Db, w: Db, nextThread: nat, nextMsg: nat, t: Txn)
    requires ThreadPart(db, nextThread, t) && MessagePart(db, nextMsg, t) && Apart(w, t.w)
    ensures ThreadPart(Overlay(db, w), nextThread, t) && MessagePart(Overlay(db, w), nextMsg, t)
  {
    assert Rank(t.pc) > 4 ==> t.thread in t.w.threads.Keys;
    assert forall m :: m in t.w.messages ==> m in t.w.messages.Keys;
  }

  lemma OthersCommitKeepsTxn(st: State, w: Db, t: Txn)
    requires TxnOk(st, t) && Apart(w, t.w) && NewRows(st.db, w)
    ensures TxnOk(st.(db := Overlay(st.db, w)), t)
  {
    if t.pc.Finished? {
      assert t.pc.result.Succeeded? ==> t.pc.result.thread in st.db.priv.Keys;
    } else {
      OthersCommitKeepsChat(st.db, w, t);
      OthersCommitKeepsRows(st.db, w, st.nextThread, st.nextMsg, t);
      if t.call.AddFriend? {
        OthersCommitKeepsFriends(st.db, w, t);
      }
    }
  }

  // ----- a transaction's own statements -----

  /** The next statement leaves the transaction itself in order. */
  ghost predicate StaysOk(st: State, t: Txn)
    requires !t.pc.Finished?
  {
    var nextThread := if t.pc == NewThread then st.nextThread + 1 else st.nextThread;
    var nextMsg := if InsertsMessage(t) then st.nextMsg + 1 else st.nextMsg;
    var t' := NextTxn(st, t);
    RightCall(t')
    && if t'.pc.Finished? then t'.w == NO_ROWS && (t'.pc.result.Succeeded? ==> t.pc == Commit || t.pc == Select)
       else OpenOk(st.db, nextThread, nextMsg, t')
  }

  ghost predicate CanRun(st: State, tid: Tid) {
    tid in st.txns && TxnOk(st, st.txns[tid]) && CanAdvance(st, tid, st.txns[tid])
  }

  lemma ApplyStatements(st: State, tid: Tid)
    requires CanRun(st, tid) && (st.txns[tid].pc == Update || st.txns[tid].pc == ReadApply)
    ensures StaysOk(st, st.txns[tid])
  {
  }

  lemma FriendStatements(st: State, tid: Tid)
    requires CanRun(st, tid) && (st.txns[tid].pc == Friend1 || st.txns[tid].pc == Friend2)
    ensures StaysOk(st, st.txns[tid])
  {
  }

  lemma ThreadStatements(st: State, tid: Tid)
    requires CanRun(st, tid) && (st.txns[tid].pc == Select || st.txns[tid].pc == NewThread)
    requires forall r :: r in st.db.threads ==> r < st.nextThread
    ensures StaysOk(st, st.txns[tid])
  {
  }

  lemma ChatStatement(st: State, tid: Tid)
    requires CanRun(st, tid) && st.txns[tid].pc == NewChat
    ensures StaysOk(st, st.txns[tid])
  {
    var t, t' := st.txns[tid], NextTxn(st, st.txns[tid]);
    assert t'.w.priv == map[t.thread := ChatPair(t.call)];
    assert t.call.AddFriend? ==> FriendPart(st.db, t') && ApplyPart(st.db, t');
  }

  lemma CommitStatement(st: State, tid: Tid)
    requires CanRun(st, tid) && st.txns[tid].pc == Commit
    ensures StaysOk(st, st.txns[tid])
  {
  }

  lemma FirstMessage(st: State, tid: Tid)
    requires CanRun(st, tid) && st.txns[tid].pc == Msg1
    requires forall m :: m in st.db.messages ==> m < st.nextMsg
    ensures StaysOk(st, st.txns[tid])
  {
    var t := st.txns[tid];
    assert NextTxn(st, t).w.messages == Greetings(t.call.from, t.call.to, t.ap.descs, "", t.thread, st.nextMsg, 0);
  }

  lemma SecondMessage(st: State, tid: Tid)
    requires CanRun(st, tid) && st.txns[tid].pc == Msg2
    requires forall m :: m in st.db.messages ==> m < st.nextMsg
    ensures StaysOk(st, st.txns[tid])
  {
    var t := st.txns[tid];
    assert NextTxn(st, t).w.messages
        == Greetings(t.call.from, t.call.to, t.ap.descs, t.call.desc, t.thread, t.first, st.nextMsg);
  }

  lemma StatementStaysOk(st: State, tid: Tid)
    requires CanRun(st, tid) && CountersAhead(st.db, st.nextThread, st.nextMsg)
    ensures StaysOk(st, st.txns[tid])
  {
    match st.txns[tid].pc
    case Update => ApplyStatements(st, tid);
    case ReadApply => ApplyStatements(st, tid);
    case Friend1 => FriendStatements(st, tid);
    case Friend2 => FriendStatements(st, tid);
    case Select => ThreadStatements(st, tid);
    case NewThread => ThreadStatements(st, tid);
    case NewChat => ChatStatement(st, tid);
    case Commit => CommitStatement(st, tid);
    case Msg1 => FirstMessage(st, tid);
    case Msg2 => SecondMessage(st, tid);
  }

  /** What one statement can add to the uncommitted rows, each with the lock it needs. */
  ghost predicate AddsOnly(st: State, tid: Tid, w: Db, w': Db) {
    && (forall k :: k in w'.apply ==> k in w.apply || ApplyFree(st, tid, k))
    && (forall k :: k in w'.friend ==> k in w.friend || FriendFree(st, tid, k))
    && w'.threads.Keys <= w.threads.Keys + {st.nextThread}
    && w'.messages.Keys <= w.messages.Keys + {st.nextMsg}
    && (forall q :: q in w'.priv.Values ==> q in w.priv.Values || ChatFree(st, tid, q))
  }

  lemma AddedRows(st: State, tid: Tid)
    requires CanRun(st, tid)
    ensures AddsOnly(st, tid, st.txns[tid].w, NextTxn(st, st.txns[tid]).w)
  {
    var t, w := st.txns[tid], NextTxn(st, st.txns[tid]).w;
    if t.pc == NewChat {
      forall p | p in w.priv.Values ensures p == ChatPair(t.call) {
        assert w.priv == map[t.thread := ChatPair(t.call)];
      }
    }
  }

  lemma AddingStaysApart(st: State, tid: Tid, w: Db, w': Db, o: Tid)
    requires AddsOnly(st, tid, w, w') && o in st.txns && o != tid && Apart(w, st.txns[o].w)
    requires st.nextThread !in st.txns[o].w.threads && st.nextMsg !in st.txns[o].w.messages
    ensures Apart(w', st.txns[o].w)
  {
  }

  lemma StatementStaysApart(st: State, tid: Tid, o: Tid)
    requires Inv(st) && Enabled(st, Advance(tid)) && o in st.txns && o != tid
    ensures Apart(NextTxn(st, st.txns[tid]).w, st.txns[o].w)
  {
    var t := st.txns[tid];
    assert TxnOk(st, t) && TxnOk(st, st.txns[o]);
    AddedRows(st, tid);
    AddingStaysApart(st, tid, t.w, NextTxn(st, t).w, o);
  }

  // ----- every step keeps the invariant -----

  /** An update of one transaction that stays apart from the others keeps all of them apart. */
  lemma UpdateKeepsApart(txns: map<Tid, Txn>, tid: Tid, t: Txn)
    requires AllApart(txns)
    requires forall o :: o in txns && o != tid ==> Apart(t.w, txns[o].w)
    ensures AllApart(txns[tid := t])
  {
  }

  lemma AdvanceKeepsDb(st: State, tid: Tid)
    requires Inv(st) && Enabled(st, Advance(tid))
    ensures var st' := Step(st, Advance(tid)); Sound(st'.db) && CountersAhead(st'.db, st'.nextThread, st'.nextMsg)
  {
    var t := st.txns[tid];
    assert TxnOk(st, t);
    if t.pc == Commit {
      CommitKeepsSound(st, t);
      CommitKeepsCounters(st, t);
    }
  }

  lemma CommitKeepsCounters(st: State, t: Txn)
    requires CountersAhead(st.db, st.nextThread, st.nextMsg) && TxnOk(st, t) && t.pc == Commit
    ensures CountersAhead(Overlay(st.db, t.w), st.nextThread, st.nextMsg)
  {
  }

  lemma AdvanceKeepsOthers(st: State, tid: Tid, i: Tid)
    requires Inv(st) && Enabled(st, Advance(tid)) && i in st.txns && i != tid
    ensures TxnOk(Step(st, Advance(tid)), st.txns[i])
  {
    var t := st.txns[tid];
    assert TxnOk(st, t) && TxnOk(st, st.txns[i]) && Apart(t.w, st.txns[i].w);
    if t.pc == Commit {
      OpenRowsAreNew(st, t);
      OthersCommitKeepsTxn(st, t.w, st.txns[i]);
    }
  }

  lemma AdvanceKeepsOwn(st: State, tid: Tid)
    requires CanRun(st, tid) && CountersAhead(st.db, st.nextThread, st.nextMsg)
    ensures TxnOk(Step(st, Advance(tid)), NextTxn(st, st.txns[tid]))
  {
    StatementStaysOk(st, tid);
  }

  lemma AdvanceKeepsInv(st: State, tid: Tid)
    requires Inv(st) && Enabled(st, Advance(tid))
    ensures Inv(Step(st, Advance(tid)))
  {
    var st', t' := Step(st, Advance(tid)), NextTxn(st, st.txns[tid]);
    assert st'.txns == st.txns[tid := t'];
    AdvanceKeepsDb(st, tid);
    assert TxnOk(st, st.txns[tid]);
    AdvanceKeepsOwn(st, tid);
    forall o | o in st.txns && o != tid ensures Apart(t'.w, st.txns[o].w) && TxnOk(st', st.txns[o]) {
      StatementStaysApart(st, tid, o);
      AdvanceKeepsOthers(st, tid, o);
    }
    UpdateKeepsApart(st.txns, tid, t');
  }

  lemma BeginIsOk(st: State, c: Call, tries: nat)
    requires tries < MAX_RETRY
    ensures TxnOk(st, Begin(c, tries)) && Begin(c, tries).w == NO_ROWS
  {
  }

  lemma AfterErrorIsOk(st: State, t: Txn, code: int)
    requires t.tries < MAX_RETRY
    ensures TxnOk(st, AfterError(t, code)) && AfterError(t, code).w == NO_ROWS
  {
    if t.tries + 1 < MAX_RETRY {
      BeginIsOk(st, t.call, t.tries + 1);
    }
  }

  /** A call that starts, or is rolled back, has no rows. */
  lemma ResetKeepsInv(st: State, tid: Tid, t: Txn)
    requires Inv(st) && TxnOk(st, t) && t.w == NO_ROWS
    ensures Inv(st.(txns := st.txns[tid := t]))
  {
    UpdateKeepsApart(st.txns, tid, t);
    forall i | i in st.txns ensures TxnOk(st.(txns := st.txns[tid := t]), st.txns[i]) {
      assert TxnOk(st, st.txns[i]);
    }
  }

  lemma RaiseKeepsInv(st: State, e: Event)
    requires Inv(st) && Enabled(st, e) && (e.Raise? || e.Call?)
    ensures Inv(Step(st, e))
  {
    if e.Call? {
      BeginIsOk(st, e.c, 0);
      ResetKeepsInv(st, e.tid, Begin(e.c, 0));
    } else {
      assert TxnOk(st, st.txns[e.tid]);
      AfterErrorIsOk(st, st.txns[e.tid], e.code);
      ResetKeepsInv(st, e.tid, AfterError(st.txns[e.tid], e.code));
    }
  }

  lemma ApplyFriendKeepsTxn(st: State, e: Event, t: Txn)
    requires TxnOk(st, t) && e.ApplyFriend? && (e.uid, e.to) !in t.w.apply
    ensures TxnOk(st.(db := ApplyRow(st.db, (e.uid, e.to), e.descs, e.bakname)), t)
  {
    if !t.pc.Finished? && t.call.AddFriend? && Rank(t.pc) > 0 {
      assert (t.call.to, t.call.from) in t.w.apply;
    }
  }

  lemma ApplyFriendKeepsInv(st: State, e: Event)
    requires Inv(st) && Enabled(st, e) && e.ApplyFriend?
    ensures Inv(Step(st, e))
  {
    forall i | i in st.txns ensures TxnOk(Step(st, e), st.txns[i]) {
      ApplyFriendKeepsTxn(st, e, st.txns[i]);
    }
  }

  lemma {:induction false} StepKeepsInv(st: State, e: Event)
    requires Inv(st) && Enabled(st, e)
    ensures Inv(Step(st, e))
  {
    match e
    case Advance(tid) => AdvanceKeepsInv(st, tid);
    case ApplyFriend(_, _, _, _) => ApplyFriendKeepsInv(st, e);
    case _ => RaiseKeepsInv(st, e);
  }

  lemma {:induction false} RunsKeepInv(run: Run)
    requires GoodStart(run)
    ensures Inv(At(run))
  {
    match run
    case Start(_, _, _) =>
    case Then(prev, e) =>
      RunsKeepInv(prev);
      if Enabled(At(prev), e) {
        StepKeepsInv(At(prev), e);
      }
  }

  // ----- errors -----

  /** After an error the transaction is rolled back. There is another attempt, from the first statement on, if
      and only if fewer than three have been made and the error is 1205, or for CreatePrivateChat, once it
      has made its thread, 1062; otherwise the call has failed. */
  lemma ErrorRetriesIff(st: State, tid: Tid, code: int)
    requires Enabled(st, Raise(tid, code)) && TxnOk(st, st.txns[tid])
    ensures var t, t', st' := st.txns[tid], Step(st, Raise(tid, code)).txns[tid], Step(st, Raise(tid, code));
            && st'.db == st.db && t'.w == NO_ROWS && t'.call == t.call
            && (if t.tries < 2 && code == (if t.call.CreateChat? && t.pc in {NewChat, Commit} then 1062 else 1205)
                then t'.tries == t.tries + 1 && t'.pc == (if t.call.AddFriend? then Update else Select)
                else t'.tries == t.tries && t'.pc == Finished(Failed))
  {
  }

  // ----- over all runs -----

  /** Every database that any interleaving reaches: friend is symmetric, an accepted application has
      both friend rows, every pair has at most one private chat, normalised, and private threads and
      private chats come in pairs. */
  lemma {:induction false} EveryStateIsSound(run: Run)
    requires GoodStart(run)
    ensures Sound(At(run).db)
  {
    RunsKeepInv(run);
  }

  predicate ActsFor(e: Event, tid: Tid) { !e.ApplyFriend? && e.tid == tid }

  /** The COMMITs of transaction tid in the run. */
  ghost function Commits(run: Run, tid: Tid): nat {
    match run
    case Start(_, _, _) => 0
    case Then(prev, e) =>
      Commits(prev, tid)
      + if e == Advance(tid) && Enabled(At(prev), e) && At(prev).txns[tid].pc == Commit then 1 else 0
  }

  /** No event of transaction tid in the run has changed a table. */
  ghost predicate NeverTouched(run: Run, tid: Tid) {
    match run
    case Start(_, _, _) => true
    case Then(prev, e) => NeverTouched(prev, tid) && (ActsFor(e, tid) ==> At(run).db == At(prev).db)
  }

  predicate HasSucceeded(t: Txn) { t.pc.Finished? && t.pc.result.Succeeded? }

  /** A call that has not begun, has failed or is under way has no COMMIT in the run and has touched
      nothing; one that has succeeded has one COMMIT, or it found the chat of its pair. */
  ghost predicate HistoryOk(run: Run, tid: Tid) {
    if tid !in At(run).txns || !HasSucceeded(At(run).txns[tid])
    then Commits(run, tid) == 0 && NeverTouched(run, tid)
    else Commits(run, tid) == 1 || (Commits(run, tid) == 0 && At(run).txns[tid].call.CreateChat?)
  }

  /** Only a COMMIT changes the tables, and it ends the call with success; CreatePrivateChat alone can
      succeed otherwise. */
  lemma AdvanceOutcome(st: State, tid: Tid)
    requires tid in st.txns && CanAdvance(st, tid, st.txns[tid]) && TxnOk(st, st.txns[tid])
    ensures var t, t' := st.txns[tid], NextTxn(st, st.txns[tid]);
            && !HasSucceeded(t) && (t.pc == Commit ==> HasSucceeded(t'))
            && (HasSucceeded(t') && t.pc != Commit ==> t.call.CreateChat?) && t'.call == t.call
  {
  }

  lemma AdvanceKeepsHistory(prev: Run, tid: Tid)
    requires Inv(At(prev)) && Enabled(At(prev), Advance(tid)) && HistoryOk(prev, tid)
    ensures HistoryOk(Then(prev, Advance(tid)), tid)
  {
    var st, next := At(prev), Then(prev, Advance(tid));
    assert TxnOk(st, st.txns[tid]);
    AdvanceOutcome(st, tid);
    assert At(next) == Step(st, Advance(tid));
    assert At(next).txns[tid] == NextTxn(st, st.txns[tid]);
  }

  lemma OtherEventKeepsHistory(prev: Run, e: Event, tid: Tid)
    requires Enabled(At(prev), e) && HistoryOk(prev, tid) && e != Advance(tid)
    ensures HistoryOk(Then(prev, e), tid)
  {
    var st, next := At(prev), Then(prev, e);
    assert At(next) == Step(st, e);
    assert !ActsFor(e, tid) ==> (tid in At(next).txns <==> tid in st.txns);
    assert !ActsFor(e, tid) && tid in st.txns ==> At(next).txns[tid] == st.txns[tid];
  }

  lemma {:induction false} HistoryIsOk(run: Run, tid: Tid)
    requires GoodStart(run)
    ensures HistoryOk(run, tid)
  {
    if run.Then? {
      HistoryIsOk(run.prev, tid);
      if Enabled(At(run.prev), run.e) {
        RunsKeepInv(run.prev);
        if run.e == Advance(tid) {
          AdvanceKeepsHistory(run.prev, tid);
        } else {
          OtherEventKeepsHistory(run.prev, run.e, tid);
        }
      }
    }
  }

  /** In every run an AddFriend has succeeded if and only if exactly one event of the run is its COMMIT.
      Any other AddFriend, failed, given up or under way, has none, and none of its statements has
      changed a table. No call makes more than MAX_RETRY attempts. */
  lemma AddFriendCommitsOnceIffItSucceeds(run: Run, tid: Tid)
    requires GoodStart(run) && tid in At(run).txns && At(run).txns[tid].call.AddFriend?
    ensures Commits(run, tid) == if HasSucceeded(At(run).txns[tid]) then 1 else 0
    ensures !HasSucceeded(At(run).txns[tid]) ==> NeverTouched(run, tid)
    ensures At(run).txns[tid].tries < MAX_RETRY
  {
    HistoryIsOk(run, tid);
    RunsKeepInv(run);
    assert TxnOk(At(run), At(run).txns[tid]);
  }

  /** A CreatePrivateChat commits at most once, and only if it succeeds; one that fails changes nothing. */
  lemma CreateChatCommitsAtMostOnce(run: Run, tid: Tid)
    requires GoodStart(run) && tid in At(run).txns
    ensures Commits(run, tid) <= 1 && (Commits(run, tid) == 1 ==> HasSucceeded(At(run).txns[tid]))
    ensures !HasSucceeded(At(run).txns[tid]) ==> NeverTouched(run, tid)
  {
    HistoryIsOk(run, tid);
  }

  /** An AddFriend that commits makes all its changes in that one step, on the database of that
      moment, and only for an application that still waits there. */
  lemma {:induction false} AddFriendIsAtomic(run: Run, tid: Tid)
    requires GoodStart(run) && Enabled(At(run), Advance(tid))
    requires At(run).txns[tid].pc == Commit && At(run).txns[tid].call.AddFriend?
    ensures var db, t := At(run).db, At(run).txns[tid];
            && Waiting(db, t.call.from, t.call.to) && !PairTaken(db, ChatPair(t.call)) && t.thread !in db.threads
            && Step(At(run), Advance(tid)).db
               == FriendsMade(db, t.call.from, t.call.to, t.call.bakname, t.call.desc, t.thread, t.first, t.second)
  {
    RunsKeepInv(run);
    assert TxnOk(At(run), At(run).txns[tid]);
    AddFriendCommitsAtomically(At(run), At(run).txns[tid]);
  }

  /** All successful calls for one pair of users, in either order and of either kind, return the same
      thread, and it is the pair's chat in every later state. */
  lemma OneThreadPerPair(run: Run, i: Tid, j: Tid)
    requires GoodStart(run) && i in At(run).txns && j in At(run).txns
    requires var a, b := At(run).txns[i], At(run).txns[j];
             a.pc.Finished? && a.pc.result.Succeeded? && b.pc.Finished? && b.pc.result.Succeeded?
             && ChatPair(a.call) == ChatPair(b.call)
    ensures At(run).txns[i].pc.result == At(run).txns[j].pc.result
    ensures PairTaken(At(run).db, ChatPair(At(run).txns[i].call))
  {
    RunsKeepInv(run);
    assert TxnOk(At(run), At(run).txns[i]) && TxnOk(At(run), At(run).txns[j]);
  }

  /** In particular for CreatePrivateChat(a, b) and CreatePrivateChat(b, a). */
  lemma BothOrdersOneThread(run: Run, i: Tid, j: Tid, a: Uid, b: Uid)
    requires GoodStart(run) && i in At(run).txns && j in At(run).txns
    requires At(run).txns[i].call == CreateChat(a, b) && At(run).txns[j].call == CreateChat(b, a)
    requires HasSucceeded(At(run).txns[i]) && HasSucceeded(At(run).txns[j])
    ensures At(run).txns[i].pc.result == At(run).txns[j].pc.result
  {
    OneThreadPerPair(run, i, j);
  }

  /** No step takes an accepted application back or touches an existing private chat. */
  lemma NothingIsTakenBack(run: Run, e: Event)
    requires GoodStart(run) && Enabled(At(run), e)
    ensures var db, db' := At(run).db, Step(At(run), e).db;
            && (forall k :: k in db.apply && db.apply[k].status == 1 ==> k in db'.apply && db'.apply[k].status == 1)
            && (forall t :: t in db.priv ==> t in db'.priv && db'.priv[t] == db.priv[t])
            && db.friend.Keys <= db'.friend.Keys
  {
    RunsKeepInv(run);
    if e.Advance? {
      var t := At(run).txns[e.tid];
      assert TxnOk(At(run), t);
      OpenRowsAreNew(At(run), t);
    }
  }

  lemma TakenPairBlocks(st: State, tid: Tid)
    requires tid in st.txns && TxnOk(st, st.txns[tid]) && st.txns[tid].call.AddFriend?
    requires PairTaken(st.db, ChatPair(st.txns[tid].call))
    ensures st.txns[tid].pc !in {Msg1, Msg2, Commit}
    ensures st.txns[tid].pc == NewChat ==> !CanAdvance(st, tid, st.txns[tid])
  {
  }

  /** Once two users have a private chat, no AddFriend between them gets past its private_chat
      statement: whoever chats first can never become friends this way. */
  lemma ChatBlocksFriendship(run: Run, tid: Tid)
    requires GoodStart(run) && tid in At(run).txns && At(run).txns[tid].call.AddFriend?
    requires PairTaken(At(run).db, ChatPair(At(run).txns[tid].call))
    ensures At(run).txns[tid].pc !in {Msg1, Msg2, Commit}
    ensures At(run).txns[tid].pc == NewChat ==> !Enabled(At(run), Advance(tid))
  {
    RunsKeepInv(run);
    assert TxnOk(At(run), At(run).txns[tid]);
    TakenPairBlocks(At(run), tid);
  }
}
