/** What AddFriend appends to chat_datas, over whole runs of ChatTxn: the vector is not cleared between
    the attempts of a call, so reports of attempts that were rolled back stay in it. */
module ChatTxnReports {
  import opened ChatDb
  import opened ChatTxn
  import opened ChatTxnProof
  import opened Wrappers

  function ReportOf(t: Txn, id: nat): Report
    requires InsertsMessage(t)
  {
    Report(NewMessage(t).sender, id, NewMessage(t).content, NewMessage(t).thread)
  }

  /** chat_datas of call tid, empty on entry: a message is reported when it is inserted. */
  ghost function Reports(run: Run, tid: Tid): seq<Report> {
    match run
    case Start(_, _, _) => []
    case Then(prev, e) =>
      if e == Advance(tid) && Enabled(At(prev), e) && InsertsMessage(At(prev).txns[tid])
      then Reports(prev, tid) + [ReportOf(At(prev).txns[tid], At(prev).nextMsg)]
      else Reports(prev, tid)
  }

  predicate Raises(e: Event, tid: Tid) { e.Raise? && e.tid == tid }

  /** An attempt of call tid was rolled back after it had inserted, and so reported, a message. */
  ghost predicate LostReport(run: Run, tid: Tid) {
    match run
    case Start(_, _, _) => false
    case Then(prev, e) =>
      || LostReport(prev, tid)
      || (Raises(e, tid) && Enabled(At(prev), e) && At(prev).txns[tid].w.messages != map[])
  }

  /** The reports of attempts that were rolled back. */
  ghost function Stale(run: Run, tid: Tid): seq<Report> {
    match run
    case Start(_, _, _) => []
    case Then(prev, e) => if Raises(e, tid) && Enabled(At(prev), e) then Reports(prev, tid) else Stale(prev, tid)
  }

  /** The reports of the attempt that is under way or has succeeded. */
  function Current(t: Txn): seq<Report> {
    if t.call.CreateChat? then []
    else
      (if (t.pc == Msg2 || t.pc == Commit || HasSucceeded(t)) && t.ap.descs != ""
       then [Report(t.call.to, t.first, t.ap.descs, t.thread)] else [])
      + (if (t.pc == Commit || HasSucceeded(t)) && t.call.desc != ""
         then [Report(t.call.from, t.second, t.call.desc, t.thread)] else [])
  }

  ghost predicate ReportsOk(run: Run, tid: Tid) {
    && Reports(run, tid) == Stale(run, tid) + (if tid in At(run).txns then Current(At(run).txns[tid]) else [])
    && (Stale(run, tid) == [] <==> !LostReport(run, tid))
  }

  /** A statement adds to the reports what it inserts. */
  lemma AdvanceReports(st: State, tid: Tid)
    requires Enabled(st, Advance(tid)) && TxnOk(st, st.txns[tid])
    ensures var t := st.txns[tid];
            Current(NextTxn(st, t)) == Current(t) + if InsertsMessage(t) then [ReportOf(t, st.nextMsg)] else []
  {
  }

  /** An attempt has reported a message if and only if it has inserted one. */
  lemma ReportedIffInserted(st: State, t: Txn)
    requires TxnOk(st, t) && Active(t)
    ensures Current(t) == [] <==> t.w.messages == map[]
  {
    if t.call.AddFriend? && (t.pc == Msg2 || t.pc == Commit) {
      assert t.ap.descs != "" ==> t.first in t.w.messages;
      assert t.pc == Commit && t.call.desc != "" ==> t.second in t.w.messages;
    }
  }

  lemma NothingCurrentAfterError(t: Txn, code: int)
    ensures Current(AfterError(t, code)) == []
  {
  }

  lemma AdvanceKeepsReports(prev: Run, tid: Tid)
    requires Enabled(At(prev), Advance(tid)) && TxnOk(At(prev), At(prev).txns[tid]) && ReportsOk(prev, tid)
    ensures ReportsOk(Then(prev, Advance(tid)), tid)
  {
    AdvanceReports(At(prev), tid);
  }

  lemma RaiseKeepsReports(prev: Run, e: Event, tid: Tid)
    requires Enabled(At(prev), e) && Raises(e, tid) && TxnOk(At(prev), At(prev).txns[tid]) && ReportsOk(prev, tid)
    ensures ReportsOk(Then(prev, e), tid)
  {
    ReportedIffInserted(At(prev), At(prev).txns[tid]);
    NothingCurrentAfterError(At(prev).txns[tid], e.code);
  }

  lemma OtherEventKeepsReports(prev: Run, e: Event, tid: Tid)
    requires Enabled(At(prev), e) && ReportsOk(prev, tid) && e != Advance(tid) && !Raises(e, tid)
    ensures ReportsOk(Then(prev, e), tid)
  {
    var st, next := At(prev), Then(prev, e);
    assert At(next) == Step(st, e);
    if e.Call? && e.tid == tid {
      assert Current(At(next).txns[tid]) == [];
    } else {
      assert tid in At(next).txns <==> tid in st.txns;
      assert tid in st.txns ==> At(next).txns[tid] == st.txns[tid];
    }
  }

  lemma {:induction false} RunsKeepReports(run: Run, tid: Tid)
    requires GoodStart(run)
    ensures ReportsOk(run, tid)
  {
    if run.Then? {
      RunsKeepReports(run.prev, tid);
      if Enabled(At(run.prev), run.e) {
        RunsKeepInv(run.prev);
        assert tid in At(run.prev).txns ==> TxnOk(At(run.prev), At(run.prev).txns[tid]);
        if run.e == Advance(tid) {
          AdvanceKeepsReports(run.prev, tid);
        } else if Raises(run.e, tid) {
          RaiseKeepsReports(run.prev, run.e, tid);
        } else {
          OtherEventKeepsReports(run.prev, run.e, tid);
        }
      }
    }
  }

  /** In every interleaving, also when the applicant changes the application between two attempts: the
      reports of a successful AddFriend are those of its committed messages if and only if none of its
      attempts was rolled back after it had reported one. */
  lemma {:induction false} ReportsExactIff(run: Run, tid: Tid)
    requires GoodStart(run) && tid in At(run).txns && At(run).txns[tid].call.AddFriend? && HasSucceeded(At(run).txns[tid])
    ensures Reports(run, tid) == Current(At(run).txns[tid]) <==> !LostReport(run, tid)
  {
    RunsKeepReports(run, tid);
    var stale, current := Stale(run, tid), Current(At(run).txns[tid]);
    assert |stale + current| == |stale| + |current|;
  }

  // ----- the reports and the rows -----

  /** The messages of a successful AddFriend. */
  function RowsOf(t: Txn): map<nat, ChatMsg>
    requires t.call.AddFriend?
  {
    Greetings(t.call.from, t.call.to, t.ap.descs, t.call.desc, t.thread, t.first, t.second)
  }

  ghost predicate Within(part: map<nat, ChatMsg>, all: map<nat, ChatMsg>) {
    forall m :: m in part ==> m in all && all[m] == part[m]
  }

  /** The rows of every successful AddFriend are in the table, the applicant's before the other's. */
  ghost predicate RowsOk(st: State, t: Txn) {
    t.call.AddFriend? && (HasSucceeded(t) || t.pc == Commit) ==>
      && (HasSucceeded(t) ==> Within(RowsOf(t), st.db.messages))
      && (t.ap.descs != "" && t.call.desc != "" ==> t.first < t.second)
  }

  /** No step removes or changes a message. */
  lemma MessagesStay(st: State, e: Event)
    requires Inv(st) && Enabled(st, e)
    ensures Within(st.db.messages, Step(st, e).db.messages)
  {
    if e.Advance? {
      assert TxnOk(st, st.txns[e.tid]);
    }
  }

  /** The message of the second statement gets the larger id. */
  lemma SecondIsLater(st: State, t: Txn)
    requires TxnOk(st, t) && t.call.AddFriend? && t.pc == Msg2 && t.ap.descs != ""
    ensures t.first < st.nextMsg
  {
    assert t.first in t.w.messages;
  }

  lemma CommitLeavesRows(st: State, t: Txn)
    requires TxnOk(st, t) && t.call.AddFriend? && t.pc == Commit
    ensures Within(RowsOf(t), Overlay(st.db, t.w).messages)
  {
  }

  lemma SecondKeepsRows(st: State, t: Txn)
    requires TxnOk(st, t) && t.call.AddFriend? && t.pc == Msg2
    ensures RowsOk(st, NextTxn(st, t))
  {
    if t.ap.descs != "" {
      SecondIsLater(st, t);
    }
  }

  lemma CommitKeepsRows(st: State, tid: Tid)
    requires Enabled(st, Advance(tid)) && TxnOk(st, st.txns[tid]) && RowsOk(st, st.txns[tid])
    requires st.txns[tid].call.AddFriend? && st.txns[tid].pc == Commit
    ensures RowsOk(Step(st, Advance(tid)), NextTxn(st, st.txns[tid]))
  {
    CommitLeavesRows(st, st.txns[tid]);
  }

  lemma AdvanceKeepsRows(st: State, tid: Tid)
    requires Enabled(st, Advance(tid)) && TxnOk(st, st.txns[tid]) && RowsOk(st, st.txns[tid])
    ensures RowsOk(Step(st, Advance(tid)), NextTxn(st, st.txns[tid]))
  {
    var t := st.txns[tid];
    if t.call.AddFriend? {
      if t.pc == Msg2 {
        SecondKeepsRows(st, t);
      } else if t.pc == Commit {
        CommitKeepsRows(st, tid);
      } else {
        AdvanceOutcome(st, tid);
      }
    }
  }

  lemma StepKeepsRows(st: State, e: Event, tid: Tid)
    requires Inv(st) && Enabled(st, e) && tid in Step(st, e).txns && (tid in st.txns ==> RowsOk(st, st.txns[tid]))
    ensures RowsOk(Step(st, e), Step(st, e).txns[tid])
  {
    MessagesStay(st, e);
    if e == Advance(tid) {
      assert TxnOk(st, st.txns[tid]);
      AdvanceKeepsRows(st, tid);
    } else if e.Raise? && e.tid == tid {
      assert !HasSucceeded(AfterError(st.txns[tid], e.code));
    }
  }

  lemma {:induction false} RunsKeepRows(run: Run, tid: Tid)
    requires GoodStart(run) && tid in At(run).txns
    ensures RowsOk(At(run), At(run).txns[tid])
  {
    var prev := run.prev;
    RunsKeepInv(prev);
    if tid in At(prev).txns {
      RunsKeepRows(prev, tid);
    }
    if Enabled(At(prev), run.e) {
      StepKeepsRows(At(prev), run.e, tid);
    }
  }

  /** The receiver of a message that `sender` sends in call c. */
  function Receiver(c: Call, sender: Uid): Uid
    requires c.AddFriend?
  {
    if sender == c.to then c.from else c.to
  }

  /** The reports are rows of the table, one for each row given, in id order. */
  ghost predicate AreRows(c: Call, reports: seq<Report>, rows: map<nat, ChatMsg>, table: map<nat, ChatMsg>)
    requires c.AddFriend?
  {
    && (forall i :: 0 <= i < |reports| ==>
          && reports[i].msgId in table
          && table[reports[i].msgId]
             == ChatMsg(reports[i].thread, reports[i].sender, Receiver(c, reports[i].sender), reports[i].content, 0))
    && (forall i, j :: 0 <= i < j < |reports| ==> reports[i].msgId < reports[j].msgId)
    && (forall m :: m in rows <==> exists i :: 0 <= i < |reports| && reports[i].msgId == m)
  }

  lemma CurrentAreRows(t: Txn, table: map<nat, ChatMsg>)
    requires t.call.AddFriend? && HasSucceeded(t) && Within(RowsOf(t), table)
    requires t.ap.descs != "" && t.call.desc != "" ==> t.first < t.second
    ensures AreRows(t.call, Current(t), RowsOf(t), table)
  {
    var reports := Current(t);
    if t.ap.descs != "" {
      assert reports[0].msgId == t.first && t.first in RowsOf(t);
    }
    if t.call.desc != "" {
      assert reports[|reports| - 1].msgId == t.second && t.second in RowsOf(t);
    }
  }

  /** The reports of the committed attempt are rows of chat_message, one for each message of the call, in
      id order, and stay so in every later state. */
  lemma {:induction false} CurrentAreTheRows(run: Run, tid: Tid)
    requires GoodStart(run) && tid in At(run).txns && At(run).txns[tid].call.AddFriend? && HasSucceeded(At(run).txns[tid])
    ensures var t := At(run).txns[tid]; AreRows(t.call, Current(t), RowsOf(t), At(run).db.messages)
  {
    RunsKeepRows(run, tid);
    CurrentAreRows(At(run).txns[tid], At(run).db.messages);
  }
}
