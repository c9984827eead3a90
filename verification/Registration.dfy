/** RegUserTransaction (Common/src/mysql_dao.cc) interleaved statement by statement with other
    registrations. A SELECT reads what is committed when it executes, and the transaction's own row; the
    UPDATE of the one-row table user_id locks that row until the transaction ends; the INSERT is
    checked against the unique keys uid and email of _sql/table.sql. */
module Registration {
  import opened Wrappers

  type Tid = nat

  datatype User = User(uid: int, name: string, email: string)

  datatype Pc =
    | Email   // SELECT 1 FROM user WHERE email = ?
    | Name    // SELECT 1 FROM user WHERE name = ?
    | Update  // UPDATE user_id SET id = id + 1
    | Read    // SELECT id FROM user_id
    | Insert  // INSERT INTO user
    | Commit
    | Ended(result: int)

  /** `seen` is the user table as the name SELECT found it, `wrote` the transaction's own user_id row. */
  datatype Txn = Txn(name: string, email: string, pc: Pc, seen: seq<User>, wrote: Found<int>)

  /** `counter` is the committed row of user_id (Absent: the table is empty), `lock` the transaction
      that holds it, `log` the transactions in commit order. */
  datatype State = State(users: seq<User>, counter: Found<int>, lock: Found<Tid>, txns: map<Tid, Txn>, log: seq<Tid>)

  datatype Event =
    | Call(tid: Tid, name: string, email: string)
    | Advance(tid: Tid)  // the next statement executes
    | Raise(tid: Tid)    // it raises an error: the transaction rolls back and returns -1

  /** After its name SELECT and before its end. */
  predicate Between(t: Txn) { t.pc.Update? || t.pc.Read? || t.pc.Insert? || t.pc.Commit? }

  predicate HasUid(users: seq<User>, uid: int) { exists i :: 0 <= i < |users| && users[i].uid == uid }

  predicate HasName(users: seq<User>, name: string) { exists i :: 0 <= i < |users| && users[i].name == name }

  predicate HasEmail(users: seq<User>, email: string) { exists i :: 0 <= i < |users| && users[i].email == email }

  predicate Enabled(st: State, e: Event) {
    match e
    case Call(tid, _, _) => tid !in st.txns
    case Advance(tid) =>
      tid in st.txns && !st.txns[tid].pc.Ended? && (st.txns[tid].pc.Update? && st.counter.Present? ==> st.lock.Absent?)
    case Raise(tid) => tid in st.txns && !st.txns[tid].pc.Ended?
  }

  function NextPc(st: State, t: Txn): Pc {
    match t.pc
    case Email => if HasEmail(st.users, t.email) then Ended(0) else Name
    case Name => if HasName(st.users, t.name) then Ended(0) else Update
    case Update => Read
    case Read => if t.wrote.Present? then Insert else Ended(-1)
    case Insert =>
      if t.wrote.Present? && !HasUid(st.users, t.wrote.value) && !HasEmail(st.users, t.email) then Commit else Ended(-1)
    case Commit => if t.wrote.Present? then Ended(t.wrote.value) else Ended(-1)
    case Ended(r) => Ended(r)
  }

  function NextTxn(st: State, t: Txn): Txn {
    Txn(t.name, t.email, NextPc(st, t),
        if t.pc.Name? then st.users else t.seen,
        if t.pc.Update? && st.counter.Present? then Present(st.counter.value + 1) else t.wrote)
  }

  predicate Commits(t: Txn) { t.pc.Commit? && t.wrote.Present? }

  /** The lock is taken by the UPDATE and given back by COMMIT or ROLLBACK. */
  function LockAfter(st: State, tid: Tid, t: Txn): Found<Tid> {
    if t.pc.Update? && st.counter.Present? then Present(tid)
    else if NextPc(st, t).Ended? then Released(st.lock, tid)
    else st.lock
  }

  function Released(lock: Found<Tid>, tid: Tid): Found<Tid> {
    if lock == Present(tid) then Absent else lock
  }

  function Step(st: State, e: Event): State
    requires Enabled(st, e)
  {
    match e
    case Call(tid, name, email) => st.(txns := st.txns[tid := Txn(name, email, Email, [], Absent)])
    case Advance(tid) =>
      var t := st.txns[tid];
      State(if Commits(t) then st.users + [User(t.wrote.value, t.name, t.email)] else st.users,
            if Commits(t) then t.wrote else st.counter,
            LockAfter(st, tid, t), st.txns[tid := NextTxn(st, t)],
            if Commits(t) then st.log + [tid] else st.log)
    case Raise(tid) => st.(lock := Released(st.lock, tid), txns := st.txns[tid := st.txns[tid].(pc := Ended(-1))])
  }

  datatype Run = Start(users: seq<User>, counter: Found<int>) | Then(prev: Run, e: Event)

  function At(run: Run): State {
    match run
    case Start(users, counter) => State(users, counter, Absent, map[], [])
    case Then(prev, e) => if Enabled(At(prev), e) then Step(At(prev), e) else At(prev)
  }

  function Origin(run: Run): (start: Run)
    ensures start.Start?
  {
    match run
    case Start(_, _) => run
    case Then(prev, _) => Origin(prev)
  }

  // ----- properties of a table -----

  predicate UidsDistinct(users: seq<User>) {
    forall i, j :: 0 <= i < j < |users| ==> users[i].uid != users[j].uid
  }

  predicate EmailsDistinct(users: seq<User>) {
    forall i, j :: 0 <= i < j < |users| ==> users[i].email != users[j].email
  }

  predicate NamesDistinct(users: seq<User>) {
    forall i, j :: 0 <= i < j < |users| ==> users[i].name != users[j].name
  }

  // ----- the invariant of every run -----

  /** What holds of a transaction by where it stands. */
  predicate TxnOk(base: nat, st: State, tid: Tid, t: Txn) {
    && t.seen <= st.users
    && (Between(t) ==> base <= |t.seen| && !HasName(t.seen, t.name))
    && (t.pc.Email? || t.pc.Name? || t.pc.Update? ==> t.wrote.Absent?)
    && (t.wrote.Present? && !t.pc.Ended? ==> st.lock == Present(tid))
    && (t.pc.Insert? || t.pc.Commit? ==> t.wrote.Present?)
    && (t.pc.Commit? ==> !HasUid(st.users, t.wrote.value) && !HasEmail(st.users, t.email))
    && (t.pc.Ended? && tid !in st.log ==> t.pc.result == 0 || t.pc.result == -1)
  }

  /** The holder of the row has incremented the committed value. */
  predicate LockOk(st: State) {
    st.lock.Present? ==>
      && st.lock.value in st.txns && st.counter.Present?
      && st.txns[st.lock.value].wrote == Present(st.counter.value + 1)
      && !st.txns[st.lock.value].pc.Ended?
  }

  /** The k-th commit: its row, and that its name was not in the table its transaction saw. */
  predicate CommitOk(base: nat, st: State, k: nat)
    requires k < |st.log| && base + |st.log| == |st.users|
  {
    && st.log[k] in st.txns
    && var t := st.txns[st.log[k]];
       && t.wrote.Present? && t.pc == Ended(t.wrote.value)
       && st.users[base + k] == User(t.wrote.value, t.name, t.email)
       && base <= |t.seen| <= base + k && !HasName(t.seen, t.name)
  }

  predicate CountOk(start: Found<int>, st: State) {
    if start.Absent? then st.counter.Absent? && st.log == []
    else
      && st.counter == Present(start.value + |st.log|)
      && forall k :: 0 <= k < |st.log| && st.log[k] in st.txns ==>
           st.txns[st.log[k]].wrote == Present(start.value + 1 + k)
  }

  predicate Inv(users: seq<User>, start: Found<int>, st: State) {
    && users <= st.users && |users| + |st.log| == |st.users|
    && UidsDistinct(st.users) && EmailsDistinct(st.users)
    && (forall tid :: tid in st.txns ==> TxnOk(|users|, st, tid, st.txns[tid]))
    && LockOk(st)
    && (forall k :: 0 <= k < |st.log| ==> CommitOk(|users|, st, k))
    && CountOk(start, st)
  }

  lemma CommitKeepsTxns(users: seq<User>, start: Found<int>, st: State, tid: Tid)
    requires Inv(users, start, st) && tid in st.txns && Commits(st.txns[tid])
    ensures var st' := Step(st, Advance(tid)); forall i :: i in st'.txns ==> TxnOk(|users|, st', i, st'.txns[i])
  {
    var t, st' := st.txns[tid], Step(st, Advance(tid));
    assert st'.users == st.users + [User(t.wrote.value, t.name, t.email)];
    forall i | i in st'.txns ensures TxnOk(|users|, st', i, st'.txns[i]) {
      assert TxnOk(|users|, st, i, st.txns[i]) && TxnOk(|users|, st, tid, t);
    }
  }

  lemma CommitKeepsLog(users: seq<User>, start: Found<int>, st: State, tid: Tid)
    requires Inv(users, start, st) && tid in st.txns && Commits(st.txns[tid])
    ensures var st' := Step(st, Advance(tid));
            LockOk(st') && CountOk(start, st') && forall k :: 0 <= k < |st'.log| ==> CommitOk(|users|, st', k)
  {
    var t, st' := st.txns[tid], Step(st, Advance(tid));
    assert TxnOk(|users|, st, tid, t) && tid !in st.log;
    forall k | 0 <= k < |st'.log| ensures CommitOk(|users|, st', k) {
      if k < |st.log| {
        assert CommitOk(|users|, st, k) && st'.log[k] == st.log[k];
      }
    }
  }

  lemma CommitKeepsInv(users: seq<User>, start: Found<int>, st: State, tid: Tid)
    requires Inv(users, start, st) && tid in st.txns && Commits(st.txns[tid])
    ensures Inv(users, start, Step(st, Advance(tid)))
  {
    assert TxnOk(|users|, st, tid, st.txns[tid]);
    CommitKeepsTxns(users, start, st, tid);
    CommitKeepsLog(users, start, st, tid);
  }

  lemma StatementKeepsInv(users: seq<User>, start: Found<int>, st: State, tid: Tid)
    requires Inv(users, start, st) && Enabled(st, Advance(tid)) && !Commits(st.txns[tid])
    ensures Inv(users, start, Step(st, Advance(tid)))
  {
    var t, st' := st.txns[tid], Step(st, Advance(tid));
    assert tid !in st.log;
    forall k | 0 <= k < |st'.log| ensures CommitOk(|users|, st', k) {
      assert CommitOk(|users|, st, k) && st'.log[k] == st.log[k] != tid;
    }
    forall i | i in st'.txns ensures TxnOk(|users|, st', i, st'.txns[i]) {
    }
  }

  lemma OtherKeepsInv(users: seq<User>, start: Found<int>, st: State, e: Event)
    requires Inv(users, start, st) && Enabled(st, e) && !e.Advance?
    ensures Inv(users, start, Step(st, e))
  {
    var st' := Step(st, e);
    forall k | 0 <= k < |st'.log| ensures CommitOk(|users|, st', k) && st'.log[k] != e.tid {
      assert CommitOk(|users|, st, k);
    }
    forall i | i in st'.txns ensures TxnOk(|users|, st', i, st'.txns[i]) {
    }
  }

  ghost predicate GoodStart(run: Run) {
    UidsDistinct(Origin(run).users) && EmailsDistinct(Origin(run).users)
  }

  lemma {:induction false} RunsKeepInv(run: Run)
    requires GoodStart(run)
    ensures Inv(Origin(run).users, Origin(run).counter, At(run))
  {
    if run.Then? {
      RunsKeepInv(run.prev);
      var st := At(run.prev);
      if Enabled(st, run.e) {
        if !run.e.Advance? {
          OtherKeepsInv(Origin(run).users, Origin(run).counter, st, run.e);
        } else if Commits(st.txns[run.e.tid]) {
          CommitKeepsInv(Origin(run).users, Origin(run).counter, st, run.e.tid);
        } else {
          StatementKeepsInv(Origin(run).users, Origin(run).counter, st, run.e.tid);
        }
      }
    }
  }

  // ----- theorems -----

  /** The keys hold, and the uids handed out are consecutive: the k-th commit adds the uid start + 1 + k,
      which is what its own transaction wrote to user_id, however the statements interleave and
      whatever rolls back in between. */
  lemma UidsAreConsecutive(run: Run)
    requires GoodStart(run)
    ensures var start, st := Origin(run), At(run);
            && UidsDistinct(st.users) && EmailsDistinct(st.users)
            && start.users <= st.users && |st.users| == |start.users| + |st.log|
            && (start.counter.Absent? ==> st.users == start.users)
            && (start.counter.Present? ==> st.counter == Present(start.counter.value + |st.log|))
            && forall k :: 0 <= k < |st.log| ==>
                 && start.counter.Present? && st.log[k] in st.txns
                 && var t := st.txns[st.log[k]];
                    && t.wrote == Present(start.counter.value + 1 + k)
                    && st.users[|start.users| + k] == User(t.wrote.value, t.name, t.email)
  {
    RunsKeepInv(run);
    var base := |Origin(run).users|;
    forall k | 0 <= k < |At(run).log| ensures CommitOk(base, At(run), k) {
    }
  }

  /** What the caller is told: with a non-negative start of the counter, a positive result is the uid
      of the caller's committed row, and every other result means that nothing was committed. */
  lemma ResultTellsCommit(run: Run, tid: Tid)
    requires GoodStart(run) && Origin(run).counter.Present? && Origin(run).counter.value >= 0
    requires tid in At(run).txns && At(run).txns[tid].pc.Ended?
    ensures var st, t := At(run), At(run).txns[tid];
            && (t.pc.result > 0 <==> tid in st.log)
            && (t.pc.result > 0 ==> User(t.pc.result, t.name, t.email) in st.users)
            && (t.pc.result <= 0 ==> t.pc.result == 0 || t.pc.result == -1)
  {
    RunsKeepInv(run);
    var st := At(run);
    if tid in st.log {
      var k :| 0 <= k < |st.log| && st.log[k] == tid;
      assert CommitOk(|Origin(run).users|, st, k);
    } else {
      assert TxnOk(|Origin(run).users|, st, tid, st.txns[tid]);
    }
  }

  /** When the counter starts at or above every uid, the INSERT can only fail for its email. */
  lemma InsertFailsOnlyForEmail(run: Run, tid: Tid)
    requires GoodStart(run) && Origin(run).counter.Present?
    requires forall i :: 0 <= i < |Origin(run).users| ==> Origin(run).users[i].uid <= Origin(run).counter.value
    requires tid in At(run).txns && At(run).txns[tid].pc.Insert?
    ensures NextPc(At(run), At(run).txns[tid]) == Commit <==> !HasEmail(At(run).users, At(run).txns[tid].email)
  {
    RunsKeepInv(run);
    var st, base := At(run), |Origin(run).users|;
    assert TxnOk(|Origin(run).users|, st, tid, st.txns[tid]);
    forall i | 0 <= i < |st.users| ensures st.users[i].uid <= st.counter.value {
      if i < base {
        assert st.users[i] == Origin(run).users[i];
      } else {
        assert CommitOk(base, st, i - base);
      }
    }
  }

  /** Of two commits of one name the later transaction had looked for it before the earlier committed. */
  ghost predicate Overlaps(base: nat, st: State) {
    exists i, j :: 0 <= i < j < |st.log| && st.log[i] in st.txns && st.log[j] in st.txns
      && st.txns[st.log[i]].name == st.txns[st.log[j]].name && |st.txns[st.log[j]].seen| <= base + i
  }

  /** Names have no unique key. They stay distinct in exactly the runs in which no two committed
      registrations of one name overlapped. That overlapping ones leave a name twice is immediate; the
      content is that nothing else can. */
  lemma NamesDistinctIff(run: Run)
    requires GoodStart(run) && NamesDistinct(Origin(run).users)
    ensures NamesDistinct(At(run).users) <==> !Overlaps(|Origin(run).users|, At(run))
  {
    RunsKeepInv(run);
    var start, st := Origin(run), At(run);
    if Overlaps(|start.users|, st) {
      OverlapRepeats(start.users, start.counter, st);
    } else {
      forall i, j | 0 <= i < j < |st.users| ensures st.users[i].name != st.users[j].name {
        NamesDiffer(start.users, start.counter, st, i, j);
      }
    }
  }

  lemma OverlapRepeats(users: seq<User>, start: Found<int>, st: State)
    requires Inv(users, start, st) && Overlaps(|users|, st)
    ensures !NamesDistinct(st.users)
  {
    var i, j :| 0 <= i < j < |st.log| && st.log[i] in st.txns && st.log[j] in st.txns
      && st.txns[st.log[i]].name == st.txns[st.log[j]].name && |st.txns[st.log[j]].seen| <= |users| + i;
    assert CommitOk(|users|, st, i) && CommitOk(|users|, st, j);
    assert st.users[|users| + i].name == st.users[|users| + j].name;
  }

  lemma NamesDiffer(users: seq<User>, start: Found<int>, st: State, i: nat, j: nat)
    requires Inv(users, start, st) && NamesDistinct(users) && !Overlaps(|users|, st) && i < j < |st.users|
    ensures st.users[i].name != st.users[j].name
  {
    if j < |users| {
      assert st.users[i] == users[i] && st.users[j] == users[j];
    } else {
      var k := j - |users|;
      assert CommitOk(|users|, st, k);
      var t := st.txns[st.log[k]];
      assert TxnOk(|users|, st, st.log[k], t);
      if i < |t.seen| {
        assert t.seen[i] == st.users[i];
      } else {
        assert CommitOk(|users|, st, i - |users|);
      }
    }
  }

  // ----- runs without overlapping looks -----

  /** The names are distinct, and no registration that is past its look can change that. */
  ghost predicate Safe(st: State) {
    && NamesDistinct(st.users)
    && (forall tid :: tid in st.txns && Between(st.txns[tid]) ==> !HasName(st.users, st.txns[tid].name))
    && (forall a, b :: a in st.txns && b in st.txns && a != b && Between(st.txns[a]) && Between(st.txns[b]) ==>
          st.txns[a].name != st.txns[b].name)
  }

  /** A registration looks for its name while another one of that name is between its own look and its end. */
  ghost predicate LooksBeside(st: State, e: Event) {
    && e.Advance? && e.tid in st.txns && st.txns[e.tid].pc.Name?
    && exists o :: o in st.txns && Between(st.txns[o]) && st.txns[o].name == st.txns[e.tid].name
  }

  lemma CommitStaysSafe(st: State, tid: Tid)
    requires Safe(st) && tid in st.txns && Commits(st.txns[tid])
    ensures Safe(Step(st, Advance(tid)))
  {
    var t, st' := st.txns[tid], Step(st, Advance(tid));
    assert forall i :: 0 <= i < |st.users| ==> st.users[i].name != t.name;
    assert st'.users[..|st.users|] == st.users;
  }

  /** One step makes a safe state unsafe if and only if it is such a look. */
  lemma StaysSafeIff(st: State, e: Event)
    requires Safe(st) && Enabled(st, e)
    ensures Safe(Step(st, e)) <==> !LooksBeside(st, e)
  {
    var st' := Step(st, e);
    if e.Advance? && Commits(st.txns[e.tid]) {
      CommitStaysSafe(st, e.tid);
    } else if LooksBeside(st, e) {
      var o :| o in st.txns && Between(st.txns[o]) && st.txns[o].name == st.txns[e.tid].name;
      assert Between(st'.txns[o]) && Between(st'.txns[e.tid]) && st'.txns[o].name == st'.txns[e.tid].name;
    }
  }

  /** No registration ever looks beside another one of its name; those of other names do not matter. */
  ghost predicate Serial(run: Run) {
    match run
    case Start(_, _) => true
    case Then(prev, e) => Serial(prev) && (Enabled(At(prev), e) ==> !LooksBeside(At(prev), e))
  }

  lemma {:induction false} SerialRunsStaySafe(run: Run)
    requires NamesDistinct(Origin(run).users) && Serial(run)
    ensures Safe(At(run))
  {
    if run.Then? {
      SerialRunsStaySafe(run.prev);
      if Enabled(At(run.prev), run.e) {
        StaysSafeIff(At(run.prev), run.e);
      }
    }
  }

  /** Names stay distinct in every run in which the registrations of each name follow one another. */
  lemma SerialRunsKeepNames(run: Run)
    requires NamesDistinct(Origin(run).users) && Serial(run)
    ensures NamesDistinct(At(run).users)
  {
    SerialRunsStaySafe(run);
  }

  // ----- two registrations of one name that overlap -----

  /** One registration called and led past its two SELECTs, nothing in between. */
  function Look(run: Run, tid: Tid, name: string, email: string): Run {
    Then(Then(Then(run, Call(tid, name, email)), Advance(tid)), Advance(tid))
  }

  lemma LookAlone(run: Run, tid: Tid, name: string, email: string)
    requires tid !in At(run).txns && !HasEmail(At(run).users, email) && !HasName(At(run).users, name)
    ensures Origin(Look(run, tid, name, email)) == Origin(run)
    ensures var st := At(run);
            At(Look(run, tid, name, email))
            == State(st.users, st.counter, st.lock, st.txns[tid := Txn(name, email, Update, st.users, Absent)], st.log)
  {
    var st := At(run);
    var called := Then(run, Call(tid, name, email));
    assert At(called).txns == st.txns[tid := Txn(name, email, Email, [], Absent)];
    var mailed := Then(called, Advance(tid));
    assert Origin(mailed) == Origin(called) == Origin(run);
    assert At(mailed) == State(st.users, st.counter, st.lock, st.txns[tid := Txn(name, email, Name, [], Absent)], st.log);
  }

  /** A known email ends the call with 0 at its first SELECT, a known name at its second; no table changes. */
  lemma KnownIsRefused(run: Run, tid: Tid, name: string, email: string)
    requires tid !in At(run).txns && (HasEmail(At(run).users, email) || HasName(At(run).users, name))
    ensures var st, st' := At(run), At(Look(run, tid, name, email));
            && st'.users == st.users && st'.counter == st.counter && st'.log == st.log
            && tid in st'.txns && st'.txns[tid].pc == Ended(0)
  {
    var st, called := At(run), Then(run, Call(tid, name, email));
    assert At(called).txns == st.txns[tid := Txn(name, email, Email, [], Absent)];
    var mailed := Then(called, Advance(tid));
    assert At(mailed).users == st.users && At(mailed).counter == st.counter && At(mailed).log == st.log;
    assert At(mailed).txns[tid].pc == if HasEmail(st.users, email) then Ended(0) else Name;
  }

  /** The rest of a registration, nothing in between. */
  function Finish(run: Run, tid: Tid): Run {
    Then(Then(Then(Then(run, Advance(tid)), Advance(tid)), Advance(tid)), Advance(tid))
  }

  lemma FinishAlone(run: Run, tid: Tid, t: Txn, next: int)
    requires tid in At(run).txns && At(run).txns[tid] == t && t.pc.Update?
    requires At(run).lock.Absent? && At(run).counter == Present(next - 1)
    requires !HasUid(At(run).users, next) && !HasEmail(At(run).users, t.email)
    ensures Origin(Finish(run, tid)) == Origin(run)
    ensures var st := At(run);
            At(Finish(run, tid))
            == State(st.users + [User(next, t.name, t.email)], Present(next), Absent,
                     st.txns[tid := Txn(t.name, t.email, Ended(next), t.seen, Present(next))], st.log + [tid])
  {
    var st := At(run);
    var updated := Then(run, Advance(tid));
    assert At(updated) == State(st.users, st.counter, Present(tid), st.txns[tid := Txn(t.name, t.email, Read, t.seen, Present(next))], st.log);
    var read := Then(updated, Advance(tid));
    assert At(read) == State(st.users, st.counter, Present(tid), st.txns[tid := Txn(t.name, t.email, Insert, t.seen, Present(next))], st.log);
    var inserted := Then(read, Advance(tid));
    assert Origin(inserted) == Origin(read) == Origin(updated) == Origin(run);
    assert At(inserted) == State(st.users, st.counter, Present(tid), st.txns[tid := Txn(t.name, t.email, Commit, t.seen, Present(next))], st.log);
  }

  /** From every table with a free name, two free emails and a counter at or above every uid: two
      registrations of that name that both look before either commits are both committed. */
  lemma OverlapDuplicatesName(users: seq<User>, last: int, name: string, e1: string, e2: string) returns (run: Run)
    requires UidsDistinct(users) && EmailsDistinct(users) && e1 != e2
    requires !HasName(users, name) && !HasEmail(users, e1) && !HasEmail(users, e2)
    requires forall i :: 0 <= i < |users| ==> users[i].uid <= last
    ensures GoodStart(run) && Origin(run) == Start(users, Present(last))
    ensures At(run).users == users + [User(last + 1, name, e1), User(last + 2, name, e2)]
    ensures !NamesDistinct(At(run).users)
  {
    var run0 := Start(users, Present(last));
    LookAlone(run0, 0, name, e1);
    var run1 := Look(run0, 0, name, e1);
    LookAlone(run1, 1, name, e2);
    var run2 := Look(run1, 1, name, e2);
    FinishAlone(run2, 0, Txn(name, e1, Update, users, Absent), last + 1);
    var run3 := Finish(run2, 0);
    FinishAlone(run3, 1, Txn(name, e2, Update, users, Absent), last + 2);
    run := Finish(run3, 1);
    assert At(run).users == users + [User(last + 1, name, e1), User(last + 2, name, e2)];
    assert At(run).users[|users|].name == At(run).users[|users| + 1].name;
  }

  // ----- one uninterrupted call -----

  /** At most one statement of a call raises: 1-2 SELECT, 3 UPDATE, 4 SELECT id, 5 INSERT, 6 COMMIT. */
  class MysqlDao {
    var users: seq<User>
    var counter: Found<int>

    predicate Registers(name: string, email: string, raises: nat)
      reads this
    {
      && !(1 <= raises <= 6) && !HasEmail(users, email) && !HasName(users, name)
      && counter.Present? && !HasUid(users, counter.value + 1)
    }

    /** A known email or name is reported as 0, every other failure as -1; neither changes a table. */
    method RegUserTransaction(name: string, email: string, raises: nat) returns (result: int)
      modifies this
      ensures old(Registers(name, email, raises)) ==>
                && result == old(counter.value) + 1 && counter == Present(result)
                && users == old(users) + [User(result, name, email)]
      ensures !old(Registers(name, email, raises)) ==>
                && users == old(users) && counter == old(counter)
                && (result == 0 || result == -1)
                && (result == 0 <==>
                    raises != 1 && (HasEmail(users, email) || (raises != 2 && HasName(users, name))))
    {
      var work := counter;
      if raises == 1 { return -1; }
      if HasEmail(users, email) { return 0; }
      if raises == 2 { return -1; }
      if HasName(users, name) { return 0; }
      if raises == 3 { return -1; }
      if work.Present? {
        work := Present(work.value + 1);
      }
      if raises == 4 || work.Absent? { return -1; }
      var newId := work.value;
      if raises == 5 || HasUid(users, newId) || HasEmail(users, email) || raises == 6 { return -1; }
      users, counter := users + [User(newId, name, email)], work;
      return newId;
    }
  }
}
