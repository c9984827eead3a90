/** AddFriend, CreatePrivateChat and AddFriendApply (Common/src/mysql_dao.cc) interleaved statement by
    statement. A transaction's rows are its own until it commits; a statement that needs a row
    another open transaction has written waits; any statement may raise an error, which rolls the
    transaction back. AUTO_INCREMENT counters are never rolled back. */
module ChatTxn {
  import opened ChatDb
  import opened Wrappers

  type Tid = nat

  datatype Call =
    | AddFriend(from: Uid, to: Uid, bakname: string, desc: string)
    | CreateChat(a: Uid, b: Uid)

  datatype Result = Failed | Succeeded(thread: nat)

  datatype Pc =
    | Update      // AddFriend 1: UPDATE friend_apply ... AND status = 0
    | ReadApply   // AddFriend 2: SELECT bakname, descs
    | Friend1     // AddFriend 3: INSERT IGNORE (from, to)
    | Friend2     //              INSERT IGNORE (to, from)
    | Select      // CreatePrivateChat 1: SELECT thread_id
    | NewThread   // INSERT chat_thread and LAST_INSERT_ID
    | NewChat     // INSERT private_chat
    | Msg1        // AddFriend 6: the applicant's message
    | Msg2        //              the accepting side's message
    | Commit
    | Finished(result: Result)

  /** `w` holds the uncommitted rows; `ap` is what ReadApply returned. */
  datatype Txn = Txn(call: Call, pc: Pc, tries: nat, w: Db, ap: Apply, thread: nat, first: nat, second: nat)

  datatype State = State(db: Db, nextThread: nat, nextMsg: nat, txns: map<Tid, Txn>)

  const NO_APPLY := Apply(0, "", "")

  function FirstPc(c: Call): Pc { if c.AddFriend? then Update else Select }

  function Begin(c: Call, tries: nat): Txn {
    Txn(c, FirstPc(c), tries, NO_ROWS, NO_APPLY, 0, 0, 0)
  }

  function ChatPair(c: Call): Pair {
    match c
    case AddFriend(from, to, _, _) => Normal(from, to)
    case CreateChat(a, b) => Normal(a, b)
  }

  datatype Event =
    | Call(tid: Tid, c: Call)
    | Advance(tid: Tid)             // the next statement takes effect
    | Raise(tid: Tid, code: int)    // it raises an error instead
    | ApplyFriend(uid: Uid, to: Uid, descs: string, bakname: string)  // AddFriendApply, auto-committed

  predicate Active(t: Txn) { !t.pc.Finished? }

  // ----- row locks -----

  ghost predicate ApplyFree(st: State, me: Tid, k: Pair) {
    forall o :: o in st.txns && o != me ==> k !in st.txns[o].w.apply
  }

  ghost predicate FriendFree(st: State, me: Tid, k: Pair) {
    forall o :: o in st.txns && o != me ==> k !in st.txns[o].w.friend
  }

  ghost predicate ChatFree(st: State, me: Tid, p: Pair) {
    forall o :: o in st.txns && o != me ==> p !in st.txns[o].w.priv.Values
  }

  /** The next statement of t need not wait and does not raise a duplicate-key error. */
  ghost predicate CanAdvance(st: State, tid: Tid, t: Txn) {
    match t.pc
    case Update => t.call.AddFriend? ==> ApplyFree(st, tid, (t.call.to, t.call.from))
    case Friend1 =>
      t.call.AddFriend? ==>
        (t.call.from, t.call.to) in st.db.friend || FriendFree(st, tid, (t.call.from, t.call.to))
    case Friend2 =>
      t.call.AddFriend? ==>
        (t.call.to, t.call.from) in st.db.friend || FriendFree(st, tid, (t.call.to, t.call.from))
    case NewChat => !PairTaken(st.db, ChatPair(t.call)) && ChatFree(st, tid, ChatPair(t.call))
    case Finished(_) => false
    case _ => true
  }

  ghost predicate Enabled(st: State, e: Event) {
    match e
    case Call(tid, _) => tid !in st.txns
    case Advance(tid) => tid in st.txns && CanAdvance(st, tid, st.txns[tid])
    case Raise(tid, _) => tid in st.txns && Active(st.txns[tid])
    case ApplyFriend(uid, to, _, _) => forall o :: o in st.txns ==> (uid, to) !in st.txns[o].w.apply
  }

  // ----- statements -----

  function Overlay(db: Db, w: Db): Db {
    Db(db.friend + w.friend, db.apply + w.apply, db.threads + w.threads, db.priv + w.priv, db.messages + w.messages)
  }

  // What the next statement of transaction t writes, one table at a time.

  function ApplyWrites(st: State, t: Txn): map<Pair, Apply> {
    if t.call.AddFriend? && t.pc == Update && Waiting(st.db, t.call.from, t.call.to)
    then map[(t.call.to, t.call.from) := st.db.apply[(t.call.to, t.call.from)].(status := 1)]
    else t.w.apply
  }

  function IgnoreInto(db: Db, w: Db, k: Pair, bakname: string): map<Pair, string> {
    if k in db.friend || k in w.friend then w.friend else w.friend[k := bakname]
  }

  function FriendWrites(st: State, t: Txn): map<Pair, string> {
    if t.call.AddFriend? && t.pc == Friend1 then IgnoreInto(st.db, t.w, (t.call.from, t.call.to), t.call.bakname)
    else if t.call.AddFriend? && t.pc == Friend2 then IgnoreInto(st.db, t.w, (t.call.to, t.call.from), t.ap.bakname)
    else t.w.friend
  }

  function ThreadWrites(st: State, t: Txn): map<nat, ThreadType> {
    if t.pc == NewThread then map[st.nextThread := PrivateThread] else t.w.threads
  }

  function ChatWrites(t: Txn): map<nat, Pair> {
    if t.pc == NewChat then map[t.thread := ChatPair(t.call)] else t.w.priv
  }

  /** The message a statement inserts: the applicant's greeting, then the accepting side's. */
  function NewMessage(t: Txn): ChatMsg
    requires InsertsMessage(t)
  {
    if t.pc == Msg1 then ChatMsg(t.thread, t.call.to, t.call.from, t.ap.descs, 0)
    else ChatMsg(t.thread, t.call.from, t.call.to, t.call.desc, 0)
  }

  function MessageWrites(st: State, t: Txn): map<nat, ChatMsg> {
    if InsertsMessage(t) then t.w.messages[st.nextMsg := NewMessage(t)] else t.w.messages
  }

  /** Where the transaction goes on. */
  ghost function NextPc(st: State, t: Txn): Pc {
    match t.pc
    case Update => if t.call.AddFriend? && Waiting(st.db, t.call.from, t.call.to) then ReadApply else Finished(Failed)
    case ReadApply => if OwnRow(st, t).Present? then Friend1 else Finished(Failed)
    case Friend1 => Friend2
    case Friend2 => NewThread
    case Select =>
      if PairTaken(st.db, ChatPair(t.call))
      then var id :| id in st.db.priv && st.db.priv[id] == ChatPair(t.call); Finished(Succeeded(id))
      else NewThread
    case NewThread => NewChat
    case NewChat => if t.call.AddFriend? then Msg1 else Commit
    case Msg1 => Msg2
    case Msg2 => Commit
    case Commit => Finished(Succeeded(t.thread))
    case Finished(r) => Finished(r)
  }

  /** SELECT bakname, descs: the transaction sees its own update. */
  function OwnRow(st: State, t: Txn): Found<Apply> {
    if t.call.CreateChat? then Absent
    else
      var k := (t.call.to, t.call.from);
      if k in t.w.apply then Present(t.w.apply[k]) else if k in st.db.apply then Present(st.db.apply[k]) else Absent
  }

  /** The transaction after its next statement; when it finishes its rows are no longer its own. */
  ghost function NextTxn(st: State, t: Txn): Txn {
    var pc := NextPc(st, t);
    Txn(t.call, pc, t.tries,
        if pc.Finished? then NO_ROWS
        else Db(FriendWrites(st, t), ApplyWrites(st, t), ThreadWrites(st, t), ChatWrites(t), MessageWrites(st, t)),
        if t.pc == ReadApply && OwnRow(st, t).Present? then OwnRow(st, t).value else t.ap,
        if t.pc == NewThread then st.nextThread else t.thread,
        if t.pc == Msg1 then st.nextMsg else t.first,
        if t.pc == Msg2 then st.nextMsg else t.second)
  }

  predicate InsertsMessage(t: Txn) {
    t.call.AddFriend? && ((t.pc == Msg1 && t.ap.descs != "") || (t.pc == Msg2 && t.call.desc != ""))
  }

  /** Which errors lead to another attempt. CreatePrivateChat catches errors of its last two
      statements in an inner block that retries on a duplicate key only. */
  predicate Retries(t: Txn, code: int) {
    if t.call.AddFriend? || t.pc == Select || t.pc == NewThread then code == LOCK_TIMEOUT else code == DUP_ENTRY
  }

  /** The catch blocks: roll back, then start the next attempt while attempts are left. */
  function AfterError(t: Txn, code: int): Txn {
    if Retries(t, code) && t.tries + 1 < MAX_RETRY then Begin(t.call, t.tries + 1)
    else Txn(t.call, Finished(Failed), t.tries, NO_ROWS, t.ap, t.thread, t.first, t.second)
  }

  ghost function Step(st: State, e: Event): State
    requires Enabled(st, e)
  {
    match e
    case Call(tid, c) => st.(txns := st.txns[tid := Begin(c, 0)])
    case Advance(tid) =>
      var t := st.txns[tid];
      State(if t.pc == Commit then Overlay(st.db, t.w) else st.db,
            if t.pc == NewThread then st.nextThread + 1 else st.nextThread,
            if InsertsMessage(t) then st.nextMsg + 1 else st.nextMsg,
            st.txns[tid := NextTxn(st, t)])
    case Raise(tid, code) => st.(txns := st.txns[tid := AfterError(st.txns[tid], code)])
    case ApplyFriend(uid, to, descs, bakname) => st.(db := ApplyRow(st.db, (uid, to), descs, bakname))
  }

  // ----- runs from any sound database -----

  datatype Run = Start(db: Db, nextThread: nat, nextMsg: nat) | Then(prev: Run, e: Event)

  ghost function At(run: Run): State {
    match run
    case Start(db, nextThread, nextMsg) => State(db, nextThread, nextMsg, map[])
    case Then(prev, e) =>
      var st := At(prev);
      if Enabled(st, e) then Step(st, e) else st
  }

  ghost predicate GoodStart(run: Run) {
    match run
    case Start(db, nextThread, nextMsg) =>
      Sound(db) && CountersAhead(db, nextThread, nextMsg)
    case Then(prev, _) => GoodStart(prev)
  }
}
