/** MysqlDao::AddFriend and MysqlDao::CreatePrivateChat (Common/src/mysql_dao.cc) with their retry
    loops, statement by statement, on one connection at a time. A fault script says which statement
    of which attempt raises which error. */
module FriendDao {
  import opened ChatDb

  /** At most one statement of an attempt raises: the exception ends the attempt. */
  datatype Fault = NoFault | RaisedAt(statement: nat, code: int)

  predicate Hits(f: Fault, n: nat) { f.RaisedAt? && f.statement == n }

  predicate HitsWithin(f: Fault, lo: nat, hi: nat) { f.RaisedAt? && lo <= f.statement <= hi }

  datatype Outcome = Committed | Refused | Raised(code: int)

  /** The arguments of one AddFriend call. */
  datatype Request = Request(from: Uid, to: Uid, bakname: string, desc: string)

  // ----- AddFriend: statements 1 UPDATE, 2 SELECT, 3-4 INSERT IGNORE friend, 5 INSERT chat_thread,
  // 6 LAST_INSERT_ID, 7 INSERT private_chat, 8-9 applicant's message and its id, 10-11 accepting
  // side's message and its id, 12 COMMIT

  function Descs(db: Db, r: Request): string {
    if (r.to, r.from) in db.apply then db.apply[(r.to, r.from)].descs else ""
  }

  /** How an attempt on db ends: it raises where the fault hits a statement that is reached, it is
      refused when no application waits, it meets a duplicate key when the pair already chats. */
  ghost function AttemptOutcome(db: Db, r: Request, f: Fault): Outcome {
    if Hits(f, 1) then Raised(f.code)
    else if !Waiting(db, r.from, r.to) then Refused
    else if HitsWithin(f, 2, 7) then Raised(f.code)
    else if PairTaken(db, Normal(r.from, r.to)) then Raised(DUP_ENTRY)
    else if (HitsWithin(f, 8, 9) && Descs(db, r) != "") || (HitsWithin(f, 10, 11) && r.desc != "") || Hits(f, 12)
    then Raised(f.code)
    else Committed
  }

  /** What an attempt that reaches its messages appends to chat_datas before its fault, if any. */
  function Pushed(r: Request, descs: string, thread: nat, msg: nat, f: Fault): seq<Report> {
    PushedFirst(r, descs, thread, msg, f) + PushedSecond(r, descs, thread, msg, f)
  }

  function PushedFirst(r: Request, descs: string, thread: nat, msg: nat, f: Fault): seq<Report> {
    if descs == "" || HitsWithin(f, 8, 9) then [] else [Report(r.to, msg, descs, thread)]
  }

  function PushedSecond(r: Request, descs: string, thread: nat, msg: nat, f: Fault): seq<Report> {
    if r.desc == "" || HitsWithin(f, 10, 11) || (HitsWithin(f, 8, 9) && descs != "") then []
    else [Report(r.from, SecondId(descs, msg), r.desc, thread)]
  }

  ghost predicate ReachesMessages(db: Db, r: Request, f: Fault) {
    Waiting(db, r.from, r.to) && !HitsWithin(f, 1, 7) && !PairTaken(db, Normal(r.from, r.to))
  }

  /** The reports of a committed attempt: its messages, in id order. */
  function CommittedReports(db: Db, r: Request, thread: nat, msg: nat): seq<Report> {
    Pushed(r, Descs(db, r), thread, msg, NoFault)
  }

  // ----- the working copy of one attempt -----

  datatype Progress = Go(work: Db) | Stop(outcome: Outcome)

  function SecondId(descs: string, first: nat): nat {
    if descs == "" then first else first + 1
  }

  function Befriended(db: Db, r: Request): Db
    requires (r.to, r.from) in db.apply
  {
    var ap := db.apply[(r.to, r.from)];
    Db(InsertIgnore(InsertIgnore(db.friend, (r.from, r.to), r.bakname), (r.to, r.from), ap.bakname),
       db.apply[(r.to, r.from) := Apply(1, ap.descs, ap.bakname)], db.threads, db.priv, db.messages)
  }

  function ChatOpened(db: Db, r: Request, thread: nat): Db {
    Db(db.friend, db.apply, db.threads[thread := PrivateThread], db.priv[thread := Normal(r.from, r.to)], db.messages)
  }

  function Greeted(db: Db, r: Request, descs: string, thread: nat, first: nat): Db {
    Db(db.friend, db.apply, db.threads, db.priv,
       db.messages + Greetings(r.from, r.to, descs, r.desc, thread, first, SecondId(descs, first)))
  }

  lemma GreetedKeepsCounters(db: Db, r: Request, descs: string, thread: nat, first: nat)
    requires CountersAhead(db, thread + 1, first)
    ensures CountersAhead(Greeted(db, r, descs, thread, first), thread + 1,
                          first + (if descs == "" then 0 else 1) + (if r.desc == "" then 0 else 1))
  {
  }

  /** The working copy that reaches the commit. */
  lemma {:induction false} WorkingCopyIsFriendsMade(db: Db, r: Request, thread: nat, first: nat)
    requires Sound(db) && CountersAhead(db, thread, first)
    requires Waiting(db, r.from, r.to) && !PairTaken(db, Normal(r.from, r.to))
    ensures var descs := Descs(db, r);
            var work := Greeted(ChatOpened(Befriended(db, r), r, thread), r, descs, thread, first);
            && work == FriendsMade(db, r.from, r.to, r.bakname, r.desc, thread, first, SecondId(descs, first))
            && Sound(work)
            && CountersAhead(work, thread + 1, first + (if descs == "" then 0 else 1) + (if r.desc == "" then 0 else 1))
  {
    GreetedKeepsCounters(ChatOpened(Befriended(db, r), r, thread), r, Descs(db, r), thread, first);
    FriendsMadeKeepsSound(db, r.from, r.to, r.bakname, r.desc, thread, first, SecondId(Descs(db, r), first));
  }

  function WithMessage(m: map<nat, ChatMsg>, id: nat, msg: ChatMsg): map<nat, ChatMsg> {
    if msg.content == "" then m else m[id := msg]
  }

  lemma GreetedInTwoSteps(m: map<nat, ChatMsg>, r: Request, descs: string, thread: nat, first: nat)
    ensures m + Greetings(r.from, r.to, descs, r.desc, thread, first, SecondId(descs, first))
         == WithMessage(WithMessage(m, first, ChatMsg(thread, r.to, r.from, descs, 0)),
                        SecondId(descs, first), ChatMsg(thread, r.from, r.to, r.desc, 0))
  {
  }

  lemma FriendsMadeKeepsValid(db: Db, from: Uid, to: Uid, bakname: string, desc: string, thread: nat, msg: nat)
    requires Sound(db) && CountersAhead(db, thread, msg) && Waiting(db, from, to) && Normal(from, to) !in db.priv.Values
    ensures var after := FriendsMade(db, from, to, bakname, desc, thread, msg, msg + 1);
            Sound(after) && CountersAhead(after, thread + 1, msg + 2)
  {
    assert !PairTaken(db, Normal(from, to));
    FriendsMadeKeepsSound(db, from, to, bakname, desc, thread, msg, msg + 1);
    FriendsMadeKeepsCounters(db, from, to, bakname, desc, thread, msg);
  }

  lemma FriendsMadeKeepsCounters(db: Db, from: Uid, to: Uid, bakname: string, desc: string, thread: nat, msg: nat)
    requires CountersAhead(db, thread, msg) && Waiting(db, from, to)
    ensures CountersAhead(FriendsMade(db, from, to, bakname, desc, thread, msg, msg + 1), thread + 1, msg + 2)
  {
    GreetingsAre(from, to, db.apply[(to, from)].descs, desc, thread, msg, msg + 1);
  }

  class MysqlDao {
    var db: Db
    var nextThread: nat
    var nextMsg: nat

    ghost predicate Valid()
      reads this
    {
      Sound(db) && CountersAhead(db, nextThread, nextMsg)
    }

    constructor ()
      ensures Valid() && db == NO_ROWS
    {
      db, nextThread, nextMsg := NO_ROWS, 0, 0;
    }

    /** Steps 1 to 3: the optimistic UPDATE, the SELECT and the two friend rows. */
    method Befriend(r: Request, f: Fault, db0: Db) returns (end: Progress)
      ensures end == if Hits(f, 1) then Stop(Raised(f.code))
                     else if !Waiting(db0, r.from, r.to) then Stop(Refused)
                     else if HitsWithin(f, 2, 4) then Stop(Raised(f.code))
                     else Go(Befriended(db0, r))
    {
      var work := db0;
      if Hits(f, 1) {
        return Stop(Raised(f.code));
      }
      var k := (r.to, r.from);
      if k !in work.apply || work.apply[k].status != 0 {
        return Stop(Refused);
      }
      work := work.(apply := work.apply[k := work.apply[k].(status := 1)]);
      if Hits(f, 2) {
        return Stop(Raised(f.code));
      }
      var reverseBack := work.apply[k].bakname;
      if Hits(f, 3) {
        return Stop(Raised(f.code));
      }
      work := work.(friend := InsertIgnore(work.friend, (r.from, r.to), r.bakname));
      if Hits(f, 4) {
        return Stop(Raised(f.code));
      }
      work := work.(friend := InsertIgnore(work.friend, (r.to, r.from), reverseBack));
      return Go(work);
    }

    /** Steps 4 and 5: the thread and the normalised private_chat row. */
    method OpenChat(r: Request, f: Fault, db0: Db) returns (end: Progress, threadId: nat)
      modifies this`nextThread
      ensures old(nextThread) <= nextThread && threadId == old(nextThread)
      ensures end.Go? ==> nextThread == threadId + 1
      ensures end == if HitsWithin(f, 5, 7) then Stop(Raised(f.code))
                     else if PairTaken(db0, Normal(r.from, r.to)) then Stop(Raised(DUP_ENTRY))
                     else Go(ChatOpened(db0, r, threadId))
    {
      threadId := nextThread;
      if Hits(f, 5) {
        return Stop(Raised(f.code)), threadId;
      }
      nextThread := nextThread + 1;
      var work := db0.(threads := db0.threads[threadId := PrivateThread]);
      if Hits(f, 6) || Hits(f, 7) {
        return Stop(Raised(f.code)), threadId;
      }
      if Normal(r.from, r.to) in work.priv.Values {
        return Stop(Raised(DUP_ENTRY)), threadId;
      }
      work := work.(priv := work.priv[threadId := Normal(r.from, r.to)]);
      return Go(work), threadId;
    }

    /** The lambda insertMessage, its INSERT being statement `at` and LAST_INSERT_ID the next one. */
    method InsertMessage(sender: Uid, receiver: Uid, content: string, threadId: nat, f: Fault, at: nat,
                         messages: map<nat, ChatMsg>, chatDatas: seq<Report>)
      returns (raised: bool, messages': map<nat, ChatMsg>, chatDatas': seq<Report>)
      modifies this`nextMsg
      ensures raised <==> content != "" && HitsWithin(f, at, at + 1)
      ensures raised ==> chatDatas' == chatDatas && old(nextMsg) <= nextMsg
      ensures !raised ==>
                && messages' == WithMessage(messages, old(nextMsg), ChatMsg(threadId, sender, receiver, content, 0))
                && chatDatas' == chatDatas + (if content == "" then [] else [Report(sender, old(nextMsg), content, threadId)])
                && nextMsg == SecondId(content, old(nextMsg))
    {
      raised, messages', chatDatas' := false, messages, chatDatas;
      if content == "" {
        return;
      }
      if Hits(f, at) {
        raised := true;
        return;
      }
      var messageId := nextMsg;
      nextMsg := nextMsg + 1;
      messages' := messages[messageId := ChatMsg(threadId, sender, receiver, content, 0)];
      if Hits(f, at + 1) {
        raised := true;
        return;
      }
      chatDatas' := chatDatas + [Report(sender, messageId, content, threadId)];
    }

    /** Step 6: the non-empty messages; each is reported once its id is known. */
    method Greet(r: Request, descs: string, threadId: nat, f: Fault, db0: Db, chatDatas: seq<Report>)
      returns (end: Progress, chatDatas': seq<Report>)
      modifies this`nextMsg
      ensures old(nextMsg) <= nextMsg
      ensures end.Go? ==> nextMsg == old(nextMsg) + (if descs == "" then 0 else 1) + (if r.desc == "" then 0 else 1)
      ensures chatDatas' == chatDatas + Pushed(r, descs, threadId, old(nextMsg), f)
      ensures end == if (HitsWithin(f, 8, 9) && descs != "") || (HitsWithin(f, 10, 11) && r.desc != "")
                     then Stop(Raised(f.code))
                     else Go(Greeted(db0, r, descs, threadId, old(nextMsg)))
    {
      ghost var first, second := PushedFirst(r, descs, threadId, nextMsg, f), PushedSecond(r, descs, threadId, nextMsg, f);
      assert chatDatas + (first + second) == chatDatas + first + second;
      var raised, messages;
      raised, messages, chatDatas' := InsertMessage(r.to, r.from, descs, threadId, f, 8, db0.messages, chatDatas);
      assert chatDatas' == chatDatas + first;
      if raised {
        return Stop(Raised(f.code)), chatDatas';
      }
      raised, messages, chatDatas' := InsertMessage(r.from, r.to, r.desc, threadId, f, 10, messages, chatDatas');
      if raised {
        return Stop(Raised(f.code)), chatDatas';
      }
      GreetedInTwoSteps(db0.messages, r, descs, threadId, old(nextMsg));
      return Go(Db(db0.friend, db0.apply, db0.threads, db0.priv, messages)), chatDatas';
    }

    /** One pass through the try block: the tables change only by the commit. */
    method AddFriendAttempt(r: Request, f: Fault, chatDatas: seq<Report>)
      returns (outcome: Outcome, chatDatas': seq<Report>)
      requires Valid()
      modifies this`db, this`nextThread, this`nextMsg
      ensures Valid() && old(nextThread) <= nextThread && old(nextMsg) <= nextMsg
      ensures outcome == AttemptOutcome(old(db), r, f)
      ensures outcome == Committed ==> Befriends(old(db), db, r, old(nextThread), old(nextMsg))
      ensures outcome != Committed ==> db == old(db)
      ensures chatDatas' == chatDatas + PushedBy(old(db), r, f, old(nextThread), old(nextMsg))
    {
      chatDatas' := chatDatas;
      var end := Befriend(r, f, db);
      if end.Stop? {
        return end.outcome, chatDatas';
      }
      assert end.work.priv == db.priv;
      var threadId: nat;
      end, threadId := OpenChat(r, f, end.work);
      if end.Stop? {
        return end.outcome, chatDatas';
      }
      var firstId := nextMsg;
      var descs := end.work.apply[(r.to, r.from)].descs;
      end, chatDatas' := Greet(r, descs, threadId, f, end.work, chatDatas');
      if end.Stop? {
        return end.outcome, chatDatas';
      }
      if Hits(f, 12) {
        return Raised(f.code), chatDatas';
      }
      WorkingCopyIsFriendsMade(db, r, threadId, firstId);
      db := end.work;
      return Committed, chatDatas';
    }

    /** The next attempt, with what it adds to chat_datas: its messages if it commits, and otherwise the
        reports that it made before it was rolled back. `seen` are the tables that the attempts before it
        found, `seen'` those with the ones that it finds. */
    method AddFriendTry(r: Request, f: Fault, chatDatas: seq<Report>, ghost faults: seq<Fault>, ghost conns: seq<bool>,
                        ghost seen: seq<Db>, ghost entry: seq<Report>, ghost stale: seq<Report>)
      returns (outcome: Outcome, chatDatas': seq<Report>,
               ghost seen': seq<Db>, ghost stale': seq<Report>, ghost thread: nat, ghost first: nat)
      requires Valid() && |seen| < |faults| == |conns| == MAX_RETRY && f == faults[|seen|] && conns[|seen|]
      requires Trying(seen, r, faults, conns, entry, chatDatas, stale)
      modifies this`db, this`nextThread, this`nextMsg
      ensures Valid() && seen' == seen + [old(db)] && (outcome != Committed ==> db == old(db))
      ensures outcome == Committed ==> Succeeded(seen', db, r, faults, conns, entry, chatDatas', stale', thread, first)
      ensures outcome == Raised(LOCK_TIMEOUT) ==> Trying(seen', r, faults, conns, entry, chatDatas', stale')
      ensures outcome !in {Committed, Raised(LOCK_TIMEOUT)} ==> Failed(seen', r, faults, conns, entry, chatDatas', stale')
    {
      thread, first, seen' := nextThread, nextMsg, seen + [db];
      OneMoreSeen(seen, db, r, faults, conns);
      stale' := ReportsAfterTry(seen, db, r, faults, entry, stale, thread, first);
      outcome, chatDatas' := AddFriendAttempt(r, f, chatDatas);
    }

    /** Another client sends an application, or sends it again. */
    method OtherApplies(k: Pair, descs: string, bakname: string)
      requires Valid()
      modifies this`db
      ensures Valid()
    {
      ApplyRowKeepsSound(db, k, descs, bakname);
      db := ApplyRow(db, k, descs, bakname);
    }

    /** Another client's CreatePrivateChat. */
    method OtherChats(p: Pair)
      requires Valid() && p.0 <= p.1
      modifies this`db, this`nextThread
      ensures Valid()
    {
      if p !in db.priv.Values {
        ChatMadeKeepsSound(db, nextThread, p);
        db, nextThread := ChatMade(db, nextThread, p), nextThread + 1;
      }
    }

    /** Another client's AddFriend. */
    method OtherAccepts(from: Uid, to: Uid, bakname: string, desc: string)
      requires Valid()
      modifies this`db, this`nextThread, this`nextMsg
      ensures Valid()
    {
      if Waiting(db, from, to) && Normal(from, to) !in db.priv.Values {
        FriendsMadeKeepsValid(db, from, to, bakname, desc, nextThread, nextMsg);
        db := FriendsMade(db, from, to, bakname, desc, nextThread, nextMsg, nextMsg + 1);
        nextThread, nextMsg := nextThread + 1, nextMsg + 2;
      }
    }

    /** What other clients do between two attempts. */
    method OthersCommit()
      requires Valid()
      modifies this`db, this`nextThread, this`nextMsg
      ensures Valid()
    {
      var rounds: nat := *;
      while rounds > 0
        invariant Valid()
      {
        var a: Uid, b: Uid, text: string, bakname: string, kind: int := *, *, *, *, *;
        if kind == 0 {
          OtherApplies((a, b), text, bakname);
        } else if kind == 1 {
          OtherChats(Normal(a, b));
        } else {
          OtherAccepts(a, b, bakname, text);
        }
        rounds := rounds - 1;
      }
    }

    /** AddFriend: all or nothing across its at most MAX_RETRY attempts. `conns[i]` says whether the pool
        hands out a connection for attempt i, `seen[i]` are the tables that attempt i finds, for others
        commit in between. */
    method AddFriend(r: Request, faults: seq<Fault>, conns: seq<bool>, chatDatas: seq<Report>)
      returns (success: bool, chatDatas': seq<Report>,
               ghost seen: seq<Db>, ghost stale: seq<Report>, ghost thread: nat, ghost first: nat)
      requires Valid() && |faults| == |conns| == MAX_RETRY
      modifies this`db, this`nextThread, this`nextMsg
      ensures Valid() && |seen| <= MAX_RETRY && (seen != [] ==> seen[0] == old(db))
      ensures success ==> Succeeded(seen, db, r, faults, conns, chatDatas, chatDatas', stale, thread, first)
      ensures !success ==> Failed(seen, r, faults, conns, chatDatas, chatDatas', stale)
      ensures !success ==> db == if seen == [] then old(db) else seen[|seen| - 1]
    {
      chatDatas', success, seen, stale, thread, first := chatDatas, false, [], [], 0, 0;
      var retryCount := 0;
      while retryCount < MAX_RETRY && !success
        invariant Valid() && !success && |seen| == retryCount <= MAX_RETRY
        invariant if seen == [] then db == old(db) else seen[0] == old(db) && db == seen[|seen| - 1]
        invariant Trying(seen, r, faults, conns, chatDatas, chatDatas', stale)
        decreases MAX_RETRY - retryCount
      {
        if !conns[retryCount] {
          return;
        }
        if retryCount > 0 {
          OthersCommit();
        }
        var outcome;
        outcome, chatDatas', seen, stale, thread, first :=
          AddFriendTry(r, faults[retryCount], chatDatas', faults, conns, seen, chatDatas, stale);
        if outcome == Committed {
          success := true;
          return;
        } else if outcome != Raised(LOCK_TIMEOUT) {
          return;
        }
        retryCount := retryCount + 1;
      }
    }
  }

  /** Every attempt so far ran into a lock time-out; the reports that they made before, `stale`, stay. */
  ghost predicate Trying(seen: seq<Db>, r: Request, faults: seq<Fault>, conns: seq<bool>,
                         entry: seq<Report>, chatDatas: seq<Report>, stale: seq<Report>) {
    && TimedOut(seen, r, faults, conns, |seen|) && chatDatas == entry + stale
    && (stale == [] <==> NothingPushed(seen, r, faults, |seen|))
  }

  /** The last attempt has committed on the tables that it found; the reports are exact if and only if
      ReportsExact. */
  ghost predicate Succeeded(seen: seq<Db>, after: Db, r: Request, faults: seq<Fault>, conns: seq<bool>,
                            entry: seq<Report>, chatDatas: seq<Report>, stale: seq<Report>, thread: nat, first: nat) {
    var k := |seen| - 1;
    && SucceedsAt(seen, r, faults, conns, k) && Befriends(seen[k], after, r, thread, first)
    && var committed := CommittedReports(seen[k], r, thread, first);
       && chatDatas == entry + stale + committed && (stale == [] <==> NothingPushed(seen, r, faults, k))
       && (chatDatas == committed <==> ReportsExact(seen, r, entry, faults, k))
  }

  /** No attempt has committed and none is left to make; stale reports stay then too. */
  ghost predicate Failed(seen: seq<Db>, r: Request, faults: seq<Fault>, conns: seq<bool>,
                         entry: seq<Report>, chatDatas: seq<Report>, stale: seq<Report>) {
    && GivesUp(seen, r, faults, conns) && chatDatas == entry + stale
    && (stale == [] <==> NothingPushed(seen, r, faults, |seen|))
  }

  lemma OnlySuffix(entry: seq<Report>, stale: seq<Report>, committed: seq<Report>)
    ensures entry + stale + committed == committed <==> entry == [] && stale == []
  {
    assert |entry + stale + committed| == |entry| + |stale| + |committed|;
  }

  /** The tables before and after one committed attempt with fresh ids. */
  ghost predicate Befriends(before: Db, after: Db, r: Request, thread: nat, first: nat) {
    && Waiting(before, r.from, r.to) && !PairTaken(before, Normal(r.from, r.to))
    && thread !in before.threads && first !in before.messages
    && after == FriendsMade(before, r.from, r.to, r.bakname, r.desc, thread, first, SecondId(Descs(before, r), first))
  }

  /** The first n attempts got a connection and ran into a lock time-out. */
  ghost predicate TimedOut(seen: seq<Db>, r: Request, faults: seq<Fault>, conns: seq<bool>, n: nat) {
    n <= |seen| && n <= |faults| && n <= |conns|
    && forall i :: 0 <= i < n ==> conns[i] && AttemptOutcome(seen[i], r, faults[i]) == Raised(LOCK_TIMEOUT)
  }

  /** Attempt k is the one that commits: all before it ran into a lock time-out. */
  ghost predicate SucceedsAt(seen: seq<Db>, r: Request, faults: seq<Fault>, conns: seq<bool>, k: int) {
    && 0 <= k < MAX_RETRY && k < |seen| && k < |faults| && k < |conns|
    && TimedOut(seen, r, faults, conns, k) && conns[k] && AttemptOutcome(seen[k], r, faults[k]) == Committed
  }

  /** All attempts ran into a lock time-out, the next one gets no connection, or the last one was refused
      or raised another error. */
  ghost predicate GivesUp(seen: seq<Db>, r: Request, faults: seq<Fault>, conns: seq<bool>) {
    var n := |seen|;
    || (TimedOut(seen, r, faults, conns, n) && (n == MAX_RETRY || (n < |conns| && !conns[n])))
    || (0 < n <= |faults| && TimedOut(seen, r, faults, conns, n - 1)
        && AttemptOutcome(seen[n - 1], r, faults[n - 1]) !in {Committed, Raised(LOCK_TIMEOUT)})
  }

  lemma OneMoreSeen(seen: seq<Db>, db: Db, r: Request, faults: seq<Fault>, conns: seq<bool>)
    requires |seen| < |faults| == |conns| == MAX_RETRY && conns[|seen|] && TimedOut(seen, r, faults, conns, |seen|)
    ensures var all, outcome := seen + [db], AttemptOutcome(db, r, faults[|seen|]);
            && (outcome == Committed ==> SucceedsAt(all, r, faults, conns, |seen|))
            && (outcome == Raised(LOCK_TIMEOUT) ==> TimedOut(all, r, faults, conns, |all|))
            && (outcome !in {Committed, Raised(LOCK_TIMEOUT)} ==> GivesUp(all, r, faults, conns))
  {
    var all := seen + [db];
    assert forall i :: 0 <= i < |seen| ==> all[i] == seen[i];
    assert TimedOut(all, r, faults, conns, |all| - 1);
  }

  /** Giving up and succeeding exclude each other. */
  lemma NoSuccess(seen: seq<Db>, r: Request, faults: seq<Fault>, conns: seq<bool>)
    requires GivesUp(seen, r, faults, conns)
    ensures forall k :: !SucceedsAt(seen, r, faults, conns, k)
  {
    forall k ensures !SucceedsAt(seen, r, faults, conns, k) {
      if 0 <= k < |seen| - 1 {
        assert k < |faults| ==> AttemptOutcome(seen[k], r, faults[k]) == Raised(LOCK_TIMEOUT);
      }
    }
  }

  /** What one attempt appends to chat_datas. */
  ghost function PushedBy(db: Db, r: Request, f: Fault, thread: nat, first: nat): seq<Report> {
    if ReachesMessages(db, r, f) then Pushed(r, Descs(db, r), thread, first, f) else []
  }

  /** An attempt that is rolled back after it has reported a message. */
  ghost predicate PushesBeforeRollback(db: Db, r: Request, f: Fault) {
    PushedBy(db, r, f, 0, 0) != []
  }

  ghost predicate NothingPushed(seen: seq<Db>, r: Request, faults: seq<Fault>, n: int) {
    n <= |seen| && n <= |faults| && forall i :: 0 <= i < n ==> !PushesBeforeRollback(seen[i], r, faults[i])
  }

  /** An AddFriend whose first two attempts end in a lock time-out, whatever statement it is, still commits. */
  lemma ThirdAttemptCommits(seen: seq<Db>, r: Request, first: nat, second: nat)
    requires |seen| == 3 && forall i :: 0 <= i < 3 ==> Waiting(seen[i], r.from, r.to) && !PairTaken(seen[i], Normal(r.from, r.to))
    requires first in {1, 2, 3, 4, 5, 6, 7, 12} && second in {1, 2, 3, 4, 5, 6, 7, 12}
    ensures SucceedsAt(seen, r, [RaisedAt(first, 1205), RaisedAt(second, 1205), NoFault], [true, true, true], 2)
  {
  }

  /** Any other error ends it. */
  lemma OtherErrorEnds(db: Db, r: Request, first: nat, code: int, faults: seq<Fault>, conns: seq<bool>)
    requires Waiting(db, r.from, r.to) && !PairTaken(db, Normal(r.from, r.to)) && first in {1, 2, 3, 4, 5, 6, 7, 12}
    requires code != 1205 && faults != [] && faults[0] == RaisedAt(first, code) && conns != []
    ensures GivesUp([db], r, faults, conns)
  {
  }

  /** So does an attempt that finds no waiting application, or a chat of the two. */
  lemma RefusalEnds(db: Db, r: Request, faults: seq<Fault>, conns: seq<bool>)
    requires !Waiting(db, r.from, r.to) || PairTaken(db, Normal(r.from, r.to))
    requires faults != [] && faults[0] == NoFault && conns != []
    ensures GivesUp([db], r, faults, conns)
  {
  }

  /** A message whose id has not been read is not reported, and neither is what follows it. */
  lemma NoIdNoReport(db: Db, r: Request, code: int, thread: nat, first: nat)
    requires Descs(db, r) != "" && r.desc != ""
    ensures PushedBy(db, r, RaisedAt(9, code), thread, first) == []
    ensures PushedBy(db, r, RaisedAt(11, code), thread, first)
            == if Waiting(db, r.from, r.to) && !PairTaken(db, Normal(r.from, r.to))
               then [Report(r.to, first, Descs(db, r), thread)] else []
  {
  }

  /** The vector was empty on entry and no attempt was rolled back after reporting a message. */
  ghost predicate ReportsExact(seen: seq<Db>, r: Request, entry: seq<Report>, faults: seq<Fault>, k: int) {
    entry == [] && NothingPushed(seen, r, faults, k)
  }

  lemma SamePushed(seen: seq<Db>, db: Db, r: Request, faults: seq<Fault>, n: nat)
    requires n <= |seen|
    ensures NothingPushed(seen + [db], r, faults, n) <==> NothingPushed(seen, r, faults, n)
  {
    assert forall i :: 0 <= i < n ==> (seen + [db])[i] == seen[i];
  }

  lemma PushedOrNot(db: Db, r: Request, f: Fault, thread: nat, first: nat)
    ensures PushedBy(db, r, f, thread, first) == [] <==> !PushesBeforeRollback(db, r, f)
  {
  }

  lemma OnePushMore(seen: seq<Db>, db: Db, r: Request, faults: seq<Fault>, stale: seq<Report>, thread: nat, first: nat)
    requires |seen| < |faults| && (stale == [] <==> NothingPushed(seen, r, faults, |seen|))
    ensures stale + PushedBy(db, r, faults[|seen|], thread, first) == []
            <==> NothingPushed(seen + [db], r, faults, |seen| + 1)
  {
    var n, all := |seen|, seen + [db];
    SamePushed(seen, db, r, faults, n);
    PushedOrNot(db, r, faults[n], thread, first);
    assert NothingPushed(all, r, faults, n + 1) <==> NothingPushed(all, r, faults, n) && !PushesBeforeRollback(all[n], r, faults[n]);
  }

  lemma CommitPushesAll(db: Db, r: Request, f: Fault, thread: nat, first: nat)
    requires AttemptOutcome(db, r, f) == Committed
    ensures PushedBy(db, r, f, thread, first) == CommittedReports(db, r, thread, first)
  {
  }

  /** chat_datas after one more attempt, which found db. */
  lemma ReportsAfterTry(seen: seq<Db>, db: Db, r: Request, faults: seq<Fault>, entry: seq<Report>, stale: seq<Report>,
                        thread: nat, first: nat) returns (stale': seq<Report>)
    requires |seen| < |faults| && (stale == [] <==> NothingPushed(seen, r, faults, |seen|))
    ensures var n, all, now := |seen|, seen + [db], entry + stale + PushedBy(db, r, faults[|seen|], thread, first);
            var committed := CommittedReports(db, r, thread, first);
            if AttemptOutcome(db, r, faults[n]) == Committed
            then stale' == stale && now == entry + stale + committed
                 && (now == committed <==> ReportsExact(all, r, entry, faults, n)) && (stale == [] <==> NothingPushed(all, r, faults, n))
            else now == entry + stale' && (stale' == [] <==> NothingPushed(all, r, faults, n + 1))
  {
    var f, pushed := faults[|seen|], PushedBy(db, r, faults[|seen|], thread, first);
    stale' := stale;
    if AttemptOutcome(db, r, f) == Committed {
      CommitPushesAll(db, r, f, thread, first);
      SamePushed(seen, db, r, faults, |seen|);
      OnlySuffix(entry, stale, CommittedReports(db, r, thread, first));
    } else {
      stale' := stale + pushed;
      assert (entry + stale) + pushed == entry + stale';
      OnePushMore(seen, db, r, faults, stale, thread, first);
    }
  }

  // ----- what the reports and the outcome mean -----

  /** The reports of the committed attempt are exactly the inserted rows, in id order. */
  lemma ReportsAreTheRows(db: Db, r: Request, thread: nat, first: nat)
    requires Waiting(db, r.from, r.to) && forall m :: m in db.messages ==> m < first
    ensures var after := FriendsMade(db, r.from, r.to, r.bakname, r.desc, thread, first, SecondId(Descs(db, r), first));
            var reports := CommittedReports(db, r, thread, first);
            && (forall i :: 0 <= i < |reports| ==>
                  && reports[i].msgId in after.messages && reports[i].msgId !in db.messages
                  && after.messages[reports[i].msgId].thread == reports[i].thread == thread
                  && after.messages[reports[i].msgId].sender == reports[i].sender
                  && after.messages[reports[i].msgId].content == reports[i].content != "")
            && (forall i, j :: 0 <= i < j < |reports| ==> reports[i].msgId < reports[j].msgId)
            && (forall m :: m in after.messages && m !in db.messages ==> exists i :: 0 <= i < |reports| && reports[i].msgId == m)
            && (forall m :: m in db.messages ==> after.messages[m] == db.messages[m])
  {
    var reports := CommittedReports(db, r, thread, first);
    GreetedInTwoSteps(db.messages, r, Descs(db, r), thread, first);
    if Descs(db, r) != "" {
      assert reports[0].msgId == first;
    }
    if r.desc != "" {
      assert reports[|reports| - 1].msgId == SecondId(Descs(db, r), first);
    }
  }

  const STALE_SCRIPT: seq<Fault> := [RaisedAt(12, LOCK_TIMEOUT), NoFault, NoFault]
  const ALL_CONNECTED: seq<bool> := [true, true, true]

  /** The script whose first COMMIT times out: when the first attempt has a message its report stays. */
  lemma StaleScriptPushes(seen: seq<Db>, r: Request)
    requires |seen| == 3 && forall i :: 0 <= i < 2 ==> Waiting(seen[i], r.from, r.to) && !PairTaken(seen[i], Normal(r.from, r.to))
    ensures SucceedsAt(seen, r, STALE_SCRIPT, ALL_CONNECTED, 1)
    ensures Descs(seen[0], r) != "" || r.desc != "" ==> !NothingPushed(seen, r, STALE_SCRIPT, 1)
  {
    assert TimedOut(seen, r, STALE_SCRIPT, ALL_CONNECTED, 1);
    if Descs(seen[0], r) != "" || r.desc != "" {
      assert PushesBeforeRollback(seen[0], r, STALE_SCRIPT[0]);
    }
  }

  /** Because the vector is not cleared between attempts, a lock time-out at the first COMMIT makes a
      successful AddFriend report a message that was rolled back, whenever the applicant wrote one. */
  lemma TimeoutAtCommitLeavesStaleReports(db: Db, r: Request)
    requires Waiting(db, r.from, r.to) && !PairTaken(db, Normal(r.from, r.to)) && Descs(db, r) != ""
    ensures SucceedsAt([db, db, db], r, STALE_SCRIPT, ALL_CONNECTED, 1)
    ensures !NothingPushed([db, db, db], r, STALE_SCRIPT, 1)
  {
    StaleScriptPushes([db, db, db], r);
  }

  /** The applicant's text stays as it is from attempt to attempt. */
  ghost predicate SameText(seen: seq<Db>, r: Request) {
    forall i :: 0 <= i < |seen| ==> Descs(seen[i], r) == Descs(seen[0], r)
  }

  /** While the applicant does not write again: whatever else the others do and whatever fails on the way
      to a success, the reports are exact if and only if the vector is empty on entry and neither side
      has anything to say. */
  lemma ReportsAlwaysExactIff(db: Db, r: Request, entry: seq<Report>)
    requires Waiting(db, r.from, r.to) && !PairTaken(db, Normal(r.from, r.to))
    ensures (forall seen, faults, conns, k :: seen != [] && seen[0] == db && SameText(seen, r) && SucceedsAt(seen, r, faults, conns, k) ==>
              ReportsExact(seen, r, entry, faults, k))
            <==> entry == [] && Descs(db, r) == "" && r.desc == ""
  {
    if entry == [] && Descs(db, r) == "" && r.desc == "" {
      forall seen, faults, conns, k | seen != [] && seen[0] == db && SameText(seen, r) && SucceedsAt(seen, r, faults, conns, k)
        ensures ReportsExact(seen, r, entry, faults, k)
      {
        assert forall i :: 0 <= i < k ==> PushedBy(seen[i], r, faults[i], 0, 0) == [];
      }
    } else {
      var seen := [db, db, db];
      StaleScriptPushes(seen, r);
      assert seen[0] == db && SameText(seen, r) && !ReportsExact(seen, r, entry, STALE_SCRIPT, 1);
    }
  }

  const RESENT_SCRIPT: seq<Fault> := [RaisedAt(1, LOCK_TIMEOUT), RaisedAt(12, LOCK_TIMEOUT), NoFault]

  /** If the applicant may write again between two attempts, no check before the call is enough: with an
      empty vector and nothing to say on either side, the text sent after a first time-out is reported
      by a second attempt that is rolled back. */
  lemma ResentApplicationLeavesStaleReport(db: Db, r: Request, descs: string, bakname: string)
    requires Waiting(db, r.from, r.to) && !PairTaken(db, Normal(r.from, r.to)) && descs != ""
    ensures var later := ApplyRow(db, (r.to, r.from), descs, bakname);
            && SucceedsAt([db, later, later], r, RESENT_SCRIPT, ALL_CONNECTED, 2)
            && !NothingPushed([db, later, later], r, RESENT_SCRIPT, 2)
  {
    var later := ApplyRow(db, (r.to, r.from), descs, bakname);
    var seen := [db, later, later];
    assert later.priv == db.priv && Waiting(later, r.from, r.to) && Descs(later, r) == descs;
    assert !PairTaken(later, Normal(r.from, r.to));
    assert TimedOut(seen, r, RESENT_SCRIPT, ALL_CONNECTED, 2);
    assert PushesBeforeRollback(seen[1], r, RESENT_SCRIPT[1]);
  }

  /** When nothing fails, AddFriend succeeds exactly when its first attempt finds a waiting application and
      no private chat of the two. */
  lemma FaultFreeAddFriendIff(seen: seq<Db>, r: Request)
    requires seen != []
    ensures (exists k :: SucceedsAt(seen, r, [NoFault, NoFault, NoFault], ALL_CONNECTED, k))
            <==> Waiting(seen[0], r.from, r.to) && !PairTaken(seen[0], Normal(r.from, r.to))
  {
    var faults := [NoFault, NoFault, NoFault];
    assert TimedOut(seen, r, faults, ALL_CONNECTED, 0);
    if AttemptOutcome(seen[0], r, NoFault) == Committed {
      assert SucceedsAt(seen, r, faults, ALL_CONNECTED, 0);
    } else {
      forall k ensures !SucceedsAt(seen, r, faults, ALL_CONNECTED, k) {
        assert k > 0 && TimedOut(seen, r, faults, ALL_CONNECTED, k) ==> AttemptOutcome(seen[0], r, faults[0]) == Raised(LOCK_TIMEOUT);
      }
    }
  }

  // ----- CreatePrivateChat: statements 1 SELECT, 2 INSERT chat_thread, 3 LAST_INSERT_ID,
  // 4 INSERT private_chat, 5 COMMIT

  /** How one pass ends. */
  datatype ChatOutcome = Found(thread: nat) | Created(thread: nat) | Retry | GiveUp

  /** What happens to the passes of one call: which statement raises, whether the pool hands out a
      connection, whether another session creates the chat of the pair before the pass, or within it. */
  datatype Script = Script(faults: seq<Fault>, conns: seq<bool>, before: seq<bool>, rivals: seq<bool>) {
    predicate Complete() { |faults| == |conns| == |before| == |rivals| == MAX_RETRY }
  }

  /** The pass ends in an error after which there is another one: 1205 of the statements 1 to 3, 1062 of 4
      and 5, where the pair may have been taken meanwhile. */
  predicate Retries(taken: bool, f: Fault, rival: bool) {
    if Hits(f, 1) then f.code == LOCK_TIMEOUT
    else !taken && (if HitsWithin(f, 2, 3) then f.code == LOCK_TIMEOUT
                    else if Hits(f, 4) then f.code == DUP_ENTRY
                    else rival || (Hits(f, 5) && f.code == DUP_ENTRY))
  }

  /** Which errors those are, by number: where the pair has no chat 1205 of the first three statements and 1062
      of the last two, where it has one 1205 of the SELECT alone; and the loser of a race. */
  lemma RetriesIff(statement: nat, code: int, rival: bool)
    ensures !rival ==> (Retries(false, RaisedAt(statement, code), rival)
                        <==> (1 <= statement <= 3 && code == 1205) || (4 <= statement <= 5 && code == 1062))
    ensures Retries(true, RaisedAt(statement, code), rival) <==> statement == 1 && code == 1205
    ensures Retries(false, NoFault, rival) <==> rival
  {
  }

  /** So a call with two such errors in its first two passes still creates the chat. */
  lemma ThirdPassCreates(script: Script, first: nat, second: nat)
    requires script.Complete() && script.conns == [true, true, true]
    requires script.before == script.rivals == [false, false, false] && 1 <= first <= 5 && 1 <= second <= 5
    requires script.faults == [RaisedAt(first, if first <= 3 then 1205 else 1062),
                               RaisedAt(second, if second <= 3 then 1205 else 1062), NoFault]
    ensures SucceedsIn(false, script, 2)
  {
    assert RetriesIn(false, script, 0) && RetriesIn(false, script, 1);
  }

  /** The other session gets to create the chat within the pass. */
  predicate RivalRuns(taken: bool, f: Fault, rival: bool) { rival && !taken && !HitsWithin(f, 1, 3) }

  /** The pair has a chat after the first k passes, if each of them ended in a retry; `taken`: it had one
      before the call. */
  predicate TakenBy(taken: bool, script: Script, k: nat)
    requires script.Complete() && k <= MAX_RETRY
    decreases k, 0
  {
    if k == 0 then taken
    else TakenAt(taken, script, k - 1) || (script.rivals[k - 1] && !HitsWithin(script.faults[k - 1], 1, 3))
  }

  /** Without the call itself the pair had a chat, or other sessions make one. */
  ghost predicate TakenSometime(taken: bool, script: Script)
    requires script.Complete()
  {
    exists k: nat :: k <= MAX_RETRY && TakenBy(taken, script, k)
  }

  /** The pair has a chat when pass k looks for it. */
  predicate TakenAt(taken: bool, script: Script, k: nat)
    requires script.Complete() && k < MAX_RETRY
    decreases k, 1
  {
    TakenBy(taken, script, k) || script.before[k]
  }

  /** Pass k is made and ends in a retry. */
  predicate RetriesIn(taken: bool, script: Script, k: nat)
    requires script.Complete() && k < MAX_RETRY
  {
    script.conns[k] && Retries(TakenAt(taken, script, k), script.faults[k], script.rivals[k])
  }

  /** All passes before k are made and end in a retry. */
  ghost predicate Reaches(taken: bool, script: Script, k: nat)
    requires script.Complete()
  {
    k <= MAX_RETRY && forall i: nat :: i < k ==> RetriesIn(taken, script, i)
  }

  /** Pass k finds or creates the chat. */
  ghost predicate SucceedsIn(taken: bool, script: Script, k: nat)
    requires script.Complete()
  {
    && k < MAX_RETRY && Reaches(taken, script, k) && script.conns[k] && !Hits(script.faults[k], 1)
    && (TakenAt(taken, script, k) || (!HitsWithin(script.faults[k], 2, 5) && !script.rivals[k]))
  }

  /** Pass k gives its connection back with an open transaction. */
  ghost predicate LeavesOpen(taken: bool, script: Script, k: nat)
    requires script.Complete()
  {
    && k < MAX_RETRY && Reaches(taken, script, k) && script.conns[k]
    && Hits(script.faults[k], 3) && !TakenAt(taken, script, k)
  }

  ghost predicate LeftOpenBy(taken: bool, script: Script, n: nat)
    requires script.Complete()
  {
    exists k: nat :: k < n && LeavesOpen(taken, script, k)
  }

  lemma LeftOpenOnce(taken: bool, script: Script, n: nat)
    requires script.Complete()
    ensures LeftOpenBy(taken, script, n + 1) <==> LeftOpenBy(taken, script, n) || LeavesOpen(taken, script, n)
  {
  }

  /** A retry is no success. */
  lemma RetryIsNoSuccess(taken: bool, script: Script, k: nat)
    requires script.Complete() && k < MAX_RETRY && RetriesIn(taken, script, k)
    ensures !SucceedsIn(taken, script, k)
  {
  }

  /** Nothing follows a pass that does not end in a retry. */
  lemma LastPass(taken: bool, script: Script, n: nat)
    requires script.Complete() && Reaches(taken, script, n) && (n < MAX_RETRY ==> !RetriesIn(taken, script, n))
    ensures forall k: nat :: SucceedsIn(taken, script, k) ==> k == n
    ensures LeftOpenBy(taken, script, MAX_RETRY) <==> LeftOpenBy(taken, script, n + 1)
  {
    forall k: nat | k < n ensures !SucceedsIn(taken, script, k) {
      RetryIsNoSuccess(taken, script, k);
    }
    assert forall k: nat :: n < k ==> !Reaches(taken, script, k);
  }

  /** When nothing fails the call succeeds, whoever else creates the chat and when. */
  lemma FaultFreeCreateSucceeds(taken: bool, script: Script) returns (k: nat)
    requires script.Complete() && forall i :: 0 <= i < MAX_RETRY ==> script.conns[i] && script.faults[i] == NoFault
    ensures SucceedsIn(taken, script, k)
  {
    k := if TakenAt(taken, script, 0) || !script.rivals[0] then 0 else 1;
    assert k == 1 ==> RetriesIn(taken, script, 0) && TakenAt(taken, script, 1);
  }

  /** The tables gain at most a chat of the pair, which had none. */
  ghost predicate Gains(before: Db, after: Db, p: Pair) {
    after == before
    || (!PairTaken(before, p) && exists t :: t !in before.threads && after == ChatMade(before, t, p))
  }

  lemma MadeIsTaken(before: Db, t: nat, p: Pair)
    ensures PairTaken(ChatMade(before, t, p), p)
  {
    assert ChatMade(before, t, p).priv[t] == p;
  }

  lemma GainsOnce(a: Db, b: Db, c: Db, p: Pair)
    requires Gains(a, b, p) && Gains(b, c, p)
    ensures Gains(a, c, p)
  {
    if a != b {
      var t :| t !in a.threads && b == ChatMade(a, t, p);
      MadeIsTaken(a, t, p);
    }
  }

  class ChatDao {
    var db: Db
    var nextThread: nat
    var dirty: bool  // a connection went back to the pool with an open transaction

    ghost predicate Valid()
      reads this
    {
      Sound(db) && forall t :: t in db.threads ==> t < nextThread
    }

    constructor ()
      ensures Valid() && db == NO_ROWS && !dirty
    {
      db, nextThread, dirty := NO_ROWS, 0, false;
    }

    /** Another session's CreatePrivateChat of the same pair, committed in between. */
    method RivalCreates(p: Pair)
      requires Valid() && p.0 <= p.1
      modifies this`db, this`nextThread
      ensures Valid() && old(nextThread) <= nextThread && PairTaken(db, p) && Gains(old(db), db, p)
    {
      if p in db.priv.Values {
        return;
      }
      ChatMadeKeepsSound(db, nextThread, p);
      MadeIsTaken(db, nextThread, p);
      db := ChatMade(db, nextThread, p);
      nextThread := nextThread + 1;
    }

    /** The SELECT for an existing chat of the pair. */
    method FindChat(p: Pair) returns (found: bool, thread: nat)
      ensures found <==> PairTaken(db, p)
      ensures found ==> thread in db.priv && db.priv[thread] == p
    {
      found, thread := p in db.priv.Values, 0;
      if found {
        thread :| thread in db.priv && db.priv[thread] == p;
      }
    }

    /** One pass through the outer try block. `rival` says whether another session creates the chat
        between the two INSERTs, unless an error ends the pass before. The outer catch retries lock
        time-outs, the inner one, of statements 4 and 5, duplicate keys. */
    method Attempt(p: Pair, f: Fault, rival: bool) returns (outcome: ChatOutcome)
      requires Valid() && p.0 <= p.1
      modifies this
      ensures Valid() && old(nextThread) <= nextThread
      ensures outcome.Found? <==> PairTaken(old(db), p) && !Hits(f, 1)
      ensures outcome.Found? ==> outcome.thread in db.priv && db.priv[outcome.thread] == p && db == old(db)
      ensures outcome.Created? <==> !PairTaken(old(db), p) && !HitsWithin(f, 1, 5) && !rival
      ensures outcome.Created? ==> outcome.thread !in old(db.threads) && db == ChatMade(old(db), outcome.thread, p)
      ensures outcome == Retry <==> Retries(PairTaken(old(db), p), f, rival)
      ensures Gains(old(db), db, p)
      ensures PairTaken(db, p) <==> PairTaken(old(db), p) || outcome.Created? || RivalRuns(PairTaken(old(db), p), f, rival)
      ensures dirty <==> old(dirty) || (Hits(f, 3) && !PairTaken(old(db), p))
    {
      if Hits(f, 1) {
        return if f.code == LOCK_TIMEOUT then Retry else GiveUp;
      }
      var found, thread := FindChat(p);
      if found {
        return Found(thread);
      }
      if Hits(f, 2) {
        return if f.code == LOCK_TIMEOUT then Retry else GiveUp;
      }
      var newThreadId := nextThread;
      nextThread := nextThread + 1;
      if Hits(f, 3) {
        dirty := true;  // the outer catch does not roll back
        return if f.code == LOCK_TIMEOUT then Retry else GiveUp;
      }
      if rival {
        RivalCreates(p);
      }
      if Hits(f, 4) {
        return if f.code == DUP_ENTRY then Retry else GiveUp;
      }
      if p in db.priv.Values {
        return Retry;   // 1062: the loser rolls its thread back
      }
      if Hits(f, 5) {
        return if f.code == DUP_ENTRY then Retry else GiveUp;
      }
      ChatMadeKeepsSound(db, newThreadId, p);
      MadeIsTaken(db, newThreadId, p);
      db := ChatMade(db, newThreadId, p);
      return Created(newThreadId);
    }

    /** Pass k of a call that began with the tables `before`. */
    method Pass(p: Pair, script: Script, k: nat, ghost before: Db) returns (outcome: ChatOutcome)
      requires Valid() && p.0 <= p.1 && script.Complete() && k < MAX_RETRY && script.conns[k]
      requires Reaches(PairTaken(before, p), script, k)
      requires Gains(before, db, p) && (PairTaken(db, p) <==> TakenBy(PairTaken(before, p), script, k))
      modifies this
      ensures Valid() && Gains(before, db, p)
      ensures outcome.Found? || outcome.Created? <==> SucceedsIn(PairTaken(before, p), script, k)
      ensures outcome.Found? || outcome.Created? ==> outcome.thread in db.priv && db.priv[outcome.thread] == p
      ensures outcome == Retry <==> RetriesIn(PairTaken(before, p), script, k)
      ensures dirty <==> old(dirty) || LeavesOpen(PairTaken(before, p), script, k)
      ensures PairTaken(db, p) && !outcome.Created? <==> TakenBy(PairTaken(before, p), script, k + 1)
    {
      ghost var db0 := db;
      if script.before[k] {
        RivalCreates(p);
      }
      GainsOnce(before, db0, db, p);
      assert PairTaken(db, p) <==> TakenAt(PairTaken(before, p), script, k);
      ghost var db1 := db;
      outcome := Attempt(p, script.faults[k], script.rivals[k]);
      GainsOnce(before, db1, db, p);
    }

    /** CreatePrivateChat. It succeeds if and only if one of its at most MAX_RETRY passes finds or creates
        the chat and each one before ended in a retry; the thread that is returned is then the pair's one
        chat. Whatever happens, the tables gain at most that chat, and no thread without a chat. */
    method CreatePrivateChat(user1: Uid, user2: Uid, script: Script) returns (success: bool, threadId: nat)
      requires Valid() && script.Complete()
      modifies this
      ensures Valid() && Gains(old(db), db, Normal(user1, user2))
      ensures success <==> exists k: nat :: SucceedsIn(PairTaken(old(db), Normal(user1, user2)), script, k)
      ensures success ==> threadId in db.priv && db.priv[threadId] == Normal(user1, user2)
      ensures PairTaken(db, Normal(user1, user2)) && !success ==>
                TakenSometime(PairTaken(old(db), Normal(user1, user2)), script)
      ensures dirty <==> old(dirty) || LeftOpenBy(PairTaken(old(db), Normal(user1, user2)), script, MAX_RETRY)
    {
      var p := Normal(user1, user2);
      ghost var taken := PairTaken(db, p);
      var retryCount := 0;
      success, threadId := false, 0;
      var last := false;
      while retryCount < MAX_RETRY && !last
        invariant retryCount <= MAX_RETRY && Valid() && Reaches(taken, script, retryCount)
        invariant Gains(old(db), db, p) && (success ==> last && threadId in db.priv && db.priv[threadId] == p)
        invariant last ==> retryCount < MAX_RETRY && !RetriesIn(taken, script, retryCount)
        invariant success <==> last && SucceedsIn(taken, script, retryCount)
        invariant !last ==> (PairTaken(db, p) <==> TakenBy(taken, script, retryCount))
        invariant PairTaken(db, p) && !success ==> TakenSometime(taken, script)
        invariant dirty <==> old(dirty) || LeftOpenBy(taken, script, if last then retryCount + 1 else retryCount)
        decreases MAX_RETRY - retryCount, !last
      {
        LeftOpenOnce(taken, script, retryCount);
        if !script.conns[retryCount] {
          last := true;
        } else {
          var outcome := Pass(p, script, retryCount, old(db));
          match outcome
          case Found(thread) => success, threadId, last := true, thread, true;
          case Created(thread) => success, threadId, last := true, thread, true;
          case GiveUp => last := true;
          case Retry => retryCount := retryCount + 1;
        }
      }
      LastPass(taken, script, retryCount);
    }
  }
}
